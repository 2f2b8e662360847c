/**
 What the runtime asks the CLI to do for a statement: a and b are what it was asked before and after.
 */
module Requests {
  import opened Wrappers
  import opened SqlCli

  // The parameters 1 to n are bound.
  function Binds(h: Handle, n: nat): seq<Request> {
    seq(n, i requires 0 <= i < n => Request.Bind(h, i + 1, true))
  }

  // The columns are assigned in order, and some of them are cut.
  function Gets(h: Handle, cuts: seq<bool>): seq<Request> {
    seq(|cuts|, i requires 0 <= i < |cuts| => Request.Get(h, i + 1, true, cuts[i]))
  }

  // All of them, or up to the first one that can't be.
  ghost predicate WereBound(a: seq<Request>, b: seq<Request>, h: Handle, n: nat, ok: bool) {
    if ok then b == a + Binds(h, n)
    else exists k: nat :: k < n && b == a + Binds(h, k) + [Request.Bind(h, k + 1, false)]
  }

  ghost predicate WereAssigned(a: seq<Request>, b: seq<Request>, h: Handle, n: nat, ok: bool, truncated: bool) {
    exists cuts :: AssignedWith(a, b, h, n, ok, cuts) && (ok ==> (truncated <==> true in cuts))
  }

  ghost predicate AssignedWith(a: seq<Request>, b: seq<Request>, h: Handle, n: nat, ok: bool, cuts: seq<bool>) {
    if ok then |cuts| == n && b == a + Gets(h, cuts)
    else |cuts| < n && b == a + Gets(h, cuts) + [Request.Get(h, |cuts| + 1, false, false)]
  }

  // A text that was prepared on h is executed once, with its parameters. It can fail before: when
  // it's prepared, or a parameter is bound. If it's refused, it was only prepared.
  ghost predicate WasSent(a: seq<Request>, b: seq<Request>, c: Handle, h: Handle, sql: string, n: nat, refused: bool,
                          ok: bool)
  {
    if ok then b == a + Binds(h, n) + [Request.Execute(c, h, sql, true)]
    else
      || (refused && b == a) || b == a + [Request.NotPrepared(h, sql)] || WereBound(a, b, h, n, false)
      || b == a + Binds(h, n) + [Request.Execute(c, h, sql, false)]
  }

  // The same on a new statement, if there is one.
  ghost predicate WasSentOnNew(a: seq<Request>, b: seq<Request>, c: Handle, h: Handle, sql: string, n: nat,
                               refused: bool, ok: bool)
  {
    (!ok && b == a + [Request.NoStatement(c)]) || WasSent(a, b, c, h, sql, n, refused, ok)
  }

  // A text was prepared, or that or its statement failed.
  ghost predicate WasTried(a: seq<Request>, b: seq<Request>, c: Handle, sql: string, ok: bool) {
    if ok then b == a
    else b == a + [Request.NoStatement(c)] || exists h :: b == a + [Request.NotPrepared(h, sql)]
  }

  // Something that the CLI was asked failed.
  ghost predicate SomeFailed(a: seq<Request>, b: seq<Request>) {
    a <= b && exists k :: |a| <= k < |b| && !b[k].Worked()
  }

  // The last request was to execute something, so an SQL-transaction has begun.
  predicate Sent(a: seq<Request>, b: seq<Request>) {
    |a| < |b| && b[|b| - 1].Execute?
  }

  // The name and the holdability of a cursor are set on its new statement, if there is one.
  ghost predicate WasNamed(a: seq<Request>, b: seq<Request>, c: Handle, h: Handle, name: string, hold: bool,
                           ok: bool)
  {
    if ok then b == a + [Request.SetName(h, name, true), Request.SetHold(h, hold, true)]
    else
      || b == a + [Request.NoStatement(c)] || b == a + [Request.SetName(h, name, false)]
      || b == a + [Request.SetName(h, name, true), Request.SetHold(h, hold, false)]
  }

  // OPEN executes the query of the cursor on its statement, which is new if it had none.
  ghost predicate WasOpened(a: seq<Request>, b: seq<Request>, c: Handle, h: Handle, isNew: bool, name: string,
                            hold: bool, sql: string, n: nat, refused: bool, ok: bool)
  {
    if isNew then
      || (!ok && WasNamed(a, b, c, h, name, hold, false))
      || WasSent(a + [Request.SetName(h, name, true), Request.SetHold(h, hold, true)], b, c, h, sql, n, refused, ok)
    else
      WasSent(a, b, c, h, sql, n, refused, ok)
  }

  // The cursor of h is moved to its next row. If there is one, its columns are assigned, unless
  // there is an exception for that many columns.
  ghost predicate RowFetched(a: seq<Request>, b: seq<Request>, h: Handle, columns: nat, exception: SqlState,
                             done: bool, state: SqlState)
  {
    || (!done && b == a + [Request.Fetch(h, false)] && !IsCompletion(state))
    || (!done && b == a + [Request.Fetch(h, true)] && exception != SUCCESSFUL && state == exception)
    || (exception == SUCCESSFUL
        && WereAssigned(a + [Request.Fetch(h, true)], b, h, columns, done, state == RIGHT_TRUNCATION)
        && if done then state == SUCCESSFUL || state == RIGHT_TRUNCATION else !IsCompletion(state))
  }

  // It has only one row. Another one is a cardinality violation.
  ghost predicate OnlyRowFetched(a: seq<Request>, b: seq<Request>, h: Handle, columns: nat, exception: SqlState,
                                 done: bool, state: SqlState)
  {
    if done then
      exception == SUCCESSFUL && exists log, more, cut ::
        && WereAssigned(a + [Request.Fetch(h, true)], log, h, columns, true, cut)
        && SecondFetched(log, b, h, more, cut, state)
    else
      RowFetched(a, b, h, columns, exception, false, state)
  }

  predicate SecondFetched(a: seq<Request>, b: seq<Request>, h: Handle, more: bool, cut: bool, state: SqlState) {
    && b == a + [Request.Fetch(h, more)]
    && if more then state == CARDINALITY_VIOLATION
       else state == (if cut then RIGHT_TRUNCATION else SUCCESSFUL) || !IsCompletion(state)
  }

  // The schema of a module is set, and that's committed if there is no SQL-transaction.
  ghost predicate SchemaWasSet(a: seq<Request>, b: seq<Request>, c: Handle, schema: nat, active: bool, ok: bool) {
    if !ok then b == a + [Request.NoStatement(c)] || b == a + [Request.SetSchema(c, schema, false)]
    else if active then b == a + [Request.SetSchema(c, schema, true)]
    else exists done :: b == a + [Request.SetSchema(c, schema, true), Request.EndTransaction(c, true, done)]
  }

  // An SQL-connection was made, with the schema of a module.
  ghost predicate WasOpenedTo(a: seq<Request>, b: seq<Request>, c: Handle, server: string, user: Option<string>,
                              schema: nat)
  {
    SchemaWasSet(a + [Request.Connect(c, server, user, true)], b, c, schema, false, true)
  }

  // The only requests are those that make and close SQL-connections, and set schemas.
  ghost predicate OnlySession(a: seq<Request>, b: seq<Request>) {
    a <= b && forall k | |a| <= k < |b| ::
      b[k].Connect? || b[k].SetSchema? || b[k].EndTransaction? || b[k].NoConnection? || b[k].NoStatement?
  }

  // The SQL-transaction of c was rolled back (or that was tried).
  ghost predicate RolledBack(a: seq<Request>, b: seq<Request>, c: Handle) {
    a <= b && exists k :: |a| <= k < |b| && b[k].EndTransaction? && b[k].dbc == c && !b[k].commit
  }

  lemma BindsMore(h: Handle, n: nat)
    ensures Binds(h, n + 1) == Binds(h, n) + [Request.Bind(h, n + 1, true)]
  {
  }

  lemma GetsMore(h: Handle, cuts: seq<bool>, cut: bool)
    ensures Gets(h, cuts + [cut]) == Gets(h, cuts) + [Request.Get(h, |cuts| + 1, true, cut)]
    ensures true in cuts + [cut] <==> true in cuts || cut
  {
  }

  lemma BindsNone(h: Handle)
    ensures Binds(h, 0) == [] && Gets(h, []) == []
  {
  }

  lemma SessionTwice(a: seq<Request>, b: seq<Request>, c: seq<Request>)
    requires OnlySession(a, b) && OnlySession(b, c)
    ensures OnlySession(a, c)
  {
  }

  lemma FailedLater(a: seq<Request>, b: seq<Request>, c: seq<Request>)
    requires OnlySession(a, b) && OnlySession(b, c)
    ensures SomeFailed(a, b) || SomeFailed(b, c) ==> SomeFailed(a, c)
  {
    if SomeFailed(a, b) {
      var k :| |a| <= k < |b| && !b[k].Worked();
      assert c[k] == b[k];
    }
  }

  lemma RolledBackLater(a: seq<Request>, b: seq<Request>, c: seq<Request>, d: Handle)
    requires OnlySession(a, b) && OnlySession(b, c)
    ensures RolledBack(a, b, d) || RolledBack(b, c, d) ==> RolledBack(a, c, d)
  {
    if RolledBack(a, b, d) {
      var k :| |a| <= k < |b| && b[k].EndTransaction? && b[k].dbc == d && !b[k].commit;
      assert c[k] == b[k];
    }
  }

  lemma SchemaIsSession(a: seq<Request>, b: seq<Request>, c: Handle, schema: nat, active: bool, ok: bool)
    requires SchemaWasSet(a, b, c, schema, active, ok)
    ensures OnlySession(a, b) && (!ok ==> SomeFailed(a, b))
  {
    assert !ok ==> !b[|a|].Worked();
  }

  lemma BoundAll(a: seq<Request>, b: seq<Request>, h: Handle, n: nat)
    ensures WereBound(a, b, h, n, true) <==> b == a + Binds(h, n)
  {
  }

  lemma NotNamed(a: seq<Request>, c: Handle, h: Handle, name: string, hold: bool)
    ensures WasNamed(a, a + [Request.NoStatement(c)], c, h, name, hold, false)
  {
  }

  lemma NotSent(a: seq<Request>, c: Handle, h: Handle, sql: string, n: nat, refused: bool)
    ensures WasSent(a, a + [Request.NotPrepared(h, sql)], c, h, sql, n, refused, false)
    ensures WasSentOnNew(a, a + [Request.NoStatement(c)], c, h, sql, n, refused, false)
    ensures !Sent(a, a + [Request.NotPrepared(h, sql)]) && !Sent(a, a + [Request.NoStatement(c)])
  {
  }
}
