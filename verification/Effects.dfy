/**
 What a statement that isn't a connection statement does, once its module's schema is the default
 schema of the current SQL-connection.
 */
module Effects {
  import opened Wrappers
  import opened SqlCli
  import opened Requests
  import opened Ownership
  import opened States
  import Scanner

  // An <input using clause>. What is found in a descriptor is an input: the status of the
  // exception, if there is one.
  datatype Input = NoInput | Params(n: nat) | FromDescriptor(status: SqlState) {
    predicate Valid() {
      FromDescriptor? ==> status in {SUCCESSFUL, INVALID_DESCRIPTOR_NAME, INVALID_COUNT, INPUT_MISMATCH}
    }

    // The exception for a statement that has that many dynamic parameters.
    function Status(parameters: nat): SqlState {
      match this
      case NoInput => if parameters > 0 then INPUT_REQUIRED else SUCCESSFUL
      case Params(n) => if n != parameters then INPUT_MISMATCH else SUCCESSFUL
      case FromDescriptor(status) => status
    }
  }

  // An <output using clause>.
  datatype Output = NoOutput | Targets(n: nat) | IntoDescriptor(status: SqlState) {
    predicate Valid() {
      IntoDescriptor? ==> status in {SUCCESSFUL, INVALID_DESCRIPTOR_NAME, INVALID_COUNT, OUTPUT_MISMATCH}
    }

    // The exception for a row that has that many columns.
    function Status(columns: nat): SqlState {
      match this
      case NoOutput => OUTPUT_MISMATCH
      case Targets(n) => if n != columns then OUTPUT_MISMATCH else SUCCESSFUL
      case IntoDescriptor(status) => status
    }

    // The exception for a prepared statement, before it's executed.
    ghost function PreparedStatus(sql: Text, columns: nat): SqlState {
      if columns == 0 then (if NoOutput? then SUCCESSFUL else Status(0))
      else if !Scanner.CanBeSingle(Scanner.Tokens(sql, 0)) then NOT_EXECUTABLE
      else if NoOutput? then OUTPUT_REQUIRED
      else SUCCESSFUL
    }
  }

  // The number of dynamic parameters of a statement.
  ghost function ParametersOf(sql: Text): nat {
    Scanner.Parameters(Scanner.Tokens(sql, 0))
  }

  // The exception of EXECUTE before the statement is executed.
  ghost function ExecuteStatus(p: Option<Prepared>, statements: map<Handle, Statement>, input: Input,
                               out: Output): SqlState
  {
    if p.None? then INVALID_STATEMENT_NAME
    else
      var columns := if p.value.stmt in statements then statements[p.value.stmt].columns else 0;
      var status := out.PreparedStatus(p.value.sql, columns);
      if status != SUCCESSFUL then status else input.Status(ParametersOf(p.value.sql))
  }

  // How far EXECUTE gets: there is an exception before, its values can't be bound, or the
  // statement is executed, which works or doesn't.
  datatype Reached = Refused | Unbound | Ran(ok: bool)

  // What EXECUTE does, and its status.
  ghost predicate WasExecuted(p: Option<Prepared>, before: map<Handle, Statement>, after: map<Handle, Statement>,
                              input: Input, out: Output, reached: Reached, done: bool, state: SqlState)
  {
    var status := ExecuteStatus(p, before, input, out);
    && (reached.Refused? <==> status != SUCCESSFUL)
    && (reached.Refused? ==> !done && state == status && after == before)
    && (reached.Unbound? ==>
          ParametersOf(p.value.sql) > 0 && !done && state != SUCCESSFUL && state != INVALID_CURSOR_STATE
            && after == before)
    && (reached.Ran? ==> WasRun(p.value.stmt, before, after, reached.ok, done, state))
  }

  // A cursor that's open refuses it. Otherwise the cursor of a query is left open if the query
  // works but its columns weren't described when it was prepared.
  ghost predicate WasRun(h: Handle, before: map<Handle, Statement>, after: map<Handle, Statement>,
                         ok: bool, done: bool, state: SqlState)
  {
    && h in before && h in after
    && (IsOpen(before, h) ==> !ok && state == INVALID_CURSOR_STATE && after == before)
    && (ok ==> !before[h].phase.Allocated?)
    && (!ok ==> !done && !IsCompletion(state))
    && (done ==> before[h].columns > 0)
    && (before[h].query && !IsOpen(before, h) ==> (IsOpen(after, h) <==> ok && before[h].columns == 0))
    && OthersStay(before, after, h)
  }

  // The input doesn't match the parameters.
  ghost predicate Excepted(input: Input, sql: Text, state: SqlState) {
    var exception := input.Status(ParametersOf(sql));
    exception != SUCCESSFUL && state == exception
  }

  lemma ExceptedIff(input: Input, sql: Text, state: SqlState)
    ensures Excepted(input, sql, state) <==>
      input.Status(ParametersOf(sql)) != SUCCESSFUL && state == input.Status(ParametersOf(sql))
  {
  }

  // The exception of OPEN for a dynamic cursor before its query is prepared.
  function OpenStatus(p: Option<Prepared>, statements: map<Handle, Statement>): SqlState {
    if p.None? then INVALID_STATEMENT_NAME
    else if p.value.stmt in statements && statements[p.value.stmt].columns > 0 then SUCCESSFUL
    else NOT_CURSOR
  }

  // The module's schema becomes the default schema, which can end an SQL-transaction that the
  // runtime doesn't know of, and so close cursors. The default SQL-connection is made first if
  // there is none.
  ghost predicate Switched(before: State, during: State, m: Module) {
    && during.current.Some? && during.current.value in during.conns
    && during.conns[during.current.value].m == Some(m)
    && OthersStay(before.statements, during.statements, 0)
    && if before.current.Some? then
         var c := before.current.value;
         && during.current == before.current && c in before.conns
         && during.conns == before.conns[c := before.conns[c].(m := Some(m))]
         && if before.conns[c].m == Some(m) then
              during.statements == before.statements && during.log == before.log
            else
              SchemaWasSet(before.log, during.log, c, m.id, before.conns[c].active, true)
       else
         && before.conns == map[]
         && WasOpenedTo(before.log, during.log, during.current.value, "DEFAULT", None, m.id)
         && during.conns == map[during.current.value := Blank("DEFAULT").(isDefault := true, m := Some(m))]
  }

  // It couldn't be set, so nothing is executed.
  ghost predicate NotSwitched(before: State, after: State, state: SqlState) {
    && after.conns == before.conns && after.current == before.current
    && OthersStay(before.statements, after.statements, 0)
    && OnlySession(before.log, after.log) && IsOtherException(state)
    && ((before.current.None? && state == NO_CONNECTION && after.log == before.log)
        || SomeFailed(before.log, after.log))
  }

  function StatementOf(s: State, m: Module, i: nat): Handle {
    SlotOf(s.conns, s.current, m, i)
  }

  function CurrentOf(s: State): Connection {
    if s.current.Some? && s.current.value in s.conns then s.conns[s.current.value] else Blank("")
  }

  ghost predicate Unchanged(s: State, t: State) {
    t.current == s.current && t.conns == s.conns && t.statements == s.statements && t.log == s.log
  }

  // Nothing but an SQL-transaction may have begun.
  ghost predicate OnlyBegan(s: State, t: State) {
    s.current.Some? && t.current == s.current && Began(s.conns, t.conns, s.current.value)
  }

  // The current SQL-connection, and what it is if something was executed on it.
  ghost predicate BeganIf(s: State, t: State, sent: bool) {
    && s.current.Some? && s.current.value in s.conns && t.current == s.current
    && t.conns == if sent then WithActive(s.conns, s.current.value, true) else s.conns
  }

  // A statement that isn't for a cursor was executed, once, on a statement that is freed again. The
  // status is an exception if it wasn't.
  ghost predicate RanOnce(s: State, t: State, sql: Text, n: nat, refused: bool, state: SqlState) {
    && BeganIf(s, t, Sent(s.log, t.log)) && OthersStay(s.statements, t.statements, 0)
    && exists h :: WasSentOnNew(s.log, t.log, s.current.value, h, sql, n, refused, IsCompletion(state))
  }

  // SELECT of a single row.
  ghost predicate WasSelected(s: State, t: State, sql: Text, parameters: nat, n: nat, done: bool, state: SqlState) {
    && s.current.Some? && OthersStay(s.statements, t.statements, 0)
    && exists h, log, ok ::
         && WasSentOnNew(s.log, log, s.current.value, h, sql, parameters, false, ok)
         && BeganIf(s, t, Sent(s.log, log))
         && RowSelected(log, t.log, h, n, ok, done, state)
  }

  // Its row is only looked at if the query was executed and has that many columns.
  ghost predicate RowSelected(a: seq<Request>, b: seq<Request>, h: Handle, n: nat, ok: bool, done: bool,
                              state: SqlState)
  {
    if !ok then b == a && !done && !IsCompletion(state)
    else (b == a && !done && state == OUTPUT_MISMATCH) || OnlyRowFetched(a, b, h, n, SUCCESSFUL, done, state)
  }

  // START TRANSACTION.
  ghost predicate Started(s: State, t: State, state: SqlState) {
    && s.current.Some? && s.current.value in s.conns && t.current == s.current && t.statements == s.statements
    && t.conns == (if IsCompletion(state) then WithActive(s.conns, s.current.value, true) else s.conns)
    && t.log == s.log + [Request.StartTransaction(s.current.value, IsCompletion(state))]
  }

  ghost predicate Ended(s: State, t: State, commit: bool, state: SqlState) {
    && s.current.Some? && s.current.value in s.conns && t.current == s.current
    && t.conns == WithActive(s.conns, s.current.value, false) && OthersStay(s.statements, t.statements, 0)
    && t.log == s.log + [Request.EndTransaction(s.current.value, commit, IsCompletion(state))]
  }

  ghost predicate UsedDescriptor(s: State, t: State) {
    && s.current.Some? && s.current.value in s.conns && t.current == s.current
    && t.conns == WithActive(s.conns, s.current.value, true) && t.statements == s.statements && t.log == s.log
  }

  // No other cursor has another statement, and no other statement is used.
  ghost predicate OnlyCursor(s: State, t: State, m: Module, i: nat) {
    && s.current.Some? && t.current == s.current
    && Keeps(s.conns, t.conns, s.current.value) && OtherSlotsStay(s.conns, t.conns, s.current.value, m, i)
    && OthersStay(s.statements, t.statements, StatementOf(t, m, i))
  }

  // The columns of the query of a cursor.
  function ColumnsOf(s: State, m: Module, i: nat): nat {
    if StatementOf(s, m, i) in s.statements then s.statements[StatementOf(s, m, i)].columns else 0
  }

  // FETCH. There can be an exception for the number of columns.
  ghost predicate Fetched(s: State, t: State, m: Module, i: nat, exception: SqlState, done: bool, state: SqlState) {
    && OnlyCursor(s, t, m, i) && OnlyStatement(s.statements, t.statements, StatementOf(t, m, i))
    && state != SEQUENCE_ERROR
    && (state == INVALID_CURSOR_STATE <==> !IsOpen(s.statements, StatementOf(s, m, i)))
    && StatementOf(t, m, i) == StatementOf(s, m, i)
    && (IsOpen(t.statements, StatementOf(t, m, i)) <==> IsOpen(s.statements, StatementOf(s, m, i)))
    && var h := StatementOf(s, m, i);
      if IsOpen(s.statements, h) then RowFetched(s.log, t.log, h, ColumnsOf(s, m, i), exception, done, state)
      else !done && t.log == if h == 0 then s.log else s.log + [Request.Fetch(h, false)]
  }

  // CLOSE.
  ghost predicate CursorClosed(s: State, t: State, m: Module, i: nat, state: SqlState) {
    && OnlyCursor(s, t, m, i) && OnlyStatement(s.statements, t.statements, StatementOf(t, m, i))
    && state == (if IsOpen(s.statements, StatementOf(s, m, i)) then SUCCESSFUL else INVALID_CURSOR_STATE)
    && StatementOf(t, m, i) == StatementOf(s, m, i) && !IsOpen(t.statements, StatementOf(t, m, i))
    && t.log == s.log
  }

  // OPEN. An open cursor isn't opened again, and one that can't be opened has no statement. There
  // can be an exception for its input.
  ghost predicate CursorOpened(s: State, t: State, m: Module, i: nat, name: string, hold: bool, sql: Text, n: nat,
                               exception: SqlState, state: SqlState)
  {
    if IsOpen(s.statements, StatementOf(s, m, i)) then state == INVALID_CURSOR_STATE && Unchanged(s, t)
    else
      && OnlyCursor(s, t, m, i) && state != INVALID_CURSOR_STATE
      && (if IsCompletion(state) then IsOpen(t.statements, StatementOf(t, m, i)) else StatementOf(t, m, i) == 0)
      && (IsCompletion(state) ==> CurrentOf(t).active)
      && exists h :: OpenedBy(s, t, m, i, h, name, hold, sql, n, exception, state)
  }

  ghost predicate OpenedBy(s: State, t: State, m: Module, i: nat, h: Handle, name: string, hold: bool, sql: Text,
                           n: nat, exception: SqlState, state: SqlState)
  {
    && s.current.Some? && (IsCompletion(state) ==> h == StatementOf(t, m, i))
    && WasOpened(s.log, t.log, s.current.value, h, StatementOf(s, m, i) == 0, name, hold, sql, n,
                 exception != SUCCESSFUL && state == exception, IsCompletion(state))
  }

  ghost predicate DynamicOpened(s: State, t: State, m: Module, i: nat, name: string, hold: bool, statement: string,
                                input: Input, state: SqlState)
  {
    var p := Lookup(CurrentOf(s), m, statement);
    var status := OpenStatus(p, s.statements);
    if status != SUCCESSFUL then
      state == status && Unchanged(s, t)
    else
      var n := ParametersOf(p.value.sql);
      && CursorOpened(s, t, m, i, name, hold, p.value.sql, n, input.Status(n), state)
      && (IsCompletion(state) ==> input.Status(n) == SUCCESSFUL)
  }

  // No other prepared statement and no cursor has another statement, and no cursor is opened.
  ghost predicate OnlyPrepares(s: State, t: State, m: Module, name: string) {
    && s.current.Some? && t.current == s.current && OnlyPrepared(s.conns, t.conns, s.current.value, m, name)
    && KeepsSession(s.conns, t.conns, s.current.value) && SlotsStay(s.conns, t.conns)
    && NoneOpened(s.statements, t.statements)
  }

  // PREPARE.
  ghost predicate WasPrepared(s: State, t: State, m: Module, name: string, sql: Text, state: SqlState) {
    && OnlyPrepares(s, t, m, name)
    && (Refuses(CurrentOf(s), m, name, s.statements) ==> Unchanged(s, t))
    && (!Refuses(CurrentOf(s), m, name, s.statements) ==>
          s.current.Some? && WasTried(s.log, t.log, s.current.value, sql, IsCompletion(state)))
    && OthersStay(s.statements, t.statements, HandleOf(Lookup(CurrentOf(t), m, name)))
    && Replaced(CurrentOf(s), CurrentOf(t), m, name, sql, s.statements, t.statements, state)
    && (IsCompletion(state) ==>
          CurrentOf(t).active && IsPrepared(CurrentOf(t), m, name, sql) && HasText(t, m, name, sql))
  }

  // The statement of the name was prepared from the text.
  ghost predicate HasText(t: State, m: Module, name: string, sql: Text) {
    var h := HandleOf(Lookup(CurrentOf(t), m, name));
    && t.current.Some? && h in t.statements && t.statements[h].phase.Prepared?
    && t.statements[h].text == sql && t.statements[h].dbc == t.current.value
  }

  // DEALLOCATE PREPARE.
  ghost predicate WasDropped(s: State, t: State, m: Module, name: string, state: SqlState) {
    && OnlyPrepares(s, t, m, name)
    && (state != SUCCESSFUL ==> UsedDescriptor(s, t)) && OthersStay(s.statements, t.statements, 0)
    && t.log == s.log
    && Dropped(CurrentOf(s), CurrentOf(t), m, name, s.statements, t.statements, state)
  }

  // EXECUTE.
  ghost predicate WasExecutedFor(s: State, t: State, m: Module, name: string, input: Input, out: Output,
                           reached: Reached, done: bool, state: SqlState)
  {
    && OnlyBegan(s, t) && (reached.Ran? ==> CurrentOf(t).active)
    && WasExecuted(Lookup(CurrentOf(s), m, name), s.statements, t.statements, input, out, reached, done, state)
    && WasExecutedBy(s.log, t.log, s.current.value, Lookup(CurrentOf(s), m, name), s.statements, t.statements, out,
                     reached, done, state)
  }

  // What the CLI is asked to do for it.
  ghost predicate WasExecutedBy(a: seq<Request>, b: seq<Request>, c: Id, p: Option<Prepared>,
                                before: map<Handle, Statement>, after: map<Handle, Statement>, out: Output,
                                reached: Reached, done: bool, state: SqlState)
  {
    if reached.Refused? then b == a
    else
      && p.Some?
      && var h, n := p.value.stmt, ParametersOf(p.value.sql);
        if reached.Unbound? then WereBound(a, b, h, n, false)
        else
          && h in before && (reached.ok ==> before[h].text == p.value.sql)
          && WasRunBy(a + Binds(h, n), b, c, h, before, after, out, reached.ok, done, state)
  }

  // The text that was prepared is executed. If it's a query whose columns were described, its row is
  // assigned.
  ghost predicate WasRunBy(a: seq<Request>, b: seq<Request>, c: Id, h: Handle, before: map<Handle, Statement>,
                           after: map<Handle, Statement>, out: Output, ok: bool, done: bool, state: SqlState)
  {
    && h in before && h in after
    && var log := a + [Request.Execute(c, h, before[h].text, ok)];
      if !ok || before[h].columns == 0 then b == log && !done && (IsCompletion(state) <==> ok)
      else OnlyRowFetched(log, b, h, after[h].columns, out.Status(after[h].columns), done, state)
  }

  // EXECUTE IMMEDIATE. Nothing is executed if there's a dynamic parameter, or if it's a query with
  // columns.
  ghost predicate ExecutedImmediately(s: State, t: State, sql: Text, state: SqlState) {
    if ParametersOf(sql) > 0 then state == SYNTAX_ERROR && Unchanged(s, t)
    else RanOnce(s, t, sql, 0, s.isQuery(sql) && state == SYNTAX_ERROR, state)
  }

  // DESCRIBE.
  ghost predicate WasDescribed(s: State, t: State, m: Module, name: string, status: SqlState, state: SqlState) {
    if Lookup(CurrentOf(s), m, name).None? then state == INVALID_STATEMENT_NAME && Unchanged(s, t)
    else state == status && UsedDescriptor(s, t)
  }
}
