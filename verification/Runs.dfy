/**
 Runs of the runtime: any statements, from any modules of the program, in any order. What the
 CLI answers is arbitrary too.
 */
module Runs {
  import opened Wrappers
  import opened SqlCli
  import opened Requests
  import opened Diagnostics
  import opened Ownership
  import opened States
  import opened Effects
  import opened Runtime
  import Scanner

  datatype Call =
    | Execute(sql: Text, parameters: nat)
    | StartTransaction
    | EndTransaction(commit: bool)
    | Select(sql: Text, parameters: nat, n: nat)
    | OpenCursor(i: nat, name: string, hold: bool, sql: Text, parameters: nat)
    | OpenDynamic(i: nat, name: string, hold: bool, statement: string, input: Input)
    | Fetch(i: nat, n: nat)
    | FetchDynamic(i: nat, out: Output)
    | CloseCursor(i: nat)
    | Prepare(name: string, sql: Text)
    | Deallocate(name: string)
    | ExecutePrepared(name: string, input: Input, out: Output)
    | ExecuteImmediate(sql: Text)
    | UseArea(status: SqlState)
    | Describe(name: string, status: SqlState)
    | ConnectTo(server: Option<Text>, connection: Option<Text>, user: Option<Text>)
    | SetConnection(connection: Option<Text>)
    | Disconnect(target: Target)
  {
    // What the generated procedures of a module make sure of.
    ghost predicate Of(m: Module, isQuery: string -> bool) {
      match this
      case Select(sql, _, _) => isQuery(sql)
      case OpenCursor(i, _, _, sql, _) => i < |m.cursors| && isQuery(sql)
      case OpenDynamic(i, _, _, _, input) => i < |m.cursors| && input.Valid()
      case Fetch(i, _) => i < |m.cursors|
      case FetchDynamic(i, out) => i < |m.cursors| && out.Valid()
      case CloseCursor(i) => i < |m.cursors|
      case ExecutePrepared(_, input, out) => input.Valid() && out.Valid()
      case Disconnect(target) => target.Named? ==> '\0' !in target.name
      case _ => true
    }

    predicate IsConnectionStatement() {
      ConnectTo? || SetConnection? || Disconnect?
    }

    predicate IsForCursor() {
      OpenCursor? || OpenDynamic? || UsesOpenCursor()
    }

    predicate UsesOpenCursor() {
      Fetch? || FetchDynamic? || CloseCursor?
    }
  }

  // The state between two statements.
  datatype Moment = Moment(state: State, connected: bool, sqlstate: SqlState, conditions: seq<Condition>)

  // What is true of every state.
  ghost predicate Rules(s: State) {
    && OwnersUnique(s)
    && (s.current.Some? ==> s.current.value in s.conns && s.current.value in s.dbcs)
    && forall c | c in s.conns :: ConnectionRules(s, c)
  }

  ghost predicate ConnectionRules(s: State, c: Id)
    requires c in s.conns
  {
    && (s.conns[c].active ==> s.current == Some(c))
    && (!s.conns[c].isDefault ==> s.conns[c].name != "")
    && (s.conns[c].m.Some? ==> c in s.schemas && s.schemas[c] == s.conns[c].m.value.id)
    && (forall d | d in s.conns && d != c :: KeyOf(s.conns[d]) != KeyOf(s.conns[c]))
    && DistinctNames(s.conns[c].prepared)
    && (forall m, i | m in s.conns[c].cursors
      && 0 <= i < |s.conns[c].cursors[m]| :: CursorRules(s, c, s.conns[c].cursors[m][i]))
  }

  // A cursor has no statement, or one whose query was executed.
  ghost predicate CursorRules(s: State, c: Id, h: Handle) {
    h != 0 ==> h in s.statements && s.statements[h].dbc == c && s.statements[h].QueryExecuted()
  }

  // The statements that are allocated are those of the cursors and prepared statements, and no
  // two of these have the same one.
  ghost predicate OwnersUnique(s: State) {
    && (forall h | h in s.statements :: exists o :: At(s.conns, o, h))
    && (forall o, h | At(s.conns, o, h) :: h in s.statements)
    && (forall o, o', h | At(s.conns, o, h) && At(s.conns, o', h) :: o == o')
  }

  lemma RulesHold(s: State)
    requires Good(s, {}, {}, {})
    ensures Rules(s)
  {
    forall h | h in s.statements ensures exists o :: At(s.conns, o, h) {
      assert At(s.conns, s.owner[h], h);
    }
    forall c | c in s.conns ensures ConnectionRules(s, c) {
      SessionRules(s, c, c);
      forall m, i | m in s.conns[c].cursors && 0 <= i < |s.conns[c].cursors[m]|
        ensures CursorRules(s, c, s.conns[c].cursors[m][i])
      {
        if i < |m.cursors| && s.conns[c].cursors[m][i] != 0 {
          SlotAt(s, c, m, i, {}, {}, {});
        }
      }
    }
  }

  // What the statement does, once the schema of its module is the default schema.
  ghost predicate Effect(s: State, m: Module, call: Call, t: State, state: SqlState) {
    match call
    case Execute(sql, parameters) => RanOnce(s, t, sql, parameters, false, state)
    case StartTransaction => Started(s, t, state)
    case Select(sql, parameters, n) => exists done :: WasSelected(s, t, sql, parameters, n, done, state)
    case EndTransaction(commit) => Ended(s, t, commit, state)
    case OpenCursor(i, name, hold, sql, parameters) =>
      CursorOpened(s, t, m, i, name, hold, sql, parameters, SUCCESSFUL, state)
    case OpenDynamic(i, name, hold, statement, input) => DynamicOpened(s, t, m, i, name, hold, statement, input, state)
    case Fetch(i, n) => exists done :: Fetched(s, t, m, i, Targets(n).Status(ColumnsOf(s, m, i)), done, state)
    case FetchDynamic(i, out) => exists done :: Fetched(s, t, m, i, out.Status(ColumnsOf(s, m, i)), done, state)
    case CloseCursor(i) => CursorClosed(s, t, m, i, state)
    case Prepare(name, sql) => WasPrepared(s, t, m, name, sql, state)
    case Deallocate(name) => WasDropped(s, t, m, name, state)
    case ExecutePrepared(name, input, out) =>
      exists reached, done :: WasExecutedFor(s, t, m, name, input, out, reached, done, state)
    case ExecuteImmediate(sql) => ExecutedImmediately(s, t, sql, state)
    case UseArea(status) => UsedDescriptor(s, t) && state == status
    case Describe(name, status) => WasDescribed(s, t, m, name, status, state)
    case _ => true
  }

  // The current SQL-connection is c, and its default schema is of the module.
  ghost predicate UsedOn(s: State, m: Module, c: Id) {
    s.current == Some(c) && c in s.conns && s.conns[c].m == Some(m)
  }

  // A statement that isn't a connection statement has its effect, or can't have the schema of its
  // module and isn't executed.
  ghost predicate HasEffect(before: State, m: Module, call: Call, after: State, state: SqlState) {
    if after.current.Some? && UsedOn(after, m, after.current.value)
    then exists during :: Switched(before, during, m) && Effect(during, m, call, after, state)
    else NotSwitched(before, after, state)
  }

  // A connection statement changes no SQL-connection that stays, and a new one has no cursors.
  ghost predicate Reconnected(s: State, t: State) {
    && (forall c | c in t.conns ::
          if c in s.conns then t.conns[c] == s.conns[c] else t.conns[c].cursors == map[] && t.conns[c].prepared == [])
    && OthersStay(s.statements, t.statements, 0) && OnlySession(s.log, t.log)
    // One that is closed is rolled back.
    && forall c | c in s.conns && c !in t.conns :: RolledBack(s.log, t.log, c)
  }

  // What a connection statement does.
  ghost predicate ConnectionEffect(s: State, m: Module, call: Call, t: State, state: SqlState) {
    match call
    case ConnectTo(server, name, user) =>
      && WasConnected(s, NewKey(server, name), t, state)
      && (var refusal := ConnectRefusal(s.conns, s.current, server, name, user);
          if refusal != SUCCESSFUL then state == refusal && t.log == s.log
          else state == SUCCESSFUL || (IsOtherException(state) && SomeFailed(s.log, t.log)))
      && (state == SUCCESSFUL ==>
            WasOpenedTo(s.log, t.log, t.current.value, if server.None? then "DEFAULT" else server.value,
                        if server.None? then None else user, m.id))
    case SetConnection(name) => WasSet(s, FindKey(name), t, state) && state == SetStatus(s.conns, s.current, name)
    case Disconnect(target) =>
      WasDisconnected(s, target, t, state) && state == DisconnectStatus(s.conns, s.current, target)
    case _ => true
  }

  ghost predicate WasConnected(s: State, key: Key, t: State, state: SqlState) {
    && (s.current.Some? && s.current.value in s.conns && s.conns[s.current.value].active ==>
          state == MULTIPLE_TRANSACTIONS)
    && if state == SUCCESSFUL then
         && (forall c | c in s.conns :: KeyOf(s.conns[c]) != key)
         && t.current.Some? && t.current.value !in s.conns && t.current.value in t.conns
         && KeyOf(t.conns[t.current.value]) == key && t.conns - {t.current.value} == s.conns
       else
         t.conns == s.conns && t.current == s.current
  }

  ghost predicate WasSet(s: State, key: Key, t: State, state: SqlState) {
    && t.conns == s.conns && t.statements == s.statements && t.log == s.log
    && (state == SUCCESSFUL <==>
          && !(s.current.Some? && s.current.value in s.conns && s.conns[s.current.value].active)
          && exists c :: c in s.conns && KeyOf(s.conns[c]) == key)
    && if state == SUCCESSFUL then
         t.current.Some? && t.current.value in t.conns && KeyOf(t.conns[t.current.value]) == key
       else
         t.current == s.current
  }

  ghost predicate WasDisconnected(s: State, target: Target, t: State, state: SqlState) {
    if state != SUCCESSFUL then t.conns == s.conns && t.current == s.current
    else if target.All? then t.conns == map[] && t.current == None
    else exists c ::
      && target.Is(c, s.conns, s.current) && !s.conns[c].active && t.conns == s.conns - {c}
      && t.current == if s.current == Some(c) then None else s.current
  }

  ghost predicate Next(before: Moment, m: Module, call: Call, after: Moment) {
    var s, t := before.state, after.state;
    && (if call.IsConnectionStatement() then ConnectionEffect(s, m, call, t, after.sqlstate) && Reconnected(s, t)
        else HasEffect(s, m, call, t, after.sqlstate))
    // A prepared statement isn't destroyed or replaced while a cursor that's declared for it is open.
    && PreparedKept(s.conns, t.conns, t.statements)
    // The default SQL-connection is only made implicitly before any connection statement.
    && (call.IsConnectionStatement() ==> after.connected)
    && (before.connected && !call.IsConnectionStatement() ==> after.connected && t.conns.Keys == s.conns.Keys)
    && (!after.connected ==> forall c | c in t.conns :: t.current == Some(c) && t.conns[c].isDefault)
    // A cursor that isn't open is never a sequence error.
    && (call.UsesOpenCursor() ==> after.sqlstate != SEQUENCE_ERROR)
    // The status is the first condition.
    && after.sqlstate == (if after.conditions == [] then SUCCESSFUL else after.conditions[0].sqlstate)
    && (after.sqlstate == SUCCESSFUL ==> after.conditions == [])
  }

  ghost function Now(agent: Agent): Moment
    reads agent, agent.da, agent.cli
  {
    Moment(agent.Seen(), agent.connected, agent.da.sqlstate, agent.da.conditions)
  }

  method CursorStatement(agent: Agent, m: Module, call: Call)
    requires agent.Valid() && call.Of(m, agent.cli.isQuery) && call.IsForCursor()
    modifies agent, agent.da, agent.cli
    ensures agent.Valid() && agent.connected == old(agent.connected) && agent.da.Consistent()
    ensures PreparedKept(old(agent.conns), agent.conns, agent.cli.statements)
    ensures agent.connected ==> agent.conns.Keys == old(agent.conns).Keys
    ensures call.UsesOpenCursor() ==> agent.da.sqlstate != SEQUENCE_ERROR
    ensures HasEffect(old(agent.Seen()), m, call, agent.Seen(), agent.da.sqlstate)
  {
    hide Good, FreedOnce, Switched, CursorOpened, DynamicOpened, Fetched, CursorClosed, PreparedKept, NotSwitched;
    ghost var before, during, done := agent.conns, agent.Seen(), false;
    match call {
      case OpenCursor(i, name, hold, sql, parameters) => during := agent.OpenCursor(m, i, name, hold, sql, parameters);
      case OpenDynamic(i, name, hold, statement, input) =>
        during := agent.OpenDynamic(m, i, name, hold, statement, input);
      case Fetch(i, n) => done, during := agent.Fetch(m, i, n);
      case FetchDynamic(i, out) => done, during := agent.FetchDynamic(m, i, out);
      case CloseCursor(i) => during := agent.CloseCursor(m, i);
    }
    SamePreparedKept(before, agent.conns, agent.cli.statements);
    assert agent.UsedBy(m) ==> Effect(during, m, call, agent.Seen(), agent.da.sqlstate);
  }

  method Statement(agent: Agent, m: Module, call: Call)
    requires agent.Valid() && call.Of(m, agent.cli.isQuery) && !call.IsConnectionStatement()
    modifies agent, agent.da, agent.cli
    ensures agent.Valid() && agent.connected == old(agent.connected) && agent.da.Consistent()
    ensures PreparedKept(old(agent.conns), agent.conns, agent.cli.statements)
    ensures agent.connected ==> agent.conns.Keys == old(agent.conns).Keys
    ensures call.UsesOpenCursor() ==> agent.da.sqlstate != SEQUENCE_ERROR
    ensures HasEffect(old(agent.Seen()), m, call, agent.Seen(), agent.da.sqlstate)
  {
    hide Good, FreedOnce, Switched, OnlyBegan, Ended, WasPrepared, WasDropped, WasExecutedFor, ExecutedImmediately,
      UsedDescriptor, WasDescribed, PreparedKept, RanOnce, WasSelected, Started, NotSwitched;
    if call.IsForCursor() {
      CursorStatement(agent, m, call);
      return;
    }
    ghost var before, during, done, reached := agent.conns, agent.Seen(), false, Refused;
    match call {
      case Execute(sql, parameters) => during := agent.Execute(m, sql, parameters);
      case StartTransaction => during := agent.Start(m);
      case EndTransaction(commit) => during := agent.End(m, commit);
      case Select(sql, parameters, n) => done, during := agent.Select(m, sql, parameters, n);
      case Prepare(name, sql) => during := agent.Prepare(m, name, sql);
      case Deallocate(name) => during := agent.DeallocatePrepare(m, name);
      case ExecutePrepared(name, input, out) => done, during, reached := agent.ExecutePrepared(m, name, input, out);
      case ExecuteImmediate(sql) => during := agent.ExecuteImmediate(m, sql);
      case UseArea(status) => during := agent.UseArea(m, status);
      case Describe(name, status) => during := agent.Describe(m, name, status);
    }
    if !call.Prepare? && !call.Deallocate? {
      SamePreparedKept(before, agent.conns, agent.cli.statements);
    }
    assert agent.UsedBy(m) ==> Effect(during, m, call, agent.Seen(), agent.da.sqlstate);
  }

  lemma OthersKept(before: map<Id, Connection>, after: map<Id, Connection>, statements: map<Handle, Statement>)
    requires forall c | c in before && c in after :: after[c].prepared == before[c].prepared
    ensures PreparedKept(before, after, statements)
  {
  }

  method ConnectionStatement(agent: Agent, m: Module, call: Call)
    requires agent.Valid() && call.Of(m, agent.cli.isQuery) && call.IsConnectionStatement()
    modifies agent, agent.da, agent.cli
    ensures agent.Valid() && agent.connected && agent.da.Consistent()
    ensures Reconnected(old(agent.Seen()), agent.Seen())
    ensures ConnectionEffect(old(agent.Seen()), m, call, agent.Seen(), agent.da.sqlstate)
    ensures PreparedKept(old(agent.conns), agent.conns, agent.cli.statements)
  {
    hide Good, FreedOnce, OthersStay;
    ghost var before := agent.conns;
    StaySame(agent.cli.statements, 0);
    match call {
      case ConnectTo(server, connection, user) =>
        agent.ConnectTo(m, server, connection, user);
      case SetConnection(connection) => agent.SetConnection(connection);
      case Disconnect(target) => agent.Disconnect(target);
    }
    OthersKept(before, agent.conns, agent.cli.statements);
  }

  // A procedure of the module is called.
  method Step(agent: Agent, m: Module, call: Call)
    requires agent.Valid() && call.Of(m, agent.cli.isQuery)
    modifies agent, agent.da, agent.cli
    ensures agent.Valid() && Next(old(Now(agent)), m, call, Now(agent))
  {
    hide Good, FreedOnce, HasEffect, ConnectionEffect, Reconnected, PreparedKept;
    agent.da.Begin();
    if call.IsConnectionStatement() {
      ConnectionStatement(agent, m, call);
    } else {
      Statement(agent, m, call);
    }
  }

  // The first EXECUTE of a query without an output works only if its columns aren't known, and then
  // leaves its cursor open.
  lemma LeftOpen(s: State, t: State, m: Module, name: string, reached: Reached, done: bool)
    requires var p := Lookup(CurrentOf(s), m, name);
      && p.Some? && p.value.stmt != 0 && p.value.stmt in s.statements
      && (!s.statements[p.value.stmt].phase.Allocated? ==> s.statements[p.value.stmt].query)
    requires WasExecutedFor(s, t, m, name, NoInput, NoOutput, reached, done, SUCCESSFUL)
    ensures t.current == s.current
    ensures var h := Lookup(CurrentOf(s), m, name).value.stmt; s.statements[h].columns == 0 && IsOpen(t.statements, h)
  {
    hide Scanner.CanBeSingle, Scanner.Tokens, Scanner.Parameters, Lookup, CurrentOf;
  }

  // The next one is refused.
  lemma ThenRefused(s: State, t: State, m: Module, name: string, n: nat, reached: Reached, done: bool, state: SqlState)
    requires var p := Lookup(CurrentOf(s), m, name);
      && p.Some? && IsOpen(s.statements, p.value.stmt)
      && ParametersOf(p.value.sql) == 0 && Scanner.CanBeSingle(Scanner.Tokens(p.value.sql, 0))
    requires WasExecutedFor(s, t, m, name, NoInput, Targets(n), reached, done, state)
    ensures state == INVALID_CURSOR_STATE && t.statements == s.statements
  {
    hide Scanner.CanBeSingle, Scanner.Tokens, Scanner.Parameters, Lookup, CurrentOf, OnlyBegan;
  }

  method ExecuteOnce(agent: Agent, m: Module) returns (state: SqlState, ghost reached: Reached, ghost done: bool)
    requires agent.Valid() && agent.UsedBy(m) && Lookup(CurrentOf(agent.Seen()), m, "Q").Some?
    requires agent.cli.isQuery(Lookup(CurrentOf(agent.Seen()), m, "Q").value.sql)
    modifies agent, agent.da, agent.cli
    ensures agent.Valid()
    ensures WasExecutedFor(old(agent.Seen()), agent.Seen(), m, "Q", NoInput, NoOutput, reached, done, state)
    ensures state == SUCCESSFUL ==>
      var p, q := old(Lookup(CurrentOf(agent.Seen()), m, "Q")), Lookup(CurrentOf(agent.Seen()), m, "Q");
      && agent.UsedBy(m) && q == p && p.value.stmt in old(agent.cli.statements)
      && old(agent.cli.statements)[p.value.stmt].columns == 0 && IsOpen(agent.cli.statements, p.value.stmt)
  {
    hide Good, FreedOnce, ByName, WasExecutedFor, Began, KeyOf;
    ghost var s := agent.Seen();
    NamedAt(s.(log := []), s.current.value, m, "Q");
    var row;
    ghost var during;
    row, during, reached := agent.ExecutePrepared(m, "Q", NoInput, NoOutput);
    done, state := row, agent.da.sqlstate;
    SameWhenUsed(s, during, m);
    ExecutedSame(s, during, agent.Seen(), m, "Q", NoInput, NoOutput, reached, done, state);
    if state == SUCCESSFUL {
      LeftOpen(during, agent.Seen(), m, "Q", reached, done);
      assert CurrentOf(agent.Seen()).prepared == CurrentOf(s).prepared;
    }
  }

  method ExecuteAgain(agent: Agent, m: Module, n: nat)
    returns (state: SqlState, ghost reached: Reached, ghost done: bool)
    requires agent.Valid() && agent.UsedBy(m)
    requires var p := Lookup(CurrentOf(agent.Seen()), m, "Q");
      && p.Some? && IsOpen(agent.cli.statements, p.value.stmt)
      && ParametersOf(p.value.sql) == 0 && Scanner.CanBeSingle(Scanner.Tokens(p.value.sql, 0))
    modifies agent, agent.da, agent.cli
    ensures agent.Valid() && state == INVALID_CURSOR_STATE && agent.cli.statements == old(agent.cli.statements)
    ensures WasExecutedFor(old(agent.Seen()), agent.Seen(), m, "Q", NoInput, Targets(n), reached, done, state)
  {
    hide Good, FreedOnce, ByName, WasExecutedFor, Began, KeyOf, Scanner.CanBeSingle, Scanner.Tokens, Scanner.Parameters;
    ghost var s := agent.Seen();
    var row;
    ghost var during;
    row, during, reached := agent.ExecutePrepared(m, "Q", NoInput, Targets(n));
    done, state := row, agent.da.sqlstate;
    SameWhenUsed(s, during, m);
    ExecutedSame(s, during, agent.Seen(), m, "Q", NoInput, Targets(n), reached, done, state);
    ThenRefused(during, agent.Seen(), m, "Q", n, reached, done, state);
  }

  // A query is prepared, executed without an output and then with one. If its columns aren't known
  // when it's prepared, the first EXECUTE leaves its cursor open, which the second one can't use.
  // The states are those after each call.
  method ExecuteTwice(agent: Agent, m: Module, sql: Text, n: nat)
    returns (prepared: SqlState, first: SqlState, second: SqlState, ghost s: State, ghost t: State)
    requires agent.Valid() && agent.cli.isQuery(sql)
    requires ParametersOf(sql) == 0 && Scanner.CanBeSingle(Scanner.Tokens(sql, 0))
    modifies agent, agent.da, agent.cli
    ensures agent.Valid()
    ensures exists during :: PreparedBetween(old(agent.Seen()), during, s, m, sql, prepared)
    ensures prepared == SUCCESSFUL ==>
      && IsPrepared(CurrentOf(s), m, "Q", sql)
      && exists reached, done :: WasExecutedFor(s, t, m, "Q", NoInput, NoOutput, reached, done, first)
    ensures prepared == SUCCESSFUL && first == SUCCESSFUL ==>
      && second == INVALID_CURSOR_STATE && s.statements[HandleOf(Lookup(CurrentOf(s), m, "Q"))].columns == 0
      && exists reached, done :: WasExecutedFor(t, agent.Seen(), m, "Q", NoInput, Targets(n), reached, done, second)
  {
    hide Good, FreedOnce, Scanner.CanBeSingle, Scanner.Tokens, Scanner.Parameters, ByName, WasExecutedFor, Replaced,
      OnlyPrepared, Began, PreparedKept, KeyOf;
    first, second := GENERAL_ERROR, GENERAL_ERROR;
    ghost var during := agent.Prepare(m, "Q", sql);
    prepared, s := agent.da.sqlstate, agent.Seen();
    t := s;
    assert PreparedBetween(old(agent.Seen()), during, s, m, sql, prepared);
    if prepared != SUCCESSFUL {
      return;
    }
    NamedAt(s.(log := []), s.current.value, m, "Q");
    ghost var reached, done;
    first, reached, done := ExecuteOnce(agent, m);
    t := agent.Seen();
    if first == SUCCESSFUL {
      second, reached, done := ExecuteAgain(agent, m, n);
    }
  }

  ghost predicate PreparedBetween(s: State, during: State, t: State, m: Module, sql: Text, state: SqlState) {
    NotSwitched(s, t, state) || (Switched(s, during, m) && WasPrepared(during, t, m, "Q", sql, state))
  }

  // The states of such a run: before the first EXECUTE, and after it and the second one.
  function Executing(m: Module, sql: Text, phase: Phase, columns: nat, active: bool, isQuery: string -> bool,
                     log: seq<Request>): State
    requires phase.Open? ==> columns > 0
    requires phase.Open? || phase.Prepared?
  {
    var conn := Connection("", "DEFAULT", true, active, Some(m), map[], [Prepared.Prepared(m, "Q", sql, 2)]);
    State(map[1 := conn], Some(1), map[2 := Owner.Named(1, m, "Q")], map[Default := 1], {1}, map[1 := m.id],
      map[2 := AnyStatement.Statement(1, phase, true, columns, sql)], isQuery, log)
  }

  lemma ExecutingRules(m: Module, sql: Text, phase: Phase, columns: nat, active: bool, isQuery: string -> bool,
                       log: seq<Request>)
    requires phase.Open? ==> columns > 0
    requires phase.Open? || phase.Prepared?
    ensures var s := Executing(m, sql, phase, columns, active, isQuery, log);
      && Rules(s) && Lookup(CurrentOf(s), m, "Q") == Some(Prepared.Prepared(m, "Q", sql, 2))
  {
    var s := Executing(m, sql, phase, columns, active, isQuery, log);
    var p := Prepared.Prepared(m, "Q", sql, 2);
    assert At(s.conns, Owner.Named(1, m, "Q"), 2);
    assert [p][1..] == [];
    FindRefinesMap([p], m, "Q");
  }

  // There is such a run: the first EXECUTE of a query without an output can work, if its columns
  // weren't described, and the second one is then refused.
  lemma ExecuteTwiceHappens(m: Module, sql: Text, n: nat, isQuery: string -> bool)
    requires ParametersOf(sql) == 0 && Scanner.CanBeSingle(Scanner.Tokens(sql, 0))
    ensures var first, second := Request.Execute(1, 2, sql, true), Request.Execute(1, 2, sql, false);
      var s := Executing(m, sql, Phase.Prepared, 0, false, isQuery, []);
      var t := Executing(m, sql, Open(false), 1, true, isQuery, [first]);
      var u := Executing(m, sql, Open(false), 1, true, isQuery, [first, second]);
      && Rules(s) && Rules(t) && Rules(u)
      && WasExecutedFor(s, t, m, "Q", NoInput, NoOutput, Ran(true), false, SUCCESSFUL)
      && WasExecutedFor(t, u, m, "Q", NoInput, Targets(n), Ran(false), false, INVALID_CURSOR_STATE)
  {
    hide Rules, Lookup, Scanner.CanBeSingle, Scanner.Tokens, Scanner.Parameters;
    var first, second := Request.Execute(1, 2, sql, true), Request.Execute(1, 2, sql, false);
    ExecutingRules(m, sql, Phase.Prepared, 0, false, isQuery, []);
    ExecutingRules(m, sql, Open(false), 1, true, isQuery, [first]);
    ExecutingRules(m, sql, Open(false), 1, true, isQuery, [first, second]);
    var s := Executing(m, sql, Phase.Prepared, 0, false, isQuery, []);
    var t := Executing(m, sql, Open(false), 1, true, isQuery, [first]);
    BindsNone(2);
    assert [] + Binds(2, 0) + [first] == [first] && [first] + Binds(2, 0) + [second] == [first, second];
    assert t.conns == WithActive(s.conns, 1, true);
  }

  lemma SameWhenUsed(s: State, during: State, m: Module)
    requires Switched(s, during, m) && s.current.Some? && s.current.value in s.conns
      && s.conns[s.current.value].m == Some(m)
    ensures Unchanged(s, during) && during.current == s.current
  {
  }

  lemma ExecutedSame(s: State, during: State, t: State, m: Module, name: string, input: Input, out: Output,
                     reached: Reached, done: bool, state: SqlState)
    requires Unchanged(s, during) && WasExecutedFor(during, t, m, name, input, out, reached, done, state)
    ensures WasExecutedFor(s, t, m, name, input, out, reached, done, state)
  {
    hide WasExecuted, WasExecutedBy;
    assert CurrentOf(s) == CurrentOf(during);
  }

  // The states of a run, and the statements between them.
  ghost predicate IsTrace(trace: seq<Moment>, calls: seq<(Module, Call)>) {
    && |trace| == |calls| + 1 && trace[0].state.conns == map[] && !trace[0].connected
    && (forall k | 0 <= k < |trace| :: Rules(trace[k].state))
    && forall k | 0 <= k < |calls| :: Next(trace[k], calls[k].0, calls[k].1, trace[k + 1])
  }

  lemma RulesSeen(agent: Agent)
    requires agent.Valid()
    ensures Rules(agent.Seen())
  {
    hide Good, FreedOnce, Rules;
    GoodWithLog(agent.Now(), agent.cli.log, {}, {}, {});
    RulesHold(agent.Seen());
  }

  // A run, and then the exit of the program. It leaves nothing allocated: every handle was freed as
  // often as it was allocated.
  method Run(cli: Cli, calls: seq<(Module, Call)>) returns (ghost trace: seq<Moment>)
    requires cli.Valid() && cli.statements == map[] && cli.connections == {} && cli.schemas == map[]
    requires forall k | 0 <= k < |calls| :: calls[k].1.Of(calls[k].0, cli.isQuery)
    modifies cli
    ensures IsTrace(trace, calls)
    ensures cli.statements == map[] && cli.connections == {}
    ensures cli.freed == cli.issued
  {
    hide Good, FreedOnce, Rules, Next;
    var agent := new Agent(cli);
    RulesSeen(agent);
    trace := [Now(agent)];
    var i := 0;
    while i < |calls|
      invariant 0 <= i <= |calls| && agent.Valid() && fresh(agent) && fresh(agent.da) && agent.cli == cli
      invariant |trace| == i + 1 && trace[i] == Now(agent)
      invariant trace[0].state.conns == map[] && !trace[0].connected
      invariant forall k | 0 <= k < |trace| :: Rules(trace[k].state)
      invariant forall k | 0 <= k < i :: Next(trace[k], calls[k].0, calls[k].1, trace[k + 1])
    {
      Step(agent, calls[i].0, calls[i].1);
      RulesSeen(agent);
      trace := trace + [Now(agent)];
      i := i + 1;
    }
    agent.Exit();
    AllFreed(cli.issued, cli.freed);
  }
}
