/**
 The part of the SQL/CLI that the runtime of a generated module calls, as contracts.

 The implementation of the CLI is not modelled. The body of each method picks any outcome that
 its contract allows, and the contracts say no more than what the header, the sources and the
 tests of libvsql say of the routine.
 */
module SqlCli {
  import opened Wrappers

  // A handle is a positive number, and 0 is no handle.
  type Handle = nat

  datatype ReturnCode =
    | Success
    | SuccessWithInfo
    | NoData
    | Error
    // Not a code of the CLI: an assignment that raises indicator overflow.
    | IndicatorOverflow

  // "No data" counts as a failure too.
  predicate Failed(rc: ReturnCode) {
    !rc.Success? && !rc.SuccessWithInfo?
  }

  // An SQLSTATE is the number that its 5 characters are in base 36.
  type SqlState = nat

  const SUCCESSFUL: SqlState := 0   // 00000
  const WARNING: SqlState := 46656   // 01000
  const RIGHT_TRUNCATION: SqlState := 46660   // 01004
  const TOO_FEW_ITEMS: SqlState := 46661   // 01005
  const NO_DATA_FOUND: SqlState := 93312   // 02000
  const INPUT_MISMATCH: SqlState := 326593   // 07001
  const OUTPUT_MISMATCH: SqlState := 326594   // 07002
  const NOT_EXECUTABLE: SqlState := 326595   // 07003
  const INPUT_REQUIRED: SqlState := 326596   // 07004
  const NOT_CURSOR: SqlState := 326597   // 07005
  const OUTPUT_REQUIRED: SqlState := 326599   // 07007
  const INVALID_COUNT: SqlState := 326600   // 07008
  const INVALID_INDEX: SqlState := 326601   // 07009
  const INVALID_LEVEL: SqlState := 326606   // 0700E
  const INVALID_DATETIME_CODE: SqlState := 326607   // 0700F
  const NAME_IN_USE: SqlState := 373250   // 08002
  const NO_CONNECTION: SqlState := 373251   // 08003
  const MULTIPLE_TRANSACTIONS: SqlState := 466561   // 0A001
  const CARDINALITY_VIOLATION: SqlState := 3405888   // 21000
  const NULL_WITHOUT_INDICATOR: SqlState := 3452546   // 22002
  const OUT_OF_RANGE: SqlState := 3452547   // 22003
  const ERROR_IN_ASSIGNMENT: SqlState := 3452549   // 22005
  const INDICATOR_TOO_SMALL: SqlState := 3452618   // 22022
  const INVALID_CURSOR_STATE: SqlState := 3545856   // 24000
  const ACTIVE_TRANSACTION: SqlState := 3592513   // 25001
  const INVALID_STATEMENT_NAME: SqlState := 3639168   // 26000
  const INVALID_AUTHORIZATION: SqlState := 3732480   // 28000
  const INVALID_CONNECTION_NAME: SqlState := 4012416   // 2E000
  const INVALID_DESCRIPTOR_NAME: SqlState := 5178816   // 33000
  const SYNTAX_ERROR: SqlState := 6811776   // 42000
  const GENERAL_ERROR: SqlState := 30139776   // HY000
  const SEQUENCE_ERROR: SqlState := 30139812   // HY010
  const ATTRIBUTE_CANNOT_BE_SET: SqlState := 30139813   // HY011

  // The class is 00 or 01: the statement was executed.
  predicate IsCompletion(state: SqlState) {
    state < NO_DATA_FOUND
  }

  // An exception that isn't about the state of a cursor.
  predicate IsOtherException(state: SqlState) {
    !IsCompletion(state) && state != INVALID_CURSOR_STATE && state != SEQUENCE_ERROR
  }

  // The class is 40.
  predicate IsRollback(state: SqlState) {
    state / (36 * 36 * 36) == 4 * 36
  }

  function Value(c: char): nat {
    if '0' <= c <= '9' then c as int - '0' as int
    else if 'A' <= c <= 'Z' then c as int - 'A' as int + 10
    else 0
  }

  function StateOf(text: string): SqlState
    requires |text| == 5
  {
    (((Value(text[0]) * 36 + Value(text[1])) * 36 + Value(text[2])) * 36 + Value(text[3])) * 36 + Value(text[4])
  }

  lemma CompletionStates()
    ensures StateOf("00000") == SUCCESSFUL
    ensures StateOf("01000") == WARNING
    ensures StateOf("01004") == RIGHT_TRUNCATION
    ensures StateOf("01005") == TOO_FEW_ITEMS
    ensures StateOf("02000") == NO_DATA_FOUND
  {
  }

  lemma DynamicStates()
    ensures StateOf("07001") == INPUT_MISMATCH
    ensures StateOf("07002") == OUTPUT_MISMATCH
    ensures StateOf("07003") == NOT_EXECUTABLE
    ensures StateOf("07004") == INPUT_REQUIRED
    ensures StateOf("07005") == NOT_CURSOR
    ensures StateOf("07007") == OUTPUT_REQUIRED
    ensures StateOf("07008") == INVALID_COUNT
    ensures StateOf("07009") == INVALID_INDEX
    ensures StateOf("0700E") == INVALID_LEVEL
    ensures StateOf("0700F") == INVALID_DATETIME_CODE
  {
  }

  lemma DataStates()
    ensures StateOf("08002") == NAME_IN_USE
    ensures StateOf("08003") == NO_CONNECTION
    ensures StateOf("0A001") == MULTIPLE_TRANSACTIONS
    ensures StateOf("21000") == CARDINALITY_VIOLATION
    ensures StateOf("22002") == NULL_WITHOUT_INDICATOR
    ensures StateOf("22003") == OUT_OF_RANGE
    ensures StateOf("22005") == ERROR_IN_ASSIGNMENT
    ensures StateOf("22022") == INDICATOR_TOO_SMALL
  {
  }

  lemma InvalidStates()
    ensures StateOf("24000") == INVALID_CURSOR_STATE
    ensures StateOf("25001") == ACTIVE_TRANSACTION
    ensures StateOf("26000") == INVALID_STATEMENT_NAME
    ensures StateOf("28000") == INVALID_AUTHORIZATION
    ensures StateOf("2E000") == INVALID_CONNECTION_NAME
    ensures StateOf("33000") == INVALID_DESCRIPTOR_NAME
    ensures StateOf("42000") == SYNTAX_ERROR
  {
  }

  lemma CliStates()
    ensures StateOf("HY000") == GENERAL_ERROR
    ensures StateOf("HY010") == SEQUENCE_ERROR
    ensures StateOf("HY011") == ATTRIBUTE_CANNOT_BE_SET
  {
  }

  // The classes, by the characters of an SQLSTATE.
  lemma ClassesAre(text: string)
    requires |text| == 5 && forall i | 0 <= i < 5 :: '0' <= text[i] <= '9' || 'A' <= text[i] <= 'Z'
    ensures IsCompletion(StateOf(text)) <==> text[0] == '0' && (text[1] == '0' || text[1] == '1')
    ensures IsRollback(StateOf(text)) <==> text[0] == '4' && text[1] == '0'
  {
    var first, rest := Value(text[0]) * 36 + Value(text[1]),
      (Value(text[2]) * 36 + Value(text[3])) * 36 + Value(text[4]);
    assert StateOf(text) == first * 46656 + rest && rest < 46656;
  }

  // A status record of the diagnostics area of a handle. SQLGetDiagRec can fail for a record,
  // which is then not readable.
  datatype Record = Record(sqlstate: SqlState, message: string, constraint: seq<string>, readable: bool)

  // No record says that a statement was successful.
  predicate Plausible(records: seq<Record>) {
    forall i | 0 <= i < |records| :: records[i].sqlstate != SUCCESSFUL
  }

  type Records = r: seq<Record> | Plausible(r) witness []

  predicate Reports(records: seq<Record>, state: SqlState) {
    records != [] && records[0].readable && records[0].sqlstate == state
  }

  // The first record is a warning if the routine worked, and an exception if it didn't. (The records
  // are sorted like that.)
  predicate Tells(rc: ReturnCode, records: seq<Record>) {
    records != [] ==>
      && (rc.SuccessWithInfo? ==> IsCompletion(records[0].sqlstate))
      && (rc.Error? ==> !IsCompletion(records[0].sqlstate))
  }

  // - Allocated: nothing is prepared.
  // - Prepared: not executed since it was prepared.
  // - Open: a query was executed and its cursor is open, and is on a row or not.
  // - Closed: a query was executed and its cursor has been closed.
  // - Executed: a statement that isn't a query was executed.
  datatype Phase = Allocated | Prepared | Open(onRow: bool) | Closed | Executed

  // text is what was prepared. columns is how many columns are described. It can be 0 (zero) for a
  // query that is only prepared, when they are not known before it is executed.
  datatype AnyStatement = Statement(dbc: Handle, phase: Phase, query: bool, columns: nat, text: string) {
    predicate Valid() {
      && (columns > 0 ==> query)
      && (phase.Allocated? ==> !query)
      && (phase.Open? || phase.Closed? ==> query && columns > 0)
      && (phase.Executed? ==> !query)
    }

    // A query has been executed with the handle, so a fetch isn't out of sequence.
    predicate QueryExecuted() {
      phase.Open? || phase.Closed?
    }
  }

  type Statement = s: AnyStatement | s.Valid() witness Statement(0, Allocated, false, 0, "")

  // What the CLI is asked to do. Each request has its connection or statement, and whether it worked.
  datatype Request =
    | Connect(dbc: Handle, server: string, user: Option<string>, ok: bool)
    | SetSchema(dbc: Handle, schema: nat, ok: bool)
    | StartTransaction(dbc: Handle, ok: bool)
    | EndTransaction(dbc: Handle, commit: bool, ok: bool)
    | SetName(h: Handle, name: string, ok: bool)
    | SetHold(h: Handle, hold: bool, ok: bool)
    | Bind(h: Handle, i: nat, ok: bool)
    | Execute(dbc: Handle, h: Handle, text: string, ok: bool)
    | Fetch(h: Handle, ok: bool)
    | Get(h: Handle, i: nat, ok: bool, cut: bool)
    // What couldn't be made: an SQL-connection, a statement, or a prepared text.
    | NoConnection
    | NoStatement(dbc: Handle)
    | NotPrepared(h: Handle, text: string)
  {
    predicate Worked() {
      match this
      case NoConnection => false
      case NoStatement(_) => false
      case NotPrepared(_, _) => false
      case _ => ok
    }
  }

  // What can happen to a statement when another one is used: the end of a transaction closes
  // cursors, and a positioned statement is destroyed with the cursor that it references.
  predicate MayBecome(before: Statement, after: Statement) {
    || after == before
    || (before.phase.Open? && after == before.(phase := Closed))
    || (!before.QueryExecuted() && after == Statement(before.dbc, Allocated, false, 0, ""))
  }

  predicate OthersMayChange(before: map<Handle, Statement>, after: map<Handle, Statement>, h: Handle) {
    && after.Keys == before.Keys
    && forall k | k in before && k != h :: MayBecome(before[k], after[k])
  }

  // Every statement but h was there before, and has only changed like that. h is 0 (zero) for none.
  ghost predicate OthersStay(before: map<Handle, Statement>, after: map<Handle, Statement>, h: Handle) {
    forall k | k in after && k != 0 && k != h :: k in before && MayBecome(before[k], after[k])
  }

  // No other statement has changed.
  ghost predicate OnlyStatement(before: map<Handle, Statement>, after: map<Handle, Statement>, h: Handle) {
    after.Keys == before.Keys && forall k | k in before && k != h :: after[k] == before[k]
  }

  lemma Stay(a: map<Handle, Statement>, b: map<Handle, Statement>, h: Handle)
    requires OthersMayChange(a, b, h) || OthersMayChange(a - {h}, b, h) || (h in b && b == a[h := b[h]])
    ensures OthersStay(a, b, h)
  {
  }

  lemma StaySame(a: map<Handle, Statement>, h: Handle)
    ensures OthersStay(a, a, h)
  {
  }

  lemma StayTwice(a: map<Handle, Statement>, b: map<Handle, Statement>, c: map<Handle, Statement>,
                  x: Handle, y: Handle, h: Handle)
    requires OthersStay(a, b, x) && OthersStay(b, c, y) && (x == 0 || x == h) && (y == 0 || y == h)
    ensures OthersStay(a, c, h)
  {
  }

  // It has been freed.
  lemma StayWithout(a: map<Handle, Statement>, b: map<Handle, Statement>, h: Handle)
    requires OthersStay(a, b, h) && h !in b
    ensures OthersStay(a, b, 0)
  {
  }

  // A statement that is allocated, used and freed again.
  lemma StayAfterFree(a: map<Handle, Statement>, b: map<Handle, Statement>, c: map<Handle, Statement>, h: Handle)
    requires OthersStay(a, b, h) && OthersStay(b, c, 0) && h !in c
    ensures OthersStay(a, c, 0)
  {
  }

  lemma OthersSame(a: map<Handle, Statement>)
    ensures OthersMayChange(a, a, 0)
  {
  }

  lemma OthersTwice(a: map<Handle, Statement>, b: map<Handle, Statement>, c: map<Handle, Statement>, h: Handle)
    requires OthersMayChange(a, b, h) && OthersMayChange(b, c, h)
    ensures OthersMayChange(a, c, h)
  {
  }

  // A statement that is allocated, used and freed again.
  lemma OthersAfterFree(before: map<Handle, Statement>, during: map<Handle, Statement>,
                        after: map<Handle, Statement>, h: Handle, s: Statement)
    requires h !in before
    requires OthersMayChange(before[h := s], during, h) && OthersMayChange(during - {h}, after, h)
    ensures OthersMayChange(before, after, 0)
  {
    assert after.Keys == before.Keys;
    forall k | k in before ensures MayBecome(before[k], after[k]) {
      assert MayBecome(before[h := s][k], during[k]) && MayBecome((during - {h})[k], after[k]);
    }
  }

  // Each time that a handle was allocated it was freed once, unless it's in use. A number can be
  // allocated again after it was freed.
  ghost predicate FreedOnce(issued: multiset<Handle>, freed: multiset<Handle>, statements: map<Handle, Statement>) {
    issued == freed + multiset(statements.Keys)
  }

  lemma AllFreed(issued: multiset<Handle>, freed: multiset<Handle>)
    requires FreedOnce(issued, freed, map[])
    ensures freed == issued
  {
  }

  lemma FreedWith(issued: multiset<Handle>, freed: multiset<Handle>, statements: map<Handle, Statement>, h: Handle,
    s: Statement)
    requires FreedOnce(issued, freed, statements) && h !in statements
    ensures FreedOnce(issued + multiset{h}, freed, statements[h := s])
  {
    assert statements[h := s].Keys == statements.Keys + {h};
  }

  lemma FreedWithout(issued: multiset<Handle>, freed: multiset<Handle>, statements: map<Handle, Statement>, h: Handle)
    requires FreedOnce(issued, freed, statements) && h in statements
    ensures FreedOnce(issued, freed + multiset{h}, statements - {h})
  {
    assert statements.Keys == (statements - {h}).Keys + {h};
  }

  lemma FreedSame(issued: multiset<Handle>, freed: multiset<Handle>, before: map<Handle, Statement>,
    after: map<Handle, Statement>)
    requires FreedOnce(issued, freed, before) && after.Keys == before.Keys
    ensures FreedOnce(issued, freed, after)
  {
  }

  class Cli {
    // The statements that are issued, each with the connection that it belongs to.
    var statements: map<Handle, Statement>
    var connections: set<Handle>
    // The last default schema that was set on each connection, as the number of a module.
    var schemas: map<Handle, nat>
    var records: map<Handle, Records>
    // How often each statement handle was allocated and freed.
    ghost var issued: multiset<Handle>
    ghost var freed: multiset<Handle>
    // No handle in use is greater.
    var last: Handle
    // Everything that it was asked to do, in order.
    ghost var log: seq<Request>
    const isQuery: string -> bool

    ghost predicate Valid()
      reads this`statements, this`connections, this`schemas, this`issued, this`freed, this`last
    {
      && FreedOnce(issued, freed, statements)
      && (forall h | h in statements :: 0 < h <= last)
      && (forall h | h in connections :: 0 < h <= last)
      && schemas.Keys <= connections
    }

    constructor (isQuery: string -> bool)
      ensures Valid()
      ensures statements == map[] && connections == {} && this.isQuery == isQuery
      ensures issued == multiset{} && schemas == map[]
    {
      this.isQuery := isQuery;
      statements, connections, schemas, records := map[], {}, map[], map[];
      issued, freed, last := multiset{}, multiset{}, 0;
      log := [];
    }

    function RecordsOf(h: Handle): Records
      reads this`records
    {
      if h in records then records[h] else []
    }

    // Any return code that a routine can have, with any status records for the handle.
    method Outcome(h: Handle) returns (rc: ReturnCode)
      requires Valid()
      modifies this`records
      ensures Valid()
      ensures rc.Success? || rc.SuccessWithInfo? || rc.Error?
      ensures !Reports(RecordsOf(h), INVALID_CURSOR_STATE) && !Reports(RecordsOf(h), SEQUENCE_ERROR)
      ensures Tells(rc, RecordsOf(h))
    {
      var ok: bool, info: bool := *, *;
      rc := if ok then Success else if info then SuccessWithInfo else Error;
      var found: Records := *;
      if Reports(found, INVALID_CURSOR_STATE) || Reports(found, SEQUENCE_ERROR) || !Tells(rc, found) {
        found := [];
      }
      records := records[h := found];
    }

    // An error with one status record.
    method Refuse(h: Handle, state: SqlState) returns (rc: ReturnCode)
      requires Valid() && !IsCompletion(state)
      modifies this`records
      ensures Valid()
      ensures rc.Error? && Reports(RecordsOf(h), state) && Tells(rc, RecordsOf(h))
    {
      records := records[h := [Record(state, "", [], true)]];
      rc := Error;
    }

    // Any change of the other statements.
    method Disturb(h: Handle)
      requires Valid()
      modifies this`statements
      ensures Valid() && OthersMayChange(old(statements), statements, h)
      ensures h in statements ==> statements[h] == old(statements)[h]
    {
      var after: map<Handle, Statement> := *;
      if OthersMayChange(statements, after, h) && (h in statements ==> after[h] == statements[h]) {
        FreedSame(issued, freed, statements, after);
        statements := after;
      }
    }

    // The statement becomes s, with any change of the others.
    method Replace(h: Handle, s: Statement)
      requires Valid() && h in statements && s.dbc == statements[h].dbc
      modifies this`statements
      ensures Valid() && h in statements && statements[h] == s
      ensures OthersMayChange(old(statements), statements, h)
    {
      FreedSame(issued, freed, statements, statements[h := s]);
      hide FreedOnce;
      statements := statements[h := s];
      Disturb(h);
    }

    // A number that no handle in use has, which may be one that was freed.
    method NewHandle() returns (h: Handle)
      requires Valid()
      modifies this`last
      ensures Valid() && 0 < h <= last && h !in statements && h !in connections
    {
      var n: int := *;
      h := if n <= 0 || n in statements || n in connections then last + 1 else n;
      last := if h > last then h else last;
    }

    // SQLAllocHandle for an SQL-connection, then SQLConnect.
    method AllocConnection() returns (rc: ReturnCode, dbc: Handle)
      requires Valid()
      modifies this`connections, this`last, this`records, this`log
      ensures Valid()
      ensures log == if Failed(rc) then old(log) + [Request.NoConnection] else old(log)
      ensures !Failed(rc) ==>
        && dbc != 0 && dbc !in old(connections) && dbc !in statements && dbc !in schemas
        && connections == old(connections) + {dbc}
      ensures Failed(rc) ==> rc.Error? && connections == old(connections)
      ensures !Reports(RecordsOf(0), SEQUENCE_ERROR) && !Reports(RecordsOf(0), INVALID_CURSOR_STATE)
      ensures Tells(rc, RecordsOf(0))
    {
      dbc := 0;
      rc := Outcome(0);
      if !Failed(rc) {
        dbc := NewHandle();
        connections := connections + {dbc};
      } else {
        log := log + [Request.NoConnection];
      }
    }

    method Connect(dbc: Handle, server: string, user: Option<string>) returns (rc: ReturnCode)
      requires Valid() && dbc in connections
      modifies this`records, this`log
      ensures Valid()
      ensures Failed(rc) ==> rc.Error?
      ensures !Reports(RecordsOf(dbc), SEQUENCE_ERROR) && !Reports(RecordsOf(dbc), INVALID_CURSOR_STATE)
      ensures Tells(rc, RecordsOf(dbc))
      ensures log == old(log) + [Request.Connect(dbc, server, user, !Failed(rc))]
    {
      rc := Outcome(dbc);
      log := log + [Request.Connect(dbc, server, user, !Failed(rc))];
    }

    // SQLDisconnect, then SQLFreeHandle for the SQL-connection. Nothing of it can be left.
    method FreeConnection(dbc: Handle)
      requires Valid() && dbc in connections
      requires forall h | h in statements :: statements[h].dbc != dbc
      modifies this`connections, this`schemas
      ensures Valid()
      ensures connections == old(connections) - {dbc}
      ensures schemas == old(schemas) - {dbc}
    {
      connections := connections - {dbc};
      schemas := schemas - {dbc};
    }

    method AllocStatement(dbc: Handle) returns (rc: ReturnCode, h: Handle)
      requires Valid() && dbc in connections
      modifies this`statements, this`issued, this`last, this`records, this`log
      ensures Valid()
      ensures log == if Failed(rc) then old(log) + [Request.NoStatement(dbc)] else old(log)
      ensures !Failed(rc) ==>
        && h != 0 && h !in old(statements)
        && statements == old(statements)[h := Statement(dbc, Allocated, false, 0, "")]
        && issued == old(issued) + multiset{h}
      ensures Failed(rc) ==> rc.Error? && statements == old(statements) && issued == old(issued)
      ensures Failed(rc) ==> !Reports(RecordsOf(dbc), INVALID_CURSOR_STATE) && !Reports(RecordsOf(dbc), SEQUENCE_ERROR)
      ensures Tells(rc, RecordsOf(dbc))
    {
      h := 0;
      rc := Outcome(dbc);
      if Failed(rc) {
        log := log + [Request.NoStatement(dbc)];
      } else {
        h := Issue(dbc);
      }
    }

    method Issue(dbc: Handle) returns (h: Handle)
      requires Valid() && dbc in connections
      modifies this`statements, this`issued, this`last
      ensures Valid() && h != 0 && h !in old(statements)
      ensures statements == old(statements)[h := Statement(dbc, Allocated, false, 0, "")]
      ensures issued == old(issued) + multiset{h}
    {
      h := NewHandle();
      FreedWith(issued, freed, statements, h, Statement(dbc, Allocated, false, 0, ""));
      hide FreedOnce;
      statements := statements[h := Statement(dbc, Allocated, false, 0, "")];
      issued := issued + multiset{h};
    }

    // A handle that isn't in use can't be freed.
    method FreeStatement(h: Handle)
      requires Valid() && h in statements
      modifies this`statements, this`freed
      ensures Valid() && freed == old(freed) + multiset{h}
      ensures OthersMayChange(old(statements) - {h}, statements, h)
    {
      FreedWithout(issued, freed, statements, h);
      hide FreedOnce;
      statements, freed := statements - {h}, freed + multiset{h};
      Disturb(h);
    }

    // An error leaves any prepared statement and cursor as they were, and it is an invalid
    // cursor state only when the cursor is open.
    method Prepare(h: Handle, text: string) returns (rc: ReturnCode)
      requires Valid() && h in statements
      modifies this`statements, this`records, this`log
      ensures Valid()
      ensures log ==
        if Failed(rc) && !old(statements)[h].phase.Open?
        then old(log) + [Request.NotPrepared(h, text)] else old(log)
      ensures !rc.NoData? && !rc.IndicatorOverflow? && Tells(rc, RecordsOf(h))
      ensures Failed(rc) ==> statements == old(statements)
      ensures Failed(rc) ==> (Reports(RecordsOf(h), INVALID_CURSOR_STATE) <==> old(statements)[h].phase.Open?)
      ensures old(statements)[h].phase.Open? ==> Failed(rc)
      ensures !Failed(rc) ==>
        && h in statements && statements[h].dbc == old(statements)[h].dbc
        && statements[h].phase.Prepared? && statements[h].query == isQuery(text) && statements[h].text == text
        && OthersMayChange(old(statements), statements, h)
    {
      if statements[h].phase.Open? {
        rc := Refuse(h, INVALID_CURSOR_STATE);
        return;
      }
      rc := Outcome(h);
      if !Failed(rc) {
        var described: bool := *;
        var s := Statement(statements[h].dbc, Prepared, isQuery(text),
                           if isQuery(text) && described then 1 else 0, text);
        Replace(h, s);
      } else {
        log := log + [Request.NotPrepared(h, text)];
      }
    }

    // A statement that has a query returns no "no data". An error leaves any statement that was
    // already executed as it was.
    method Execute(h: Handle) returns (rc: ReturnCode)
      requires Valid() && h in statements
      modifies this`statements, this`records, this`log
      ensures Valid()
      ensures !rc.IndicatorOverflow? && Tells(rc, RecordsOf(h))
      ensures h in statements && statements[h].dbc == old(statements)[h].dbc
      ensures OthersMayChange(old(statements), statements, h)
      ensures old(statements)[h].phase.Allocated? ==> rc.Error? && Reports(RecordsOf(h), SEQUENCE_ERROR)
      ensures old(statements)[h].phase.Open? ==>
        rc.Error? && Reports(RecordsOf(h), INVALID_CURSOR_STATE) && statements == old(statements)
      ensures old(statements)[h].query ==> !rc.NoData?
      ensures old(statements)[h].query && !old(statements)[h].phase.Open? ==>
        !Reports(RecordsOf(h), INVALID_CURSOR_STATE)
      ensures old(statements)[h].query && !Failed(rc) ==> statements[h].phase == Open(false)
      ensures rc.Error? ==> statements[h] == old(statements)[h]
      ensures !old(statements)[h].query && !rc.Error? ==> statements[h].phase.Executed?
      ensures statements[h].query == old(statements)[h].query && statements[h].text == old(statements)[h].text
      ensures log == old(log) + [Request.Execute(statements[h].dbc, h, statements[h].text, !Failed(rc))]
    {
      var s := statements[h];
      if s.phase.Allocated? {
        rc := Refuse(h, SEQUENCE_ERROR);
        log := log + [Request.Execute(statements[h].dbc, h, statements[h].text, !Failed(rc))];
        return;
      } else if s.phase.Open? {
        rc := Refuse(h, INVALID_CURSOR_STATE);
        log := log + [Request.Execute(statements[h].dbc, h, statements[h].text, !Failed(rc))];
        return;
      } else if s.query {
        rc := Outcome(h);
        if !Failed(rc) {
          Replace(h, Statement(s.dbc, Open(false), true, 1, s.text));
          log := log + [Request.Execute(statements[h].dbc, h, statements[h].text, !Failed(rc))];
          return;
        }
      } else {
        rc := Outcome(h);
        if !Failed(rc) {
          var none: bool := *;
          rc := if none then NoData else rc;
          Replace(h, Statement(s.dbc, Executed, false, 0, s.text));
          log := log + [Request.Execute(statements[h].dbc, h, statements[h].text, !Failed(rc))];
          return;
        }
        // Such as a positioned statement whose cursor isn't on a row.
        var state: int := *;
        rc := Refuse(h, if state < NO_DATA_FOUND then GENERAL_ERROR else state);
      }
      Disturb(h);
      log := log + [Request.Execute(statements[h].dbc, h, statements[h].text, !Failed(rc))];
    }

    method BindParameter(h: Handle, i: nat) returns (rc: ReturnCode)
      requires Valid() && h in statements
      modifies this`records, this`log
      ensures Valid()
      ensures Failed(rc) ==> rc.Error? && !Reports(RecordsOf(h), INVALID_CURSOR_STATE)
      ensures Tells(rc, RecordsOf(h))
      ensures log == old(log) + [Request.Bind(h, i, !Failed(rc))]
    {
      rc := Outcome(h);
      log := log + [Request.Bind(h, i, !Failed(rc))];
    }

    // SQLFetch is out of sequence unless something has been executed, and then it is an invalid
    // cursor state unless a cursor is open.
    method Fetch(h: Handle) returns (rc: ReturnCode)
      requires Valid() && h in statements
      modifies this`statements, this`records, this`log
      ensures OthersMayChange(old(statements), statements, h)
      ensures Valid()
      ensures !rc.IndicatorOverflow? && Tells(rc, RecordsOf(h))
      ensures var s := old(statements)[h];
        && (s.phase.Open? ==> (Failed(rc) && !rc.NoData? ==>
              !Reports(RecordsOf(h), SEQUENCE_ERROR) && !Reports(RecordsOf(h), INVALID_CURSOR_STATE)))
        && (s.phase.Open? ==> exists row :: statements == old(statements)[h := s.(phase := Open(row))]
                                         && row == !Failed(rc))
        && (!s.phase.Open? ==> rc.Error? && statements == old(statements))
        && (s.phase.Closed? || s.phase.Executed? ==> Reports(RecordsOf(h), INVALID_CURSOR_STATE))
        && (s.phase.Allocated? || s.phase.Prepared? ==> Reports(RecordsOf(h), SEQUENCE_ERROR))
      ensures log == old(log) + [Request.Fetch(h, !Failed(rc))]
    {
      var s := statements[h];
      if s.phase.Allocated? || s.phase.Prepared? {
        rc := Refuse(h, SEQUENCE_ERROR);
      } else if !s.phase.Open? {
        rc := Refuse(h, INVALID_CURSOR_STATE);
      } else {
        rc := Outcome(h);
        var last: bool := *;
        if last {
          rc := NoData;
        }
        statements := statements[h := s.(phase := Open(!Failed(rc)))];
      }
      log := log + [Request.Fetch(h, !Failed(rc))];
    }

    method CloseCursor(h: Handle) returns (rc: ReturnCode)
      requires Valid() && h in statements
      modifies this`statements, this`records
      ensures OthersMayChange(old(statements), statements, h)
      ensures Valid()
      ensures var s := old(statements)[h];
        && (s.phase.Open? ==> rc.Success? && statements == old(statements)[h := s.(phase := Closed)])
        && (!s.phase.Open? ==> rc.Error? && statements == old(statements))
        && (s.phase.Closed? || s.phase.Executed? ==> Reports(RecordsOf(h), INVALID_CURSOR_STATE))
        && (s.phase.Allocated? || s.phase.Prepared? ==> Reports(RecordsOf(h), SEQUENCE_ERROR))
    {
      var s := statements[h];
      if s.phase.Allocated? || s.phase.Prepared? {
        rc := Refuse(h, SEQUENCE_ERROR);
      } else if !s.phase.Open? {
        rc := Refuse(h, INVALID_CURSOR_STATE);
      } else {
        statements := statements[h := s.(phase := Closed)];
        rc := Success;
      }
    }

    method NumResultCols(h: Handle) returns (rc: ReturnCode, columns: nat)
      requires Valid() && h in statements
      modifies this`records
      ensures Valid()
      ensures Failed(rc) <==> statements[h].phase.Allocated?
      ensures rc.Success? || (rc.Error? && columns == 0)
      ensures !Failed(rc) ==> columns == statements[h].columns
    {
      if statements[h].phase.Allocated? {
        rc := Refuse(h, SEQUENCE_ERROR);
        columns := 0;
      } else {
        rc := Success;
        columns := statements[h].columns;
      }
    }

    // The assignment of a column of the row that was fetched (see Retrieval).
    method GetColumn(h: Handle, i: nat) returns (rc: ReturnCode)
      requires Valid() && h in statements && statements[h].phase == Open(true)
      modifies this`records, this`log
      ensures Valid()
      ensures !rc.NoData? && Tells(rc, RecordsOf(h))
      ensures rc.Error? ==> !Reports(RecordsOf(h), SEQUENCE_ERROR) && !Reports(RecordsOf(h), INVALID_CURSOR_STATE)
      ensures log == old(log) + [Request.Get(h, i, !Failed(rc), rc.SuccessWithInfo?)]
    {
      rc := Outcome(h);
      var overflow: bool := *;
      if overflow {
        rc := IndicatorOverflow;
      }
      log := log + [Request.Get(h, i, !Failed(rc), rc.SuccessWithInfo?)];
    }

    method SetCursorName(h: Handle, name: string) returns (rc: ReturnCode)
      requires Valid() && h in statements && !statements[h].phase.Open?
      modifies this`records, this`log
      ensures Valid()
      ensures Failed(rc) ==>
        && rc.Error? && !Reports(RecordsOf(h), INVALID_CURSOR_STATE)
        && !Reports(RecordsOf(h), SEQUENCE_ERROR) && Tells(rc, RecordsOf(h))
      ensures log == old(log) + [Request.SetName(h, name, !Failed(rc))]
    {
      rc := Outcome(h);
      log := log + [Request.SetName(h, name, !Failed(rc))];
    }

    // The attributes of a statement can always be read, but they can't be set while a cursor is
    // open. Another failure is possible when a value is set, but not when it is set again.
    method SetHoldable(h: Handle, holdable: bool) returns (rc: ReturnCode)
      requires Valid() && h in statements
      modifies this`records, this`log
      ensures Valid()
      ensures statements[h].phase.Open? ==> Failed(rc)
      ensures Failed(rc) ==>
        && rc.Error? && !Reports(RecordsOf(h), INVALID_CURSOR_STATE)
        && !Reports(RecordsOf(h), SEQUENCE_ERROR) && Tells(rc, RecordsOf(h))
      ensures log == old(log) + [Request.SetHold(h, holdable, !Failed(rc))]
    {
      if statements[h].phase.Open? {
        rc := Refuse(h, ATTRIBUTE_CANNOT_BE_SET);
      } else {
        rc := Outcome(h);
      }
      log := log + [Request.SetHold(h, holdable, !Failed(rc))];
    }

    method SetHoldableAgain(h: Handle) returns (rc: ReturnCode)
      requires Valid() && h in statements
      modifies this`records
      ensures Valid()
      ensures Failed(rc) <==> statements[h].phase.Open?
    {
      rc := Success;
      if statements[h].phase.Open? {
        rc := Refuse(h, ATTRIBUTE_CANNOT_BE_SET);
      }
    }

    // SET SCHEMA with SQLExecDirect.
    method ExecDirect(h: Handle, schema: nat) returns (rc: ReturnCode)
      requires Valid() && h in statements && !statements[h].phase.Open? && statements[h].dbc in connections
      modifies this`statements, this`records, this`schemas, this`log
      ensures Valid()
      ensures OthersMayChange(old(statements), statements, h)
      ensures h in statements && statements[h].dbc == old(statements)[h].dbc
      ensures Failed(rc) ==> rc.Error? && schemas == old(schemas) && Tells(rc, RecordsOf(h))
      ensures Failed(rc) ==> !Reports(RecordsOf(h), SEQUENCE_ERROR) && !Reports(RecordsOf(h), INVALID_CURSOR_STATE)
      ensures !Failed(rc) ==> schemas == old(schemas)[statements[h].dbc := schema]
      ensures log == old(log) + [Request.SetSchema(statements[h].dbc, schema, !Failed(rc))]
    {
      rc := Outcome(h);
      if !Failed(rc) {
        Replace(h, Statement(statements[h].dbc, Executed, false, 0, ""));
        schemas := schemas[statements[h].dbc := schema];
      }
      log := log + [Request.SetSchema(statements[h].dbc, schema, !Failed(rc))];
    }

    method EndTran(dbc: Handle, commit: bool) returns (rc: ReturnCode)
      requires Valid() && dbc in connections
      modifies this`statements, this`records, this`log
      ensures Valid()
      ensures (Failed(rc) ==> rc.Error?) && Tells(rc, RecordsOf(dbc))
      ensures OthersMayChange(old(statements), statements, 0)
      ensures log == old(log) + [Request.EndTransaction(dbc, commit, !Failed(rc))]
    {
      rc := Outcome(dbc);
      if Failed(rc) {
        var state: int := *;
        rc := Refuse(dbc, if state < NO_DATA_FOUND then GENERAL_ERROR else state);
      }
      Disturb(0);
      log := log + [Request.EndTransaction(dbc, commit, !Failed(rc))];
    }

    method StartTran(dbc: Handle) returns (rc: ReturnCode)
      requires Valid() && dbc in connections
      modifies this`records, this`log
      ensures Valid()
      ensures (Failed(rc) ==> rc.Error?) && Tells(rc, RecordsOf(dbc))
      ensures log == old(log) + [Request.StartTransaction(dbc, !Failed(rc))]
    {
      rc := Outcome(dbc);
      log := log + [Request.StartTransaction(dbc, !Failed(rc))];
    }
  }
}
