/**
 The runtime that the generated modules of a program share: its SQL-agent, SQL-connections,
 cursors and prepared statements.

 A method is a function of the runtime. The module that calls it is a parameter, and the status
 parameter of the procedure is in the diagnostics area.
 */
module Runtime {
  import opened Wrappers
  import opened SqlCli
  import opened Requests
  import opened Diagnostics
  import opened Ownership
  import opened States
  import opened Effects
  import Names
  import CStrings
  import Scanner

  // What CONNECT TO makes, and what SET CONNECTION finds.
  function NewKey(server: Option<string>, name: Option<string>): Key {
    if server.None? then Default
    else Key.Name(Names.ParseName(if name.None? then server.value else name.value))
  }

  function FindKey(name: Option<string>): Key {
    if name.None? then Default else Key.Name(Names.ParseName(name.value))
  }

  datatype Target = Named(name: string) | TheDefault | All | TheCurrent {
    // It's the SQL-connection to close.
    predicate Is(c: Id, conns: map<Id, Connection>, current: Option<Id>) {
      c in conns &&
      match this
      case Named(name) => KeyOf(conns[c]) == Key.Name(Names.ParseName(name))
      case TheDefault => KeyOf(conns[c]) == Default
      case All => true
      case TheCurrent => current == Some(c)
    }
  }

  ghost predicate HasKey(conns: map<Id, Connection>, key: Key) {
    exists c :: c in conns && KeyOf(conns[c]) == key
  }

  ghost predicate IsActive(conns: map<Id, Connection>, current: Option<Id>) {
    current.Some? && current.value in conns && conns[current.value].active
  }

  // Why CONNECT TO isn't tried, or SUCCESSFUL if it is.
  ghost function ConnectRefusal(conns: map<Id, Connection>, current: Option<Id>, server: Option<string>,
                                name: Option<string>, user: Option<string>): SqlState
  {
    if IsActive(conns, current) then MULTIPLE_TRANSACTIONS
    else if server.Some? && user.Some? && Names.ParseName(user.value) == "" then INVALID_AUTHORIZATION
    else if NewKey(server, name) == Key.Name("") then INVALID_CONNECTION_NAME
    else if HasKey(conns, NewKey(server, name)) then NAME_IN_USE
    else SUCCESSFUL
  }

  // The status of SET CONNECTION.
  ghost function SetStatus(conns: map<Id, Connection>, current: Option<Id>, name: Option<string>): SqlState {
    if IsActive(conns, current) then MULTIPLE_TRANSACTIONS
    else if FindKey(name) == Key.Name("") then INVALID_CONNECTION_NAME
    else if !HasKey(conns, FindKey(name)) then NO_CONNECTION
    else SUCCESSFUL
  }

  // The status of DISCONNECT. Nothing that is closed can be active.
  ghost function DisconnectStatus(conns: map<Id, Connection>, current: Option<Id>, target: Target): SqlState {
    if target.Named? && Names.ParseName(target.name) == "" then INVALID_CONNECTION_NAME
    else if !target.All? && !exists c :: target.Is(c, conns, current) then NO_CONNECTION
    else if exists c :: target.Is(c, conns, current) && conns[c].active then ACTIVE_TRANSACTION
    else SUCCESSFUL
  }

  lemma OneTarget(s: State, target: Target, c: Id)
    requires Good(s, {}, {}, {}) && !target.All? && target.Is(c, s.conns, s.current)
    ensures forall d | target.Is(d, s.conns, s.current) :: d == c
  {
    hide Owned, Schemas;
  }

  class Agent {
    var conns: map<Id, Connection>
    var current: Option<Id>
    var connected: bool
    const da: Area
    const cli: Cli
    ghost var owner: map<Handle, Owner>
    ghost var keys: map<Key, Id>

    ghost function Now(): State
      reads this`conns, this`current, this`owner, this`keys
      reads cli`statements, cli`connections, cli`schemas
    {
      State(conns, current, owner, keys, cli.connections, cli.schemas, cli.statements, cli.isQuery, [])
    }

    // With everything that the CLI was asked.
    ghost function Seen(): State
      reads this`conns, this`current, this`owner, this`keys
      reads cli`statements, cli`connections, cli`schemas, cli`log
    {
      Now().(log := cli.log)
    }

    ghost predicate Inv(moving: set<Id>, running: set<Handle>, pending: set<Handle>)
      reads this`conns, this`current, this`owner, this`keys
      reads cli`statements, cli`connections, cli`schemas, cli`issued, cli`freed, cli`last
    {
      && cli.Valid()
      && (current.Some? ==> current.value in conns)
      && Good(Now(), moving, running, pending)
    }

    // The state between calls.
    ghost predicate Valid()
      reads this, cli
    {
      && Inv({}, {}, {})
      && Implicit()
    }

    // The default SQL-connection is only made implicitly before any connection statement.
    ghost predicate Implicit()
      reads this`conns, this`current, this`connected
    {
      !connected ==> forall c | c in conns :: current == Some(c) && conns[c].isDefault
    }

    constructor (cli: Cli)
      requires cli.Valid() && cli.statements == map[] && cli.connections == {} && cli.schemas == map[]
      ensures Valid() && this.cli == cli && fresh(da) && conns == map[] && !connected
    {
      this.cli := cli;
      da := new Area();
      conns, current, connected := map[], None, false;
      owner, keys := map[], map[];
    }

    function Where(): Place
      reads this
    {
      if current.None? || current.value !in conns then Place("", "") else
        var c := conns[current.value];
        Place(if c.isDefault then "DEFAULT" else c.name, c.server)
    }

    method Status(code: SqlState)
      modifies da
      ensures da.sqlstate == code && da.Consistent()
      ensures da.cursorName == old(da.cursorName)
      ensures da.committed == old(da.committed) && da.rolledBack == old(da.rolledBack)
    {
      da.Status(code, Where());
    }

    method Diag(rc: ReturnCode, h: Handle)
      requires cli.Valid()
      modifies da
      ensures da.Consistent()
      ensures da.sqlstate == SUCCESSFUL <==> rc.Success?
      ensures rc.Error? || rc.SuccessWithInfo? ==>
        && (da.sqlstate == INVALID_CURSOR_STATE <==> Reports(cli.RecordsOf(h), INVALID_CURSOR_STATE))
        && (da.sqlstate == SEQUENCE_ERROR <==> Reports(cli.RecordsOf(h), SEQUENCE_ERROR))
      ensures Tells(rc, cli.RecordsOf(h)) ==> (IsCompletion(da.sqlstate) <==> !Failed(rc))
      ensures rc.NoData? ==> da.sqlstate == NO_DATA_FOUND
      ensures rc.IndicatorOverflow? ==> da.sqlstate == INDICATOR_TOO_SMALL
      ensures da.cursorName == old(da.cursorName)
      ensures da.committed == old(da.committed) && da.rolledBack == old(da.rolledBack)
    {
      da.Diagnose(rc, cli.RecordsOf(h), Where());
      StatusOfFailure(rc, cli.RecordsOf(h));
      if rc.Error? || rc.SuccessWithInfo? {
        StatusOfReported(rc, cli.RecordsOf(h), INVALID_CURSOR_STATE);
        StatusOfReported(rc, cli.RecordsOf(h), SEQUENCE_ERROR);
      }
    }

    // A statement is allocated for SET SCHEMA and freed again.
    method SetSchema(m: Module, dbc: Handle, active: bool) returns (ok: bool)
      requires cli.Valid() && dbc in cli.connections
      modifies da, cli`statements, cli`freed, cli`records, cli`schemas, cli`issued, cli`last, cli`log
      ensures cli.Valid() && OthersMayChange(old(cli.statements), cli.statements, 0)
      ensures cli.schemas == if ok then old(cli.schemas)[dbc := m.id] else old(cli.schemas)
      ensures !ok ==> da.Consistent() && IsOtherException(da.sqlstate)
      ensures SchemaWasSet(old(cli.log), cli.log, dbc, m.id, active, ok)
    {
      hide FreedOnce, OthersMayChange;
      ghost var before := cli.statements;
      ok := SendSchema(m, dbc);
      if ok && !active {
        ghost var during := cli.statements;
        var rc := cli.EndTran(dbc, true);
        OthersTwice(before, during, cli.statements, 0);
      }
    }

    method SendSchema(m: Module, dbc: Handle) returns (ok: bool)
      requires cli.Valid() && dbc in cli.connections
      modifies da, cli`statements, cli`freed, cli`records, cli`schemas, cli`issued, cli`last, cli`log
      ensures cli.Valid() && OthersMayChange(old(cli.statements), cli.statements, 0)
      ensures cli.schemas == if ok then old(cli.schemas)[dbc := m.id] else old(cli.schemas)
      ensures !ok ==> da.Consistent() && IsOtherException(da.sqlstate)
      ensures SchemaWasSet(old(cli.log), cli.log, dbc, m.id, true, ok)
    {
      hide FreedOnce, OthersMayChange;
      ghost var before := cli.statements;
      var rc, stmt := cli.AllocStatement(dbc);
      if Failed(rc) {
        Diag(rc, dbc);
        OthersSame(before);
        return false;
      }
      ghost var s := cli.statements[stmt];
      rc := cli.ExecDirect(stmt, m.id);
      ghost var during := cli.statements;
      if Failed(rc) {
        Diag(rc, stmt);
      }
      cli.FreeStatement(stmt);
      OthersAfterFree(before, during, cli.statements, stmt, s);
      ok := !Failed(rc);
    }

    // The schema of the module becomes the default schema of the SQL-connection c.
    method Schema(m: Module, c: Id, ghost moving: set<Id>) returns (ok: bool)
      requires Inv(moving, {}, {}) && c in conns
      modifies this`conns, da, cli
      ensures Inv(moving, {}, {})
      ensures conns == if ok then old(conns)[c := old(conns)[c].(m := Some(m))] else old(conns)
      ensures !ok ==> da.Consistent() && IsOtherException(da.sqlstate)
      ensures old(conns)[c].m == Some(m) ==> ok && conns == old(conns) && unchanged(cli) && unchanged(da)
      ensures OthersMayChange(old(cli.statements), cli.statements, 0)
      ensures old(conns)[c].m != Some(m) ==> SchemaWasSet(old(cli.log), cli.log, c, m.id, old(conns)[c].active, ok)
    {
      if conns[c].m == Some(m) {
        assert conns == conns[c := conns[c].(m := Some(m))];
        return true;
      }
      hide Good, FreedOnce, OthersStay, SlotsStay, OtherSlotsStay;
      ghost var s := Now();
      ok := SetSchema(m, c, conns[c].active);
      ghost var t := s.(statements := cli.statements);
      AfterUse(s, cli.statements, 0, moving, {}, {});
      if ok {
        AfterSchema(t, c, m, cli.schemas, moving, {}, {});
        t := t.(schemas := cli.schemas, conns := t.conns[c := t.conns[c].(m := Some(m))]);
        conns := conns[c := conns[c].(m := Some(m))];
      }
      assert Now() == t;
    }

    // The handle of a slot is freed, and the slot is empty again.
    method FreeSlot(c: Id, m: Module, i: nat, ghost moving: set<Id>, ghost running: set<Handle>,
                    ghost pending: set<Handle>)
      requires Inv(moving, running, pending) && c in conns
      requires m in conns[c].cursors && i < |m.cursors| && conns[c].cursors[m][i] != 0
      modifies this`conns, this`owner, cli`statements, cli`freed
      ensures Inv(moving, running, pending - {old(conns)[c].cursors[m][i]})
      ensures conns == SetSlot(old(conns), c, m, i, 0)
      ensures Only(old(conns), conns, c) && conns[c].prepared == old(conns)[c].prepared
      ensures m in conns[c].cursors && conns[c].cursors[m] == old(conns)[c].cursors[m][i := 0]
      ensures conns[c].cursors - {m} == old(conns)[c].cursors - {m}
      ensures OthersStay(old(cli.statements), cli.statements, 0)
      ensures old(conns)[c].cursors[m][i] !in cli.statements
    {
      hide Good, FreedOnce, OthersStay, SlotsStay, OtherSlotsStay;
      ghost var s := Now();
      SlotCount(s, c, m, moving, running, pending);
      var h := conns[c].cursors[m][i];
      var after := SetSlot(conns, c, m, i, 0);
      SlotAt(s, c, m, i, moving, running, pending);
      ghost var before := cli.statements;
      cli.FreeStatement(h);
      Stay(before, cli.statements, h);
      StayWithout(before, cli.statements, h);
      AfterFreeSlot(s, cli.statements, c, m, i, moving, running, pending);
      SetSlotIs(conns, c, m, i, 0);
      conns := after;
      owner := owner - {h};
      assert Now() == s.(statements := cli.statements, owner := owner, conns := after);
    }

    // A prepared statement is destroyed.
    method FreePrepared(c: Id, k: nat, ghost moving: set<Id>)
      requires Inv(moving, {}, {}) && c in conns && k < |conns[c].prepared|
      modifies this`conns, this`owner, cli`statements, cli`freed
      ensures Inv(moving, {}, {})
      ensures var before := old(conns)[c].prepared;
        conns == SetPrepared(old(conns), c, before[..k] + before[k + 1..])
      ensures OthersMayChange(old(cli.statements) - {old(conns)[c].prepared[k].stmt}, cli.statements, 0)
      ensures OthersStay(old(cli.statements), cli.statements, 0)
    {
      hide Good, FreedOnce, OthersStay, SlotsStay, OtherSlotsStay;
      ghost var s := Now();
      var before := conns[c].prepared;
      var after := SetPrepared(conns, c, before[..k] + before[k + 1..]);
      PreparedAt(s, c, k, moving, {}, {});
      ghost var statements := cli.statements;
      cli.FreeStatement(before[k].stmt);
      Stay(statements, cli.statements, before[k].stmt);
      StayWithout(statements, cli.statements, before[k].stmt);
      AfterFreePrepared(s, cli.statements, c, k, moving, {}, {});
      conns := after;
      owner := owner - {before[k].stmt};
      assert Now() == s.(statements := cli.statements, owner := owner, conns := after);
    }

    method FreeSlots(c: Id, m: Module, ghost moving: set<Id>)
      requires Inv(moving, {}, {}) && c in conns && m in conns[c].cursors
      modifies this`conns, this`owner, cli`statements, cli`freed
      ensures Inv(moving, {}, {}) && Only(old(conns), conns, c)
      ensures conns[c].cursors == old(conns)[c].cursors - {m}
      ensures OthersStay(old(cli.statements), cli.statements, 0)
    {
      hide Good, FreedOnce, OthersStay, SlotsStay, OtherSlotsStay;
      SlotCount(Now(), c, m, moving, {}, {});
      ghost var before := cli.statements;
      StaySame(before, 0);
      var i := 0;
      while i < |m.cursors|
        invariant OthersStay(before, cli.statements, 0)
        invariant i <= |m.cursors| && Inv(moving, {}, {}) && Only(old(conns), conns, c)
        invariant m in conns[c].cursors && conns[c].cursors - {m} == old(conns)[c].cursors - {m}
        invariant i <= |conns[c].cursors[m]| && forall k | 0 <= k < i :: conns[c].cursors[m][k] == 0
      {
        SlotCount(Now(), c, m, moving, {}, {});
        if conns[c].cursors[m][i] != 0 {
          assert {} - {conns[c].cursors[m][i]} == {};
          ghost var during := cli.statements;
          FreeSlot(c, m, i, moving, {}, {});
          StayTwice(before, during, cli.statements, 0, 0, 0);
        }
        i := i + 1;
      }
      DropModule(c, m, moving);
    }

    method DropModule(c: Id, m: Module, ghost moving: set<Id>)
      requires Inv(moving, {}, {}) && c in conns && m in conns[c].cursors
      requires |m.cursors| <= |conns[c].cursors[m]|
      requires forall i | 0 <= i < |m.cursors| :: conns[c].cursors[m][i] == 0
      modifies this`conns
      ensures Inv(moving, {}, {}) && Only(old(conns), conns, c)
      ensures conns[c].cursors == old(conns)[c].cursors - {m}
    {
      hide Good, FreedOnce, OthersStay, SlotsStay, OtherSlotsStay;
      ghost var s := Now();
      var after := conns[c := conns[c].(cursors := conns[c].cursors - {m})];
      WithoutModule(s, c, m, moving, {}, {});
      conns := after;
      assert Now() == s.(conns := after);
    }

    method Rollback(c: Id, ghost moving: set<Id>)
      requires Inv(moving, {}, {}) && c in conns
      modifies cli`statements, cli`records, cli`log
      ensures Inv(moving, {}, {})
      ensures OthersStay(old(cli.statements), cli.statements, 0)
      ensures OnlySession(old(cli.log), cli.log) && RolledBack(old(cli.log), cli.log, c)
    {
      ghost var s, log := Now(), cli.log;
      var rc := cli.EndTran(c, false);
      Stay(s.statements, cli.statements, 0);
      AfterUse(s, cli.statements, 0, moving, {}, {});
      assert Now() == s.(statements := cli.statements);
      assert cli.log[|log|].EndTransaction?;
    }

    method Disconnected(c: Id, ghost moving: set<Id>)
      requires Inv(moving, {}, {}) && c in conns && c in moving && current != Some(c)
      requires conns[c].cursors == map[] && conns[c].prepared == []
      modifies this`conns, cli`connections, cli`schemas
      ensures Inv(moving - {c}, {}, {}) && conns == old(conns) - {c}
    {
      hide Good, FreedOnce, OthersStay, SlotsStay, OtherSlotsStay;
      ghost var s := Now();
      SameHandles(s, moving, {}, {});
      AfterDisconnect(s, c, moving);
      cli.FreeConnection(c);
      conns := conns - {c};
      assert Now() == s.(dbcs := cli.connections, schemas := cli.schemas, conns := conns);
    }

    // Everything that the SQL-connection owns is freed.
    method FreeOwned(c: Id, ghost moving: set<Id>)
      requires Inv(moving, {}, {}) && c in conns
      modifies this`conns, this`owner, cli`statements, cli`freed
      ensures Inv(moving, {}, {}) && Only(old(conns), conns, c)
      ensures conns[c].cursors == map[] && conns[c].prepared == []
      ensures OthersStay(old(cli.statements), cli.statements, 0)
    {
      hide Good, FreedOnce, OthersStay, SlotsStay, OtherSlotsStay;
      ghost var before := cli.statements;
      StaySame(before, 0);
      while conns[c].cursors != map[]
        invariant OthersStay(before, cli.statements, 0)
        invariant Inv(moving, {}, {}) && Only(old(conns), conns, c)
        decreases conns[c].cursors.Keys
      {
        var m :| m in conns[c].cursors;
        ghost var during := cli.statements;
        FreeSlots(c, m, moving);
        StayTwice(before, during, cli.statements, 0, 0, 0);
      }
      while conns[c].prepared != []
        invariant OthersStay(before, cli.statements, 0)
        invariant Inv(moving, {}, {}) && Only(old(conns), conns, c) && conns[c].cursors == map[]
        decreases |conns[c].prepared|
      {
        ghost var during := cli.statements;
        FreePrepared(c, 0, moving);
        StayTwice(before, during, cli.statements, 0, 0, 0);
      }
    }

    method Close(c: Id, ghost moving: set<Id>)
      requires Inv(moving, {}, {}) && c in conns
      modifies this`current, this`conns, this`owner, cli
      ensures Inv(moving - {c}, {}, {}) && conns == old(conns) - {c}
      ensures current == if old(current) == Some(c) then None else old(current)
      ensures OthersStay(old(cli.statements), cli.statements, 0)
      ensures OnlySession(old(cli.log), cli.log) && RolledBack(old(cli.log), cli.log, c)
    {
      hide Good, FreedOnce, OthersStay, SlotsStay, OtherSlotsStay;
      ghost var s := Now();
      AfterClosing(s, c, moving);
      if current == Some(c) {
        current := None;
      }
      assert Now() == s.(current := current);
      Rollback(c, moving + {c});
      ghost var during := cli.statements;
      FreeOwned(c, moving + {c});
      StayTwice(s.statements, during, cli.statements, 0, 0, 0);
      OnlyWithout(old(conns), conns, c);
      Disconnected(c, moving + {c});
      assert moving + {c} - {c} == moving - {c};
    }

    // An SQL-connection to the server is made, with the schema of the module. It has no name yet.
    method OpenConnection(m: Module, server: string, user: Option<string>) returns (r: Option<Id>)
      requires Inv({}, {}, {})
      modifies this`current, this`conns, this`owner, da, cli
      ensures current == old(current)
      ensures r.None? ==>
        && Inv({}, {}, {}) && conns == old(conns) && da.Consistent() && IsOtherException(da.sqlstate)
      ensures r.Some? ==>
        && Inv({r.value}, {}, {}) && r.value !in old(conns)
        && conns == old(conns)[r.value := Blank(server).(m := Some(m))]
      ensures OthersStay(old(cli.statements), cli.statements, 0)
      ensures OnlySession(old(cli.log), cli.log)
      ensures r.Some? ==> WasOpenedTo(old(cli.log), cli.log, r.value, server, user, m.id)
      ensures r.None? ==> SomeFailed(old(cli.log), cli.log)
    {
      hide Good, FreedOnce, OthersStay, SlotsStay, OtherSlotsStay;
      ghost var before := cli.statements;
      StaySame(before, 0);
      var rc, c := Connect(server);
      if Failed(rc) {
        assert !cli.log[|old(cli.log)|].Worked();
        return None;
      }
      assert current == old(current) != Some(c);
      var ok := Establish(m, c, server, user);
      WithWithout(old(conns), c, Blank(server), Blank(server).(m := Some(m)));
      if ok {
        return Some(c);
      }
      assert {c} - {c} == {};
      ghost var during := cli.statements;
      ghost var log := cli.log;
      Close(c, {c});
      SessionTwice(old(cli.log), log, cli.log);
      FailedLater(old(cli.log), log, cli.log);
      StayTwice(before, during, cli.statements, 0, 0, 0);
      return None;
    }

    method Establish(m: Module, c: Id, server: string, user: Option<string>) returns (ok: bool)
      requires Inv({c}, {}, {}) && c in conns && !conns[c].active && conns[c].m.None?
      modifies this`conns, da, cli
      ensures Inv({c}, {}, {})
      ensures conns == if ok then old(conns)[c := old(conns)[c].(m := Some(m))] else old(conns)
      ensures !ok ==> da.Consistent() && IsOtherException(da.sqlstate)
      ensures OthersStay(old(cli.statements), cli.statements, 0)
      ensures OnlySession(old(cli.log), cli.log) && (ok ==> WasOpenedTo(old(cli.log), cli.log, c, server, user, m.id))
      ensures !ok ==> SomeFailed(old(cli.log), cli.log)
    {
      hide OthersStay;
      ghost var log := cli.log;
      ghost var before := cli.statements;
      StaySame(before, 0);
      var rc := cli.Connect(c, server, user);
      if Failed(rc) {
        Diag(rc, c);
        assert !cli.log[|log|].Worked();
        return false;
      }
      ghost var during := cli.log;
      ok := Schema(m, c, {c});
      SchemaIsSession(during, cli.log, c, m.id, false, ok);
      SessionTwice(log, during, cli.log);
      FailedLater(log, during, cli.log);
      Stay(before, cli.statements, 0);
    }

    method Connect(server: string) returns (rc: ReturnCode, c: Id)
      requires Inv({}, {}, {})
      modifies this`conns, da, cli`connections, cli`records, cli`last, cli`log
      ensures Failed(rc) ==>
        && Inv({}, {}, {}) && conns == old(conns) && da.Consistent()
        && IsOtherException(da.sqlstate)
      ensures !Failed(rc) ==>
        && Inv({c}, {}, {}) && c !in old(conns)
        && conns == old(conns)[c := Blank(server)]
      ensures cli.log == if Failed(rc) then old(cli.log) + [Request.NoConnection] else old(cli.log)
    {
      hide Good, FreedOnce, OthersStay, SlotsStay, OtherSlotsStay;
      ghost var s := Now();
      SameHandles(s, {}, {}, {});
      rc, c := cli.AllocConnection();
      if Failed(rc) {
        Diag(rc, 0);
        return;
      }
      AfterConnection(s, c, server, {});
      assert {} + {c} == {c};
      conns := conns[c := Blank(server)];
      assert Now() == s.(dbcs := cli.connections, conns := conns);
    }

    // The current SQL-connection gets its name, or is the default one.
    method Choose(c: Id, key: Key)
      requires Inv({c}, {}, {}) && c in conns && key != Key.Name("")
      requires conns[c].name == "" && !conns[c].isDefault
      requires forall d | d in conns :: !conns[d].active
      requires forall d | d in conns && d != c :: KeyOf(conns[d]) != key
      modifies this`conns, this`current, this`keys
      ensures Inv({}, {}, {}) && current == Some(c)
      ensures c in old(conns) && conns == old(conns)[c := WithKey(old(conns)[c], key)]
    {
      hide Good, FreedOnce, OthersStay, SlotsStay, OtherSlotsStay;
      ghost var s := Now();
      AfterNamed(s, c, key);
      conns := conns[c := WithKey(conns[c], key)];
      current := Some(c);
      keys := keys[key := c];
      assert Now() == s.(current := current, conns := conns, keys := keys);
    }

    // There is a current SQL-connection, and its default schema is of the module.
    ghost predicate UsedBy(m: Module)
      reads this`conns, this`current
    {
      current.Some? && current.value in conns && conns[current.value].m == Some(m)
    }

    // Any statement but a connection statement uses the current SQL-connection. Until there's been
    // a connection statement, the default one is made if there isn't one.
    method Use(m: Module) returns (r: Option<Id>)
      requires Valid()
      modifies this`current, this`conns, this`owner, this`keys, da, cli
      ensures Valid() && SamePrepared(old(conns), conns)
      ensures connected ==> conns.Keys == old(conns).Keys
      ensures r.Some? ==> r == current && UsedBy(m) && Switched(old(Seen()), Seen(), m)
      ensures r.None? ==> !UsedBy(m) && da.Consistent() && NotSwitched(old(Seen()), Seen(), da.sqlstate)
      ensures old(UsedBy(m)) ==> r.Some?
      ensures old(current).None? && old(connected) ==> r.None? && da.sqlstate == NO_CONNECTION
    {
      hide Good, FreedOnce, OthersStay, SlotsStay, OtherSlotsStay;
      if current.Some? {
        SchemaKeeps(conns, current.value, Some(m));
        ghost var before, log := cli.statements, cli.log;
        var ok := Schema(m, current.value, {});
        Stay(before, cli.statements, 0);
        if !ok {
          SchemaIsSession(log, cli.log, current.value, m.id, conns[current.value].active, false);
        }
        return if ok then current else None;
      }
      if connected {
        StaySame(cli.statements, 0);
        Status(NO_CONNECTION);
        return None;
      }
      r := OpenDefault(m);
    }

    method OpenDefault(m: Module) returns (r: Option<Id>)
      requires Valid() && current.None? && !connected
      modifies this`current, this`conns, this`owner, this`keys, da, cli
      ensures Valid()
      ensures r.None? ==> conns == map[] && current == None
      ensures r.None? ==> da.Consistent() && IsOtherException(da.sqlstate)
      ensures r.Some? ==> current == r && conns == map[r.value := Blank("DEFAULT").(isDefault := true, m := Some(m))]
      ensures OthersStay(old(cli.statements), cli.statements, 0)
      ensures OnlySession(old(cli.log), cli.log)
      ensures r.Some? ==> WasOpenedTo(old(cli.log), cli.log, r.value, "DEFAULT", None, m.id)
      ensures r.None? ==> SomeFailed(old(cli.log), cli.log)
    {
      hide Good, FreedOnce, OthersStay, SlotsStay, OtherSlotsStay;
      assert conns == map[];
      r := OpenAs(m, "DEFAULT", None, Default);
    }

    method OpenAs(m: Module, server: string, user: Option<string>, key: Key) returns (r: Option<Id>)
      requires Inv({}, {}, {}) && key != Key.Name("")
      requires forall d | d in conns :: !conns[d].active && KeyOf(conns[d]) != key
      modifies this`current, this`conns, this`owner, this`keys, da, cli
      ensures Inv({}, {}, {})
      ensures r.None? ==> conns == old(conns) && current == old(current)
      ensures r.None? ==> da.Consistent() && IsOtherException(da.sqlstate)
      ensures r.Some? ==>
        && current == r && r.value !in old(conns) && r.value in conns
        && conns == old(conns)[r.value := WithKey(Blank(server).(m := Some(m)), key)]
      ensures OthersStay(old(cli.statements), cli.statements, 0)
      ensures OnlySession(old(cli.log), cli.log)
      ensures r.Some? ==> WasOpenedTo(old(cli.log), cli.log, r.value, server, user, m.id)
      ensures r.None? ==> SomeFailed(old(cli.log), cli.log)
    {
      hide Good, FreedOnce, OthersStay, SlotsStay, OtherSlotsStay;
      r := OpenConnection(m, server, user);
      if r.Some? {
        WithWithout(old(conns), r.value, Blank(server).(m := Some(m)), WithKey(Blank(server).(m := Some(m)), key));
        Choose(r.value, key);
      }
    }

    method SetActive(c: Id, active: bool, ghost running: set<Handle>, ghost pending: set<Handle>)
      requires Inv({}, running, pending) && current == Some(c)
      modifies this`conns
      ensures Inv({}, running, pending) && c in old(conns) && conns == WithActive(old(conns), c, active)
    {
      ghost var s := Now();
      AfterActive(s, c, active, {}, running, pending);
      conns := WithActive(conns, c, active);
      assert Now() == s.(conns := conns);
    }

    method AllocStatement(c: Id) returns (rc: ReturnCode, h: Handle)
      requires Inv({}, {}, {}) && c in conns
      modifies cli`statements, cli`issued, cli`last, cli`records, cli`log
      ensures Failed(rc) ==> rc.Error? && Inv({}, {}, {})
      ensures Failed(rc) ==>
        && !Reports(cli.RecordsOf(c), SEQUENCE_ERROR)
        && !Reports(cli.RecordsOf(c), INVALID_CURSOR_STATE)
      ensures !Failed(rc) ==>
        && Inv({}, {h}, {}) && h != 0 && h !in owner
        && h in cli.statements && cli.statements[h] == Statement(c, Allocated, false, 0, "")
      ensures NoneOpened(old(cli.statements), cli.statements)
      ensures OthersStay(old(cli.statements), cli.statements, h)
      ensures Failed(rc) ==> cli.statements == old(cli.statements) && Tells(rc, cli.RecordsOf(c))
      ensures cli.log == if Failed(rc) then old(cli.log) + [Request.NoStatement(c)] else old(cli.log)
    {
      hide Good, FreedOnce, OthersStay, SlotsStay, OtherSlotsStay;
      ghost var s := Now();
      SameHandles(s, {}, {}, {});
      rc, h := cli.AllocStatement(c);
      StaySame(s.statements, h);
      if !Failed(rc) {
        Stay(s.statements, cli.statements, h);
        AfterAlloc(s, cli.statements, h, {}, {}, {});
        assert {} + {h} == {h};
      }
      assert Now() == s.(statements := cli.statements);
    }

    method FreeStatement(h: Handle)
      requires Inv({}, {h}, {})
      modifies cli`statements, cli`freed
      ensures Inv({}, {}, {}) && NoneOpened(old(cli.statements), cli.statements)
      ensures OthersStay(old(cli.statements), cli.statements, 0) && h !in cli.statements
    {
      hide Good, FreedOnce, OthersStay, SlotsStay, OtherSlotsStay;
      ghost var s := Now();
      SameHandles(s, {}, {h}, {});
      cli.FreeStatement(h);
      Stay(s.statements, cli.statements, h);
      StayWithout(s.statements, cli.statements, h);
      AfterFree(s, cli.statements, h, {}, {h}, {});
      assert {h} - {h} == {};
      assert Now() == s.(statements := cli.statements);
    }

    // A statement of the running call, or of a cursor that is being opened.
    ghost predicate Mine(h: Handle, running: set<Handle>, pending: set<Handle>)
      reads this`owner, cli`statements
    {
      h in cli.statements && ((h in running && h !in owner) || (h in pending && h in owner && owner[h].Slot?))
    }

    method PrepareStatement(h: Handle, sql: Text, ghost running: set<Handle>, ghost pending: set<Handle>)
      returns (rc: ReturnCode)
      requires Inv({}, running, pending) && Mine(h, running, pending)
      modifies cli`statements, cli`records, cli`log
      ensures Inv({}, running, pending) && Mine(h, running, pending)
      ensures !rc.NoData? && !rc.IndicatorOverflow?
      ensures Failed(rc) ==> cli.statements == old(cli.statements)
      ensures Failed(rc) ==> (Reports(cli.RecordsOf(h), INVALID_CURSOR_STATE) <==> old(cli.statements)[h].phase.Open?)
      ensures old(cli.statements)[h].phase.Open? ==> Failed(rc)
      ensures !Failed(rc) ==>
        && cli.statements[h].phase.Prepared? && cli.statements[h].query == cli.isQuery(sql)
        && cli.statements[h].text == sql
        && cli.statements[h].dbc == old(cli.statements)[h].dbc
      ensures NoneOpened(old(cli.statements), cli.statements)
      ensures OthersStay(old(cli.statements), cli.statements, h)
      ensures Tells(rc, cli.RecordsOf(h))
      ensures cli.log ==
        if Failed(rc) && !old(cli.statements)[h].phase.Open?
        then old(cli.log) + [Request.NotPrepared(h, sql)] else old(cli.log)
    {
      hide Good, FreedOnce, OthersStay, SlotsStay, OtherSlotsStay;
      ghost var s := Now();
      rc := cli.Prepare(h, sql);
      if Failed(rc) {
        assert Now() == s;
        StaySame(s.statements, h);
      } else {
        Stay(s.statements, cli.statements, h);
        AfterUse(s, cli.statements, h, {}, running, pending);
        assert Now() == s.(statements := cli.statements);
      }
    }

    method ExecuteStatement(h: Handle, ghost running: set<Handle>, ghost pending: set<Handle>)
      returns (rc: ReturnCode)
      requires Inv({}, running, pending) && Mine(h, running, pending)
      requires cli.statements[h].phase.Prepared?
      modifies cli`statements, cli`records, cli`log
      ensures Inv({}, running, pending) && Mine(h, running, pending)
      ensures !rc.IndicatorOverflow?
      ensures var s := old(cli.statements)[h];
        cli.log == old(cli.log) + [Request.Execute(s.dbc, h, s.text, !Failed(rc))]
      ensures var q := old(cli.statements)[h].query;
        && (q ==> !rc.NoData?)
        && (q ==> !Reports(cli.RecordsOf(h), INVALID_CURSOR_STATE))
        && (q && !Failed(rc) ==> cli.statements[h].phase == Phase.Open(false))
        && (!q && !rc.Error? ==> cli.statements[h].phase.Executed?)
      ensures OthersStay(old(cli.statements), cli.statements, h)
      ensures Tells(rc, cli.RecordsOf(h))
    {
      hide Good, FreedOnce, OthersStay, SlotsStay, OtherSlotsStay;
      ghost var s := Now();
      rc := cli.Execute(h);
      Stay(s.statements, cli.statements, h);
      AfterUse(s, cli.statements, h, {}, running, pending);
      assert Now() == s.(statements := cli.statements);
    }

    method BindParams(h: Handle, n: nat) returns (rc: ReturnCode)
      requires cli.Valid() && h in cli.statements
      modifies cli`records, cli`log
      ensures cli.Valid() && (n == 0 ==> rc.Success?) && Tells(rc, cli.RecordsOf(h))
      ensures Failed(rc) ==> rc.Error? && !Reports(cli.RecordsOf(h), INVALID_CURSOR_STATE)
      ensures WereBound(old(cli.log), cli.log, h, n, !Failed(rc))
    {
      BindsNone(h);
      rc := Success;
      var i := 0;
      while i < n && !Failed(rc)
        invariant i <= n
        invariant if Failed(rc) then WereBound(old(cli.log), cli.log, h, n, false)
                  else cli.log == old(cli.log) + Binds(h, i)
        invariant cli.Valid() && (n == 0 ==> rc.Success?) && Tells(rc, cli.RecordsOf(h))
        invariant Failed(rc) ==> rc.Error? && !Reports(cli.RecordsOf(h), INVALID_CURSOR_STATE)
      {
        BindsMore(h, i);
        rc := cli.BindParameter(h, i + 1);
        i := i + 1;
      }
    }

    // A statement is prepared and executed on h, which initiates an SQL-transaction.
    method ExecStatement(c: Id, h: Handle, sql: Text, n: nat, ghost running: set<Handle>, ghost pending: set<Handle>)
      returns (rc: ReturnCode)
      requires Inv({}, running, pending) && Mine(h, running, pending) && current == Some(c)
      requires cli.statements[h].dbc == c
      modifies this`conns, cli`statements, cli`records, cli`log
      ensures Inv({}, running, pending) && Mine(h, running, pending)
      ensures Began(old(conns), conns, c)
      ensures !rc.IndicatorOverflow?
      ensures old(cli.statements)[h].phase.Open? ==>
        && rc.Error? && Reports(cli.RecordsOf(h), INVALID_CURSOR_STATE)
        && conns == old(conns) && cli.statements == old(cli.statements) && cli.log == old(cli.log)
      ensures !old(cli.statements)[h].phase.Open? && cli.isQuery(sql) ==>
        !rc.NoData? && !Reports(cli.RecordsOf(h), INVALID_CURSOR_STATE)
      ensures !Failed(rc) && cli.isQuery(sql) ==> cli.statements[h].phase == Phase.Open(false)
      ensures OthersStay(old(cli.statements), cli.statements, h)
      ensures Tells(rc, cli.RecordsOf(h))
      ensures !old(cli.statements)[h].phase.Open? ==> WasSent(old(cli.log), cli.log, c, h, sql, n, false, !Failed(rc))
      ensures BeganWhen(old(conns), conns, c, Sent(old(cli.log), cli.log))
    {
      hide Good, FreedOnce, OthersStay, SlotsStay, OtherSlotsStay;
      ghost var before := cli.statements;
      rc := PrepareStatement(h, sql, running, pending);
      if Failed(rc) {
        NotSent(old(cli.log), c, h, sql, n, false);
        return;
      }
      hide WasSent, Sent;
      ghost var during := cli.statements;
      rc := ExecPrepared(c, h, n, running, pending);
      StayTwice(before, during, cli.statements, h, h, h);
    }

    method ExecPrepared(c: Id, h: Handle, n: nat, ghost running: set<Handle>, ghost pending: set<Handle>)
      returns (rc: ReturnCode)
      requires Inv({}, running, pending) && Mine(h, running, pending) && current == Some(c)
      requires cli.statements[h].dbc == c && cli.statements[h].phase.Prepared?
      modifies this`conns, cli`statements, cli`records, cli`log
      ensures Inv({}, running, pending) && Mine(h, running, pending)
      ensures Began(old(conns), conns, c)
      ensures !rc.IndicatorOverflow? && Tells(rc, cli.RecordsOf(h))
      ensures var q := old(cli.statements)[h].query;
        && (q ==> !rc.NoData? && !Reports(cli.RecordsOf(h), INVALID_CURSOR_STATE))
        && (q && !Failed(rc) ==> cli.statements[h].phase == Phase.Open(false))
      ensures OthersStay(old(cli.statements), cli.statements, h)
      ensures WasSent(old(cli.log), cli.log, c, h, old(cli.statements)[h].text, n, false, !Failed(rc))
      ensures BeganWhen(old(conns), conns, c, Sent(old(cli.log), cli.log))
    {
      hide Good, FreedOnce, OthersStay, SlotsStay, OtherSlotsStay, Reports;
      StaySame(cli.statements, h);
      rc := BindParams(h, n);
      if Failed(rc) {
        return;
      }
      SetActive(c, true, running, pending);
      rc := ExecuteStatement(h, running, pending);
    }

    method Exec(c: Id, h: Handle, sql: Text, n: nat, ghost running: set<Handle>, ghost pending: set<Handle>)
      returns (ok: bool)
      requires Inv({}, running, pending) && Mine(h, running, pending) && current == Some(c)
      requires cli.statements[h].dbc == c
      modifies this`conns, da, cli`statements, cli`records, cli`log
      ensures Inv({}, running, pending) && Mine(h, running, pending) && da.Consistent()
      ensures Began(old(conns), conns, c)
      ensures old(cli.statements)[h].phase.Open? ==>
        && !ok && da.sqlstate == INVALID_CURSOR_STATE && conns == old(conns)
        && cli.statements == old(cli.statements) && cli.log == old(cli.log)
      ensures !old(cli.statements)[h].phase.Open? && cli.isQuery(sql) ==> da.sqlstate != INVALID_CURSOR_STATE
      ensures ok && cli.isQuery(sql) ==> cli.statements[h].phase == Phase.Open(false)
      ensures da.sqlstate == SUCCESSFUL ==> ok
      ensures da.cursorName == old(da.cursorName)
      ensures OthersStay(old(cli.statements), cli.statements, h)
      ensures ok <==> IsCompletion(da.sqlstate)
      ensures !old(cli.statements)[h].phase.Open? ==> WasSent(old(cli.log), cli.log, c, h, sql, n, false, ok)
      ensures BeganWhen(old(conns), conns, c, Sent(old(cli.log), cli.log))
    {
      hide Good, FreedOnce, OthersStay, SlotsStay, OtherSlotsStay;
      var rc := ExecStatement(c, h, sql, n, running, pending);
      Diag(rc, h);
      return !Failed(rc);
    }

    method RunOn(c: Id, sql: Text, n: nat) returns (ghost h: Handle)
      requires Inv({}, {}, {}) && current == Some(c)
      modifies this`conns, da, cli`statements, cli`freed, cli`issued, cli`last, cli`records, cli`log
      ensures Inv({}, {}, {}) && da.Consistent() && Began(old(conns), conns, c)
      ensures OthersStay(old(cli.statements), cli.statements, 0)
      ensures WasSentOnNew(old(cli.log), cli.log, c, h, sql, n, false, IsCompletion(da.sqlstate))
      ensures BeganWhen(old(conns), conns, c, Sent(old(cli.log), cli.log))
    {
      hide Good, FreedOnce, OthersStay, SlotsStay, OtherSlotsStay;
      ghost var before := cli.statements;
      StaySame(before, 0);
      var rc, stmt := AllocStatement(c);
      h := stmt;
      if Failed(rc) {
        Diag(rc, c);
        return;
      }
      ghost var made := cli.statements;
      var ok := Exec(c, stmt, sql, n, {h}, {});
      ghost var used := cli.statements;
      FreeStatement(stmt);
      StayTwice(before, made, used, h, h, h);
      StayAfterFree(before, used, cli.statements, h);
    }

    // A statement that isn't for a cursor. Its handle is freed again.
    method Execute(m: Module, sql: Text, n: nat) returns (ghost during: State)
      requires Valid()
      modifies this`current, this`conns, this`owner, this`keys, da, cli
      ensures Valid() && da.Consistent() && SamePrepared(old(conns), conns)
      ensures connected ==> conns.Keys == old(conns).Keys
      ensures UsedBy(m) ==> Switched(old(Seen()), during, m) && RanOnce(during, Seen(), sql, n, false, da.sqlstate)
      ensures !UsedBy(m) ==> NotSwitched(old(Seen()), Seen(), da.sqlstate)
    {
      hide Good, FreedOnce, OthersStay, SlotsStay, OtherSlotsStay, NotSwitched, SchemaWasSet, WasOpenedTo;
      var c := Use(m);
      during := Seen();
      if c.Some? {
        ghost var h := RunOn(c.value, sql, n);
        assert WasSentOnNew(during.log, cli.log, c.value, h, sql, n, false, IsCompletion(da.sqlstate));
        BeganSame(old(conns), during.conns, conns, c.value);
      }
    }

    method Start(m: Module) returns (ghost during: State)
      requires Valid()
      modifies this`current, this`conns, this`owner, this`keys, da, cli
      ensures Valid() && da.Consistent() && SamePrepared(old(conns), conns)
      ensures connected ==> conns.Keys == old(conns).Keys
      ensures UsedBy(m) ==> Switched(old(Seen()), during, m) && Started(during, Seen(), da.sqlstate)
      ensures !UsedBy(m) ==> NotSwitched(old(Seen()), Seen(), da.sqlstate)
    {
      hide Good, FreedOnce, OthersStay, SlotsStay, OtherSlotsStay, NotSwitched, SchemaWasSet, WasOpenedTo;
      var c := Use(m);
      during := Seen();
      if c.Some? {
        StartOn(c.value);
        BeganSame(old(conns), during.conns, conns, c.value);
      }
    }

    method StartOn(c: Id)
      requires Inv({}, {}, {}) && current == Some(c)
      modifies this`conns, da, cli`records, cli`log
      ensures Inv({}, {}, {}) && da.Consistent() && Began(old(conns), conns, c) && c in old(conns)
      ensures conns == if IsCompletion(da.sqlstate) then WithActive(old(conns), c, true) else old(conns)
      ensures cli.log == old(cli.log) + [Request.StartTransaction(c, IsCompletion(da.sqlstate))]
    {
      var rc := cli.StartTran(c);
      Diag(rc, c);
      if !Failed(rc) {
        SetActive(c, true, {}, {});
      }
    }

    // COMMIT or ROLLBACK. The SQL-transaction isn't active any more, even if a COMMIT fails.
    method End(m: Module, commit: bool) returns (ghost during: State)
      requires Valid()
      modifies this`current, this`conns, this`owner, this`keys, da, cli
      ensures Valid() && da.Consistent() && SamePrepared(old(conns), conns)
      ensures connected ==> conns.Keys == old(conns).Keys
      ensures UsedBy(m) ==> Switched(old(Seen()), during, m) && Ended(during, Seen(), commit, da.sqlstate)
      ensures !UsedBy(m) ==> NotSwitched(old(Seen()), Seen(), da.sqlstate)
    {
      hide Good, FreedOnce, OthersStay, SlotsStay, OtherSlotsStay, NotSwitched, SchemaWasSet, WasOpenedTo;
      var c := Use(m);
      during := Seen();
      if c.Some? {
        EndOn(c.value, commit);
      }
    }

    method EndOn(c: Id, commit: bool)
      requires Inv({}, {}, {}) && current == Some(c)
      modifies this`conns, da, cli`statements, cli`records, cli`log
      ensures Inv({}, {}, {}) && da.Consistent()
      ensures OthersStay(old(cli.statements), cli.statements, 0)
      ensures c in old(conns) && conns == WithActive(old(conns), c, false)
      ensures old(conns)[c].active && commit && da.sqlstate == SUCCESSFUL ==> da.committed
      ensures old(conns)[c].active && !commit ==> da.rolledBack
      ensures old(conns)[c].active && commit && !da.committed ==>
        (da.rolledBack <==> old(da.rolledBack) || IsRollback(da.sqlstate))
      ensures !old(conns)[c].active ==> da.committed == old(da.committed) && da.rolledBack == old(da.rolledBack)
      ensures cli.log == old(cli.log) + [Request.EndTransaction(c, commit, IsCompletion(da.sqlstate))]
    {
      hide Good, FreedOnce, OthersStay, SlotsStay, OtherSlotsStay;
      var rc := EndTran(c, commit);
      Diag(rc, c);
      if conns[c].active && commit && !Failed(rc) {
        da.committed := true;
      } else if conns[c].active && (!commit || IsRollback(da.sqlstate)) {
        da.rolledBack := true;
      }
      SetActive(c, false, {}, {});
    }

    method EndTran(c: Id, commit: bool) returns (rc: ReturnCode)
      requires Inv({}, {}, {}) && c in conns
      modifies cli`statements, cli`records, cli`log
      ensures Inv({}, {}, {}) && (Failed(rc) ==> rc.Error?) && OthersStay(old(cli.statements), cli.statements, 0)
      ensures Tells(rc, cli.RecordsOf(c)) && cli.log == old(cli.log) + [Request.EndTransaction(c, commit, !Failed(rc))]
    {
      ghost var s := Now();
      rc := cli.EndTran(c, commit);
      Stay(s.statements, cli.statements, 0);
      AfterUse(s, cli.statements, 0, {}, {}, {});
      assert Now() == s.(statements := cli.statements);
    }

    method Cursors(c: Id, m: Module)
      requires Inv({}, {}, {}) && c in conns
      modifies this`conns
      ensures Inv({}, {}, {}) && conns == WithCursors(old(conns), c, m) && m in conns[c].cursors
    {
      if m !in conns[c].cursors {
        ghost var s := Now();
        AfterModule(s, c, m, {}, {}, {});
        conns := WithCursors(conns, c, m);
        assert Now() == s.(conns := conns);
      }
    }

    ghost predicate Holds(c: Id, m: Module, i: nat, h: Handle)
      reads this`conns
    {
      c in conns && m in conns[c].cursors && i < |conns[c].cursors[m]| && conns[c].cursors[m][i] == h
    }

    // A statement is allocated for a slot that is empty.
    method FillSlot(c: Id, m: Module, i: nat) returns (rc: ReturnCode, h: Handle)
      requires Inv({}, {}, {}) && c in conns && i < |m.cursors|
      requires m in conns[c].cursors && i < |conns[c].cursors[m]| && conns[c].cursors[m][i] == 0
      modifies this`conns, this`owner, cli`statements, cli`issued, cli`last, cli`records, cli`log
      ensures Failed(rc) ==>
        && rc.Error? && !Reports(cli.RecordsOf(c), SEQUENCE_ERROR) && !Reports(cli.RecordsOf(c), INVALID_CURSOR_STATE)
      ensures Failed(rc) ==> Inv({}, {}, {}) && conns == old(conns)
      ensures !Failed(rc) ==>
        && Inv({}, {}, {h}) && h != 0 && conns == SetSlot(old(conns), c, m, i, h)
        && Holds(c, m, i, h) && h in cli.statements && cli.statements[h].phase.Allocated? && cli.statements[h].dbc == c
      ensures OthersStay(old(cli.statements), cli.statements, h)
      ensures Failed(rc) ==> cli.statements == old(cli.statements) && Tells(rc, cli.RecordsOf(c))
      ensures cli.log == if Failed(rc) then old(cli.log) + [Request.NoStatement(c)] else old(cli.log)
    {
      hide Good, FreedOnce, OthersStay, SlotsStay, OtherSlotsStay;
      rc, h := AllocStatement(c);
      if !Failed(rc) {
        ghost var s := Now();
        AfterFill(s, c, m, i, h, {}, {h}, {});
        assert {h} - {h} == {} && {} + {h} == {h};
        SetSlotIs(conns, c, m, i, h);
        conns := SetSlot(conns, c, m, i, h);
        owner := owner[h := Slot(c, m, i)];
        assert Now() == s.(owner := owner, conns := conns);
      }
    }

    // A statement with the name and holdability of the cursor.
    method NewCursor(c: Id, m: Module, i: nat, name: string, hold: bool) returns (h: Handle, ghost tried: Handle)
      requires Inv({}, {}, {}) && c in conns && i < |m.cursors|
      requires m in conns[c].cursors && i < |conns[c].cursors[m]| && conns[c].cursors[m][i] == 0
      modifies this`conns, this`owner, da, cli`statements, cli`freed, cli`issued, cli`last, cli`records, cli`log
      ensures h == 0 ==> Inv({}, {}, {}) && conns == old(conns)
      ensures h == 0 ==> da.Consistent() && IsOtherException(da.sqlstate)
      ensures h != 0 ==>
        && Inv({}, {}, {h}) && Holds(c, m, i, h) && Mine(h, {}, {h})
        && Keeps(old(conns), conns, c) && OtherSlotsStay(old(conns), conns, c, m, i)
        && SlotOf(conns, Some(c), m, i) == h
        && cli.statements[h].phase.Allocated? && cli.statements[h].dbc == c
      ensures OthersStay(old(cli.statements), cli.statements, h)
      ensures WasNamed(old(cli.log), cli.log, c, tried, name, hold, h != 0) && (h != 0 ==> h == tried)
    {
      hide OthersStay, OtherSlotsStay, WasNamed, Reports;
      ghost var before := cli.statements;
      StaySame(before, 0);
      var rc;
      rc, h := FillSlot(c, m, i);
      tried := h;
      if Failed(rc) {
        NotNamed(old(cli.log), c, tried, name, hold);
        assert cli.log == old(cli.log) + [Request.NoStatement(c)];
        Diag(rc, c);
        return 0, tried;
      }
      SetSlotTwice(old(conns), c, m, i, h);
      SetSlotKeeps(old(conns), c, m, i, h);
      SlotAt(Now(), c, m, i, {}, {}, {h});
      ghost var filled, slot := cli.statements, h;
      h := SetCursorAttributes(c, m, i, h, name, hold);
      if h == 0 {
        StayAfterFree(before, filled, cli.statements, slot);
      }
    }

    method SetCursorAttributes(c: Id, m: Module, i: nat, h: Handle, name: string, hold: bool) returns (r: Handle)
      requires Inv({}, {}, {h}) && Holds(c, m, i, h) && i < |m.cursors|
      requires h != 0 && h in cli.statements && cli.statements[h].phase.Allocated?
      modifies this`conns, this`owner, da, cli`statements, cli`freed, cli`records, cli`log
      ensures r != 0 ==> r == h && Inv({}, {}, {h}) && conns == old(conns) && cli.statements == old(cli.statements)
      ensures r == 0 ==> Inv({}, {}, {}) && conns == SetSlot(old(conns), c, m, i, 0)
      ensures r == 0 ==> da.Consistent() && IsOtherException(da.sqlstate)
      ensures r == 0 ==> OthersStay(old(cli.statements), cli.statements, 0) && h !in cli.statements
      ensures WasNamed(old(cli.log), cli.log, c, h, name, hold, r != 0)
    {
      hide Good, FreedOnce, OthersStay, SlotsStay, OtherSlotsStay;
      var rc := cli.SetCursorName(h, name);
      if !Failed(rc) {
        rc := cli.SetHoldable(h, hold);
      }
      if !Failed(rc) {
        return h;
      }
      Diag(rc, h);
      EmptySlot(c, m, i, h);
      return 0;
    }

    // A cursor that can't be opened has no statement, so a FETCH is an invalid cursor state
    // instead of a sequence error.
    method EmptySlot(c: Id, m: Module, i: nat, h: Handle)
      requires Inv({}, {}, {h}) && Holds(c, m, i, h) && h != 0 && i < |m.cursors|
      modifies this`conns, this`owner, cli`statements, cli`freed
      ensures Inv({}, {}, {}) && c in old(conns) && m in old(conns)[c].cursors && i < |old(conns)[c].cursors[m]|
      ensures conns == SetSlot(old(conns), c, m, i, 0)
      ensures Keeps(old(conns), conns, c)
      ensures SlotOf(conns, Some(c), m, i) == 0
      ensures OtherSlotsStay(old(conns), conns, c, m, i)
      ensures OthersStay(old(cli.statements), cli.statements, 0) && h !in cli.statements
    {
      SetSlotKeeps(conns, c, m, i, 0);
      FreeSlot(c, m, i, {}, {}, {h});
      assert {h} - {h} == {};
    }

    // Only OPEN (which has a name) makes a statement for a cursor that has none. FETCH and CLOSE are
    // an invalid cursor state then.
    method CursorOn(c: Id, m: Module, i: nat, name: Option<string>, hold: bool)
      returns (h: Handle, ghost fresh_: bool, ghost tried: Handle)
      requires Inv({}, {}, {}) && c in conns && i < |m.cursors|
      modifies this`conns, this`owner, da, cli`statements, cli`freed, cli`issued, cli`last, cli`records, cli`log
      ensures h == 0 ==>
        && Inv({}, {}, {}) && da.Consistent() && !IsCompletion(da.sqlstate)
        && da.sqlstate != SEQUENCE_ERROR
      ensures h != 0 ==> Inv({}, {}, {h})
      ensures h != 0 && !fresh_ ==> Inv({}, {}, {}) && cli.statements == old(cli.statements)
      ensures h != 0 ==>
        && h in cli.statements
        && (if fresh_ then cli.statements[h].phase.Allocated? else cli.statements[h].QueryExecuted())
        && cli.statements[h].dbc == c
      ensures var s := SlotOf(old(conns), Some(c), m, i);
        && (if h == 0 || fresh_ then s == 0 else s == h)
        && (s != 0 ==> conns == old(conns))
      ensures Keeps(old(conns), conns, c) && OtherSlotsStay(old(conns), conns, c, m, i)
      ensures SlotOf(conns, Some(c), m, i) == h
      ensures name.None? ==> !fresh_
      ensures h == 0 ==> (da.sqlstate == INVALID_CURSOR_STATE <==> name.None?)
      ensures fresh_ ==> h != 0
      ensures h != 0 ==> Mine(h, {}, {h}) && Holds(c, m, i, h)
      ensures OthersStay(old(cli.statements), cli.statements, h)
      ensures name.None? ==> cli.statements == old(cli.statements)
      ensures h != 0 ==> tried == h
      ensures if SlotOf(old(conns), Some(c), m, i) == 0 && name.Some?
              then WasNamed(old(cli.log), cli.log, c, tried, name.value, hold, h != 0)
        else cli.log == old(cli.log)
    {
      hide Good, FreedOnce, OthersStay, SlotsStay, OtherSlotsStay;
      CursorsKeep(conns, c, m, i);
      Cursors(c, m);
      SlotCount(Now(), c, m, {}, {}, {});
      h, fresh_ := conns[c].cursors[m][i], false;
      tried := h;
      StaySame(cli.statements, h);
      if h != 0 {
        SlotAt(Now(), c, m, i, {}, {}, {});
        Pend(Now(), h);
        return;
      }
      if name.None? {
        Status(INVALID_CURSOR_STATE);
        return;
      }
      ghost var during := conns;
      h, tried := NewCursor(c, m, i, name.value, hold);
      if h != 0 {
        OtherSlotsTwice(old(conns), during, conns, c, m, i);
      }
      fresh_ := h != 0;
    }

    // The cursor isn't being opened any more.
    lemma Opened(h: Handle)
      requires Inv({}, {}, {h}) && h in cli.statements && cli.statements[h].QueryExecuted()
      ensures Inv({}, {}, {})
    {
      AfterOpened(Now(), h, {}, {}, {h});
      assert {h} - {h} == {};
    }

    method OpenCursorOn(c: Id, m: Module, i: nat, name: string, hold: bool, sql: Text, n: nat)
      returns (ok: bool, ghost stmt: Handle)
      requires Inv({}, {}, {}) && current == Some(c) && i < |m.cursors| && cli.isQuery(sql)
      modifies this`conns, this`owner, da, cli`statements, cli`freed, cli`issued, cli`last, cli`records, cli`log
      ensures Inv({}, {}, {}) && c in old(conns) && da.Consistent() && Keeps(old(conns), conns, c)
      ensures ok ==> IsOpen(cli.statements, SlotOf(conns, current, m, i))
      ensures ok <==> IsCompletion(da.sqlstate)
      ensures OtherSlotsStay(old(conns), conns, c, m, i)
      ensures OthersStay(old(cli.statements), cli.statements, SlotOf(conns, current, m, i))
      ensures var h := SlotOf(old(conns), current, m, i);
        if IsOpen(old(cli.statements), h) then
          && !ok && da.sqlstate == INVALID_CURSOR_STATE && conns == old(conns)
          && cli.statements == old(cli.statements) && cli.log == old(cli.log)
        else
          da.sqlstate != INVALID_CURSOR_STATE && (!ok ==> SlotOf(conns, current, m, i) == 0)
      ensures !IsOpen(old(cli.statements), SlotOf(old(conns), current, m, i)) ==>
        WasOpened(old(cli.log), cli.log, c, stmt, SlotOf(old(conns), current, m, i) == 0, name, hold, sql, n, false, ok)
      ensures ok ==> stmt == SlotOf(conns, current, m, i) && conns[c].active
    {
      hide Good, FreedOnce, OthersStay, SlotsStay, OtherSlotsStay, Keeps, Began;
      ghost var first := cli.statements;
      ghost var log := cli.log;
      var h;
      ghost var f;
      h, f, stmt := CursorOn(c, m, i, Some(name), hold);
      if h == 0 {
        return false, stmt;
      }
      ghost var before, found := conns, cli.statements;
      ok := Exec(c, h, sql, n, {}, {h});
      BeganKeeps(before, conns, c, m, i);
      KeepsTwice(old(conns), before, conns, c);
      OtherSlotsTwice(old(conns), before, conns, c, m, i);
      StayTwice(first, found, cli.statements, h, h, h);
      if !ok && da.sqlstate != INVALID_CURSOR_STATE {
        ghost var during, used := conns, cli.statements;
        assert Holds(c, m, i, h);
        EmptySlot(c, m, i, h);
        KeepsTwice(old(conns), during, conns, c);
        OtherSlotsTwice(old(conns), during, conns, c, m, i);
        StayAfterFree(first, used, cli.statements, h);
      } else {
        Opened(h);
      }
    }

    method OpenCursor(m: Module, i: nat, name: string, hold: bool, sql: Text, n: nat) returns (ghost during: State)
      requires Valid() && i < |m.cursors| && cli.isQuery(sql)
      modifies this`current, this`conns, this`owner, this`keys, da, cli
      ensures Valid() && da.Consistent() && SamePrepared(old(conns), conns)
      ensures connected ==> conns.Keys == old(conns).Keys
      ensures UsedBy(m) ==>
        && Switched(old(Seen()), during, m)
        && CursorOpened(during, Seen(), m, i, name, hold, sql, n, SUCCESSFUL, da.sqlstate)
      ensures !UsedBy(m) ==> NotSwitched(old(Seen()), Seen(), da.sqlstate)
    {
      hide Good, FreedOnce, OthersStay, SlotsStay, OtherSlotsStay, NotSwitched, SchemaWasSet, WasOpenedTo;
      var c := Use(m);
      during := Seen();
      if c.Some? {
        var ok;
        ghost var h;
        ok, h := OpenCursorOn(c.value, m, i, name, hold, sql, n);
        KeepsPrepared(during.conns, conns, c.value);
        if !IsOpen(during.statements, StatementOf(during, m, i)) {
          assert OpenedBy(during, Seen(), m, i, h, name, hold, sql, n, SUCCESSFUL, da.sqlstate);
          assert OnlyCursor(during, Seen(), m, i);
        }
      }
    }

    method FetchStatement(h: Handle, ghost running: set<Handle>) returns (rc: ReturnCode)
      requires Inv({}, running, {}) && h in cli.statements
      modifies cli`statements, cli`records, cli`log
      ensures Inv({}, running, {}) && !rc.IndicatorOverflow?
      ensures h in cli.statements
      ensures var s := old(cli.statements)[h];
        && (if s.phase.Open? then cli.statements[h] == s.(phase := Phase.Open(!Failed(rc)))
            else cli.statements == old(cli.statements))
        && (s.phase.Open? && rc.Error? ==>
              !Reports(cli.RecordsOf(h), SEQUENCE_ERROR) && !Reports(cli.RecordsOf(h), INVALID_CURSOR_STATE))
        && (!s.phase.Open? ==> rc.Error?)
        && (s.phase.Closed? || s.phase.Executed? ==> Reports(cli.RecordsOf(h), INVALID_CURSOR_STATE))
      ensures OthersStay(old(cli.statements), cli.statements, h)
      ensures OnlyStatement(old(cli.statements), cli.statements, h)
      ensures Tells(rc, cli.RecordsOf(h)) && cli.log == old(cli.log) + [Request.Fetch(h, !Failed(rc))]
    {
      hide Good, FreedOnce, OthersStay;
      ghost var s := Now();
      rc := cli.Fetch(h);
      Stay(s.statements, cli.statements, h);
      AfterUse(s, cli.statements, h, {}, running, {});
      assert Now() == s.(statements := cli.statements);
    }

    method CloseStatement(h: Handle) returns (rc: ReturnCode)
      requires Inv({}, {}, {}) && h in cli.statements
      modifies cli`statements, cli`records
      ensures Inv({}, {}, {})
      ensures h in cli.statements
      ensures var s := old(cli.statements)[h];
        && (if s.phase.Open? then rc.Success? && cli.statements[h] == s.(phase := Closed)
            else rc.Error? && cli.statements == old(cli.statements))
        && (s.phase.Closed? || s.phase.Executed? ==> Reports(cli.RecordsOf(h), INVALID_CURSOR_STATE))
      ensures OthersStay(old(cli.statements), cli.statements, 0)
      ensures OnlyStatement(old(cli.statements), cli.statements, h)
    {
      hide Good, FreedOnce;
      ghost var s := Now();
      rc := cli.CloseCursor(h);
      AfterUse(s, cli.statements, h, {}, {}, {});
      assert Now() == s.(statements := cli.statements);
    }

    // The values of the row that was fetched are assigned, until one fails.
    method AssignRow(h: Handle, fetched: ReturnCode, n: nat) returns (rc: ReturnCode, truncated: bool)
      requires cli.Valid() && h in cli.statements
      requires !Failed(fetched) ==> cli.statements[h].phase == Phase.Open(true)
      modifies cli`records, cli`log
      ensures cli.Valid()
      ensures Failed(fetched) ==> rc == fetched && cli.records == old(cli.records)
      ensures !Failed(fetched) ==>
        && !rc.NoData?
        && (rc.Error? ==>
          && !Reports(cli.RecordsOf(h), SEQUENCE_ERROR)
          && !Reports(cli.RecordsOf(h), INVALID_CURSOR_STATE))
      ensures Failed(fetched) ==> cli.log == old(cli.log)
      ensures !Failed(fetched) ==>
        && WereAssigned(old(cli.log), cli.log, h, n, !Failed(rc), truncated)
        && (Failed(rc) ==> Tells(rc, cli.RecordsOf(h)))
    {
      BindsNone(h);
      rc, truncated := fetched, false;
      ghost var cuts: seq<bool> := [];
      var i := 0;
      while i < n && !Failed(rc)
        invariant cli.Valid() && i <= n && (Failed(fetched) ==> cli.log == old(cli.log))
        invariant !Failed(fetched) ==>
          if Failed(rc) then AssignedWith(old(cli.log), cli.log, h, n, false, cuts) && Tells(rc, cli.RecordsOf(h))
          else AssignedWith(old(cli.log), cli.log, h, i, true, cuts) && (truncated <==> true in cuts)
        invariant Failed(fetched) ==> rc == fetched && cli.records == old(cli.records)
        invariant !Failed(fetched) ==>
          && !rc.NoData?
          && (rc.Error? ==>
            && !Reports(cli.RecordsOf(h), SEQUENCE_ERROR)
            && !Reports(cli.RecordsOf(h), INVALID_CURSOR_STATE))
      {
        rc := cli.GetColumn(h, i + 1);
        if !Failed(rc) {
          GetsMore(h, cuts, rc.SuccessWithInfo?);
          cuts := cuts + [rc.SuccessWithInfo?];
        }
        if rc.SuccessWithInfo? {
          truncated := true;
        }
        i := i + 1;
      }
    }

    // The cursor is moved to its next row, whose values are assigned unless there is a different
    // number of columns.
    method FetchRow(h: Handle, n: nat) returns (rc: ReturnCode, mismatch: bool, truncated: bool)
      requires Inv({}, {}, {}) && h in cli.statements && cli.statements[h].QueryExecuted()
      modifies cli`statements, cli`records, cli`log
      ensures Inv({}, {}, {})
      ensures if old(cli.statements)[h].phase.Open?
        then rc.Error? ==>
          && !Reports(cli.RecordsOf(h), SEQUENCE_ERROR)
          && !Reports(cli.RecordsOf(h), INVALID_CURSOR_STATE)
        else rc.Error? && Reports(cli.RecordsOf(h), INVALID_CURSOR_STATE)
      ensures mismatch ==> !Failed(rc)
      ensures OthersStay(old(cli.statements), cli.statements, h)
      ensures h in cli.statements && (cli.statements[h].phase.Open? <==> old(cli.statements)[h].phase.Open?)
      ensures OnlyStatement(old(cli.statements), cli.statements, h)
      ensures if !old(cli.statements)[h].phase.Open? then cli.log == old(cli.log) + [Request.Fetch(h, false)]
        else
          || (!mismatch && Failed(rc) && cli.log == old(cli.log) + [Request.Fetch(h, false)])
          || (mismatch && n != old(cli.statements)[h].columns && cli.log == old(cli.log) + [Request.Fetch(h, true)])
          || (!mismatch && n == old(cli.statements)[h].columns
              && WereAssigned(old(cli.log) + [Request.Fetch(h, true)], cli.log, h, n, !Failed(rc), truncated))
      ensures Failed(rc) ==> Tells(rc, cli.RecordsOf(h))
    {
      hide Good, FreedOnce, OthersStay, SlotsStay, OtherSlotsStay;
      mismatch, truncated := false, false;
      rc := FetchStatement(h, {});
      if !Failed(rc) {
        var r, columns := cli.NumResultCols(h);
        if columns != n {
          mismatch := true;
          return;
        }
      }
      ghost var fetched := cli.log;
      rc, truncated := AssignRow(h, rc, n);
    }

    method FetchFrom(h: Handle, n: nat) returns (done: bool)
      requires Inv({}, {}, {}) && h in cli.statements && cli.statements[h].QueryExecuted()
      modifies da, cli`statements, cli`records, cli`log
      ensures Inv({}, {}, {}) && da.Consistent() && da.sqlstate != SEQUENCE_ERROR
      ensures da.sqlstate == INVALID_CURSOR_STATE <==> !old(cli.statements)[h].phase.Open?
      ensures done ==> da.sqlstate == SUCCESSFUL || da.sqlstate == RIGHT_TRUNCATION
      ensures OthersStay(old(cli.statements), cli.statements, h)
      ensures h in cli.statements && (cli.statements[h].phase.Open? <==> old(cli.statements)[h].phase.Open?)
      ensures OnlyStatement(old(cli.statements), cli.statements, h)
      ensures var columns := old(cli.statements)[h].columns;
        if !old(cli.statements)[h].phase.Open? then !done && cli.log == old(cli.log) + [Request.Fetch(h, false)]
        else RowFetched(old(cli.log), cli.log, h, columns, Targets(n).Status(columns), done, da.sqlstate)
    {
      hide Good, FreedOnce, OthersStay, SlotsStay, OtherSlotsStay;
      var rc, mismatch, truncated := FetchRow(h, n);
      done := !Failed(rc) && !mismatch;
      if Failed(rc) {
        Diag(rc, h);
      } else {
        Status(if mismatch then OUTPUT_MISMATCH else if truncated then RIGHT_TRUNCATION else SUCCESSFUL);
      }
    }

    method FetchOn(c: Id, m: Module, i: nat, n: nat) returns (done: bool)
      requires Inv({}, {}, {}) && current == Some(c) && i < |m.cursors|
      modifies this`conns, this`owner, da, cli`statements, cli`freed, cli`issued, cli`last, cli`records, cli`log
      ensures Inv({}, {}, {}) && Keeps(old(conns), conns, c) && da.Consistent()
      ensures da.sqlstate != SEQUENCE_ERROR
      ensures da.sqlstate == INVALID_CURSOR_STATE <==> !IsOpen(old(cli.statements), SlotOf(old(conns), current, m, i))
      ensures done ==> da.sqlstate == SUCCESSFUL || da.sqlstate == RIGHT_TRUNCATION
      ensures SlotOf(conns, current, m, i) == SlotOf(old(conns), current, m, i)
      ensures OthersStay(old(cli.statements), cli.statements, SlotOf(conns, current, m, i))
      ensures OtherSlotsStay(old(conns), conns, c, m, i)
      ensures IsOpen(cli.statements, SlotOf(conns, current, m, i)) <==>
              IsOpen(old(cli.statements), SlotOf(conns, current, m, i))
      ensures OnlyStatement(old(cli.statements), cli.statements, SlotOf(conns, current, m, i))
      ensures var h := SlotOf(old(conns), current, m, i);
        if h == 0 then !done && cli.log == old(cli.log)
        else
          h in old(cli.statements) &&
          var columns := old(cli.statements)[h].columns;
          if !old(cli.statements)[h].phase.Open? then !done && cli.log == old(cli.log) + [Request.Fetch(h, false)]
          else RowFetched(old(cli.log), cli.log, h, columns, Targets(n).Status(columns), done, da.sqlstate)
    {
      hide Good, FreedOnce, OthersStay, SlotsStay, OtherSlotsStay;
      ghost var before := cli.statements;
      var h, f, _ := CursorOn(c, m, i, None, false);
      if h == 0 {
        return false;
      }
      ghost var found := cli.statements;
      done := FetchFrom(h, n);
      StayTwice(before, found, cli.statements, h, h, h);
    }

    // FETCH is an invalid cursor state unless the cursor is open, and never a sequence error.
    method Fetch(m: Module, i: nat, n: nat) returns (done: bool, ghost during: State)
      requires Valid() && i < |m.cursors|
      modifies this`current, this`conns, this`owner, this`keys, da, cli
      ensures Valid() && da.Consistent() && SamePrepared(old(conns), conns)
      ensures connected ==> conns.Keys == old(conns).Keys
      ensures da.sqlstate != SEQUENCE_ERROR
      ensures UsedBy(m) ==>
        && Switched(old(Seen()), during, m)
        && Fetched(during, Seen(), m, i, Targets(n).Status(ColumnsOf(during, m, i)), done, da.sqlstate)
      ensures !UsedBy(m) ==> NotSwitched(old(Seen()), Seen(), da.sqlstate)
      ensures done ==> da.sqlstate == SUCCESSFUL || da.sqlstate == RIGHT_TRUNCATION
    {
      hide Good, FreedOnce, OthersStay, SlotsStay, OtherSlotsStay;
      var c := Use(m);
      during := Seen();
      if c.None? {
        return false, during;
      }
      done := FetchOn(c.value, m, i, n);
      KeepsPrepared(during.conns, conns, c.value);
      assert OnlyCursor(during, Seen(), m, i);
    }

    method CloseFrom(h: Handle)
      requires Inv({}, {}, {}) && h in cli.statements && cli.statements[h].QueryExecuted()
      modifies da, cli`statements, cli`records
      ensures Inv({}, {}, {}) && da.Consistent()
      ensures da.sqlstate == if old(cli.statements)[h].phase.Open? then SUCCESSFUL else INVALID_CURSOR_STATE
      ensures !IsOpen(cli.statements, h)
      ensures OthersStay(old(cli.statements), cli.statements, 0)
      ensures OnlyStatement(old(cli.statements), cli.statements, h)
    {
      hide Good, FreedOnce, OthersStay, SlotsStay, OtherSlotsStay;
      var rc := CloseStatement(h);
      Diag(rc, h);
    }

    method CloseCursorOn(c: Id, m: Module, i: nat)
      requires Inv({}, {}, {}) && current == Some(c) && i < |m.cursors|
      modifies this`conns, this`owner, da, cli`statements, cli`freed, cli`issued, cli`last, cli`records, cli`log
      ensures Inv({}, {}, {}) && Keeps(old(conns), conns, c) && da.Consistent()
      ensures da.sqlstate == if IsOpen(old(cli.statements), SlotOf(old(conns), current, m, i)) then SUCCESSFUL
                             else INVALID_CURSOR_STATE
      ensures SlotOf(conns, current, m, i) == SlotOf(old(conns), current, m, i)
      ensures !IsOpen(cli.statements, SlotOf(conns, current, m, i))
      ensures OthersStay(old(cli.statements), cli.statements, SlotOf(conns, current, m, i))
      ensures OtherSlotsStay(old(conns), conns, c, m, i)
      ensures OnlyStatement(old(cli.statements), cli.statements, SlotOf(conns, current, m, i))
      ensures cli.log == old(cli.log)
    {
      hide Good, FreedOnce, OthersStay, SlotsStay, OtherSlotsStay;
      ghost var before := cli.statements;
      var h, f, _ := CursorOn(c, m, i, None, false);
      if h != 0 {
        ghost var found := cli.statements;
        CloseFrom(h);
        StayTwice(before, found, cli.statements, h, 0, h);
      }
    }

    method CloseCursor(m: Module, i: nat) returns (ghost during: State)
      requires Valid() && i < |m.cursors|
      modifies this`current, this`conns, this`owner, this`keys, da, cli
      ensures Valid() && da.Consistent() && SamePrepared(old(conns), conns)
      ensures connected ==> conns.Keys == old(conns).Keys
      ensures da.sqlstate != SEQUENCE_ERROR
      ensures UsedBy(m) ==> Switched(old(Seen()), during, m) && CursorClosed(during, Seen(), m, i, da.sqlstate)
      ensures !UsedBy(m) ==> NotSwitched(old(Seen()), Seen(), da.sqlstate)
    {
      hide Good, FreedOnce, OthersStay, SlotsStay, OtherSlotsStay;
      var c := Use(m);
      during := Seen();
      if c.Some? {
        CloseCursorOn(c.value, m, i);
        KeepsPrepared(during.conns, conns, c.value);
        assert OnlyCursor(during, Seen(), m, i);
      }
    }

    // A connection name or user name, which is empty if it isn't an identifier.
    method ReadName(s: string) returns (name: string)
      requires '\0' !in s
      ensures name == Names.ParseName(s)
    {
      var buffer := new char[Names.MAX + 1];
      Names.Name(buffer, s);
      name := Names.CString(buffer[..]);
    }

    method Find(key: Key) returns (r: Option<Id>)
      ensures r.Some? ==> r.value in conns && KeyOf(conns[r.value]) == key
      ensures r.None? ==> forall c | c in conns :: KeyOf(conns[c]) != key
    {
      var rest := conns.Keys;
      while rest != {}
        invariant rest <= conns.Keys
        invariant forall c | c in conns && c !in rest :: KeyOf(conns[c]) != key
      {
        var c :| c in rest;
        if KeyOf(conns[c]) == key {
          return Some(c);
        }
        rest := rest - {c};
      }
      return None;
    }

    // CONNECT and SET CONNECTION are refused if the current SQL-connection is active.
    method Switch() returns (ok: bool)
      requires Valid()
      modifies this`connected, da
      ensures Valid() && connected
      ensures ok ==> forall c | c in conns :: !conns[c].active
      ensures !ok <==> current.Some? && conns[current.value].active
      ensures !ok ==> da.Consistent() && da.sqlstate == MULTIPLE_TRANSACTIONS
    {
      connected := true;
      if current.Some? && conns[current.value].active {
        Status(MULTIPLE_TRANSACTIONS);
        return false;
      }
      return true;
    }

    method ConnectNew(m: Module, server: string, user: Option<string>, key: Key) returns (ok: bool)
      requires Valid() && connected && key != Key.Name("")
      requires forall c | c in conns :: !conns[c].active && KeyOf(conns[c]) != key
      modifies this`current, this`conns, this`owner, this`keys, da, cli
      ensures Valid()
      ensures ok ==>
        && current.Some? && current.value !in old(conns) && current.value in conns
        && KeyOf(conns[current.value]) == key && conns[current.value].server == server
        && conns - {current.value} == old(conns)
        && conns[current.value].cursors == map[] && conns[current.value].prepared == []
      ensures !ok ==> conns == old(conns) && current == old(current) && da.Consistent() && da.sqlstate != SUCCESSFUL
      ensures OthersStay(old(cli.statements), cli.statements, 0)
      ensures OnlySession(old(cli.log), cli.log)
      ensures ok ==> WasOpenedTo(old(cli.log), cli.log, current.value, server, user, m.id)
      ensures !ok ==> IsOtherException(da.sqlstate)
      ensures !ok ==> SomeFailed(old(cli.log), cli.log)
    {
      hide Good, FreedOnce, OthersStay, SlotsStay, OtherSlotsStay;
      var c := OpenAs(m, server, user, key);
      ok := c.Some?;
      if ok {
        WithWithout(old(conns), c.value, conns[c.value], conns[c.value]);
      }
    }

    method ConnectAs(m: Module, server: string, user: Option<string>, key: Key)
      requires Valid() && connected && key != Key.Name("")
      requires forall c | c in conns :: !conns[c].active
      modifies this`current, this`conns, this`owner, this`keys, da, cli
      ensures Valid() && da.Consistent()
      ensures (exists c :: c in old(conns) && KeyOf(old(conns)[c]) == key) ==> da.sqlstate == NAME_IN_USE
      ensures if da.sqlstate == SUCCESSFUL
        then current.Some? && current.value !in old(conns) && current.value in conns
             && KeyOf(conns[current.value]) == key && conns[current.value].server == server
             && conns - {current.value} == old(conns)
             && conns[current.value].cursors == map[] && conns[current.value].prepared == []
        else conns == old(conns) && current == old(current)
      ensures OthersStay(old(cli.statements), cli.statements, 0)
      ensures OnlySession(old(cli.log), cli.log)
      ensures da.sqlstate == SUCCESSFUL ==> WasOpenedTo(old(cli.log), cli.log, current.value, server, user, m.id)
      ensures if HasKey(old(conns), key) then da.sqlstate == NAME_IN_USE && cli.log == old(cli.log)
        else da.sqlstate == SUCCESSFUL || (IsOtherException(da.sqlstate) && SomeFailed(old(cli.log), cli.log))
    {
      hide Good, FreedOnce, OthersStay, SlotsStay, OtherSlotsStay;
      StaySame(cli.statements, 0);
      var found := Find(key);
      if found.Some? {
        Status(NAME_IN_USE);
      } else {
        var ok := ConnectNew(m, server, user, key);
        if ok {
          Status(SUCCESSFUL);
        }
      }
    }

    // CONNECT TO. There is no server for CONNECT TO DEFAULT.
    method ConnectTo(m: Module, server: Option<string>, name: Option<string>, user: Option<string>)
      requires Valid()
      requires (server.Some? ==> '\0' !in server.value) && (name.Some? ==> '\0' !in name.value)
      requires user.Some? ==> '\0' !in user.value
      modifies this`current, this`connected, this`conns, this`owner, this`keys, da, cli
      ensures Valid() && da.Consistent() && connected
      ensures old(current).Some? && old(conns)[old(current).value].active ==> da.sqlstate == MULTIPLE_TRANSACTIONS
      ensures if da.sqlstate == SUCCESSFUL
        then current.Some? && current.value !in old(conns) && current.value in conns
             && KeyOf(conns[current.value]) == NewKey(server, name)
             && conns - {current.value} == old(conns)
             && conns[current.value].cursors == map[] && conns[current.value].prepared == []
             && (forall c | c in old(conns) :: KeyOf(old(conns)[c]) != NewKey(server, name))
        else conns == old(conns) && current == old(current)
      ensures OthersStay(old(cli.statements), cli.statements, 0)
      ensures OnlySession(old(cli.log), cli.log)
      ensures da.sqlstate == SUCCESSFUL ==>
        WasOpenedTo(old(cli.log), cli.log, current.value, if server.None? then "DEFAULT" else server.value,
          if server.None? then None else user, m.id)
      ensures var refusal := ConnectRefusal(old(conns), old(current), server, name, user);
        if refusal != SUCCESSFUL then da.sqlstate == refusal && cli.log == old(cli.log)
        else da.sqlstate == SUCCESSFUL || (IsOtherException(da.sqlstate) && SomeFailed(old(cli.log), cli.log))
    {
      hide Good, FreedOnce, OthersStay, SlotsStay, OtherSlotsStay;
      StaySame(cli.statements, 0);
      var ok := Switch();
      if !ok {
        return;
      }
      if server.None? {
        ConnectAs(m, "DEFAULT", None, Default);
        return;
      }
      if user.Some? {
        var u := ReadName(user.value);
        if u == "" {
          Status(INVALID_AUTHORIZATION);
          return;
        }
      }
      var n := ReadName(if name.None? then server.value else name.value);
      if n == "" {
        Status(INVALID_CONNECTION_NAME);
        return;
      }
      ConnectAs(m, server.value, user, Key.Name(n));
    }

    // SET CONNECTION. There is no name for DEFAULT.
    method SetConnection(name: Option<string>)
      requires Valid() && (name.Some? ==> '\0' !in name.value)
      modifies this`current, this`connected, da
      ensures Valid() && da.Consistent() && connected
      ensures if da.sqlstate == SUCCESSFUL
        then current.Some? && current.value in conns && KeyOf(conns[current.value]) == FindKey(name)
        else current == old(current)
      ensures da.sqlstate == SUCCESSFUL <==>
        && !(old(current).Some? && conns[old(current).value].active)
        && exists c :: c in conns && KeyOf(conns[c]) == FindKey(name)
      ensures da.sqlstate == SetStatus(old(conns), old(current), name)
    {
      hide Good, FreedOnce, OthersStay, SlotsStay, OtherSlotsStay;
      var ok := Switch();
      if !ok {
        return;
      }
      var key := Default;
      if name.Some? {
        var n := ReadName(name.value);
        if n == "" {
          NoSuchKey(Now(), Key.Name(""));
          Status(INVALID_CONNECTION_NAME);
          return;
        }
        key := Key.Name(n);
      }
      var c := Find(key);
      if c.None? {
        Status(NO_CONNECTION);
        return;
      }
      ghost var s := Now();
      AfterCurrent(s, c.value);
      current := c;
      assert Now() == s.(current := current);
      Status(SUCCESSFUL);
    }

    method CloseAll()
      requires Inv({}, {}, {})
      modifies this`current, this`conns, this`owner, cli
      ensures Inv({}, {}, {}) && conns == map[] && current == None
      ensures cli.statements == map[] && cli.connections == {}
      ensures OnlySession(old(cli.log), cli.log) && forall c | c in old(conns) :: RolledBack(old(cli.log), cli.log, c)
    {
      ghost var log := cli.log;
      while conns != map[]
        invariant Inv({}, {}, {}) && OnlySession(log, cli.log)
        invariant forall c | c in old(conns) && c !in conns :: RolledBack(log, cli.log, c)
        decreases conns.Keys
      {
        hide Good, FreedOnce, OthersStay, SlotsStay, OtherSlotsStay;
        var c :| c in conns;
        assert {} - {c} == {};
        ghost var during := cli.log;
        Close(c, {});
        SessionTwice(log, during, cli.log);
        forall d | d in old(conns) && d !in conns ensures RolledBack(log, cli.log, d) {
          RolledBackLater(log, during, cli.log, d);
        }
      }
      NothingLeft(Now());
    }

    method DisconnectOne(c: Option<Id>)
      requires Valid() && connected && (c.Some? ==> c.value in conns)
      modifies this`current, this`conns, this`owner, da, cli
      ensures Valid() && da.Consistent()
      ensures if da.sqlstate == SUCCESSFUL
        then c.Some? && !old(conns)[c.value].active && conns == old(conns) - {c.value}
        else conns == old(conns) && current == old(current)
      ensures OthersStay(old(cli.statements), cli.statements, 0)
      ensures da.sqlstate == SUCCESSFUL ==> current == if old(current) == c then None else old(current)
      ensures OnlySession(old(cli.log), cli.log)
      ensures forall c | c in old(conns) && c !in conns :: RolledBack(old(cli.log), cli.log, c)
      ensures da.sqlstate ==
        if c.None? then NO_CONNECTION else if old(conns)[c.value].active then ACTIVE_TRANSACTION else SUCCESSFUL
    {
      hide Good, FreedOnce, OthersStay, SlotsStay, OtherSlotsStay;
      StaySame(cli.statements, 0);
      if c.None? {
        Status(NO_CONNECTION);
      } else if conns[c.value].active {
        Status(ACTIVE_TRANSACTION);
      } else {
        assert {} - {c.value} == {};
        Close(c.value, {});
        Status(SUCCESSFUL);
      }
    }

    method DisconnectAll()
      requires Valid() && connected
      modifies this`current, this`conns, this`owner, da, cli
      ensures Valid() && da.Consistent()
      ensures if da.sqlstate == SUCCESSFUL
        then conns == map[] && current == None && cli.statements == map[] && cli.connections == {}
        else conns == old(conns) && current == old(current)
      ensures OthersStay(old(cli.statements), cli.statements, 0)
      ensures OnlySession(old(cli.log), cli.log)
      ensures forall c | c in old(conns) && c !in conns :: RolledBack(old(cli.log), cli.log, c)
      ensures da.sqlstate ==
        if exists c :: c in old(conns) && old(conns)[c].active then ACTIVE_TRANSACTION else SUCCESSFUL
    {
      StaySame(cli.statements, 0);
      if current.Some? && conns[current.value].active {
        Status(ACTIVE_TRANSACTION);
      } else {
        CloseAll();
        Status(SUCCESSFUL);
      }
    }

    // DISCONNECT. Every SQL-connection that's closed must not be active.
    method Disconnect(which: Target)
      requires Valid() && (which.Named? ==> '\0' !in which.name)
      modifies this`current, this`connected, this`conns, this`owner, da, cli
      ensures Valid() && da.Consistent() && connected
      ensures da.sqlstate != SUCCESSFUL ==> conns == old(conns) && current == old(current)
      ensures da.sqlstate == SUCCESSFUL ==>
        if which.All? then conns == map[] && current == None && cli.statements == map[] && cli.connections == {}
        else exists c ::
          && which.Is(c, old(conns), old(current)) && !old(conns)[c].active && conns == old(conns) - {c}
          && current == if old(current) == Some(c) then None else old(current)
      ensures OthersStay(old(cli.statements), cli.statements, 0)
      ensures OnlySession(old(cli.log), cli.log)
      ensures forall c | c in old(conns) && c !in conns :: RolledBack(old(cli.log), cli.log, c)
      ensures da.sqlstate == DisconnectStatus(old(conns), old(current), which)
    {
      hide Good, FreedOnce, OthersStay, SlotsStay, OtherSlotsStay;
      StaySame(cli.statements, 0);
      connected := true;
      var c: Option<Id>;
      match which {
        case Named(name) =>
          var n := ReadName(name);
          if n == "" {
            Status(INVALID_CONNECTION_NAME);
            return;
          }
          c := Find(Key.Name(n));
        case TheDefault =>
          c := Find(Default);
        case TheCurrent =>
          c := current;
        case All =>
          DisconnectAll();
          return;
      }
      if c.Some? {
        OneTarget(Now(), which, c.value);
      }
      DisconnectOne(c);
    }

    // What is done when the program exits.
    method Exit()
      requires Valid()
      modifies this`current, this`conns, this`owner, da, cli
      ensures Valid() && conns == map[] && cli.statements == map[] && cli.connections == {}
      ensures forall c | c in old(conns) :: RolledBack(old(cli.log), cli.log, c)
    {
      CloseAll();
      da.Begin();
    }

    method FindPrepared(c: Id, m: Module, name: string) returns (k: nat)
      requires c in conns
      ensures k == IndexOf(conns[c].prepared, m, name)
    {
      ghost var l := conns[c].prepared;
      k := 0;
      while k < |conns[c].prepared| && !conns[c].prepared[k].Is(m, name)
        invariant k <= |l| && IndexOf(l, m, name) == k + IndexOf(l[k..], m, name)
      {
        assert l[k..][1..] == l[k + 1..];
        k := k + 1;
      }
    }

    // If a dynamic cursor that's declared for the name is open. Setting its holdability again
    // finds out, since that fails when it's open.
    method FindOpen(c: Id, m: Module, name: string) returns (found: bool, at: nat)
      requires cli.Valid() && c in conns && m in conns[c].cursors && |m.cursors| <= |conns[c].cursors[m]|
      requires forall i | 0 <= i < |m.cursors| && conns[c].cursors[m][i] != 0 ::
        conns[c].cursors[m][i] in cli.statements
      modifies cli`records
      ensures found <==> CursorOpen(conns[c], m, name, cli.statements)
      ensures found ==> at < |m.cursors| && OpenFor(conns[c], m, name, at, cli.statements)
    {
      at := 0;
      while at < |m.cursors|
        invariant at <= |m.cursors| && cli.Valid()
        invariant forall i | 0 <= i < at :: !OpenFor(conns[c], m, name, i, cli.statements)
      {
        var h := conns[c].cursors[m][at];
        if h != 0 && m.cursors[at].statement == Some(name) {
          var rc := cli.SetHoldableAgain(h);
          if Failed(rc) {
            assert OpenFor(conns[c], m, name, at, cli.statements);
            return true, at;
          }
        }
        at := at + 1;
      }
      return false, 0;
    }

    // A prepared statement is destroyed, unless a dynamic cursor that's declared for it is open.
    method Deallocate(c: Id, m: Module, name: string, k: nat) returns (ok: bool)
      requires Inv({}, {}, {}) && c in conns
      requires k < |conns[c].prepared| && k == IndexOf(conns[c].prepared, m, name)
      modifies this`conns, this`owner, da, cli`statements, cli`freed, cli`records
      ensures Inv({}, {}, {}) && KeepsSession(old(conns), conns, c)
      ensures OnlyPrepared(old(conns), conns, c, m, name)
      ensures Dropped(old(conns)[c], conns[c], m, name, old(cli.statements), cli.statements,
                      if ok then SUCCESSFUL else INVALID_CURSOR_STATE)
      ensures !ok ==> da.Consistent() && da.sqlstate == INVALID_CURSOR_STATE && conns == old(conns)
      ensures OthersStay(old(cli.statements), cli.statements, 0)
      ensures SlotsStay(old(conns), conns)
      ensures NoneOpened(old(cli.statements), cli.statements)
    {
      hide Good, FreedOnce, OthersStay, SlotsStay, OtherSlotsStay;
      Cursors(c, m);
      ghost var during, statements := conns, cli.statements;
      CursorsKeepSession(old(conns), c, m);
      ok := RemoveClosed(c, m, name, k);
      SlotsTwice(old(conns), during, conns);
      FindRefinesMap(old(conns)[c].prepared, m, name);
      DroppedIf(old(conns), during, conns, c, m, name, statements, cli.statements, ok);
      assert !ok ==> conns == old(conns);
    }

    method RemoveClosed(c: Id, m: Module, name: string, k: nat) returns (ok: bool)
      requires Inv({}, {}, {}) && c in conns && m in conns[c].cursors
      requires k < |conns[c].prepared| && k == IndexOf(conns[c].prepared, m, name)
      modifies this`conns, this`owner, da, cli`statements, cli`freed, cli`records
      ensures Inv({}, {}, {})
      ensures ok <==> !CursorOpen(old(conns)[c], m, name, old(cli.statements))
      ensures !ok ==>
        && da.Consistent() && da.sqlstate == INVALID_CURSOR_STATE
        && conns == old(conns) && cli.statements == old(cli.statements)
      ensures ok ==>
        && KeepsSession(old(conns), conns, c) && OnlyPrepared(old(conns), conns, c, m, name)
        && Lookup(conns[c], m, name) == None && !CursorOpen(conns[c], m, name, cli.statements)
      ensures OthersStay(old(cli.statements), cli.statements, 0)
      ensures SlotsStay(old(conns), conns)
      ensures NoneOpened(old(cli.statements), cli.statements)
    {
      hide OthersStay, SlotsStay;
      StaySame(cli.statements, 0);
      SlotsSame(conns);
      var open := RefuseOpen(c, m, name);
      ok := !open;
      if ok {
        Remove(c, m, name, k);
      }
    }

    method RefuseOpen(c: Id, m: Module, name: string) returns (found: bool)
      requires Inv({}, {}, {}) && c in conns && m in conns[c].cursors
      modifies da, cli`records
      ensures Inv({}, {}, {})
      ensures found <==> CursorOpen(conns[c], m, name, cli.statements)
      ensures found ==> da.Consistent() && da.sqlstate == INVALID_CURSOR_STATE
      ensures found ==> exists at | 0 <= at < |m.cursors| ::
        OpenFor(conns[c], m, name, at, cli.statements) && da.cursorName == m.cursors[at].name
    {
      hide Good, FreedOnce, OthersStay, SlotsStay, OtherSlotsStay;
      SlotsIn(Now(), c, m);
      var at;
      found, at := FindOpen(c, m, name);
      if found {
        Status(INVALID_CURSOR_STATE);
        da.cursorName := m.cursors[at].name;
      }
    }

    method Remove(c: Id, m: Module, name: string, k: nat)
      requires Inv({}, {}, {}) && c in conns
      requires k < |conns[c].prepared| && k == IndexOf(conns[c].prepared, m, name)
      requires !CursorOpen(conns[c], m, name, cli.statements)
      modifies this`conns, this`owner, cli`statements, cli`freed
      ensures Inv({}, {}, {}) && KeepsSession(old(conns), conns, c)
      ensures OnlyPrepared(old(conns), conns, c, m, name) && (m, name) !in ByName(conns[c].prepared)
      ensures !CursorOpen(conns[c], m, name, cli.statements)
      ensures OthersStay(old(cli.statements), cli.statements, 0)
      ensures SlotsStay(old(conns), conns)
      ensures NoneOpened(old(cli.statements), cli.statements)
    {
      hide SlotsStay;
      ghost var s := Now();
      RemoveKeeps(s, c, m, name, k);
      FreePrepared(c, k, {});
      StayClosed(s, conns[c], m, name, cli.statements, c, k);
    }

    // A statement is prepared on its own handle, which is freed again if that fails.
    method NewPrepared(c: Id, sql: Text) returns (h: Handle)
      requires Inv({}, {}, {}) && current == Some(c)
      modifies this`conns, da, cli`statements, cli`freed, cli`issued, cli`last, cli`records, cli`log
      ensures da.Consistent() && Began(old(conns), conns, c)
      ensures NoneOpened(old(cli.statements), cli.statements)
      ensures h == 0 ==> Inv({}, {}, {}) && !IsCompletion(da.sqlstate) && da.sqlstate != INVALID_CURSOR_STATE
      ensures h != 0 ==>
        && Inv({}, {h}, {}) && h in cli.statements && cli.statements[h].dbc == c
        && cli.statements[h].query == cli.isQuery(sql) && cli.statements[h].text == sql
        && cli.statements[h].phase.Prepared? && c in conns && conns[c].active
      ensures OthersStay(old(cli.statements), cli.statements, h)
      ensures WasTried(old(cli.log), cli.log, c, sql, h != 0)
      ensures h != 0 ==> IsCompletion(da.sqlstate)
    {
      hide Good, FreedOnce, OthersStay, SlotsStay, OtherSlotsStay;
      ghost var before := cli.statements;
      StaySame(before, 0);
      var rc;
      rc, h := AllocStatement(c);
      if Failed(rc) {
        Diag(rc, c);
        return 0;
      }
      ghost var made := cli.statements;
      var ok := PrepareOwn(c, h, sql);
      StayTwice(before, made, cli.statements, h, h, h);
      if !ok {
        StayWithout(before, cli.statements, h);
        return 0;
      }
    }

    // PREPARE initiates an SQL-transaction.
    method PrepareOwn(c: Id, h: Handle, sql: Text) returns (ok: bool)
      requires Inv({}, {h}, {}) && current == Some(c) && h !in owner
      requires h in cli.statements && cli.statements[h] == Statement(c, Allocated, false, 0, "")
      modifies this`conns, da, cli`statements, cli`freed, cli`records, cli`log
      ensures da.Consistent() && Began(old(conns), conns, c)
      ensures NoneOpened(old(cli.statements), cli.statements)
      ensures !ok ==> Inv({}, {}, {}) && !IsCompletion(da.sqlstate) && da.sqlstate != INVALID_CURSOR_STATE
      ensures ok ==>
        && Inv({}, {h}, {}) && h in cli.statements && cli.statements[h].dbc == c
        && cli.statements[h].query == cli.isQuery(sql) && cli.statements[h].text == sql
        && cli.statements[h].phase.Prepared? && c in conns && conns[c].active
      ensures OthersStay(old(cli.statements), cli.statements, h)
      ensures !ok ==> h !in cli.statements
      ensures WasTried(old(cli.log), cli.log, c, sql, ok)
      ensures ok ==> IsCompletion(da.sqlstate)
    {
      hide Good, FreedOnce, OthersStay, SlotsStay, OtherSlotsStay;
      SetActive(c, true, {h}, {});
      ghost var before := cli.statements;
      var rc := PrepareStatement(h, sql, {h}, {});
      Diag(rc, h);
      ok := !Failed(rc);
      if !ok {
        ghost var prepared := cli.statements;
        FreeStatement(h);
        StayTwice(before, prepared, cli.statements, h, 0, h);
      }
    }

    method Add(c: Id, p: Prepared)
      requires Inv({}, {p.stmt}, {}) && c in conns && p.stmt != 0
      requires IndexOf(conns[c].prepared, p.m, p.name) == |conns[c].prepared|
      requires p.stmt in cli.statements && cli.statements[p.stmt].dbc == c
      requires cli.statements[p.stmt].query == cli.isQuery(p.sql) && cli.statements[p.stmt].text == p.sql
      modifies this`conns, this`owner
      ensures Inv({}, {}, {}) && conns == SetPrepared(old(conns), c, [p] + old(conns)[c].prepared)
    {
      hide Good, FreedOnce, OthersStay, SlotsStay, OtherSlotsStay;
      ghost var s := Now();
      AfterPrepare(s, c, p, {}, {p.stmt}, {});
      assert {p.stmt} - {p.stmt} == {};
      conns := SetPrepared(conns, c, [p] + conns[c].prepared);
      owner := owner[p.stmt := Owner.Named(c, p.m, p.name)];
      assert Now() == s.(owner := owner, conns := conns);
    }

    method AddPrepared(c: Id, m: Module, name: string, sql: Text) returns (ok: bool, ghost h: Handle)
      requires Inv({}, {}, {}) && current == Some(c)
      requires IndexOf(conns[c].prepared, m, name) == |conns[c].prepared|
      modifies this`conns, this`owner, da, cli`statements, cli`freed, cli`issued, cli`last, cli`records, cli`log
      ensures Inv({}, {}, {}) && da.Consistent() && NoneOpened(old(cli.statements), cli.statements)
      ensures OthersStay(old(cli.statements), cli.statements, h)
      ensures !ok ==>
        && h == 0 && Began(old(conns), conns, c)
        && !IsCompletion(da.sqlstate) && da.sqlstate != INVALID_CURSOR_STATE
      ensures ok ==>
        && Added(old(conns), conns, c, Prepared.Prepared(m, name, sql, h))
        && h in cli.statements && cli.statements[h].phase.Prepared? && cli.statements[h].text == sql
        && cli.statements[h].dbc == c && conns[c].active
        && Lookup(conns[c], m, name) == Some(Prepared.Prepared(m, name, sql, h))
      ensures WasTried(old(cli.log), cli.log, c, sql, ok) && (ok ==> IsCompletion(da.sqlstate))
    {
      hide Good, FreedOnce, OthersStay, SlotsStay, OtherSlotsStay;
      var stmt := NewPrepared(c, sql);
      ok, h := stmt != 0, stmt;
      if ok {
        ghost var before := conns;
        Add(c, Prepared.Prepared(m, name, sql, stmt));
        AddKeeps(old(conns), before, c, Prepared.Prepared(m, name, sql, h));
      }
    }

    // A prepared statement with the name is deallocated.
    method Replaceable(c: Id, m: Module, name: string) returns (ok: bool)
      requires Inv({}, {}, {}) && c in conns
      modifies this`conns, this`owner, da, cli`statements, cli`freed, cli`records
      ensures Inv({}, {}, {}) && KeepsSession(old(conns), conns, c)
      ensures OnlyPrepared(old(conns), conns, c, m, name)
      ensures Cleared(old(conns)[c], conns[c], m, name, old(cli.statements), cli.statements, ok)
      ensures !ok ==> da.Consistent() && da.sqlstate == INVALID_CURSOR_STATE && conns == old(conns)
      ensures OthersStay(old(cli.statements), cli.statements, 0)
      ensures SlotsStay(old(conns), conns)
      ensures NoneOpened(old(cli.statements), cli.statements)
    {
      hide Good, FreedOnce, OthersStay, SlotsStay, OtherSlotsStay;
      FindRefinesMap(conns[c].prepared, m, name);
      var k := FindPrepared(c, m, name);
      ok := true;
      StaySame(cli.statements, 0);
      SlotsSame(conns);
      if k < |conns[c].prepared| {
        ok := Deallocate(c, m, name, k);
      }
    }

    method PrepareOn(c: Id, m: Module, name: string, sql: Text)
      requires Inv({}, {}, {}) && current == Some(c)
      modifies this`conns, this`owner, da, cli`statements, cli`freed, cli`issued, cli`last, cli`records, cli`log
      ensures Inv({}, {}, {}) && da.Consistent() && KeepsSession(old(conns), conns, c)
      ensures PreparedKept(old(conns), conns, cli.statements)
      ensures OnlyPrepared(old(conns), conns, c, m, name)
      ensures Replaced(old(conns)[c], conns[c], m, name, sql, old(cli.statements), cli.statements, da.sqlstate)
      ensures IsCompletion(da.sqlstate) ==>
        var h := HandleOf(Lookup(conns[c], m, name));
        && IsPrepared(conns[c], m, name, sql) && conns[c].active && h in cli.statements
        && cli.statements[h].phase.Prepared? && cli.statements[h].text == sql && cli.statements[h].dbc == c
      ensures OthersStay(old(cli.statements), cli.statements, HandleOf(Lookup(conns[c], m, name)))
      ensures SlotsStay(old(conns), conns) && NoneOpened(old(cli.statements), cli.statements)
      ensures Refuses(old(conns)[c], m, name, old(cli.statements)) ==>
        conns == old(conns) && cli.statements == old(cli.statements)
      ensures if Refuses(old(conns)[c], m, name, old(cli.statements)) then cli.log == old(cli.log)
        else WasTried(old(cli.log), cli.log, c, sql, IsCompletion(da.sqlstate))
    {
      hide Good, FreedOnce, OthersStay, SlotsStay, OtherSlotsStay;
      var ok := Replaceable(c, m, name);
      if !ok {
        StaySame(cli.statements, HandleOf(Lookup(conns[c], m, name)));
        SamePreparedKept(old(conns), conns, cli.statements);
        return;
      }
      ghost var during, statements := conns, cli.statements;
      FindRefinesMap(conns[c].prepared, m, name);
      ghost var h;
      ok, h := AddPrepared(c, m, name, sql);
      StayTwice(old(cli.statements), statements, cli.statements, 0, h, h);
      if !ok {
        BeganSlots(during, conns, c);
      }
      SlotsTwice(old(conns), during, conns);
      AddedKept(old(conns), during, conns, c, m, name, sql, ok, old(cli.statements), statements, cli.statements,
        da.sqlstate);
    }

    // PREPARE. A prepared statement isn't replaced while a dynamic cursor that's declared for it
    // is open.
    method Prepare(m: Module, name: string, sql: Text) returns (ghost during: State)
      requires Valid()
      modifies this`current, this`conns, this`owner, this`keys, da, cli
      ensures Valid() && da.Consistent() && PreparedKept(old(conns), conns, cli.statements)
      ensures connected ==> conns.Keys == old(conns).Keys
      ensures UsedBy(m) ==> Switched(old(Seen()), during, m) && WasPrepared(during, Seen(), m, name, sql, da.sqlstate)
      ensures !UsedBy(m) ==> NotSwitched(old(Seen()), Seen(), da.sqlstate)
    {
      hide Good, FreedOnce, OthersStay, SlotsStay, OtherSlotsStay, NotSwitched, SchemaWasSet, WasOpenedTo;
      var c := Use(m);
      during := Seen();
      if c.Some? {
        PrepareOn(c.value, m, name, sql);
        assert OnlyPrepares(during, Seen(), m, name);
      } else {
        SamePreparedKept(conns, conns, cli.statements);
      }
      KeptAfterSame(old(conns), during.conns, conns, cli.statements);
    }

    method Drop(c: Id, m: Module, name: string)
      requires Inv({}, {}, {}) && c in conns
      modifies this`conns, this`owner, da, cli`statements, cli`freed, cli`records
      ensures Inv({}, {}, {}) && da.Consistent() && KeepsSession(old(conns), conns, c)
      ensures OnlyPrepared(old(conns), conns, c, m, name)
      ensures Dropped(old(conns)[c], conns[c], m, name, old(cli.statements), cli.statements, da.sqlstate)
      ensures da.sqlstate != SUCCESSFUL ==> conns == old(conns) && cli.statements == old(cli.statements)
      ensures OthersStay(old(cli.statements), cli.statements, 0)
      ensures SlotsStay(old(conns), conns)
      ensures NoneOpened(old(cli.statements), cli.statements)
    {
      hide Good, FreedOnce, OthersStay, SlotsStay, OtherSlotsStay;
      FindRefinesMap(conns[c].prepared, m, name);
      StaySame(cli.statements, 0);
      SlotsSame(conns);
      var k := FindPrepared(c, m, name);
      if k == |conns[c].prepared| {
        Status(INVALID_STATEMENT_NAME);
        return;
      }
      var ok := Deallocate(c, m, name, k);
      if ok {
        Status(SUCCESSFUL);
      }
    }

    method DeallocateOn(c: Id, m: Module, name: string)
      requires Inv({}, {}, {}) && current == Some(c)
      modifies this`conns, this`owner, da, cli`statements, cli`freed, cli`records
      ensures Inv({}, {}, {}) && da.Consistent() && KeepsSession(old(conns), conns, c)
      ensures PreparedKept(old(conns), conns, cli.statements)
      ensures OnlyPrepared(old(conns), conns, c, m, name)
      ensures Dropped(old(conns)[c], conns[c], m, name, old(cli.statements), cli.statements, da.sqlstate)
      ensures da.sqlstate != SUCCESSFUL ==>
        c in old(conns) && conns == WithActive(old(conns), c, true) && cli.statements == old(cli.statements)
      ensures SlotsStay(old(conns), conns)
      ensures OthersStay(old(cli.statements), cli.statements, 0)
      ensures NoneOpened(old(cli.statements), cli.statements)
    {
      hide OthersStay, SlotsStay;
      SetActive(c, true, {}, {});
      ghost var during := conns;
      Drop(c, m, name);
      ActiveKeeps(old(conns), c, true);
      SlotsTwice(old(conns), during, conns);
      ActiveDropped(old(conns), during, conns, c, m, name, old(cli.statements), cli.statements, da.sqlstate);
    }

    // DEALLOCATE PREPARE.
    method DeallocatePrepare(m: Module, name: string) returns (ghost during: State)
      requires Valid()
      modifies this`current, this`conns, this`owner, this`keys, da, cli
      ensures Valid() && da.Consistent() && PreparedKept(old(conns), conns, cli.statements)
      ensures connected ==> conns.Keys == old(conns).Keys
      ensures UsedBy(m) ==> Switched(old(Seen()), during, m) && WasDropped(during, Seen(), m, name, da.sqlstate)
      ensures !UsedBy(m) ==> NotSwitched(old(Seen()), Seen(), da.sqlstate)
    {
      hide Good, FreedOnce, OthersStay, SlotsStay, OtherSlotsStay, NotSwitched, SchemaWasSet, WasOpenedTo;
      var c := Use(m);
      during := Seen();
      if c.Some? {
        DeallocateOn(c.value, m, name);
        assert OnlyPrepares(during, Seen(), m, name);
      } else {
        SamePreparedKept(conns, conns, cli.statements);
      }
      KeptAfterSame(old(conns), during.conns, conns, cli.statements);
    }

    method Scan(sql: Text) returns (n: nat, single: bool)
      ensures n == ParametersOf(sql) && (single <==> Scanner.CanBeSingle(Scanner.Tokens(sql, 0)))
    {
      assert CStrings.Text(sql + "\0") == sql;
      n, single := Scanner.Scan(sql + "\0");
    }

    // A descriptor is found by a statement that initiates an SQL-transaction.
    method UseDescriptor(c: Id, status: SqlState, ghost running: set<Handle>, ghost pending: set<Handle>)
      returns (ok: bool)
      requires Inv({}, running, pending) && current == Some(c)
      modifies this`conns, da
      ensures Inv({}, running, pending) && c in old(conns) && conns == WithActive(old(conns), c, true)
      ensures ok <==> status == SUCCESSFUL
      ensures !ok ==> da.Consistent() && da.sqlstate == status
      ensures ok ==> unchanged(da)
    {
      hide Good, FreedOnce, OthersStay, SlotsStay, OtherSlotsStay;
      SetActive(c, true, running, pending);
      ok := status == SUCCESSFUL;
      if !ok {
        Status(status);
      }
    }

    method BindHandle(h: Handle, n: nat) returns (ok: bool)
      requires cli.Valid() && h in cli.statements
      modifies da, cli`records, cli`log
      ensures cli.Valid() && (n == 0 ==> ok)
      ensures !ok ==> da.Consistent() && !IsCompletion(da.sqlstate) && da.sqlstate != INVALID_CURSOR_STATE
      ensures WereBound(old(cli.log), cli.log, h, n, ok)
    {
      var rc := BindParams(h, n);
      ok := !Failed(rc);
      if !ok {
        Diag(rc, h);
      }
    }

    // The <input using clause> is bound to the dynamic parameters of a statement, if it matches them.
    method Bind(c: Id, h: Handle, sql: Text, input: Input, ghost running: set<Handle>, ghost pending: set<Handle>)
      returns (ok: bool)
      requires Inv({}, running, pending) && current == Some(c) && h in cli.statements && input.Valid()
      modifies this`conns, da, cli`records, cli`log
      ensures Inv({}, running, pending) && Began(old(conns), conns, c)
      ensures !ok ==> da.Consistent() && !IsCompletion(da.sqlstate) && da.sqlstate != INVALID_CURSOR_STATE
      ensures var status := input.Status(ParametersOf(sql));
        if status != SUCCESSFUL then !ok && da.sqlstate == status && cli.log == old(cli.log)
        else (ParametersOf(sql) == 0 ==> ok) && WereBound(old(cli.log), cli.log, h, ParametersOf(sql), ok)
    {
      hide Good, FreedOnce, OthersStay, SlotsStay, OtherSlotsStay;
      BindsNone(h);
      var n, single := Scan(sql);
      match input {
        case FromDescriptor(status) =>
          ok := UseDescriptor(c, status, running, pending);
          if !ok {
            return;
          }
        case NoInput =>
          ok := n == 0;
          if !ok {
            Status(INPUT_REQUIRED);
          }
          return;
        case Params(k) =>
          if k != n {
            Status(INPUT_MISMATCH);
            return false;
          }
      }
      ok := BindHandle(h, n);
    }

    // The row that was fetched is assigned to the <output using clause>.
    method Into(c: Id, h: Handle, fetched: ReturnCode, out: Output) returns (done: bool)
      requires Inv({}, {}, {}) && current == Some(c) && h in cli.statements && out.Valid()
      requires !Failed(fetched) ==> cli.statements[h].phase == Phase.Open(true)
      requires Failed(fetched) ==> Tells(fetched, cli.RecordsOf(h))
      requires fetched.Error? ==> !Reports(cli.RecordsOf(h), SEQUENCE_ERROR)
      modifies this`conns, da, cli`records, cli`log
      ensures Inv({}, {}, {}) && Began(old(conns), conns, c) && da.Consistent()
      ensures da.sqlstate != SEQUENCE_ERROR
      ensures da.sqlstate == INVALID_CURSOR_STATE <==>
        && fetched.Error?
        && Reports(old(cli.RecordsOf(h)), INVALID_CURSOR_STATE)
      ensures done ==> !Failed(fetched) && (da.sqlstate == SUCCESSFUL || da.sqlstate == RIGHT_TRUNCATION)
      ensures !done ==> !IsCompletion(da.sqlstate)
      ensures Failed(fetched) ==> cli.log == old(cli.log)
      ensures var columns := cli.statements[h].columns;
        !Failed(fetched) ==>
          if out.Status(columns) != SUCCESSFUL then
            !done && da.sqlstate == out.Status(columns) && cli.log == old(cli.log)
          else
            WereAssigned(old(cli.log), cli.log, h, columns, done, da.sqlstate == RIGHT_TRUNCATION)
    {
      hide Good, FreedOnce, OthersStay, SlotsStay, OtherSlotsStay;
      if Failed(fetched) {
        Diag(fetched, h);
        return false;
      }
      done := IntoRow(c, h, out);
    }

    method IntoRow(c: Id, h: Handle, out: Output) returns (done: bool)
      requires Inv({}, {}, {}) && current == Some(c) && h in cli.statements && out.Valid()
      requires cli.statements[h].phase == Phase.Open(true)
      modifies this`conns, da, cli`records, cli`log
      ensures Inv({}, {}, {}) && Began(old(conns), conns, c) && da.Consistent()
      ensures da.sqlstate != SEQUENCE_ERROR && da.sqlstate != INVALID_CURSOR_STATE
      ensures done ==> da.sqlstate == SUCCESSFUL || da.sqlstate == RIGHT_TRUNCATION
      ensures !done ==> !IsCompletion(da.sqlstate)
      ensures var status := out.Status(cli.statements[h].columns);
        if status != SUCCESSFUL then !done && da.sqlstate == status && cli.log == old(cli.log)
        else WereAssigned(old(cli.log), cli.log, h, cli.statements[h].columns, done, da.sqlstate == RIGHT_TRUNCATION)
    {
      hide Good, FreedOnce, OthersStay, SlotsStay, OtherSlotsStay;
      var rc, columns := cli.NumResultCols(h);
      var status := out.Status(columns);
      if out.IntoDescriptor? {
        done := UseDescriptor(c, status, {}, {});
      } else {
        done := status == SUCCESSFUL;
        if !done {
          Status(status);
        }
      }
      if done {
        done := Assign(h, columns);
      }
    }

    // The values of the row are assigned.
    method Assign(h: Handle, n: nat) returns (done: bool)
      requires cli.Valid() && h in cli.statements && cli.statements[h].phase == Phase.Open(true)
      modifies da, cli`records, cli`log
      ensures cli.Valid() && da.Consistent()
      ensures done ==> da.sqlstate == SUCCESSFUL || da.sqlstate == RIGHT_TRUNCATION
      ensures !done ==> !IsCompletion(da.sqlstate)
      ensures da.sqlstate != SEQUENCE_ERROR && da.sqlstate != INVALID_CURSOR_STATE
      ensures WereAssigned(old(cli.log), cli.log, h, n, done, da.sqlstate == RIGHT_TRUNCATION)
    {
      var rc, truncated := AssignRow(h, Success, n);
      done := !Failed(rc);
      if done {
        Status(if truncated then RIGHT_TRUNCATION else SUCCESSFUL);
      } else {
        Diag(rc, h);
      }
    }

    // The prepared statement with the name, if there is one.
    method FindNamed(c: Id, m: Module, name: string) returns (p: Option<Prepared>)
      requires Inv({}, {}, {}) && c in conns
      modifies da
      ensures Inv({}, {}, {}) && p == Lookup(conns[c], m, name)
      ensures p.None? ==> da.Consistent() && da.sqlstate == INVALID_STATEMENT_NAME
      ensures p.Some? ==>
        var h := p.value.stmt;
        && h in cli.statements && h in owner && owner[h].Named?
        && cli.statements[h].dbc == c
        && (!cli.statements[h].phase.Allocated? ==>
              cli.statements[h].query == cli.isQuery(p.value.sql) && cli.statements[h].text == p.value.sql)
    {
      hide Good, FreedOnce, OthersStay, SlotsStay, OtherSlotsStay;
      FindRefinesMap(conns[c].prepared, m, name);
      var k := FindPrepared(c, m, name);
      if k < |conns[c].prepared| {
        PreparedAt(Now(), c, k, {}, {}, {});
        return Some(conns[c].prepared[k]);
      }
      Status(INVALID_STATEMENT_NAME);
      return None;
    }

    method ExecuteNamed(h: Handle) returns (rc: ReturnCode)
      requires Inv({}, {}, {}) && h in cli.statements && h in owner && owner[h].Named?
      modifies cli`statements, cli`records, cli`log
      ensures Inv({}, {}, {}) && h in cli.statements && !rc.IndicatorOverflow?
      ensures var s := old(cli.statements)[h];
        && (rc.Error? ==> cli.statements[h] == s)
        && (s.phase.Open? ==> rc.Error?)
        && (s.query && !Failed(rc) ==> cli.statements[h].phase == Phase.Open(false))
        && (s.query ==> !rc.NoData?)
        && (s.phase.Open? ==> cli.statements == old(cli.statements) && Reports(cli.RecordsOf(h), INVALID_CURSOR_STATE))
        && (s.phase.Allocated? ==> rc.Error?)
      ensures OthersStay(old(cli.statements), cli.statements, h)
      ensures var s := old(cli.statements)[h];
        Tells(rc, cli.RecordsOf(h)) && cli.log == old(cli.log) + [Request.Execute(s.dbc, h, s.text, !Failed(rc))]
    {
      hide Good, FreedOnce, OthersStay, SlotsStay, OtherSlotsStay;
      ghost var s := Now();
      rc := cli.Execute(h);
      Stay(s.statements, cli.statements, h);
      AfterUse(s, cli.statements, h, {}, {}, {});
      assert Now() == s.(statements := cli.statements);
    }

    // A second row is a cardinality violation.
    method Second(h: Handle, ghost running: set<Handle>) returns (rc: ReturnCode)
      requires Inv({}, running, {}) && h in cli.statements && cli.statements[h].phase.Open?
      modifies da, cli`statements, cli`records, cli`log
      ensures Inv({}, running, {}) && h in cli.statements && cli.statements[h].phase.Open?
      ensures rc.NoData? ==> unchanged(da)
      ensures !rc.NoData? ==> da.Consistent() && !IsCompletion(da.sqlstate)
      ensures !Failed(rc) ==> da.sqlstate == CARDINALITY_VIOLATION
      ensures OthersStay(old(cli.statements), cli.statements, h)
      ensures cli.log == old(cli.log) + [Request.Fetch(h, !Failed(rc))]
      ensures cli.statements[h].columns == old(cli.statements)[h].columns
    {
      hide Good, FreedOnce, OthersStay, SlotsStay, OtherSlotsStay;
      rc := FetchStatement(h, running);
      if !Failed(rc) {
        Status(CARDINALITY_VIOLATION);
      } else if !rc.NoData? {
        Diag(rc, h);
      }
    }

    method OneRow(c: Id, h: Handle, fetched: ReturnCode, out: Output) returns (done: bool)
      requires Inv({}, {}, {}) && current == Some(c) && out.Valid()
      requires h in cli.statements && cli.statements[h].phase == Phase.Open(!Failed(fetched))
      requires Failed(fetched) ==> Tells(fetched, cli.RecordsOf(h))
      requires fetched.Error? ==> !Reports(cli.RecordsOf(h), SEQUENCE_ERROR)
      modifies this`conns, da, cli`statements, cli`records, cli`log
      ensures Inv({}, {}, {}) && Began(old(conns), conns, c) && da.Consistent()
      ensures h in cli.statements && cli.statements[h].phase.Open?
      ensures da.sqlstate == SUCCESSFUL ==> done
      ensures OthersStay(old(cli.statements), cli.statements, h)
      ensures cli.statements[h].columns == old(cli.statements)[h].columns
      ensures var columns := old(cli.statements)[h].columns;
        if done then
          && !Failed(fetched) && out.Status(columns) == SUCCESSFUL
          && exists log, more, cut ::
               && WereAssigned(old(cli.log), log, h, columns, true, cut)
               && SecondFetched(log, cli.log, h, more, cut, da.sqlstate)
        else
          !Failed(fetched) && out.Status(columns) == SUCCESSFUL ==>
            WereAssigned(old(cli.log), cli.log, h, columns, false, da.sqlstate == RIGHT_TRUNCATION)
      ensures !done ==> !IsCompletion(da.sqlstate)
      ensures var columns := old(cli.statements)[h].columns;
        && (Failed(fetched) ==> !done && cli.log == old(cli.log))
        && (!Failed(fetched) && out.Status(columns) != SUCCESSFUL ==>
              !done && cli.log == old(cli.log) && da.sqlstate == out.Status(columns))
    {
      hide Good, FreedOnce, OthersStay, SlotsStay, OtherSlotsStay;
      StaySame(cli.statements, h);
      done := Into(c, h, fetched, out);
      if done {
        ghost var log, cut := cli.log, da.sqlstate == RIGHT_TRUNCATION;
        var rc := Second(h, {});
        assert SecondFetched(log, cli.log, h, !Failed(rc), cut, da.sqlstate);
      }
    }

    // The row of a query whose cursor was opened is assigned, and its cursor is closed.
    method OnlyRow(c: Id, h: Handle, out: Output) returns (done: bool)
      requires Inv({}, {}, {}) && current == Some(c) && out.Valid()
      requires h in cli.statements && cli.statements[h].phase.Open?
      modifies this`conns, da, cli`statements, cli`records, cli`log
      ensures Inv({}, {}, {}) && Began(old(conns), conns, c) && da.Consistent()
      ensures h in cli.statements && !IsOpen(cli.statements, h)
      ensures da.sqlstate == SUCCESSFUL ==> done
      ensures OthersStay(old(cli.statements), cli.statements, h)
      ensures cli.statements[h].columns == old(cli.statements)[h].columns
      ensures var columns := old(cli.statements)[h].columns;
        OnlyRowFetched(old(cli.log), cli.log, h, columns, out.Status(columns), done, da.sqlstate)
    {
      hide Good, FreedOnce, OthersStay, SlotsStay, OtherSlotsStay;
      ghost var before := cli.statements;
      var rc := FetchStatement(h, {});
      ghost var fetched := cli.statements;
      done := OneRow(c, h, rc, out);
      StayTwice(before, fetched, cli.statements, h, h, h);
      ghost var used := cli.statements;
      rc := CloseStatement(h);
      StayTwice(before, used, cli.statements, h, 0, h);
    }

    // A statement that's executed initiates an SQL-transaction.
    method ExecuteActive(c: Id, h: Handle) returns (rc: ReturnCode)
      requires Inv({}, {}, {}) && current == Some(c)
      requires h in cli.statements && h in owner && owner[h].Named?
      modifies this`conns, cli`statements, cli`records, cli`log
      ensures Inv({}, {}, {}) && c in old(conns) && conns == WithActive(old(conns), c, true)
      ensures h in cli.statements && !rc.IndicatorOverflow?
      ensures var s := old(cli.statements)[h];
        && (rc.Error? ==> cli.statements[h] == s)
        && (s.phase.Open? ==> rc.Error?)
        && (s.query && !Failed(rc) ==> cli.statements[h].phase == Phase.Open(false))
        && (s.query ==> !rc.NoData?)
        && (s.phase.Open? ==> cli.statements == old(cli.statements) && Reports(cli.RecordsOf(h), INVALID_CURSOR_STATE))
        && (s.phase.Allocated? ==> rc.Error?)
      ensures OthersStay(old(cli.statements), cli.statements, h)
      ensures var s := old(cli.statements)[h];
        Tells(rc, cli.RecordsOf(h)) && cli.log == old(cli.log) + [Request.Execute(s.dbc, h, s.text, !Failed(rc))]
    {
      hide Good, FreedOnce, OthersStay, SlotsStay, OtherSlotsStay;
      SetActive(c, true, {}, {});
      rc := ExecuteNamed(h);
    }

    // A prepared statement that has that many columns is executed. The cursor of a query is closed
    // afterwards, unless its columns aren't known.
    method ExecuteBound(c: Id, h: Handle, columns: nat, out: Output) returns (done: bool, ghost ok: bool)
      requires Inv({}, {}, {}) && current == Some(c) && out.Valid()
      requires h in cli.statements && h in owner && owner[h].Named? && cli.statements[h].columns == columns
      requires cli.statements[h].dbc == c
      modifies this`conns, da, cli`statements, cli`records, cli`log
      ensures Inv({}, {}, {}) && Began(old(conns), conns, c) && da.Consistent()
      ensures WasRun(h, old(cli.statements), cli.statements, ok, done, da.sqlstate)
      ensures c in conns && conns[c].active
      ensures WasRunBy(old(cli.log), cli.log, c, h, old(cli.statements), cli.statements, out, ok, done, da.sqlstate)
    {
      hide Good, FreedOnce, OthersStay, SlotsStay, OtherSlotsStay;
      ghost var before := cli.statements;
      var rc := ExecuteActive(c, h);
      ok := !Failed(rc);
      if columns == 0 || Failed(rc) {
        Diag(rc, h);
        return false, ok;
      }
      ghost var during, executed := conns, cli.statements;
      done := OnlyRow(c, h, out);
      StayTwice(before, executed, cli.statements, h, h, h);
      BeganTwice(old(conns), during, conns, c);
    }

    method ExecuteDescribed(c: Id, p: Prepared, columns: nat, input: Input, out: Output)
      returns (done: bool, ghost reached: Reached)
      requires Inv({}, {}, {}) && current == Some(c) && input.Valid() && out.Valid()
      requires p.stmt in cli.statements && p.stmt in owner && owner[p.stmt].Named?
      requires var s := cli.statements[p.stmt]; s.dbc == c && (!s.phase.Allocated? ==> s.text == p.sql)
      requires cli.statements[p.stmt].columns == columns
      requires out.PreparedStatus(p.sql, columns) == SUCCESSFUL
      modifies this`conns, da, cli`statements, cli`records, cli`log
      ensures Inv({}, {}, {}) && Began(old(conns), conns, c) && da.Consistent()
      ensures WasExecuted(Some(p), old(cli.statements), cli.statements, input, out, reached, done, da.sqlstate)
      ensures reached.Ran? ==> c in conns && conns[c].active
      ensures WasExecutedBy(old(cli.log), cli.log, c, Some(p), old(cli.statements), cli.statements, out, reached, done,
        da.sqlstate)
    {
      hide Good, FreedOnce, OthersStay, SlotsStay, OtherSlotsStay;
      done := Bind(c, p.stmt, p.sql, input, {}, {});
      if !done {
        reached := if input.Status(ParametersOf(p.sql)) == SUCCESSFUL then Unbound else Refused;
        return;
      }
      ghost var bound := conns;
      ghost var ok;
      done, ok := ExecuteBound(c, p.stmt, columns, out);
      reached := Ran(ok);
      BeganTwice(old(conns), bound, conns, c);
    }

    // A query is only executed if it can be a single row select, and any other statement has no
    // output.
    method CheckOutput(c: Id, p: Prepared, out: Output) returns (ok: bool, columns: nat)
      requires Inv({}, {}, {}) && current == Some(c) && p.stmt in cli.statements && out.Valid()
      modifies this`conns, da, cli`records
      ensures Inv({}, {}, {}) && Began(old(conns), conns, c) && columns == cli.statements[p.stmt].columns
      ensures ok <==> out.PreparedStatus(p.sql, columns) == SUCCESSFUL
      ensures !ok ==> da.Consistent() && da.sqlstate == out.PreparedStatus(p.sql, columns)
    {
      hide Good, FreedOnce, OthersStay, SlotsStay, OtherSlotsStay;
      var n, single := Scan(p.sql);
      var rc;
      rc, columns := cli.NumResultCols(p.stmt);
      if columns == 0 && out.IntoDescriptor? {
        ok := UseDescriptor(c, out.status, {}, {});
        return;
      }
      var status := if columns > 0 && !single then NOT_EXECUTABLE
                    else if columns > 0 then (if out.NoOutput? then OUTPUT_REQUIRED else SUCCESSFUL)
                    else if out.Targets? && out.n > 0 then OUTPUT_MISMATCH else SUCCESSFUL;
      ok := status == SUCCESSFUL;
      if !ok {
        Status(status);
      }
    }

    method ExecuteChecked(c: Id, p: Prepared, input: Input, out: Output) returns (done: bool, ghost reached: Reached)
      requires Inv({}, {}, {}) && current == Some(c) && input.Valid() && out.Valid()
      requires p.stmt in cli.statements && p.stmt in owner && owner[p.stmt].Named?
      requires var s := cli.statements[p.stmt]; s.dbc == c && (!s.phase.Allocated? ==> s.text == p.sql)
      modifies this`conns, da, cli`statements, cli`records, cli`log
      ensures Inv({}, {}, {}) && Began(old(conns), conns, c) && da.Consistent()
      ensures WasExecuted(Some(p), old(cli.statements), cli.statements, input, out, reached, done, da.sqlstate)
      ensures reached.Ran? ==> c in conns && conns[c].active
      ensures WasExecutedBy(old(cli.log), cli.log, c, Some(p), old(cli.statements), cli.statements, out, reached, done,
        da.sqlstate)
    {
      hide Good, FreedOnce, OthersStay, SlotsStay, OtherSlotsStay;
      var columns;
      done, columns := CheckOutput(c, p, out);
      reached := Refused;
      if done {
        ghost var during := conns;
        done, reached := ExecuteDescribed(c, p, columns, input, out);
        BeganTwice(old(conns), during, conns, c);
      }
    }

    method ExecutePreparedOn(c: Id, m: Module, name: string, input: Input, out: Output)
      returns (done: bool, ghost reached: Reached)
      requires Inv({}, {}, {}) && current == Some(c) && input.Valid() && out.Valid()
      modifies this`conns, da, cli`statements, cli`records, cli`log
      ensures Inv({}, {}, {}) && Began(old(conns), conns, c) && da.Consistent()
      ensures WasExecuted(Lookup(old(conns)[c], m, name), old(cli.statements), cli.statements, input, out, reached,
        done, da.sqlstate)
      ensures reached.Ran? ==> c in conns && conns[c].active
      ensures WasExecutedBy(old(cli.log), cli.log, c, Lookup(old(conns)[c], m, name),
                            old(cli.statements), cli.statements, out,
        reached, done, da.sqlstate)
    {
      hide Good, FreedOnce, OthersStay, SlotsStay, OtherSlotsStay;
      var p := FindNamed(c, m, name);
      if p.None? {
        return false, Refused;
      }
      done, reached := ExecuteChecked(c, p.value, input, out);
    }

    // EXECUTE.
    method ExecutePrepared(m: Module, name: string, input: Input, out: Output)
      returns (done: bool, ghost during: State, ghost reached: Reached)
      requires Valid() && input.Valid() && out.Valid()
      modifies this`current, this`conns, this`owner, this`keys, da, cli
      ensures Valid() && da.Consistent() && SamePrepared(old(conns), conns)
      ensures connected ==> conns.Keys == old(conns).Keys
      ensures UsedBy(m) ==>
        && Switched(old(Seen()), during, m)
        && WasExecutedFor(during, Seen(), m, name, input, out, reached, done, da.sqlstate)
      ensures old(UsedBy(m)) ==> UsedBy(m)
      ensures !UsedBy(m) ==> NotSwitched(old(Seen()), Seen(), da.sqlstate)
    {
      hide Good, FreedOnce, OthersStay, SlotsStay, OtherSlotsStay, NotSwitched, SchemaWasSet, WasOpenedTo;
      var c := Use(m);
      during, reached := Seen(), Refused;
      if c.None? {
        return false, during, reached;
      }
      done, reached := ExecutePreparedOn(c.value, m, name, input, out);
      BeganSame(old(conns), during.conns, conns, c.value);
    }

    method ExecuteMine(c: Id, h: Handle) returns (rc: ReturnCode)
      requires Inv({}, {h}, {}) && Mine(h, {h}, {}) && current == Some(c)
      requires cli.statements[h].phase.Prepared? && cli.statements[h].dbc == c
      modifies this`conns, cli`statements, cli`records, cli`log
      ensures Inv({}, {h}, {}) && c in old(conns) && conns == WithActive(old(conns), c, true)
      ensures OthersStay(old(cli.statements), cli.statements, h)
      ensures !rc.IndicatorOverflow? && Tells(rc, cli.RecordsOf(h))
      ensures cli.log == old(cli.log) + [Request.Execute(c, h, old(cli.statements)[h].text, !Failed(rc))]
    {
      hide Good, FreedOnce, OthersStay;
      SetActive(c, true, {h}, {});
      rc := ExecuteStatement(h, {h}, {});
    }

    // A statement is prepared and executed, unless it has columns. Nothing is executed then.
    method ExecuteOwn(c: Id, h: Handle, sql: Text) returns (query: bool)
      requires Inv({}, {h}, {}) && Mine(h, {h}, {}) && current == Some(c)
      requires cli.statements[h].dbc == c && cli.statements[h].phase.Allocated?
      modifies this`conns, da, cli`statements, cli`records, cli`log
      ensures Inv({}, {h}, {}) && da.Consistent()
      ensures query ==> cli.isQuery(sql) && da.sqlstate == SYNTAX_ERROR && conns == old(conns)
      ensures OthersStay(old(cli.statements), cli.statements, h)
      ensures WasSent(old(cli.log), cli.log, c, h, sql, 0, cli.isQuery(sql) && da.sqlstate == SYNTAX_ERROR,
                      IsCompletion(da.sqlstate))
      ensures BeganWhen(old(conns), conns, c, Sent(old(cli.log), cli.log))
    {
      hide Good, FreedOnce, OthersStay, SlotsStay, OtherSlotsStay, Began, WereBound, Reports;
      BindsNone(h);
      ghost var before := cli.statements;
      var rc := PrepareStatement(h, sql, {h}, {});
      if Failed(rc) {
        Diag(rc, h);
        return false;
      }
      var columns;
      rc, columns := cli.NumResultCols(h);
      if columns > 0 {
        Status(SYNTAX_ERROR);
        return true;
      }
      ghost var prepared := cli.statements;
      rc := ExecuteMine(c, h);
      StayTwice(before, prepared, cli.statements, h, h, h);
      Diag(rc, h);
      return false;
    }

    method ImmediateOn(c: Id, sql: Text) returns (ghost h: Handle)
      requires Inv({}, {}, {}) && current == Some(c)
      modifies this`conns, da, cli`statements, cli`freed, cli`issued, cli`last, cli`records, cli`log
      ensures Inv({}, {}, {}) && da.Consistent() && Began(old(conns), conns, c)
      ensures ParametersOf(sql) > 0 ==>
        da.sqlstate == SYNTAX_ERROR && conns == old(conns) && cli.statements == old(cli.statements)
        && cli.log == old(cli.log)
      ensures OthersStay(old(cli.statements), cli.statements, 0)
      ensures ParametersOf(sql) == 0 ==>
        WasSentOnNew(old(cli.log), cli.log, c, h, sql, 0, cli.isQuery(sql) && da.sqlstate == SYNTAX_ERROR,
                     IsCompletion(da.sqlstate))
      ensures BeganWhen(old(conns), conns, c, Sent(old(cli.log), cli.log))
    {
      hide Good, FreedOnce, OthersStay, SlotsStay, OtherSlotsStay;
      ghost var before := cli.statements;
      StaySame(before, 0);
      var n, single := Scan(sql);
      if n > 0 {
        Status(SYNTAX_ERROR);
        return 0;
      }
      var rc, stmt := AllocStatement(c);
      h := stmt;
      if Failed(rc) {
        Diag(rc, c);
        return;
      }
      ghost var made := cli.statements;
      var query := ExecuteOwn(c, stmt, sql);
      ghost var used := cli.statements;
      FreeStatement(stmt);
      BeganOnly(old(conns), conns, c, Sent(old(cli.log), cli.log));
      StayTwice(before, made, used, h, h, h);
      StayAfterFree(before, used, cli.statements, h);
    }

    // EXECUTE IMMEDIATE. The statement can't have a dynamic parameter.
    method ExecuteImmediate(m: Module, sql: Text) returns (ghost during: State)
      requires Valid()
      modifies this`current, this`conns, this`owner, this`keys, da, cli
      ensures Valid() && da.Consistent() && SamePrepared(old(conns), conns)
      ensures connected ==> conns.Keys == old(conns).Keys
      ensures UsedBy(m) ==> Switched(old(Seen()), during, m) && ExecutedImmediately(during, Seen(), sql, da.sqlstate)
      ensures !UsedBy(m) ==> NotSwitched(old(Seen()), Seen(), da.sqlstate)
    {
      hide Good, FreedOnce, OthersStay, SlotsStay, OtherSlotsStay, NotSwitched, SchemaWasSet, WasOpenedTo;
      var c := Use(m);
      during := Seen();
      if c.Some? {
        ghost var h := ImmediateOn(c.value, sql);
        assert ParametersOf(sql) == 0 ==>
          WasSentOnNew(during.log, cli.log, c.value, h, sql, 0, cli.isQuery(sql) && da.sqlstate == SYNTAX_ERROR,
                       IsCompletion(da.sqlstate));
        BeganSame(old(conns), during.conns, conns, c.value);
      }
    }

    // A dynamic cursor prepares the text of its prepared statement again, on its own statement.
    method ExecDynamic(c: Id, h: Handle, sql: Text, input: Input, ghost pending: set<Handle>) returns (ok: bool)
      requires Inv({}, {}, pending) && Mine(h, {}, pending) && current == Some(c) && input.Valid()
      requires cli.statements[h].dbc == c
      requires cli.isQuery(sql)
      modifies this`conns, da, cli`statements, cli`records, cli`log
      ensures Inv({}, {}, pending) && Mine(h, {}, pending) && da.Consistent()
      ensures Began(old(conns), conns, c)
      ensures old(cli.statements)[h].phase.Open? ==>
        && !ok && da.sqlstate == INVALID_CURSOR_STATE && conns == old(conns)
        && cli.statements == old(cli.statements) && cli.log == old(cli.log)
      ensures !old(cli.statements)[h].phase.Open? ==> da.sqlstate != INVALID_CURSOR_STATE
      ensures ok ==> cli.statements[h].phase == Phase.Open(false)
      ensures ok ==> input.Status(ParametersOf(sql)) == SUCCESSFUL
      ensures ok <==> IsCompletion(da.sqlstate)
      ensures OthersStay(old(cli.statements), cli.statements, h)
      ensures !old(cli.statements)[h].phase.Open? ==>
        WasSent(old(cli.log), cli.log, c, h, sql, ParametersOf(sql), Excepted(input, sql, da.sqlstate), ok)
      ensures ok ==> c in conns && conns[c].active
    {
      hide Good, FreedOnce, OthersStay, SlotsStay, OtherSlotsStay, WereBound, Excepted, Input.Status;
      ghost var before := cli.statements;
      var rc := PrepareStatement(h, sql, {}, pending);
      if Failed(rc) {
        Diag(rc, h);
        NotSent(old(cli.log), c, h, sql, ParametersOf(sql), Excepted(input, sql, da.sqlstate));
        return false;
      }
      hide Reports, Sent;
      ok := Bind(c, h, sql, input, {}, pending);
      ExceptedIff(input, sql, da.sqlstate);
      if !ok {
        return;
      }
      BoundAll(old(cli.log), cli.log, h, ParametersOf(sql));
      ghost var bound := conns;
      SetActive(c, true, {}, pending);
      BeganTwice(old(conns), bound, conns, c);
      ghost var prepared := cli.statements;
      rc := ExecuteStatement(h, {}, pending);
      StayTwice(before, prepared, cli.statements, h, h, h);
      Diag(rc, h);
      ok := !Failed(rc);
    }

    // A dynamic cursor that can't be opened has no statement either.
    method OpenDynamicCursor(c: Id, m: Module, i: nat, name: string, hold: bool, sql: Text, input: Input)
      returns (ok: bool, ghost stmt: Handle)
      requires Inv({}, {}, {}) && current == Some(c) && i < |m.cursors| && cli.isQuery(sql) && input.Valid()
      modifies this`conns, this`owner, da, cli`statements, cli`freed, cli`issued, cli`last, cli`records, cli`log
      ensures Inv({}, {}, {}) && c in old(conns) && da.Consistent() && Keeps(old(conns), conns, c)
      ensures ok ==> IsOpen(cli.statements, SlotOf(conns, current, m, i))
      ensures ok ==> input.Status(ParametersOf(sql)) == SUCCESSFUL
      ensures ok <==> IsCompletion(da.sqlstate)
      ensures OtherSlotsStay(old(conns), conns, c, m, i)
      ensures OthersStay(old(cli.statements), cli.statements, SlotOf(conns, current, m, i))
      ensures var h := SlotOf(old(conns), current, m, i);
        if IsOpen(old(cli.statements), h) then
          && !ok && da.sqlstate == INVALID_CURSOR_STATE && conns == old(conns)
          && cli.statements == old(cli.statements) && cli.log == old(cli.log)
        else
          da.sqlstate != INVALID_CURSOR_STATE && (!ok ==> SlotOf(conns, current, m, i) == 0)
      ensures !IsOpen(old(cli.statements), SlotOf(old(conns), current, m, i)) ==>
        WasOpened(old(cli.log), cli.log, c, stmt, SlotOf(old(conns), current, m, i) == 0, name, hold, sql,
                  ParametersOf(sql), Excepted(input, sql, da.sqlstate), ok)
      ensures ok ==> stmt == SlotOf(conns, current, m, i) && conns[c].active
    {
      hide Good, FreedOnce, OthersStay, SlotsStay, OtherSlotsStay, Keeps, Began;
      ghost var first := cli.statements;
      ghost var log := cli.log;
      var h;
      ghost var f;
      h, f, stmt := CursorOn(c, m, i, Some(name), hold);
      if h == 0 {
        return false, stmt;
      }
      ghost var before, found := conns, cli.statements;
      ok := ExecDynamic(c, h, sql, input, {h});
      BeganKeeps(before, conns, c, m, i);
      KeepsTwice(old(conns), before, conns, c);
      OtherSlotsTwice(old(conns), before, conns, c, m, i);
      StayTwice(first, found, cli.statements, h, h, h);
      if !ok && da.sqlstate != INVALID_CURSOR_STATE {
        ghost var during, used := conns, cli.statements;
        assert Holds(c, m, i, h);
        EmptySlot(c, m, i, h);
        KeepsTwice(old(conns), during, conns, c);
        OtherSlotsTwice(old(conns), during, conns, c, m, i);
        StayAfterFree(first, used, cli.statements, h);
      } else {
        Opened(h);
      }
    }

    method OpenDynamicOn(c: Id, m: Module, i: nat, name: string, hold: bool, statement: string, input: Input)
      requires Inv({}, {}, {}) && current == Some(c) && i < |m.cursors| && input.Valid()
      modifies this`conns, this`owner, da, cli`statements, cli`freed, cli`issued, cli`last, cli`records, cli`log
      ensures Inv({}, {}, {}) && c in old(conns) && da.Consistent() && Keeps(old(conns), conns, c)
      ensures DynamicOpened(old(Seen()), Seen(), m, i, name, hold, statement, input, da.sqlstate)
    {
      hide Good, FreedOnce, OthersStay, SlotsStay, OtherSlotsStay, WasOpened, ParametersOf, KeepsSession;
      ghost var s := Seen();
      KeepsSame(conns, c);
      var p := FindNamed(c, m, statement);
      if p.None? {
        return;
      }
      var rc, columns := cli.NumResultCols(p.value.stmt);
      if columns == 0 {
        Status(NOT_CURSOR);
        return;
      }
      var ok;
      ghost var stmt;
      ok, stmt := OpenDynamicCursor(c, m, i, name, hold, p.value.sql, input);
      if !IsOpen(s.statements, StatementOf(s, m, i)) {
        assert OpenedBy(s, Seen(), m, i, stmt, name, hold, p.value.sql, ParametersOf(p.value.sql),
                        input.Status(ParametersOf(p.value.sql)), da.sqlstate);
        assert CursorOpened(s, Seen(), m, i, name, hold, p.value.sql, ParametersOf(p.value.sql),
                            input.Status(ParametersOf(p.value.sql)), da.sqlstate);
      }
    }

    // OPEN for a dynamic cursor that's declared for a prepared statement.
    method OpenDynamic(m: Module, i: nat, name: string, hold: bool, statement: string, input: Input)
      returns (ghost during: State)
      requires Valid() && i < |m.cursors| && input.Valid()
      modifies this`current, this`conns, this`owner, this`keys, da, cli
      ensures Valid() && da.Consistent() && SamePrepared(old(conns), conns)
      ensures connected ==> conns.Keys == old(conns).Keys
      ensures UsedBy(m) ==>
        && Switched(old(Seen()), during, m)
        && DynamicOpened(during, Seen(), m, i, name, hold, statement, input, da.sqlstate)
      ensures !UsedBy(m) ==> NotSwitched(old(Seen()), Seen(), da.sqlstate)
    {
      hide Good, FreedOnce, OthersStay, SlotsStay, OtherSlotsStay, DynamicOpened;
      var c := Use(m);
      during := Seen();
      if c.Some? {
        OpenDynamicOn(c.value, m, i, name, hold, statement, input);
        KeepsPrepared(during.conns, conns, c.value);
      }
    }

    method FetchDynamicFrom(c: Id, h: Handle, out: Output) returns (done: bool)
      requires Inv({}, {}, {}) && current == Some(c) && out.Valid()
      requires h in cli.statements && cli.statements[h].QueryExecuted()
      modifies this`conns, da, cli`statements, cli`records, cli`log
      ensures Inv({}, {}, {}) && da.Consistent() && Began(old(conns), conns, c)
      ensures da.sqlstate != SEQUENCE_ERROR
      ensures da.sqlstate == INVALID_CURSOR_STATE <==> !old(cli.statements)[h].phase.Open?
      ensures done ==> da.sqlstate == SUCCESSFUL || da.sqlstate == RIGHT_TRUNCATION
      ensures OthersStay(old(cli.statements), cli.statements, h)
      ensures h in cli.statements && (cli.statements[h].phase.Open? <==> old(cli.statements)[h].phase.Open?)
      ensures OnlyStatement(old(cli.statements), cli.statements, h)
      ensures var columns := old(cli.statements)[h].columns;
        if !old(cli.statements)[h].phase.Open? then !done && cli.log == old(cli.log) + [Request.Fetch(h, false)]
        else RowFetched(old(cli.log), cli.log, h, columns, out.Status(columns), done, da.sqlstate)
    {
      hide Good, FreedOnce, OthersStay, SlotsStay, OtherSlotsStay;
      var rc := FetchStatement(h, {});
      done := Into(c, h, rc, out);
    }

    method FetchDynamicOn(c: Id, m: Module, i: nat, out: Output) returns (done: bool)
      requires Inv({}, {}, {}) && current == Some(c) && i < |m.cursors| && out.Valid()
      modifies this`conns, this`owner, da, cli`statements, cli`freed, cli`issued, cli`last, cli`records, cli`log
      ensures Inv({}, {}, {}) && Keeps(old(conns), conns, c) && da.Consistent()
      ensures da.sqlstate != SEQUENCE_ERROR
      ensures da.sqlstate == INVALID_CURSOR_STATE <==> !IsOpen(old(cli.statements), SlotOf(old(conns), current, m, i))
      ensures done ==> da.sqlstate == SUCCESSFUL || da.sqlstate == RIGHT_TRUNCATION
      ensures SlotOf(conns, current, m, i) == SlotOf(old(conns), current, m, i)
      ensures OthersStay(old(cli.statements), cli.statements, SlotOf(conns, current, m, i))
      ensures OtherSlotsStay(old(conns), conns, c, m, i)
      ensures IsOpen(cli.statements, SlotOf(conns, current, m, i)) <==>
              IsOpen(old(cli.statements), SlotOf(conns, current, m, i))
      ensures OnlyStatement(old(cli.statements), cli.statements, SlotOf(conns, current, m, i))
      ensures var h := SlotOf(old(conns), current, m, i);
        if h == 0 then !done && cli.log == old(cli.log)
        else
          h in old(cli.statements) &&
          var columns := old(cli.statements)[h].columns;
          if !old(cli.statements)[h].phase.Open? then !done && cli.log == old(cli.log) + [Request.Fetch(h, false)]
          else RowFetched(old(cli.log), cli.log, h, columns, out.Status(columns), done, da.sqlstate)
    {
      hide Good, FreedOnce, OthersStay, SlotsStay, OtherSlotsStay;
      ghost var before := cli.statements;
      var h, f, _ := CursorOn(c, m, i, None, false);
      if h == 0 {
        return false;
      }
      ghost var during, found := conns, cli.statements;
      done := FetchDynamicFrom(c, h, out);
      BeganKeeps(during, conns, c, m, i);
      KeepsTwice(old(conns), during, conns, c);
      OtherSlotsTwice(old(conns), during, conns, c, m, i);
      StayTwice(before, found, cli.statements, h, h, h);
    }

    // FETCH from a dynamic cursor is like FETCH.
    method FetchDynamic(m: Module, i: nat, out: Output) returns (done: bool, ghost during: State)
      requires Valid() && i < |m.cursors| && out.Valid()
      modifies this`current, this`conns, this`owner, this`keys, da, cli
      ensures Valid() && da.Consistent() && SamePrepared(old(conns), conns)
      ensures connected ==> conns.Keys == old(conns).Keys
      ensures da.sqlstate != SEQUENCE_ERROR
      ensures UsedBy(m) ==>
        && Switched(old(Seen()), during, m)
        && Fetched(during, Seen(), m, i, out.Status(ColumnsOf(during, m, i)), done, da.sqlstate)
      ensures !UsedBy(m) ==> NotSwitched(old(Seen()), Seen(), da.sqlstate)
      ensures done ==> da.sqlstate == SUCCESSFUL || da.sqlstate == RIGHT_TRUNCATION
    {
      hide Good, FreedOnce, OthersStay, SlotsStay, OtherSlotsStay;
      var c := Use(m);
      during := Seen();
      if c.None? {
        return false, during;
      }
      done := FetchDynamicOn(c.value, m, i, out);
      KeepsPrepared(during.conns, conns, c.value);
      assert OnlyCursor(during, Seen(), m, i);
    }

    // The only row of the query that h has executed is assigned, unless there is a different
    // number of columns.
    method SelectRow(h: Handle, n: nat) returns (done: bool)
      requires Inv({}, {h}, {}) && h in cli.statements && cli.statements[h].phase.Open?
      modifies da, cli`statements, cli`records, cli`log
      ensures Inv({}, {h}, {}) && da.Consistent()
      ensures old(cli.statements)[h].columns != n ==> !done && da.sqlstate == OUTPUT_MISMATCH
      ensures da.sqlstate == SUCCESSFUL ==> done
      ensures OthersStay(old(cli.statements), cli.statements, h)
      ensures if old(cli.statements)[h].columns != n then cli.log == old(cli.log)
        else OnlyRowFetched(old(cli.log), cli.log, h, n, SUCCESSFUL, done, da.sqlstate)
    {
      hide Good, FreedOnce, OthersStay, SlotsStay, OtherSlotsStay;
      ghost var before := cli.statements;
      StaySame(before, h);
      var rc, columns := cli.NumResultCols(h);
      if columns != n {
        Status(OUTPUT_MISMATCH);
        return false;
      }
      rc := FetchStatement(h, {h});
      var truncated;
      rc, truncated := AssignRow(h, rc, n);
      if Failed(rc) {
        Diag(rc, h);
        return false;
      }
      ghost var fetched, row := cli.statements, cli.log;
      rc := Second(h, {h});
      StayTwice(before, fetched, cli.statements, h, h, h);
      ghost var more := !Failed(rc);
      if rc.NoData? {
        Status(if truncated then RIGHT_TRUNCATION else SUCCESSFUL);
      }
      assert SecondFetched(row, cli.log, h, more, truncated, da.sqlstate);
      return true;
    }

    // The statement is always freed.
    method SelectOn(c: Id, sql: Text, parameters: nat, n: nat)
      returns (done: bool, ghost h: Handle, ghost log: seq<Request>, ghost ok: bool)
      requires Inv({}, {}, {}) && current == Some(c) && cli.isQuery(sql)
      modifies this`conns, da, cli`statements, cli`freed, cli`issued, cli`last, cli`records, cli`log
      ensures Inv({}, {}, {}) && da.Consistent() && Began(old(conns), conns, c)
      ensures da.sqlstate == SUCCESSFUL ==> done
      ensures OthersStay(old(cli.statements), cli.statements, 0)
      ensures WasSentOnNew(old(cli.log), log, c, h, sql, parameters, false, ok)
      ensures RowSelected(log, cli.log, h, n, ok, done, da.sqlstate)
      ensures BeganWhen(old(conns), conns, c, Sent(old(cli.log), log))
    {
      hide Good, FreedOnce, OthersStay, SlotsStay, OtherSlotsStay, Sent, Reports;
      ghost var before := cli.statements;
      StaySame(before, 0);
      var rc, stmt := AllocStatement(c);
      h, log, ok := stmt, cli.log, false;
      if Failed(rc) {
        NotSent(cli.log[..|old(cli.log)|], c, h, sql, parameters, false);
        assert old(cli.log) == cli.log[..|old(cli.log)|];
        Diag(rc, c);
        return false, h, log, false;
      }
      ghost var made := cli.statements;
      done := Exec(c, stmt, sql, parameters, {h}, {});
      log, ok := cli.log, done;
      if done {
        ghost var executed := cli.statements;
        done := SelectRow(stmt, n);
        StayTwice(made, executed, cli.statements, h, h, h);
      }
      ghost var used := cli.statements;
      FreeStatement(stmt);
      StayTwice(before, made, used, h, h, h);
      StayAfterFree(before, used, cli.statements, h);
    }

    // SELECT of a single row.
    method Select(m: Module, sql: Text, parameters: nat, n: nat) returns (done: bool, ghost during: State)
      requires Valid() && cli.isQuery(sql)
      modifies this`current, this`conns, this`owner, this`keys, da, cli
      ensures Valid() && da.Consistent() && SamePrepared(old(conns), conns)
      ensures connected ==> conns.Keys == old(conns).Keys
      ensures UsedBy(m) ==>
        && Switched(old(Seen()), during, m)
        && WasSelected(during, Seen(), sql, parameters, n, done, da.sqlstate)
      ensures !UsedBy(m) ==> NotSwitched(old(Seen()), Seen(), da.sqlstate)
      ensures da.sqlstate == SUCCESSFUL ==> done
    {
      hide Good, FreedOnce, OthersStay, SlotsStay, OtherSlotsStay, SchemaWasSet, WasOpenedTo;
      var c := Use(m);
      during := Seen();
      if c.None? {
        return false, during;
      }
      ghost var h, log, ok;
      done, h, log, ok := SelectOn(c.value, sql, parameters, n);
      assert WasSentOnNew(during.log, log, c.value, h, sql, parameters, false, ok);
      assert BeganIf(during, Seen(), Sent(during.log, log));
      BeganSame(old(conns), during.conns, conns, c.value);
    }

    // ALLOCATE, DEALLOCATE, GET and SET DESCRIPTOR, with the status that the area gives.
    method UseArea(m: Module, status: SqlState) returns (ghost during: State)
      requires Valid()
      modifies this`current, this`conns, this`owner, this`keys, da, cli
      ensures Valid() && da.Consistent() && SamePrepared(old(conns), conns)
      ensures connected ==> conns.Keys == old(conns).Keys
      ensures UsedBy(m) ==> Switched(old(Seen()), during, m) && UsedDescriptor(during, Seen()) && da.sqlstate == status
      ensures !UsedBy(m) ==> NotSwitched(old(Seen()), Seen(), da.sqlstate)
    {
      hide Good, FreedOnce, OthersStay, SlotsStay, OtherSlotsStay, NotSwitched, SchemaWasSet, WasOpenedTo;
      var c := Use(m);
      during := Seen();
      if c.Some? {
        SetActive(c.value, true, {}, {});
        Status(status);
      }
    }

    // DESCRIBE, with the status that the area gives.
    method Describe(m: Module, name: string, status: SqlState) returns (ghost during: State)
      requires Valid()
      modifies this`current, this`conns, this`owner, this`keys, da, cli
      ensures Valid() && da.Consistent() && SamePrepared(old(conns), conns)
      ensures connected ==> conns.Keys == old(conns).Keys
      ensures UsedBy(m) ==>
        Switched(old(Seen()), during, m) && WasDescribed(during, Seen(), m, name, status, da.sqlstate)
      ensures !UsedBy(m) ==> NotSwitched(old(Seen()), Seen(), da.sqlstate)
    {
      hide Good, FreedOnce, OthersStay, SlotsStay, OtherSlotsStay, NotSwitched, SchemaWasSet, WasOpenedTo;
      var c := Use(m);
      during := Seen();
      if c.Some? {
        var p := FindNamed(c.value, m, name);
        if p.Some? {
          SetActive(c.value, true, {}, {});
          Status(status);
        }
      }
    }
  }
}
