/**
 The states of the agent and of the CLI below it that can be reached, and the steps that keep
 their rules.
 */
module States {
  import opened Wrappers
  import opened SqlCli
  import opened Ownership

  // dbcs, schemas, statements and log are of the CLI. keys and owner are only for the proof.
  datatype State = State(
    conns: map<Id, Connection>, current: Option<Id>, owner: map<Handle, Owner>,
    keys: map<Key, Id>, dbcs: set<Handle>, schemas: map<Handle, nat>,
    statements: map<Handle, Statement>, isQuery: string -> bool, log: seq<Request>)

  // What an SQL-connection is found by. keys has the SQL-connection that has each key.
  datatype Key = Default | Name(name: string)

  function KeyOf(conn: Connection): Key {
    if conn.isDefault then Default else Name(conn.name)
  }

  function WithKey(conn: Connection, key: Key): (r: Connection)
    requires conn.name == "" && !conn.isDefault
    ensures KeyOf(r) == key && r.server == conn.server && r.active == conn.active
  {
    if key.Default? then conn.(isDefault := true) else conn.(name := key.name)
  }

  // The module of each SQL-connection is the last one whose schema was set on it.
  ghost predicate Schemas(conns: map<Id, Connection>, schemas: map<Handle, nat>) {
    forall c | c in conns ::
      if conns[c].m.Some? then c in schemas && schemas[c] == conns[c].m.value.id else c !in schemas
  }

  // The rules for the SQL-connections, except for the ones that are being opened or closed.
  ghost predicate Sessions(conns: map<Id, Connection>, current: Option<Id>, keys: map<Key, Id>, moving: set<Id>) {
    && (current.Some? ==> current.value in conns)
    && (forall c | c in conns && c !in moving ::
          && (conns[c].active ==> current == Some(c))
          && KeyOf(conns[c]) != Name("")
          && KeyOf(conns[c]) in keys && keys[KeyOf(conns[c])] == c)
  }

  // running is the statements of the call that is running, and pending the ones of the cursors
  // that are being opened.
  ghost predicate Good(s: State, moving: set<Id>, running: set<Handle>, pending: set<Handle>) {
    // Every SQL-connection of the CLI is one of the agent.
    && s.conns.Keys == s.dbcs
    && Schemas(s.conns, s.schemas)
    && Sessions(s.conns, s.current, s.keys, moving)
    && Owned(s.conns, s.owner, s.statements, running, pending, s.isQuery)
  }

  // What the CLI was asked doesn't matter to the rules.
  lemma GoodWithLog(s: State, log: seq<Request>, moving: set<Id>, running: set<Handle>, pending: set<Handle>)
    requires Good(s, moving, running, pending)
    ensures Good(s.(log := log), moving, running, pending)
  {
  }

  // What the agent has is what the CLI has.
  lemma SameHandles(s: State, moving: set<Id>, running: set<Handle>, pending: set<Handle>)
    requires Good(s, moving, running, pending)
    ensures s.conns.Keys == s.dbcs && s.owner.Keys <= s.statements.Keys && running <= s.statements.Keys
  {
  }

  // A statement that is used stays of its owner.
  ghost predicate Usable(s: State, after: map<Handle, Statement>, h: Handle, pending: set<Handle>) {
    && OthersMayChange(s.statements, after, h)
    && (h in s.statements ==> after[h].dbc == s.statements[h].dbc)
    && (h in s.owner && h in s.statements ==>
          || (s.owner[h].Slot? && h in pending)
          || (s.owner[h].Slot? && after[h].QueryExecuted())
          || (s.owner[h].Named? && after[h].query == s.statements[h].query && after[h].text == s.statements[h].text
              && !s.statements[h].phase.Allocated?)
          || after[h] == s.statements[h])
  }

  lemma AfterUse(s: State, after: map<Handle, Statement>, h: Handle,
                 moving: set<Id>, running: set<Handle>, pending: set<Handle>)
    requires Good(s, moving, running, pending) && Usable(s, after, h, pending)
    ensures Good(s.(statements := after), moving, running, pending)
  {
    OwnedAfterUse(s.conns, s.owner, s.statements, after, h, running, pending, s.isQuery);
  }

  lemma AfterAlloc(s: State, after: map<Handle, Statement>, h: Handle,
                   moving: set<Id>, running: set<Handle>, pending: set<Handle>)
    requires Good(s, moving, running, pending)
    requires h !in s.statements && h in after && after == s.statements[h := after[h]]
    ensures Good(s.(statements := after), moving, running + {h}, pending)
  {
  }

  // A statement of the running call is freed.
  lemma AfterFree(s: State, after: map<Handle, Statement>, h: Handle,
                  moving: set<Id>, running: set<Handle>, pending: set<Handle>)
    requires Good(s, moving, running, pending) && h in running
    requires OthersMayChange(s.statements - {h}, after, h)
    ensures Good(s.(statements := after), moving, running - {h}, pending)
  {
    var mid := s.statements - {h};
    assert h !in s.owner;
    assert Owned(s.conns, s.owner, mid, running - {h}, pending, s.isQuery);
    OwnedAfterUse(s.conns, s.owner, mid, after, h, running - {h}, pending, s.isQuery);
  }

  // The statement of a cursor is freed, and the slot is empty again.
  lemma AfterFreeSlot(s: State, after: map<Handle, Statement>, c: Id, m: Module, i: nat,
                      moving: set<Id>, running: set<Handle>, pending: set<Handle>)
    requires Good(s, moving, running, pending)
    requires c in s.conns && m in s.conns[c].cursors && i < |m.cursors|
    requires s.conns[c].cursors[m][i] != 0
    requires OthersMayChange(s.statements - {s.conns[c].cursors[m][i]}, after, s.conns[c].cursors[m][i])
    ensures var h := s.conns[c].cursors[m][i];
      Good(s.(statements := after, owner := s.owner - {h}, conns := SetSlot(s.conns, c, m, i, 0)),
           moving, running, pending - {h})
  {
    var h := s.conns[c].cursors[m][i];
    var conns := SetSlot(s.conns, c, m, i, 0);
    RestAfterUpdate(s, c, conns[c], moving);
    OwnedAfterEmpty(s.conns, s.owner, s.statements, c, m, i, running, pending, s.isQuery);
    OwnedAfterUse(conns, s.owner - {h}, s.statements - {h}, after, h, running, pending - {h}, s.isQuery);
  }

  lemma AfterFreePrepared(s: State, after: map<Handle, Statement>, c: Id, k: nat,
                          moving: set<Id>, running: set<Handle>, pending: set<Handle>)
    requires Good(s, moving, running, pending)
    requires c in s.conns && k < |s.conns[c].prepared|
    requires OthersMayChange(s.statements - {s.conns[c].prepared[k].stmt}, after, s.conns[c].prepared[k].stmt)
    ensures var l := s.conns[c].prepared; var h := l[k].stmt;
      Good(s.(statements := after, owner := s.owner - {h},
              conns := SetPrepared(s.conns, c, l[..k] + l[k + 1..])),
           moving, running, pending)
  {
    var l := s.conns[c].prepared;
    var h := l[k].stmt;
    var conns := SetPrepared(s.conns, c, l[..k] + l[k + 1..]);
    RestAfterUpdate(s, c, conns[c], moving);
    OwnedAfterRemove(s.conns, s.owner, s.statements, c, k, running, pending, s.isQuery);
    OwnedAfterUse(conns, s.owner - {h}, s.statements - {h}, after, h, running, pending, s.isQuery);
  }

  // The statement of a prepared statement is its own, so it has a handle.
  lemma PreparedAt(s: State, c: Id, k: nat, moving: set<Id>, running: set<Handle>, pending: set<Handle>)
    requires Good(s, moving, running, pending)
    requires c in s.conns && k < |s.conns[c].prepared|
    ensures var p := s.conns[c].prepared[k];
      && p.stmt != 0 && p.stmt in s.statements && p.stmt in s.owner && s.owner[p.stmt] == Named(c, p.m, p.name)
      && s.statements[p.stmt].dbc == c
      && (!s.statements[p.stmt].phase.Allocated? ==>
            s.statements[p.stmt].query == s.isQuery(p.sql) && s.statements[p.stmt].text == p.sql)
  {
    var p := s.conns[c].prepared[k];
    IndexOfSame(s.conns[c].prepared, k, p.m, p.name);
    assert At(s.conns, Named(c, p.m, p.name), p.stmt);
  }

  lemma NamedAt(s: State, c: Id, m: Module, name: string)
    requires Good(s, {}, {}, {}) && c in s.conns && Lookup(s.conns[c], m, name).Some?
    ensures var p := Lookup(s.conns[c], m, name).value;
      && p.stmt != 0 && p.stmt in s.statements
      && (!s.statements[p.stmt].phase.Allocated? ==>
            s.statements[p.stmt].query == s.isQuery(p.sql) && s.statements[p.stmt].text == p.sql)
  {
    hide Good, ByName;
    FindRefinesMap(s.conns[c].prepared, m, name);
    PreparedAt(s, c, IndexOf(s.conns[c].prepared, m, name), {}, {}, {});
  }

  lemma SlotCount(s: State, c: Id, m: Module, moving: set<Id>, running: set<Handle>, pending: set<Handle>)
    requires Good(s, moving, running, pending)
    requires c in s.conns && m in s.conns[c].cursors
    ensures |s.conns[c].cursors[m]| == |m.cursors| + 1
  {
  }

  lemma SlotAt(s: State, c: Id, m: Module, i: nat, moving: set<Id>, running: set<Handle>, pending: set<Handle>)
    requires Good(s, moving, running, pending)
    requires c in s.conns && m in s.conns[c].cursors && i < |m.cursors| && s.conns[c].cursors[m][i] != 0
    ensures var h := s.conns[c].cursors[m][i];
      && h in s.statements && h in s.owner && s.owner[h] == Slot(c, m, i)
      && s.statements[h].dbc == c
      && (h !in pending ==> s.statements[h].QueryExecuted())
  {
    assert At(s.conns, Slot(c, m, i), s.conns[c].cursors[m][i]);
  }

  lemma AfterFill(s: State, c: Id, m: Module, i: nat, h: Handle,
                  moving: set<Id>, running: set<Handle>, pending: set<Handle>)
    requires Good(s, moving, running, pending)
    requires c in s.conns && m in s.conns[c].cursors && i < |m.cursors| && s.conns[c].cursors[m][i] == 0
    requires h in running && h != 0 && s.statements[h].dbc == c
    ensures Good(s.(owner := s.owner[h := Slot(c, m, i)], conns := SetSlot(s.conns, c, m, i, h)),
                 moving, running - {h}, pending + {h})
  {
    RestAfterUpdate(s, c, SetSlot(s.conns, c, m, i, h)[c], moving);
    OwnedAfterFill(s.conns, s.owner, s.statements, c, m, i, h, running, pending, s.isQuery);
  }

  lemma Pend(s: State, h: Handle)
    requires Good(s, {}, {}, {})
    ensures Good(s, {}, {}, {h})
  {
    assert Fitting(s.conns, s.owner, s.statements, {h}, s.isQuery);
  }

  // A cursor isn't pending any more when its query has been executed.
  lemma AfterOpened(s: State, h: Handle, moving: set<Id>, running: set<Handle>, pending: set<Handle>)
    requires Good(s, moving, running, pending)
    requires h in s.statements && s.statements[h].QueryExecuted()
    ensures Good(s, moving, running, pending - {h})
  {
    assert Fitting(s.conns, s.owner, s.statements, pending - {h}, s.isQuery);
  }

  lemma AfterPrepare(s: State, c: Id, p: Prepared,
                     moving: set<Id>, running: set<Handle>, pending: set<Handle>)
    requires Good(s, moving, running, pending)
    requires c in s.conns && IndexOf(s.conns[c].prepared, p.m, p.name) == |s.conns[c].prepared|
    requires p.stmt in running && p.stmt != 0 && s.statements[p.stmt].dbc == c
    requires s.statements[p.stmt].query == s.isQuery(p.sql) && s.statements[p.stmt].text == p.sql
    ensures Good(s.(owner := s.owner[p.stmt := Named(c, p.m, p.name)],
                    conns := SetPrepared(s.conns, c, [p] + s.conns[c].prepared)),
                 moving, running - {p.stmt}, pending)
  {
    RestAfterUpdate(s, c, s.conns[c].(prepared := [p] + s.conns[c].prepared), moving);
    OwnedAfterPrepare(s.conns, s.owner, s.statements, c, p, running, pending, s.isQuery);
  }

  lemma AfterModule(s: State, c: Id, m: Module,
                    moving: set<Id>, running: set<Handle>, pending: set<Handle>)
    requires Good(s, moving, running, pending)
    requires c in s.conns && m !in s.conns[c].cursors
    ensures Good(s.(conns := WithCursors(s.conns, c, m)), moving, running, pending)
  {
    var slots := NoSlots(|m.cursors| + 1);
    RestAfterUpdate(s, c, s.conns[c].(cursors := s.conns[c].cursors[m := slots]), moving);
    OwnedAfterModule(s.conns, s.owner, s.statements, c, m, slots, running, pending, s.isQuery);
  }

  // The statements of the cursors of a module have been freed.
  lemma WithoutModule(s: State, c: Id, m: Module,
                      moving: set<Id>, running: set<Handle>, pending: set<Handle>)
    requires Good(s, moving, running, pending)
    requires c in s.conns && m in s.conns[c].cursors
    requires forall i | 0 <= i < |m.cursors| :: s.conns[c].cursors[m][i] == 0
    ensures Good(s.(conns := s.conns[c := s.conns[c].(cursors := s.conns[c].cursors - {m})]),
                 moving, running, pending)
  {
    RestAfterUpdate(s, c, s.conns[c].(cursors := s.conns[c].cursors - {m}), moving);
    OwnedWithoutModule(s.conns, s.owner, s.statements, c, m, running, pending, s.isQuery);
  }

  lemma SessionsAfterUpdate(conns: map<Id, Connection>, current: Option<Id>, keys: map<Key, Id>, moving: set<Id>,
                            c: Id, conn: Connection)
    requires Sessions(conns, current, keys, moving) && c in conns
    requires conn.name == conns[c].name && conn.isDefault == conns[c].isDefault
    requires conn.active ==> current == Some(c) || conns[c].active
    ensures KeyOf(conn) == KeyOf(conns[c])
    ensures Sessions(conns[c := conn], current, keys, moving)
  {
  }

  // The rules that aren't about what a connection owns.
  lemma RestAfterUpdate(s: State, c: Id, conn: Connection, moving: set<Id>)
    requires Schemas(s.conns, s.schemas)
    requires Sessions(s.conns, s.current, s.keys, moving)
    requires c in s.conns && conn == s.conns[c].(cursors := conn.cursors, prepared := conn.prepared)
    ensures Schemas(s.conns[c := conn], s.schemas)
    ensures Sessions(s.conns[c := conn], s.current, s.keys, moving)
  {
    SessionsAfterUpdate(s.conns, s.current, s.keys, moving, c, conn);
  }

  // The current SQL-connection begins or ends an SQL-transaction.
  lemma AfterActive(s: State, c: Id, active: bool,
                    moving: set<Id>, running: set<Handle>, pending: set<Handle>)
    requires Good(s, moving, running, pending)
    requires c in s.conns && (active ==> s.current == Some(c))
    ensures Good(s.(conns := WithActive(s.conns, c, active)), moving, running, pending)
  {
    var conn := s.conns[c].(active := active);
    OwnedAfterUpdate(s.conns, s.owner, s.statements, c, conn, running, pending, s.isQuery);
    SessionsAfterUpdate(s.conns, s.current, s.keys, moving, c, conn);
  }

  // The schema of the module has been set.
  lemma AfterSchema(s: State, c: Id, m: Module, schemas: map<Handle, nat>,
                    moving: set<Id>, running: set<Handle>, pending: set<Handle>)
    requires Good(s, moving, running, pending)
    requires c in s.conns && schemas == s.schemas[c := m.id]
    ensures Good(s.(schemas := schemas, conns := s.conns[c := s.conns[c].(m := Some(m))]),
                 moving, running, pending)
  {
    var conn := s.conns[c].(m := Some(m));
    OwnedAfterUpdate(s.conns, s.owner, s.statements, c, conn, running, pending, s.isQuery);
    SessionsAfterUpdate(s.conns, s.current, s.keys, moving, c, conn);
  }

  // An SQL-connection without a name is made.
  lemma AfterConnection(s: State, c: Id, server: string, moving: set<Id>)
    requires Good(s, moving, {}, {}) && c !in s.dbcs && c !in s.schemas
    ensures var conn := Blank(server);
      Good(s.(dbcs := s.dbcs + {c}, conns := s.conns[c := conn]), moving + {c}, {}, {})
  {
    var conn := Blank(server);
    OwnedAfterConnection(s.conns, s.owner, s.statements, c, conn, {}, {}, s.isQuery);
    SessionsWith(s.conns, s.current, s.keys, moving, c, conn);
  }

  lemma SessionsWith(conns: map<Id, Connection>, current: Option<Id>, keys: map<Key, Id>, moving: set<Id>,
                     c: Id, conn: Connection)
    requires Sessions(conns, current, keys, moving) && c !in conns
    ensures Sessions(conns[c := conn], current, keys, moving + {c})
  {
  }

  // It gets its name, or is the default one, and becomes the current one.
  lemma AfterNamed(s: State, c: Id, key: Key)
    requires Good(s, {c}, {}, {})
    requires c in s.conns && s.conns[c].name == "" && !s.conns[c].isDefault
    requires forall d | d in s.conns :: !s.conns[d].active
    requires key != Name("") && forall d | d in s.conns && d != c :: KeyOf(s.conns[d]) != key
    ensures Good(s.(current := Some(c), conns := s.conns[c := WithKey(s.conns[c], key)], keys := s.keys[key := c]),
                 {}, {}, {})
  {
    OwnedAfterUpdate(s.conns, s.owner, s.statements, c, WithKey(s.conns[c], key), {}, {}, s.isQuery);
  }

  lemma AfterCurrent(s: State, c: Id)
    requires Good(s, {}, {}, {}) && c in s.conns
    requires forall d | d in s.conns :: !s.conns[d].active
    ensures Good(s.(current := Some(c)), {}, {}, {})
  {
  }

  // An SQL-connection that is being closed isn't the current one any more.
  lemma AfterClosing(s: State, c: Id, moving: set<Id>)
    requires Good(s, moving, {}, {})
    ensures Good(s.(current := if s.current == Some(c) then None else s.current), moving + {c}, {}, {})
  {
  }

  // It owns nothing any more, so it's freed.
  lemma AfterDisconnect(s: State, c: Id, moving: set<Id>)
    requires Good(s, moving, {}, {}) && c in s.conns && c in moving && s.current != Some(c)
    requires s.conns[c].cursors == map[] && s.conns[c].prepared == []
    ensures forall h | h in s.statements :: s.statements[h].dbc != c
    ensures Good(s.(dbcs := s.dbcs - {c}, schemas := s.schemas - {c}, conns := s.conns - {c}), moving - {c}, {}, {})
  {
    var conn, after := s.conns[c], s.conns - {c};
    assert s.conns == after[c := conn];
    OwnedAfterConnection(after, s.owner, s.statements, c, conn, {}, {}, s.isQuery);
    forall h | h in s.statements ensures s.statements[h].dbc != c {
      assert h in s.owner && At(after, s.owner[h], h);
    }
  }

  // No two SQL-connections have the same name, and only one is the default one. An active one is
  // the current one.
  lemma SessionRules(s: State, c: Id, d: Id)
    requires Good(s, {}, {}, {}) && c in s.conns && d in s.conns
    ensures s.conns[c].isDefault && s.conns[d].isDefault ==> c == d
    ensures !s.conns[c].isDefault ==> s.conns[c].name != ""
    ensures !s.conns[c].isDefault && !s.conns[d].isDefault && s.conns[c].name == s.conns[d].name ==> c == d
    ensures s.conns[c].active ==> s.current == Some(c)
    ensures s.current.Some? ==> s.current.value in s.conns && s.current.value in s.dbcs
    ensures s.conns[c].m.Some? ==> c in s.schemas && s.schemas[c] == s.conns[c].m.value.id
  {
    assert KeyOf(s.conns[c]) in s.keys && KeyOf(s.conns[d]) in s.keys;
  }

  // Nothing is left without an SQL-connection.
  lemma NothingLeft(s: State)
    requires Good(s, {}, {}, {}) && s.conns == map[]
    ensures s.statements == map[] && s.dbcs == {}
  {
    assert forall o, h :: !At(s.conns, o, h);
    assert s.owner.Keys == {};
  }

  lemma NoSuchKey(s: State, key: Key)
    requires Good(s, {}, {}, {}) && key == Name("")
    ensures forall c | c in s.conns :: KeyOf(s.conns[c]) != key
  {
  }

  lemma SlotsIn(s: State, c: Id, m: Module)
    requires Good(s, {}, {}, {}) && c in s.conns && m in s.conns[c].cursors
    ensures |s.conns[c].cursors[m]| == |m.cursors| + 1
    ensures forall i | 0 <= i < |m.cursors| && s.conns[c].cursors[m][i] != 0 :: s.conns[c].cursors[m][i] in s.statements
  {
    forall i | 0 <= i < |m.cursors| && s.conns[c].cursors[m][i] != 0
      ensures s.conns[c].cursors[m][i] in s.statements
    {
      SlotAt(s, c, m, i, {}, {}, {});
    }
  }

  lemma NamesDistinct(s: State, c: Id)
    requires Good(s, {}, {}, {}) && c in s.conns
    ensures DistinctNames(s.conns[c].prepared)
  {
  }

  // The prepared statement k is removed.
  lemma RemoveKeeps(s: State, c: Id, m: Module, name: string, k: nat)
    requires Good(s, {}, {}, {}) && c in s.conns
    requires k < |s.conns[c].prepared| && s.conns[c].prepared[k].Is(m, name)
    ensures var l := s.conns[c].prepared; var after := SetPrepared(s.conns, c, l[..k] + l[k + 1..]);
      && KeepsSession(s.conns, after, c) && SlotsStay(s.conns, after) && OnlyPrepared(s.conns, after, c, m, name)
      && (m, name) !in ByName(after[c].prepared) && after[c].cursors == s.conns[c].cursors
  {
    hide Good, DistinctNames, KeepsSession, SlotsStay, OnlyPrepared, SetPrepared, ByName;
    NamesDistinct(s, c);
    RemoveOnly(s.conns, c, m, name, k);
  }

  // Its cursors are still closed when its statement has been freed.
  lemma StayClosed(s: State, conn: Connection, m: Module, name: string, after: map<Handle, Statement>, c: Id, k: nat)
    requires Good(s, {}, {}, {}) && c in s.conns && k < |s.conns[c].prepared|
    requires conn.cursors == s.conns[c].cursors
    requires OthersMayChange(s.statements - {s.conns[c].prepared[k].stmt}, after, 0)
    requires !CursorOpen(s.conns[c], m, name, s.statements)
    ensures !CursorOpen(conn, m, name, after)
  {
    forall i | 0 <= i < |m.cursors| ensures !OpenFor(conn, m, name, i, after) {
      assert !OpenFor(s.conns[c], m, name, i, s.statements);
    }
  }
}
