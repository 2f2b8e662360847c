/**
 The SQL-connections of the agent, and who owns each statement handle: a cursor slot, a prepared
 statement or the call that is running.
 */
module Ownership {
  import opened Wrappers
  import opened SqlCli

  // A cursor of a module. A dynamic cursor is declared for the name of a prepared statement.
  datatype Declaration = Declaration(name: string, statement: Option<string>)

  datatype Module = Module(id: nat, cursors: seq<Declaration>)

  // The characters of a C string.
  type Text = s: string | '\0' !in s witness ""

  datatype Prepared = Prepared(m: Module, name: string, sql: Text, stmt: Handle) {
    predicate Is(m: Module, name: string) {
      this.m == m && this.name == name
    }
  }

  // An SQL-connection is known by its handle of the CLI.
  type Id = Handle

  // m is the module whose schema is the default schema. cursors has the statements of the cursors
  // of each module, where 0 (zero) is a cursor that has none.
  datatype Connection = Connection(
    name: string, server: string, isDefault: bool, active: bool, m: Option<Module>,
    cursors: map<Module, seq<Handle>>, prepared: seq<Prepared>)

  // A connection that has only been made.
  function Blank(server: string): Connection {
    Connection("", server, false, false, None, map[], [])
  }

  // The place of the first prepared statement with the name in the list, or the length.
  function IndexOf(list: seq<Prepared>, m: Module, name: string): (k: nat)
    ensures k <= |list|
    ensures k < |list| ==> list[k].Is(m, name)
    ensures forall i | 0 <= i < k :: !list[i].Is(m, name)
  {
    if list == [] || list[0].Is(m, name) then 0 else 1 + IndexOf(list[1..], m, name)
  }

  // What the list means: the prepared statement of each name of each module.
  function ByName(list: seq<Prepared>): (r: map<(Module, string), Prepared>)
    ensures forall k | k in r :: r[k].Is(k.0, k.1)
  {
    if list == [] then map[]
    else ByName(list[1..])[(list[0].m, list[0].name) := list[0]]
  }

  predicate DistinctNames(list: seq<Prepared>) {
    forall i, j | 0 <= i < j < |list| :: !list[j].Is(list[i].m, list[i].name)
  }

  lemma {:induction false} FindRefinesMap(list: seq<Prepared>, m: Module, name: string)
    ensures var k := IndexOf(list, m, name);
      && (k < |list| <==> (m, name) in ByName(list))
      && (k < |list| ==> ByName(list)[(m, name)] == list[k])
  {
    if list != [] && !list[0].Is(m, name) {
      FindRefinesMap(list[1..], m, name);
    }
  }

  lemma RemoveTail(list: seq<Prepared>, k: nat)
    requires 0 < k < |list|
    ensures (list[..k] + list[k + 1..])[1..] == list[1..][..k - 1] + list[1..][k..]
    ensures (list[..k] + list[k + 1..])[0] == list[0]
  {
  }

  lemma RemoveDistinct(list: seq<Prepared>, k: nat)
    requires DistinctNames(list) && k < |list|
    ensures DistinctNames(list[..k] + list[k + 1..])
  {
    var after := list[..k] + list[k + 1..];
    forall i, j | 0 <= i < j < |after| ensures !after[j].Is(after[i].m, after[i].name) {
      var i', j' := if i < k then i else i + 1, if j < k then j else j + 1;
      assert after[i] == list[i'] && after[j] == list[j'];
    }
  }

  lemma RemoveFirst(list: seq<Prepared>)
    requires DistinctNames(list) && list != []
    ensures list[..0] + list[1..] == list[1..]
    ensures ByName(list[1..]) == ByName(list) - {(list[0].m, list[0].name)}
  {
    FindRefinesMap(list[1..], list[0].m, list[0].name);
  }

  lemma MapSwap<K, V>(m: map<K, V>, k: K, v: V, other: K)
    requires k != other
    ensures m[k := v] - {other} == (m - {other})[k := v]
  {
  }

  lemma {:induction false} RemoveRefinesMap(list: seq<Prepared>, k: nat)
    requires DistinctNames(list) && k < |list|
    ensures ByName(list[..k] + list[k + 1..]) == ByName(list) - {(list[k].m, list[k].name)}
  {
    if k == 0 {
      RemoveFirst(list);
    } else {
      var tail := list[1..];
      assert tail[k - 1] == list[k] && !list[k].Is(list[0].m, list[0].name);
      RemoveRefinesMap(tail, k - 1);
      RemoveTail(list, k);
      MapSwap(ByName(tail), (list[0].m, list[0].name), list[0], (list[k].m, list[k].name));
    }
  }

  datatype Owner =
    | Slot(c: Id, m: Module, i: nat)
    | Named(c: Id, m: Module, name: string)

  // The owner has the handle.
  ghost predicate At(conns: map<Id, Connection>, o: Owner, h: Handle) {
    && o.c in conns && h != 0
    && match o
       case Slot(c, m, i) =>
         m in conns[c].cursors && i < |conns[c].cursors[m]| && conns[c].cursors[m][i] == h
       case Named(c, m, name) =>
         var list := conns[c].prepared;
         var k := IndexOf(list, m, name);
         k < |list| && list[k].stmt == h
  }

  // The statement of a cursor has had its query executed, unless the cursor is being opened. The
  // statement of a prepared statement was prepared from its text, unless it has been destroyed.
  ghost predicate Fits(conns: map<Id, Connection>, o: Owner, s: Statement, isPending: bool, isQuery: string -> bool)
    requires o.c in conns
  {
    && s.dbc == o.c
    && match o
       case Slot(_, _, _) => isPending || s.QueryExecuted()
       case Named(c, m, name) =>
         var list := conns[c].prepared;
         var k := IndexOf(list, m, name);
         k < |list| && (!s.phase.Allocated? ==> s.query == isQuery(list[k].sql) && s.text == list[k].sql)
  }

  ghost predicate Shaped(conns: map<Id, Connection>) {
    && (forall c, m | c in conns && m in conns[c].cursors ::
          |conns[c].cursors[m]| == |m.cursors| + 1 && conns[c].cursors[m][|m.cursors|] == 0)
    && (forall c | c in conns :: DistinctNames(conns[c].prepared))
    && (forall c, k | c in conns && 0 <= k < |conns[c].prepared| :: conns[c].prepared[k].stmt != 0)
  }

  // The owners are the places that have a handle.
  ghost predicate Placed(conns: map<Id, Connection>, owner: map<Handle, Owner>) {
    && (forall h | h in owner :: At(conns, owner[h], h))
    && (forall o, h | At(conns, o, h) :: h in owner && owner[h] == o)
  }

  ghost predicate Fitting(conns: map<Id, Connection>, owner: map<Handle, Owner>,
                          statements: map<Handle, Statement>, pending: set<Handle>, isQuery: string -> bool)
  {
    forall h | h in owner ::
      owner[h].c in conns && h in statements && Fits(conns, owner[h], statements[h], h in pending, isQuery)
  }

  // Every statement handle has exactly one owner.
  ghost predicate Owned(conns: map<Id, Connection>, owner: map<Handle, Owner>,
                        statements: map<Handle, Statement>, running: set<Handle>,
                        pending: set<Handle>, isQuery: string -> bool)
  {
    && Shaped(conns)
    && owner.Keys + running == statements.Keys && owner.Keys !! running
    && Placed(conns, owner)
    && Fitting(conns, owner, statements, pending, isQuery)
  }

  lemma PlacedAdd(conns: map<Id, Connection>, after: map<Id, Connection>, owner: map<Handle, Owner>,
                  o: Owner, h: Handle)
    requires Placed(conns, owner) && h !in owner && h != 0
    requires forall x, k :: At(after, x, k) <==> if x == o then k == h && k != 0 else At(conns, x, k)
    requires forall k :: !At(conns, o, k)
    ensures Placed(after, owner[h := o])
  {
  }

  lemma PlacedDrop(conns: map<Id, Connection>, after: map<Id, Connection>, owner: map<Handle, Owner>,
                   o: Owner, h: Handle)
    requires Placed(conns, owner) && At(conns, o, h)
    requires forall x, k :: At(after, x, k) <==> x != o && At(conns, x, k)
    ensures Placed(after, owner - {h})
  {
  }

  // The other statements can change when one of the running call, or of a cursor that is being
  // opened, is used.
  lemma OwnedAfterUse(conns: map<Id, Connection>, owner: map<Handle, Owner>,
                      before: map<Handle, Statement>, after: map<Handle, Statement>, h: Handle,
                      running: set<Handle>, pending: set<Handle>, isQuery: string -> bool)
    requires Owned(conns, owner, before, running, pending, isQuery)
    requires OthersMayChange(before, after, h)
    requires h in before ==> after[h].dbc == before[h].dbc
    requires h in owner ==>
      || (owner[h].Slot? && h in pending)
      || (owner[h].Slot? && after[h].QueryExecuted())
      || (owner[h].Named? && !before[h].phase.Allocated?
          && (after[h].phase.Allocated? || (after[h].query == before[h].query && after[h].text == before[h].text)))
      || after[h] == before[h]
    ensures Owned(conns, owner, after, running, pending, isQuery)
  {
  }

  // The other fields of a connection don't matter.
  lemma OwnedAfterUpdate(conns: map<Id, Connection>, owner: map<Handle, Owner>,
                         statements: map<Handle, Statement>, c: Id, conn: Connection,
                         running: set<Handle>, pending: set<Handle>, isQuery: string -> bool)
    requires Owned(conns, owner, statements, running, pending, isQuery)
    requires c in conns && conn.cursors == conns[c].cursors && conn.prepared == conns[c].prepared
    ensures Owned(conns[c := conn], owner, statements, running, pending, isQuery)
  {
    var after := conns[c := conn];
    assert forall o, h :: At(after, o, h) <==> At(conns, o, h);
    forall h | h in owner
      ensures Fits(after, owner[h], statements[h], h in pending, isQuery)
    {
      assert At(conns, owner[h], h) && Fits(conns, owner[h], statements[h], h in pending, isQuery);
    }
  }

  // The slots of a module that has none yet.
  lemma OwnedAfterModule(conns: map<Id, Connection>, owner: map<Handle, Owner>,
                         statements: map<Handle, Statement>, c: Id, m: Module, slots: seq<Handle>,
                         running: set<Handle>, pending: set<Handle>, isQuery: string -> bool)
    requires Owned(conns, owner, statements, running, pending, isQuery)
    requires c in conns && m !in conns[c].cursors
    requires |slots| == |m.cursors| + 1 && forall i | 0 <= i < |slots| :: slots[i] == 0
    ensures Owned(conns[c := conns[c].(cursors := conns[c].cursors[m := slots])], owner, statements,
                  running, pending, isQuery)
  {
    var after := conns[c := conns[c].(cursors := conns[c].cursors[m := slots])];
    assert forall o, h :: At(after, o, h) <==> At(conns, o, h);
    forall h | h in owner
      ensures Fits(after, owner[h], statements[h], h in pending, isQuery)
    {
      assert At(conns, owner[h], h) && Fits(conns, owner[h], statements[h], h in pending, isQuery);
    }
  }

  // The slots of a module are all empty.
  lemma OwnedWithoutModule(conns: map<Id, Connection>, owner: map<Handle, Owner>,
                           statements: map<Handle, Statement>, c: Id, m: Module,
                           running: set<Handle>, pending: set<Handle>, isQuery: string -> bool)
    requires Owned(conns, owner, statements, running, pending, isQuery)
    requires c in conns && m in conns[c].cursors
    requires forall i | 0 <= i < |m.cursors| :: conns[c].cursors[m][i] == 0
    ensures Owned(conns[c := conns[c].(cursors := conns[c].cursors - {m})], owner, statements,
                  running, pending, isQuery)
  {
    var after := conns[c := conns[c].(cursors := conns[c].cursors - {m})];
    assert forall i | 0 <= i < |conns[c].cursors[m]| :: conns[c].cursors[m][i] == 0;
    assert forall o, h :: At(after, o, h) <==> At(conns, o, h);
    forall h | h in owner
      ensures Fits(after, owner[h], statements[h], h in pending, isQuery)
    {
      assert At(conns, owner[h], h) && Fits(conns, owner[h], statements[h], h in pending, isQuery);
    }
  }

  function SetSlot(conns: map<Id, Connection>, c: Id, m: Module, i: nat, h: Handle): map<Id, Connection>
    requires c in conns && m in conns[c].cursors && i < |conns[c].cursors[m]|
  {
    var slots: seq<Handle> := conns[c].cursors[m][i := h];
    conns[c := conns[c].(cursors := conns[c].cursors[m := slots])]
  }

  function NoSlots(n: nat): seq<Handle> {
    seq(n, _ => 0)
  }

  // The slots of a module are made when it first uses a cursor of the connection.
  function WithCursors(conns: map<Id, Connection>, c: Id, m: Module): map<Id, Connection>
    requires c in conns
  {
    if m in conns[c].cursors then conns
    else conns[c := conns[c].(cursors := conns[c].cursors[m := NoSlots(|m.cursors| + 1)])]
  }

  // No prepared statement has changed.
  ghost predicate SamePrepared(before: map<Id, Connection>, after: map<Id, Connection>) {
    forall d | d in before :: d in after && after[d].prepared == before[d].prepared
  }

  // What a statement that uses c keeps. An SQL-transaction of c may have begun.
  ghost predicate KeepsSession(before: map<Id, Connection>, after: map<Id, Connection>, c: Id) {
    && Only(before, after, c)
    && after[c] == before[c].(active := after[c].active, cursors := after[c].cursors, prepared := after[c].prepared)
    && (before[c].active ==> after[c].active)
  }

  ghost predicate Keeps(before: map<Id, Connection>, after: map<Id, Connection>, c: Id) {
    KeepsSession(before, after, c) && after[c].prepared == before[c].prepared
  }

  // Every cursor of every SQL-connection has the statement that it had.
  ghost predicate SlotsStay(before: map<Id, Connection>, after: map<Id, Connection>) {
    forall d, m, i :: SlotOf(after, Some(d), m, i) == SlotOf(before, Some(d), m, i)
  }

  // So has every cursor but i of m, of c.
  ghost predicate OtherSlotsStay(before: map<Id, Connection>, after: map<Id, Connection>, c: Id, m: Module, i: nat) {
    forall d, m', i' | d != c || m' != m || i' != i :: SlotOf(after, Some(d), m', i') == SlotOf(before, Some(d), m', i')
  }

  lemma OtherSlotsTwice(a: map<Id, Connection>, b: map<Id, Connection>, d: map<Id, Connection>,
                        c: Id, m: Module, i: nat)
    requires OtherSlotsStay(a, b, c, m, i) && OtherSlotsStay(b, d, c, m, i)
    ensures OtherSlotsStay(a, d, c, m, i)
  {
  }

  lemma SlotsSame(conns: map<Id, Connection>)
    ensures SlotsStay(conns, conns)
  {
  }

  lemma ActiveKeeps(conns: map<Id, Connection>, c: Id, active: bool)
    requires c in conns
    ensures SlotsStay(conns, WithActive(conns, c, active))
  {
  }

  lemma BeganSlots(before: map<Id, Connection>, after: map<Id, Connection>, c: Id)
    requires Began(before, after, c)
    ensures SlotsStay(before, after)
  {
  }

  lemma SlotsTwice(a: map<Id, Connection>, b: map<Id, Connection>, c: map<Id, Connection>)
    requires SlotsStay(a, b) && SlotsStay(b, c)
    ensures SlotsStay(a, c)
  {
  }

  lemma KeepsSame(conns: map<Id, Connection>, c: Id)
    requires c in conns
    ensures Keeps(conns, conns, c)
  {
  }

  lemma KeepsTwice(a: map<Id, Connection>, b: map<Id, Connection>, d: map<Id, Connection>, c: Id)
    requires Keeps(a, b, c) && Keeps(b, d, c)
    ensures Keeps(a, d, c)
  {
  }

  // The statement of a cursor of the current connection, or 0 (zero).
  function SlotOf(conns: map<Id, Connection>, current: Option<Id>, m: Module, i: nat): Handle {
    if current.None? || current.value !in conns || m !in conns[current.value].cursors
       || i >= |conns[current.value].cursors[m]| then 0
    else conns[current.value].cursors[m][i]
  }

  function WithActive(conns: map<Id, Connection>, c: Id, active: bool): map<Id, Connection>
    requires c in conns
  {
    conns[c := conns[c].(active := active)]
  }

  // No other SQL-connection has changed.
  ghost predicate Only(before: map<Id, Connection>, after: map<Id, Connection>, c: Id) {
    && after.Keys == before.Keys && c in before
    && forall d | d in before && d != c :: after[d] == before[d]
  }

  lemma OnlyWithout(before: map<Id, Connection>, after: map<Id, Connection>, c: Id)
    requires Only(before, after, c)
    ensures before - {c} == after - {c}
  {
  }

  // Nothing but an SQL-transaction of c may have begun.
  ghost predicate Began(before: map<Id, Connection>, after: map<Id, Connection>, c: Id) {
    c in before && (after == before || after == WithActive(before, c, true))
  }

  // It has begun exactly if something was executed.
  ghost predicate BeganWhen(before: map<Id, Connection>, after: map<Id, Connection>, c: Id, sent: bool) {
    c in before && after == if sent then WithActive(before, c, true) else before
  }

  lemma BeganOnly(before: map<Id, Connection>, after: map<Id, Connection>, c: Id, sent: bool)
    requires BeganWhen(before, after, c, sent)
    ensures Began(before, after, c)
  {
  }

  lemma BeganTwice(before: map<Id, Connection>, during: map<Id, Connection>, after: map<Id, Connection>, c: Id)
    requires Began(before, during, c) && Began(during, after, c)
    ensures Began(before, after, c)
  {
  }

  lemma BeganSame(before: map<Id, Connection>, during: map<Id, Connection>, after: map<Id, Connection>, c: Id)
    requires SamePrepared(before, during) && Began(during, after, c)
    ensures SamePrepared(before, after) && Keeps(during, after, c)
  {
  }

  lemma KeepsPrepared(before: map<Id, Connection>, after: map<Id, Connection>, c: Id)
    requires Keeps(before, after, c)
    ensures SamePrepared(before, after)
  {
  }

  lemma BeganKeeps(before: map<Id, Connection>, after: map<Id, Connection>, c: Id, m: Module, i: nat)
    requires Began(before, after, c)
    ensures Keeps(before, after, c) && SlotsStay(before, after) && OtherSlotsStay(before, after, c, m, i)
    ensures SlotOf(after, Some(c), m, i) == SlotOf(before, Some(c), m, i)
  {
  }

  // The default schema of c has been set.
  lemma SchemaKeeps(conns: map<Id, Connection>, c: Id, m: Option<Module>)
    requires c in conns
    ensures var after := conns[c := conns[c].(m := m)];
      && SamePrepared(conns, after) && SameSlots(conns, Some(c), after, Some(c))
  {
  }

  ghost predicate SameSlots(before: map<Id, Connection>, c: Option<Id>, after: map<Id, Connection>, d: Option<Id>) {
    forall m, i :: SlotOf(after, d, m, i) == SlotOf(before, c, m, i)
  }

  lemma CursorsKeep(conns: map<Id, Connection>, c: Id, m: Module, i: nat)
    requires c in conns && i < |m.cursors|
    ensures var after := WithCursors(conns, c, m);
      && Keeps(conns, after, c) && OtherSlotsStay(conns, after, c, m, i)
      && SlotOf(after, Some(c), m, i) == SlotOf(conns, Some(c), m, i)
      && (SlotOf(conns, Some(c), m, i) != 0 ==> after == conns)
  {
  }

  lemma CursorsKeepSession(conns: map<Id, Connection>, c: Id, m: Module)
    requires c in conns
    ensures KeepsSession(conns, WithCursors(conns, c, m), c) && SamePrepared(conns, WithCursors(conns, c, m))
    ensures SlotsStay(conns, WithCursors(conns, c, m))
  {
  }

  lemma SetSlotKeeps(conns: map<Id, Connection>, c: Id, m: Module, i: nat, h: Handle)
    requires c in conns && m in conns[c].cursors && i < |conns[c].cursors[m]|
    ensures var after := SetSlot(conns, c, m, i, h);
      && Keeps(conns, after, c) && OtherSlotsStay(conns, after, c, m, i)
      && SlotOf(after, Some(c), m, i) == h
  {
  }

  lemma WithWithout(conns: map<Id, Connection>, c: Id, conn: Connection, conn': Connection)
    requires c !in conns
    ensures conns[c := conn] - {c} == conns
    ensures conns[c := conn][c := conn'] == conns[c := conn']
    ensures conns[c := conn'] - {c} == conns
  {
  }

  lemma SetSlotIs(conns: map<Id, Connection>, c: Id, m: Module, i: nat, h: Handle)
    requires c in conns && m in conns[c].cursors && i < |conns[c].cursors[m]|
    ensures var after := SetSlot(conns, c, m, i, h);
      && Only(conns, after, c)
      && after[c] == conns[c].(cursors := after[c].cursors)
      && m in after[c].cursors && after[c].cursors[m] == conns[c].cursors[m][i := h]
      && after[c].cursors - {m} == conns[c].cursors - {m}
  {
  }

  lemma SetSlotTwice(conns: map<Id, Connection>, c: Id, m: Module, i: nat, h: Handle)
    requires c in conns && m in conns[c].cursors && i < |conns[c].cursors[m]| && conns[c].cursors[m][i] == 0
    ensures SetSlot(SetSlot(conns, c, m, i, h), c, m, i, 0) == conns
  {
    var slots := conns[c].cursors[m];
    assert slots[i := h][i := 0] == slots;
    assert conns[c].cursors[m := slots[i := h]][m := slots] == conns[c].cursors;
    assert conns[c := conns[c]] == conns;
  }

  lemma SlotPlaces(conns: map<Id, Connection>, c: Id, m: Module, i: nat, h: Handle)
    requires c in conns && m in conns[c].cursors && i < |conns[c].cursors[m]|
    ensures forall o, k :: At(SetSlot(conns, c, m, i, h), o, k) <==>
                           if o == Slot(c, m, i) then k == h && k != 0 else At(conns, o, k)
  {
    forall o, k
      ensures At(SetSlot(conns, c, m, i, h), o, k) <==>
              if o == Slot(c, m, i) then k == h && k != 0 else At(conns, o, k)
    {
      SlotPlace(conns, c, m, i, h, o, k);
    }
  }

  lemma SlotPlace(conns: map<Id, Connection>, c: Id, m: Module, i: nat, h: Handle, o: Owner, k: Handle)
    requires c in conns && m in conns[c].cursors && i < |conns[c].cursors[m]|
    ensures At(SetSlot(conns, c, m, i, h), o, k) <==>
            if o == Slot(c, m, i) then k == h && k != 0 else At(conns, o, k)
  {
  }

  lemma SlotFits(conns: map<Id, Connection>, c: Id, m: Module, i: nat, h: Handle)
    requires Shaped(conns) && c in conns && m in conns[c].cursors && i < |m.cursors|
    ensures Shaped(SetSlot(conns, c, m, i, h))
    ensures forall o: Owner, s, b, q | o.c in conns ::
      Fits(SetSlot(conns, c, m, i, h), o, s, b, q) <==> Fits(conns, o, s, b, q)
  {
  }

  // A statement of the running call becomes the statement of an empty slot, which is being opened.
  lemma OwnedAfterFill(conns: map<Id, Connection>, owner: map<Handle, Owner>,
                       statements: map<Handle, Statement>, c: Id, m: Module, i: nat, h: Handle,
                       running: set<Handle>, pending: set<Handle>, isQuery: string -> bool)
    requires Owned(conns, owner, statements, running, pending, isQuery)
    requires c in conns && m in conns[c].cursors && i < |m.cursors|
    requires conns[c].cursors[m][i] == 0
    requires h in running && h != 0 && statements[h].dbc == c
    ensures Owned(SetSlot(conns, c, m, i, h), owner[h := Slot(c, m, i)], statements,
                  running - {h}, pending + {h}, isQuery)
  {
    SlotPlaces(conns, c, m, i, h);
    SlotFits(conns, c, m, i, h);
    PlacedAdd(conns, SetSlot(conns, c, m, i, h), owner, Slot(c, m, i), h);
  }

  // The statement of a slot has been freed.
  lemma OwnedAfterEmpty(conns: map<Id, Connection>, owner: map<Handle, Owner>,
                        statements: map<Handle, Statement>, c: Id, m: Module, i: nat,
                        running: set<Handle>, pending: set<Handle>, isQuery: string -> bool)
    requires Owned(conns, owner, statements, running, pending, isQuery)
    requires c in conns && m in conns[c].cursors && i < |m.cursors|
    requires conns[c].cursors[m][i] != 0
    ensures var h := conns[c].cursors[m][i];
      Owned(SetSlot(conns, c, m, i, 0), owner - {h}, statements - {h}, running, pending - {h}, isQuery)
  {
    var h := conns[c].cursors[m][i];
    SlotPlaces(conns, c, m, i, 0);
    SlotFits(conns, c, m, i, 0);
    assert At(conns, Slot(c, m, i), h);
    PlacedDrop(conns, SetSlot(conns, c, m, i, 0), owner, Slot(c, m, i), h);
    assert h in owner && owner.Keys - {h} + running == statements.Keys - {h};
  }

  function SetPrepared(conns: map<Id, Connection>, c: Id, list: seq<Prepared>): map<Id, Connection>
    requires c in conns
  {
    conns[c := conns[c].(prepared := list)]
  }

  // A prepared statement with a new name was added to c.
  ghost predicate Added(before: map<Id, Connection>, after: map<Id, Connection>, c: Id, p: Prepared) {
    && KeepsSession(before, after, c) && OnlyPrepared(before, after, c, p.m, p.name)
    && after[c].cursors == before[c].cursors && SlotsStay(before, after)
    && ByName(after[c].prepared) == ByName(before[c].prepared)[(p.m, p.name) := p]
  }

  lemma AddKeeps(conns: map<Id, Connection>, during: map<Id, Connection>, c: Id, p: Prepared)
    requires Began(conns, during, c)
    requires IndexOf(conns[c].prepared, p.m, p.name) == |conns[c].prepared|
    ensures Added(conns, SetPrepared(during, c, [p] + during[c].prepared), c, p)
    ensures Lookup(SetPrepared(during, c, [p] + during[c].prepared)[c], p.m, p.name) == Some(p)
  {
    FindRefinesMap(conns[c].prepared, p.m, p.name);
    assert ([p] + conns[c].prepared)[1..] == conns[c].prepared;
  }

  lemma IndexOfPrepend(list: seq<Prepared>, p: Prepared, m: Module, name: string)
    ensures IndexOf([p] + list, m, name) == if p.Is(m, name) then 0 else 1 + IndexOf(list, m, name)
  {
    assert ([p] + list)[1..] == list;
  }

  lemma PrependPlaces(conns: map<Id, Connection>, c: Id, p: Prepared)
    requires c in conns && IndexOf(conns[c].prepared, p.m, p.name) == |conns[c].prepared|
    ensures var after := SetPrepared(conns, c, [p] + conns[c].prepared);
      forall o, k :: At(after, o, k) <==>
                     if o == Named(c, p.m, p.name) then k == p.stmt && k != 0 else At(conns, o, k)
  {
    var list := conns[c].prepared;
    var after := SetPrepared(conns, c, [p] + list);
    forall o, k
      ensures At(after, o, k) <==>
              if o == Named(c, p.m, p.name) then k == p.stmt && k != 0 else At(conns, o, k)
    {
      if o.Named? {
        IndexOfPrepend(list, p, o.m, o.name);
      }
    }
  }

  lemma PrependFits(conns: map<Id, Connection>, c: Id, p: Prepared)
    requires c in conns && IndexOf(conns[c].prepared, p.m, p.name) == |conns[c].prepared|
    requires Shaped(conns) && p.stmt != 0
    ensures var after := SetPrepared(conns, c, [p] + conns[c].prepared);
      && Shaped(after)
      && forall o: Owner, s, b, q | o.c in conns && Fits(conns, o, s, b, q) :: Fits(after, o, s, b, q)
  {
    var list := conns[c].prepared;
    var after := SetPrepared(conns, c, [p] + list);
    forall o: Owner, s, b, q | o.c in conns && Fits(conns, o, s, b, q) ensures Fits(after, o, s, b, q) {
      if o.Named? {
        IndexOfPrepend(list, p, o.m, o.name);
      }
    }
  }

  // A statement of the running call becomes a prepared statement.
  lemma OwnedAfterPrepare(conns: map<Id, Connection>, owner: map<Handle, Owner>,
                          statements: map<Handle, Statement>, c: Id, p: Prepared,
                          running: set<Handle>, pending: set<Handle>, isQuery: string -> bool)
    requires Owned(conns, owner, statements, running, pending, isQuery)
    requires c in conns && IndexOf(conns[c].prepared, p.m, p.name) == |conns[c].prepared|
    requires p.stmt in running && p.stmt != 0 && statements[p.stmt].dbc == c
    requires statements[p.stmt].query == isQuery(p.sql) && statements[p.stmt].text == p.sql
    ensures Owned(SetPrepared(conns, c, [p] + conns[c].prepared), owner[p.stmt := Named(c, p.m, p.name)],
                  statements, running - {p.stmt}, pending, isQuery)
  {
    var after := SetPrepared(conns, c, [p] + conns[c].prepared);
    var o := Named(c, p.m, p.name);
    PrependPlaces(conns, c, p);
    PrependFits(conns, c, p);
    IndexOfPrepend(conns[c].prepared, p, p.m, p.name);
    PlacedAdd(conns, after, owner, o, p.stmt);
    assert Fits(after, o, statements[p.stmt], p.stmt in pending, isQuery);
  }

  lemma IndexOfRemove(list: seq<Prepared>, k: nat, m: Module, name: string)
    requires DistinctNames(list) && k < |list|
    ensures var after := list[..k] + list[k + 1..];
      var j, j' := IndexOf(list, m, name), IndexOf(after, m, name);
      && (j == k ==> j' == |after|)
      && (j != k && j < |list| ==> j' < |after| && after[j'] == list[j])
      && (j == |list| ==> j' == |after|)
  {
    RemoveRefinesMap(list, k);
    FindRefinesMap(list, m, name);
    FindRefinesMap(list[..k] + list[k + 1..], m, name);
    var j := IndexOf(list, m, name);
    if j != k && j < |list| {
      assert !list[k].Is(m, name);
    }
  }

  lemma RemovePlaces(conns: map<Id, Connection>, c: Id, k: nat)
    requires Shaped(conns) && c in conns && k < |conns[c].prepared|
    ensures var list := conns[c].prepared;
      var after := SetPrepared(conns, c, list[..k] + list[k + 1..]);
      && Shaped(after)
      && (forall o, x :: At(after, o, x) <==>
                         o != Named(c, list[k].m, list[k].name) && At(conns, o, x))
      && (forall o: Owner, s, b, q | o.c in conns && o != Named(c, list[k].m, list[k].name)
                              && Fits(conns, o, s, b, q) :: Fits(after, o, s, b, q))
  {
    var list := conns[c].prepared;
    var after := SetPrepared(conns, c, list[..k] + list[k + 1..]);
    RemoveDistinct(list, k);
    forall o, x
      ensures At(after, o, x) <==> o != Named(c, list[k].m, list[k].name) && At(conns, o, x)
    {
      if o.Named? {
        IndexOfRemove(list, k, o.m, o.name);
        IndexOfSame(list, k, o.m, o.name);
      }
    }
    forall o: Owner, s, b, q | o.c in conns && o != Named(c, list[k].m, list[k].name) && Fits(conns, o, s, b, q)
      ensures Fits(after, o, s, b, q)
    {
      if o.Named? {
        IndexOfRemove(list, k, o.m, o.name);
        IndexOfSame(list, k, o.m, o.name);
      }
    }
  }

  lemma IndexOfSame(list: seq<Prepared>, k: nat, m: Module, name: string)
    requires DistinctNames(list) && k < |list|
    ensures IndexOf(list, m, name) == k <==> list[k].Is(m, name)
  {
    var j := IndexOf(list, m, name);
    assert j < k ==> !list[k].Is(list[j].m, list[j].name);
  }

  // The statement of a prepared statement has been freed.
  lemma OwnedAfterRemove(conns: map<Id, Connection>, owner: map<Handle, Owner>,
                         statements: map<Handle, Statement>, c: Id, k: nat,
                         running: set<Handle>, pending: set<Handle>, isQuery: string -> bool)
    requires Owned(conns, owner, statements, running, pending, isQuery)
    requires c in conns && k < |conns[c].prepared|
    ensures var list := conns[c].prepared; var h := list[k].stmt;
      Owned(SetPrepared(conns, c, list[..k] + list[k + 1..]), owner - {h}, statements - {h}, running,
            pending, isQuery)
  {
    var list := conns[c].prepared;
    var h := list[k].stmt;
    RemovePlaces(conns, c, k);
    IndexOfSame(list, k, list[k].m, list[k].name);
    var after := SetPrepared(conns, c, list[..k] + list[k + 1..]);
    assert At(conns, Named(c, list[k].m, list[k].name), h);
    PlacedDrop(conns, after, owner, Named(c, list[k].m, list[k].name), h);
    assert h in owner && owner.Keys - {h} + running == statements.Keys - {h};
  }

  // A connection that owns nothing is made or freed.
  lemma OwnedAfterConnection(conns: map<Id, Connection>, owner: map<Handle, Owner>,
                             statements: map<Handle, Statement>, c: Id, conn: Connection,
                             running: set<Handle>, pending: set<Handle>, isQuery: string -> bool)
    requires c !in conns && conn.cursors == map[] && conn.prepared == []
    ensures Owned(conns, owner, statements, running, pending, isQuery) ==>
            Owned(conns[c := conn], owner, statements, running, pending, isQuery)
    ensures Owned(conns[c := conn], owner, statements, running, pending, isQuery) ==>
            Owned(conns, owner, statements, running, pending, isQuery)
  {
    var with := conns[c := conn];
    assert forall o, h :: At(with, o, h) <==> At(conns, o, h);
    if Owned(conns, owner, statements, running, pending, isQuery) {
      forall h | h in owner
        ensures Fits(with, owner[h], statements[h], h in pending, isQuery)
      {
        assert At(conns, owner[h], h) && Fits(conns, owner[h], statements[h], h in pending, isQuery);
      }
    }
    if Owned(with, owner, statements, running, pending, isQuery) {
      assert forall d | d in conns :: d in with && with[d] == conns[d];
      forall h | h in owner
        ensures Fits(conns, owner[h], statements[h], h in pending, isQuery)
      {
        assert At(conns, owner[h], h) && Fits(with, owner[h], statements[h], h in pending, isQuery);
      }
    }
  }

  // The cursor of the statement h is open. h is 0 (zero) for a cursor without one.
  ghost predicate IsOpen(statements: map<Handle, Statement>, h: Handle) {
    h != 0 && h in statements && statements[h].phase.Open?
  }

  // A cursor of the module that's declared for the name is open.
  ghost predicate CursorOpen(conn: Connection, m: Module, name: string, statements: map<Handle, Statement>) {
    exists i | 0 <= i < |m.cursors| :: OpenFor(conn, m, name, i, statements)
  }

  ghost predicate OpenFor(conn: Connection, m: Module, name: string, i: nat, statements: map<Handle, Statement>)
    requires i < |m.cursors|
  {
    && m.cursors[i].statement == Some(name)
    && m in conn.cursors && i < |conn.cursors[m]| && IsOpen(statements, conn.cursors[m][i])
  }

  function Lookup(conn: Connection, m: Module, name: string): Option<Prepared> {
    if (m, name) in ByName(conn.prepared) then Some(ByName(conn.prepared)[(m, name)]) else None
  }

  // Its statement, or 0 (zero).
  function HandleOf(p: Option<Prepared>): Handle {
    if p.None? then 0 else p.value.stmt
  }

  // A prepared statement that was destroyed or replaced has no open cursor.
  ghost predicate PreparedKept(before: map<Id, Connection>, after: map<Id, Connection>,
                               statements: map<Handle, Statement>)
  {
    forall c, m, name | c in before && c in after && Lookup(before[c], m, name).Some?
                        && Lookup(before[c], m, name) != Lookup(after[c], m, name) ::
      !CursorOpen(after[c], m, name, statements)
  }

  // The only prepared statement that may have changed is the one with the name, of c.
  ghost predicate OnlyPrepared(before: map<Id, Connection>, after: map<Id, Connection>, c: Id, m: Module,
                               name: string)
  {
    && c in before && after.Keys == before.Keys
    && (forall d | d in before && d != c :: after[d].prepared == before[d].prepared)
    && ByName(after[c].prepared) - {(m, name)} == ByName(before[c].prepared) - {(m, name)}
  }

  lemma SetPreparedKeeps(conns: map<Id, Connection>, c: Id, list: seq<Prepared>)
    requires c in conns
    ensures var after := SetPrepared(conns, c, list);
      && KeepsSession(conns, after, c) && SlotsStay(conns, after)
      && after[c].prepared == list && after[c].cursors == conns[c].cursors
  {
  }

  // Only the prepared statement with the name is removed.
  lemma RemoveOnly(conns: map<Id, Connection>, c: Id, m: Module, name: string, k: nat)
    requires c in conns && k < |conns[c].prepared| && conns[c].prepared[k].Is(m, name)
      && DistinctNames(conns[c].prepared)
    ensures var l := conns[c].prepared; var after := SetPrepared(conns, c, l[..k] + l[k + 1..]);
      && KeepsSession(conns, after, c) && SlotsStay(conns, after) && OnlyPrepared(conns, after, c, m, name)
      && (m, name) !in ByName(after[c].prepared) && after[c].cursors == conns[c].cursors
  {
    var l := conns[c].prepared;
    RemoveRefinesMap(l, k);
    SetPreparedKeeps(conns, c, l[..k] + l[k + 1..]);
    hide ByName, DistinctNames, SlotsStay;
  }

  lemma SamePreparedKept(before: map<Id, Connection>, after: map<Id, Connection>, statements: map<Handle, Statement>)
    requires SamePrepared(before, after)
    ensures PreparedKept(before, after, statements)
  {
  }

  lemma OnlyPreparedKept(before: map<Id, Connection>, after: map<Id, Connection>, c: Id, m: Module, name: string,
                         statements: map<Handle, Statement>)
    requires OnlyPrepared(before, after, c, m, name)
    requires Lookup(before[c], m, name).Some? && Lookup(after[c], m, name) != Lookup(before[c], m, name) ==>
      !CursorOpen(after[c], m, name, statements)
    ensures PreparedKept(before, after, statements)
  {
    forall d, x, y | d in before && Lookup(before[d], x, y) != Lookup(after[d], x, y)
      ensures d == c && x == m && y == name
    {
      if d == c && (x, y) != (m, name) {
        assert (x, y) in ByName(after[c].prepared) <==> (x, y) in ByName(after[c].prepared) - {(m, name)};
      }
    }
  }

  // Every cursor that's open was open before.
  ghost predicate NoneOpened(before: map<Handle, Statement>, after: map<Handle, Statement>) {
    forall h | IsOpen(after, h) :: IsOpen(before, h)
  }

  // The prepared statement can't be destroyed or replaced.
  ghost predicate Refuses(conn: Connection, m: Module, name: string, statements: map<Handle, Statement>) {
    Lookup(conn, m, name).Some? && CursorOpen(conn, m, name, statements)
  }

  lemma NoneOpenedFor(conn: Connection, after: Connection, m: Module, name: string,
                      statements: map<Handle, Statement>, statements': map<Handle, Statement>)
    requires NoneOpened(statements, statements') && after.cursors == conn.cursors
    requires CursorOpen(after, m, name, statements')
    ensures CursorOpen(conn, m, name, statements)
  {
    var i :| 0 <= i < |m.cursors| && OpenFor(after, m, name, i, statements');
    assert OpenFor(conn, m, name, i, statements);
  }

  // A prepared statement with the name is destroyed, unless that's refused.
  ghost predicate Cleared(before: Connection, after: Connection, m: Module, name: string,
                          statements: map<Handle, Statement>, statements': map<Handle, Statement>, ok: bool)
  {
    if Refuses(before, m, name, statements) then
      !ok && after == before.(active := after.active) && statements' == statements
    else
      && ok && Lookup(after, m, name) == None
      && (Lookup(before, m, name).Some? ==> !CursorOpen(after, m, name, statements'))
  }

  ghost predicate IsPrepared(conn: Connection, m: Module, name: string, sql: Text) {
    Lookup(conn, m, name).Some? && Lookup(conn, m, name).value.sql == sql
  }

  // What PREPARE does, and its status.
  ghost predicate Replaced(before: Connection, after: Connection, m: Module, name: string, sql: Text,
                           statements: map<Handle, Statement>, statements': map<Handle, Statement>, status: SqlState)
  {
    if Refuses(before, m, name, statements) then
      status == INVALID_CURSOR_STATE && after == before && statements' == statements
    else
      && (Lookup(after, m, name).Some? ==> IsPrepared(after, m, name, sql))
      && (Lookup(after, m, name) == None ==> status != SUCCESSFUL && status != INVALID_CURSOR_STATE)
  }

  // What DEALLOCATE PREPARE does, and its status.
  ghost predicate Dropped(before: Connection, after: Connection, m: Module, name: string,
                          statements: map<Handle, Statement>, statements': map<Handle, Statement>, status: SqlState)
  {
    && status == (if Refuses(before, m, name, statements) then INVALID_CURSOR_STATE
                  else if Lookup(before, m, name).Some? then SUCCESSFUL else INVALID_STATEMENT_NAME)
    && Cleared(before, after, m, name, statements, statements', !Refuses(before, m, name, statements))
  }

  // The slots of the module are made, and then the prepared statement is removed if it can be.
  lemma DroppedIf(before: map<Id, Connection>, during: map<Id, Connection>, after: map<Id, Connection>,
                  c: Id, m: Module, name: string, statements: map<Handle, Statement>,
                  statements': map<Handle, Statement>, ok: bool)
    requires c in before && during == WithCursors(before, c, m)
    requires Lookup(before[c], m, name).Some?
    requires ok <==> !CursorOpen(during[c], m, name, statements)
    requires if ok
      then KeepsSession(during, after, c) && OnlyPrepared(during, after, c, m, name)
           && Lookup(after[c], m, name) == None && !CursorOpen(after[c], m, name, statements')
      else after == during && statements' == statements
    ensures KeepsSession(before, after, c) && OnlyPrepared(before, after, c, m, name)
    ensures Dropped(before[c], after[c], m, name, statements, statements',
      if ok then SUCCESSFUL else INVALID_CURSOR_STATE)
    ensures !ok ==> after == before
  {
    CursorsKeepSession(before, c, m);
    CursorsStayClosed(before, c, m, name, statements);
    if !ok {
      var i :| 0 <= i < |m.cursors| && OpenFor(before[c], m, name, i, statements);
    }
  }

  // The prepared statement with the name is deallocated, and there may be a new one.
  lemma AddedKept(before: map<Id, Connection>, during: map<Id, Connection>, after: map<Id, Connection>,
                  c: Id, m: Module, name: string, sql: Text, ok: bool, first: map<Handle, Statement>,
                  statements: map<Handle, Statement>, statements': map<Handle, Statement>, status: SqlState)
    requires KeepsSession(before, during, c) && OnlyPrepared(before, during, c, m, name)
    requires Cleared(before[c], during[c], m, name, first, statements, true)
    requires NoneOpened(statements, statements')
    requires if ok then exists h :: Added(during, after, c, Prepared.Prepared(m, name, sql, h))
             else Began(during, after, c) && status != SUCCESSFUL && status != INVALID_CURSOR_STATE
    ensures KeepsSession(before, after, c) && OnlyPrepared(before, after, c, m, name)
    ensures Replaced(before[c], after[c], m, name, sql, first, statements', status)
    ensures ok <==> IsPrepared(after[c], m, name, sql)
    ensures PreparedKept(before, after, statements')
  {
    if CursorOpen(after[c], m, name, statements') {
      NoneOpenedFor(during[c], after[c], m, name, statements, statements');
    }
    OnlyPreparedKept(before, after, c, m, name, statements');
  }

  lemma KeptAfterSame(before: map<Id, Connection>, during: map<Id, Connection>, after: map<Id, Connection>,
                      statements: map<Handle, Statement>)
    requires SamePrepared(before, during) && PreparedKept(during, after, statements)
    ensures PreparedKept(before, after, statements)
  {
    forall c, m, name | c in before && c in after && Lookup(before[c], m, name).Some?
                        && Lookup(before[c], m, name) != Lookup(after[c], m, name)
      ensures !CursorOpen(after[c], m, name, statements)
    {
      assert Lookup(during[c], m, name) == Lookup(before[c], m, name);
    }
  }

  lemma ActiveDropped(before: map<Id, Connection>, during: map<Id, Connection>, after: map<Id, Connection>,
                      c: Id, m: Module, name: string, statements: map<Handle, Statement>,
                      statements': map<Handle, Statement>, status: SqlState)
    requires c in before && during == WithActive(before, c, true)
    requires KeepsSession(during, after, c) && OnlyPrepared(during, after, c, m, name)
    requires Dropped(during[c], after[c], m, name, statements, statements', status)
    ensures KeepsSession(before, after, c) && OnlyPrepared(before, after, c, m, name)
    ensures Dropped(before[c], after[c], m, name, statements, statements', status)
    ensures PreparedKept(before, after, statements')
  {
    forall i | 0 <= i < |m.cursors|
      ensures OpenFor(before[c], m, name, i, statements) <==> OpenFor(during[c], m, name, i, statements)
    {}
    assert CursorOpen(before[c], m, name, statements) <==> CursorOpen(during[c], m, name, statements);
    OnlyPreparedKept(before, after, c, m, name, statements');
  }

  lemma CursorsStayClosed(conns: map<Id, Connection>, c: Id, m: Module, name: string,
                          statements: map<Handle, Statement>)
    requires c in conns
    ensures CursorOpen(WithCursors(conns, c, m)[c], m, name, statements) <==> CursorOpen(conns[c], m, name, statements)
  {
    var after := WithCursors(conns, c, m);
    forall i | 0 <= i < |m.cursors|
      ensures OpenFor(after[c], m, name, i, statements) <==> OpenFor(conns[c], m, name, i, statements)
    {}
  }
}
