/**
 The states of the editor of a table, and when its script makes the table that was edited.
 */
module EditTable {
  import opened Wrappers
  import opened AlterTable
  import Names

  function Kept(columns: seq<Edit>): (r: seq<Edit>)
    ensures AllKept(r)
  {
    if columns == [] then [] else (if columns[0].original.Some? then [columns[0]] else []) + Kept(columns[1..])
  }

  // Every column was already there.
  predicate AllKept(columns: seq<Edit>) {
    forall i | 0 <= i < |columns| :: columns[i].original.Some?
  }

  predicate AllAdded(columns: seq<Edit>) {
    forall i | 0 <= i < |columns| :: columns[i].original.None?
  }

  function Added(columns: seq<Edit>): (r: seq<Edit>)
    ensures AllAdded(r)
  {
    if columns == [] then [] else (if columns[0].original.None? then [columns[0]] else []) + Added(columns[1..])
  }

  function Originals(kept: seq<Edit>): seq<Column>
    requires AllKept(kept)
  {
    seq(|kept|, i requires 0 <= i < |kept| => kept[i].original.value)
  }

  function Ids(columns: seq<Edit>): seq<string> {
    seq(|columns|, i requires 0 <= i < |columns| => columns[i].Id())
  }

  function Gone(removed: seq<Column>): set<string> {
    set c | c in removed :: c.name
  }

  function Keep(columns: seq<Column>, gone: set<string>): seq<Column> {
    if columns == [] then [] else (if columns[0].name in gone then [] else [columns[0]]) + Keep(columns[1..], gone)
  }

  // Only the fields that aren't locked have changed.
  ghost predicate IsUnlocked(e: Edit, t: Table) {
    e.original.Some? ==>
      var c := e.original.value;
      && c in t.columns && e.typ == c.typ && e.identity == c.identity
      && (e.notNull != c.notNull ==> c.notNull && c.notNullName != "")
      && (e.def != c.def ==> !c.identity && !c.generated)
  }

  // The new columns are after the ones that were already there.
  ghost predicate Editable(s: State, t: Table) {
    && IsTable(t) && s.key == Texts(t.key, s.reserved) && s.keyName == t.keyName
    && s.columns == Kept(s.columns) + Added(s.columns)
    && Originals(Kept(s.columns)) == Keep(t.columns, Gone(s.removed))
    && (forall c | c in s.removed :: c in t.columns) && Distinct(NamesOf(s.removed))
    && (forall e | e in s.columns :: IsUnlocked(e, t))
    && (forall i, j | 0 <= i < j < |s.columns| :: !(s.columns[i].identity && s.columns[j].identity))
  }

  // The column of the table is what's shown for it.
  ghost predicate Shows(c: Column, e: Edit) {
    && c.name == e.Id() && c.typ == e.typ && c.identity == e.identity
    && c.generated == (e.original.Some? && e.original.value.generated)
    && c.notNull == (e.notNull || e.primaryKey || e.identity)
    && c.def == if e.original.None? && e.identity then "" else e.def
  }

  ghost predicate IsEdited(t: Table, s: State) {
    && |t.columns| == |s.columns| && t.key == KeyOf(s.columns)
    && forall i | 0 <= i < |s.columns| :: Shows(t.columns[i], s.columns[i])
  }

  // The script is valid, and makes the table that was edited.
  ghost predicate Works(s: State, t: Table) {
    Execute(t, ScriptText(s)).Some? && IsEdited(Execute(t, ScriptText(s)).value, s)
  }

  // - A NOT NULL isn't removed from an identity column, or from a column of a PRIMARY KEY that
  //   isn't changed.
  // - Some column that was already there isn't removed.
  // - A column of the PRIMARY KEY isn't removed, unless the names of the PRIMARY KEY are changed.
  // - The names of the new columns are new.
  predicate CanRun(s: State, t: Table) {
    && CanClear(s, t)
    && (s.removed != [] ==> Kept(s.columns) != [])
    && KeyStays(s, t)
    && CanAdd(s)
  }

  // The engine can read the names in the script too, and a different PRIMARY KEY looks different.
  predicate CanWork(s: State, t: Table) {
    CanRead(s) && CanRun(s, t) && KeyShows(s, t)
  }

  predicate KeyShows(s: State, t: Table) {
    !KeyChanged(s) ==> KeyOf(s.columns) == t.key
  }

  predicate CanClear(s: State, t: Table) {
    forall e | e in s.columns && IsCleared(e) :: !e.identity && (KeyChanged(s) || e.Id() !in t.key)
  }

  predicate KeyStays(s: State, t: Table) {
    !KeyChanged(s) ==> forall c | c in s.removed :: c.name !in t.key
  }

  predicate CanAdd(s: State) {
    Distinct(Ids(s.columns)) && forall e | e in s.columns && e.original.None? :: IsIdentifier(e.Id())
  }

  lemma RunFirst(t: Table, change: Change, rest: seq<Change>)
    ensures Run(t, [change] + rest) == if Apply(t, change).None? then None else Run(Apply(t, change).value, rest)
  {
    assert ([change] + rest)[1..] == rest;
  }

  function Clear(columns: seq<Column>, names: set<string>): seq<Column> {
    seq(|columns|, i requires 0 <= i < |columns| =>
      if columns[i].name in names then columns[i].(notNull := false, notNullName := "") else columns[i])
  }

  lemma NamesDiffer(columns: seq<Column>, i: nat, j: nat)
    requires Distinct(NamesOf(columns)) && i < |columns| && j < |columns| && i != j
    ensures columns[i].name != columns[j].name
  {
    assert NamesOf(columns)[i] == columns[i].name && NamesOf(columns)[j] == columns[j].name;
  }

  lemma ClearOne(columns: seq<Column>, names: set<string>, i: nat)
    requires i < |columns| && Distinct(NamesOf(columns))
    ensures Clear(columns, names)[i := Clear(columns, names)[i].(notNull := false, notNullName := "")] ==
            Clear(columns, names + {columns[i].name})
  {
    forall j | 0 <= j < |columns| && j != i ensures columns[j].name != columns[i].name {
      NamesDiffer(columns, i, j);
    }
  }

  // The constraint names of the columns are different, and aren't the name of the PRIMARY KEY.
  ghost predicate NamedApart(t: Table) {
    && Distinct(NamesOf(t.columns))
    && (forall c | c in t.columns && c.notNullName != "" :: c.notNullName != t.keyName)
    && (forall i, j | 0 <= i < j < |t.columns|
      && t.columns[i].notNullName != "" :: t.columns[i].notNullName != t.columns[j].notNullName)
  }

  lemma DropOneNotNull(b: Table, names: set<string>, c: Column)
    requires NamedApart(b) && c in b.columns && c.notNullName != "" && c.name !in names
    ensures Apply(b.(columns := Clear(b.columns, names)), DropConstraint(c.notNullName)) ==
            if c.identity || c.name in b.key then None
            else Some(b.(columns := Clear(b.columns, names + {c.name})))
  {
    var t := b.(columns := Clear(b.columns, names));
    var i :| 0 <= i < |b.columns| && b.columns[i] == c;
    var k := NotNullIndexOf(t.columns, c.notNullName);
    assert t.columns[i] == c && k <= i;
    assert t.columns[k] == b.columns[k] && k == i;
    ClearOne(b.columns, names, i);
  }

  function Cleared(columns: seq<Edit>): set<string> {
    set e | e in columns && IsCleared(e) :: e.Id()
  }

  ghost predicate Clearable(b: Table, kept: seq<Edit>) {
    forall e | e in kept && IsCleared(e) :: !e.identity && e.Id() !in b.key
  }

  lemma FirstDiffers(kept: seq<Edit>)
    requires Distinct(Ids(kept)) && kept != []
    ensures forall e | e in kept[1..] :: e in kept && e.Id() != kept[0].Id()
    ensures Distinct(Ids(kept[1..])) && kept[0] in kept
  {
    var names := Ids(kept);
    assert names[1..] == Ids(kept[1..]);
    forall e | e in kept[1..] ensures e in kept && e.Id() != kept[0].Id() {
      var i :| 0 <= i < |kept[1..]| && kept[1..][i] == e;
      assert kept[i + 1] == e && names[i + 1] == e.Id() && names[0] != names[i + 1];
    }
  }

  lemma FirstColumn(columns: seq<Column>)
    requires columns != [] && Distinct(NamesOf(columns))
    ensures columns == [columns[0]] + columns[1..] && Distinct(NamesOf(columns[1..]))
    ensures forall c | c in columns[1..] :: c in columns && c.name != columns[0].name
  {
    var names := NamesOf(columns);
    assert names[1..] == NamesOf(columns[1..]);
    forall c | c in columns[1..] ensures c in columns && c.name != columns[0].name {
      var i :| 0 <= i < |columns[1..]| && columns[1..][i] == c;
      assert columns[i + 1] == c && names[i + 1] == c.name && names[0] != names[i + 1];
    }
  }

  lemma ClearedFirst(kept: seq<Edit>)
    requires kept != []
    ensures Cleared(kept) == Cleared(kept[1..]) + if IsCleared(kept[0]) then {kept[0].Id()} else {}
  {
    assert kept == [kept[0]] + kept[1..];
  }

  lemma DropNotNullsFirst(kept: seq<Edit>, rest: seq<Change>)
    requires kept != []
    ensures DropNotNulls(kept) + rest ==
            (if IsCleared(kept[0]) then [DropConstraint(kept[0].original.value.notNullName)] else [])
              + (DropNotNulls(kept[1..]) + rest)
  {
  }

  lemma ClearableFirst(b: Table, kept: seq<Edit>)
    requires kept != []
    ensures Clearable(b, kept) <==>
      && Clearable(b, kept[1..])
      && (IsCleared(kept[0]) ==> !kept[0].identity && kept[0].Id() !in b.key)
  {
    assert kept == [kept[0]] + kept[1..];
  }

  lemma {:induction false} RunDropNotNulls(b: Table, kept: seq<Edit>, names: set<string>, rest: seq<Change>)
    requires NamedApart(b) && AllKept(kept) && forall i | 0 <= i < |kept| :: IsUnlocked(kept[i], b)
    requires Distinct(Ids(kept)) && forall e | e in kept :: e.Id() !in names
    ensures Run(b.(columns := Clear(b.columns, names)), DropNotNulls(kept) + rest) ==
            if Clearable(b, kept) then Run(b.(columns := Clear(b.columns, names + Cleared(kept))), rest) else None
    decreases |kept|
  {
    if kept == [] {
      assert [] + rest == rest && names + Cleared(kept) == names;
    } else {
      var e, more := kept[0], kept[1..];
      var changes := DropNotNulls(more) + rest;
      FirstDiffers(kept);
      ClearedFirst(kept);
      ClearableFirst(b, kept);
      DropNotNullsFirst(kept, rest);
      hide Run, Apply, Clear, DropNotNulls, Cleared, Clearable, NamedApart, Distinct, Ids, Edit.SqlName;
      if IsCleared(e) {
        var c := e.original.value;
        RunFirst(b.(columns := Clear(b.columns, names)), DropConstraint(c.notNullName), changes);
        DropOneNotNull(b, names, c);
        RunDropNotNulls(b, more, names + {c.name}, rest);
        assert names + {c.name} + Cleared(more) == names + Cleared(kept);
      } else {
        assert Cleared(kept) == Cleared(more) && [] + changes == changes;
        RunDropNotNulls(b, more, names, rest);
      }
    }
  }

  lemma {:induction false} KeepNames(columns: seq<Column>, gone: set<string>)
    ensures forall c :: c in Keep(columns, gone) <==> c in columns && c.name !in gone
  {
    if columns != [] {
      KeepNames(columns[1..], gone);
      assert columns == [columns[0]] + columns[1..];
    }
  }

  lemma DistinctColumns(c: Column, columns: seq<Column>)
    requires Distinct(NamesOf(columns)) && forall d | d in columns :: d.name != c.name
    ensures Distinct(NamesOf([c] + columns))
  {
    var names := NamesOf([c] + columns);
    assert names[1..] == NamesOf(columns);
    forall i, j | 0 <= i < j < |names| ensures names[i] != names[j] {
      assert columns[j - 1] in columns && names[j] == columns[j - 1].name;
      if i > 0 {
        assert NamesOf(columns)[i - 1] != NamesOf(columns)[j - 1];
      }
    }
  }

  lemma {:induction false} KeepDistinct(columns: seq<Column>, gone: set<string>)
    requires Distinct(NamesOf(columns))
    ensures Distinct(NamesOf(Keep(columns, gone)))
  {
    if columns != [] {
      FirstColumn(columns);
      KeepDistinct(columns[1..], gone);
      if columns[0].name in gone {
        assert Keep(columns, gone) == Keep(columns[1..], gone);
      } else {
        KeepNames(columns[1..], gone);
        DistinctColumns(columns[0], Keep(columns[1..], gone));
      }
    }
  }

  lemma {:induction false} KeepAll(columns: seq<Column>, gone: set<string>)
    requires forall c | c in columns :: c.name !in gone
    ensures Keep(columns, gone) == columns
  {
    if columns != [] {
      assert columns == [columns[0]] + columns[1..];
      KeepAll(columns[1..], gone);
    }
  }

  function Without(columns: seq<Column>, name: string): seq<Column> {
    var i := IndexOf(columns, name);
    if i < |columns| then columns[..i] + columns[i + 1..] else columns
  }

  lemma WithoutFirst(c: Column, columns: seq<Column>, name: string)
    ensures Without([c] + columns, name) == if c.name == name then columns else [c] + Without(columns, name)
  {
    var all := [c] + columns;
    assert all[1..] == columns;
    var i := IndexOf(columns, name);
    if c.name != name && i < |columns| {
      assert all[..i + 1] + all[i + 2..] == [c] + (columns[..i] + columns[i + 1..]);
    }
  }

  lemma WithoutOther(columns: seq<Column>, name: string)
    requires forall c | c in columns :: c.name != name
    ensures Without(columns, name) == columns
  {
    var i := IndexOf(columns, name);
    assert i == |columns|;
  }

  lemma KeepSame(columns: seq<Column>, gone: set<string>, name: string)
    requires forall c | c in columns :: c.name != name
    ensures Keep(columns, gone + {name}) == Keep(columns, gone)
  {
    if columns != [] {
      assert columns == [columns[0]] + columns[1..];
      KeepSame(columns[1..], gone, name);
    }
  }

  lemma KeepFirst(columns: seq<Column>, gone: set<string>)
    requires columns != []
    ensures Keep(columns, gone) ==
            if columns[0].name in gone then Keep(columns[1..], gone) else [columns[0]] + Keep(columns[1..], gone)
  {
  }

  // A column that is removed from the ones that are kept.
  lemma {:induction false} KeepRemove(columns: seq<Column>, gone: set<string>, name: string)
    requires Distinct(NamesOf(columns))
    ensures Keep(columns, gone + {name}) == Without(Keep(columns, gone), name)
  {
    if columns == [] {
      WithoutOther([], name);
    } else {
      FirstColumn(columns);
      hide Without, IndexOf, Keep, Distinct, NamesOf;
      var c, more := columns[0], columns[1..];
      KeepFirst(columns, gone);
      KeepFirst(columns, gone + {name});
      KeepRemove(more, gone, name);
      WithoutFirst(c, Keep(more, gone), name);
      if c.name == name {
        KeepSame(more, gone, name);
        KeepOther(more, gone, name);
      }
    }
  }

  lemma KeepOther(columns: seq<Column>, gone: set<string>, name: string)
    requires forall c | c in columns :: c.name != name
    ensures Without(Keep(columns, gone), name) == Keep(columns, gone)
  {
    KeepNames(columns, gone);
    WithoutOther(Keep(columns, gone), name);
  }

  lemma {:induction false} KeepClear(columns: seq<Column>, gone: set<string>, names: set<string>)
    ensures Keep(Clear(columns, names), gone) == Clear(Keep(columns, gone), names)
  {
    if columns != [] {
      KeepClear(columns[1..], gone, names);
      assert Clear(columns, names)[1..] == Clear(columns[1..], names);
      var rest := Keep(columns[1..], gone);
      assert Clear([columns[0]] + rest, names) == Clear([columns[0]], names) + Clear(rest, names);
    }
  }

  lemma {:induction false} IndexIn(columns: seq<Column>, c: Column)
    requires c in columns
    ensures IndexOf(columns, c.name) < |columns|
  {
    if columns[0].name != c.name {
      assert columns == [columns[0]] + columns[1..];
      IndexIn(columns[1..], c);
    }
  }

  lemma DropOneColumn(b: Table, gone: set<string>, c: Column)
    requires Distinct(NamesOf(b.columns)) && c in b.columns && c.name !in gone && c.name !in b.key
    ensures Apply(b.(columns := Keep(b.columns, gone)), DropColumn(c.name)) ==
            if Keep(b.columns, gone + {c.name}) == [] then None
            else Some(b.(columns := Keep(b.columns, gone + {c.name})))
  {
    var kept := Keep(b.columns, gone);
    KeepNames(b.columns, gone);
    KeepRemove(b.columns, gone, c.name);
    IndexIn(kept, c);
    hide Keep, IndexOf;
    var i := IndexOf(kept, c.name);
    assert |kept[..i] + kept[i + 1..]| == |kept| - 1;
  }

  lemma {:induction false} KeepMore(columns: seq<Column>, gone: set<string>, more: set<string>)
    requires Keep(columns, gone) == []
    ensures Keep(columns, gone + more) == []
  {
    if columns != [] {
      KeepMore(columns[1..], gone, more);
    }
  }

  lemma GoneFirst(removed: seq<Column>)
    requires removed != []
    ensures Gone(removed) == {removed[0].name} + Gone(removed[1..])
  {
    assert removed == [removed[0]] + removed[1..];
  }

  lemma DropColumnsFirst(removed: seq<Column>, rest: seq<Change>)
    requires removed != []
    ensures DropColumns(removed) + rest == [DropColumn(removed[0].name)] + (DropColumns(removed[1..]) + rest)
  {
  }

  lemma {:induction false} RunDropColumns(b: Table, removed: seq<Column>, gone: set<string>, rest: seq<Change>)
    requires Distinct(NamesOf(b.columns)) && Distinct(NamesOf(removed))
    requires forall c | c in removed ::
      && (exists d :: d in b.columns && d.name == c.name) && c.name !in gone
      && c.name !in b.key
    ensures Run(b.(columns := Keep(b.columns, gone)), DropColumns(removed) + rest) ==
            if removed != [] && Keep(b.columns, gone + Gone(removed)) == [] then None
            else Run(b.(columns := Keep(b.columns, gone + Gone(removed))), rest)
    decreases |removed|
  {
    hide Apply;
    var t := b.(columns := Keep(b.columns, gone));
    if removed == [] {
      assert gone + Gone(removed) == gone && DropColumns(removed) + rest == rest;
    } else {
      var name, more := removed[0].name, removed[1..];
      assert removed[0] in removed;
      var d :| d in b.columns && d.name == name;
      FirstColumn(removed);
      GoneFirst(removed);
      DropColumnsFirst(removed, rest);
      RunFirst(t, DropColumn(name), DropColumns(more) + rest);
      DropOneColumn(b, gone, d);
      assert gone + {name} + Gone(more) == gone + Gone(removed);
      if Keep(b.columns, gone + {name}) == [] {
        KeepMore(b.columns, gone + {name}, Gone(more));
      } else {
        RunDropColumns(b, more, gone + {name}, rest);
        assert more == [] ==> gone + {name} + Gone(more) == gone + {name};
      }
    }
  }

  // The columns are those of the edits, whose defaults from i on haven't been changed yet.
  ghost predicate Aligned(columns: seq<Column>, kept: seq<Edit>, i: nat) {
    && |columns| == |kept| && i <= |kept| && Distinct(NamesOf(columns))
    && (forall j | 0 <= j < |kept| ::
          && kept[j].original.Some?
          && var c := kept[j].original.value;
             columns[j].name == c.name && columns[j].identity == c.identity && columns[j].generated == c.generated)
    && (forall j | i <= j < |kept| :: columns[j].def == kept[j].original.value.def)
  }

  function WithDefaults(columns: seq<Column>, kept: seq<Edit>, i: nat): seq<Column>
    requires |columns| == |kept|
  {
    seq(|columns|, j requires 0 <= j < |columns| => if j >= i then columns[j].(def := kept[j].def) else columns[j])
  }

  lemma IndexOfAligned(columns: seq<Column>, i: nat)
    requires Distinct(NamesOf(columns)) && i < |columns|
    ensures IndexOf(columns, columns[i].name) == i
  {
    var k := IndexOf(columns, columns[i].name);
    if k < i {
      NamesDiffer(columns, k, i);
    }
  }

  lemma AlignedNext(columns: seq<Column>, kept: seq<Edit>, i: nat)
    requires Aligned(columns, kept, i) && i < |kept|
    ensures var next := columns[i := columns[i].(def := kept[i].def)];
      && Aligned(next, kept, i + 1) && WithDefaults(next, kept, i + 1) == WithDefaults(columns, kept, i)
  {
    var next := columns[i := columns[i].(def := kept[i].def)];
    assert NamesOf(next) == NamesOf(columns);
  }

  function DefaultChange(e: Edit): Change {
    if e.def == "" then DropDefault(e.Id()) else SetDefault(e.Id(), e.def)
  }

  lemma ChangeOneDefault(t: Table, kept: seq<Edit>, i: nat)
    requires Aligned(t.columns, kept, i) && i < |kept|
    requires var c := kept[i].original.value; kept[i].def != c.def && !c.identity && !c.generated
    ensures Apply(t, DefaultChange(kept[i])) == Some(t.(columns := t.columns[i := t.columns[i].(def := kept[i].def)]))
  {
    IndexOfAligned(t.columns, i);
    hide IndexOf;
  }

  lemma SetDefaultsFirst(kept: seq<Edit>, i: nat, rest: seq<Change>)
    requires i < |kept| && kept[i].original.Some?
    ensures SetDefaults(kept[i..]) + rest ==
            (if kept[i].def == kept[i].original.value.def then [] else [DefaultChange(kept[i])])
              + (SetDefaults(kept[i + 1..]) + rest)
  {
    assert kept[i..][1..] == kept[i + 1..];
  }

  lemma {:induction false} RunSetDefaults(t: Table, kept: seq<Edit>, i: nat, rest: seq<Change>)
    requires Aligned(t.columns, kept, i)
    requires forall j | 0 <= j < |kept| ::
      kept[j].def != kept[j].original.value.def ==>
        && !kept[j].original.value.identity
        && !kept[j].original.value.generated
    ensures Run(t, SetDefaults(kept[i..]) + rest) == Run(t.(columns := WithDefaults(t.columns, kept, i)), rest)
    decreases |kept| - i
  {
    if i == |kept| {
      assert SetDefaults(kept[i..]) + rest == rest && WithDefaults(t.columns, kept, i) == t.columns;
    } else {
      hide Apply, WithDefaults, SetDefaults, DefaultChange, Run;
      var e := kept[i];
      var next := t.columns[i := t.columns[i].(def := e.def)];
      var changes := SetDefaults(kept[i + 1..]) + rest;
      assert e in kept;
      AlignedNext(t.columns, kept, i);
      RunSetDefaults(t.(columns := next), kept, i + 1, rest);
      SetDefaultsFirst(kept, i, rest);
      if e.def == e.original.value.def {
        assert next == t.columns && [] + changes == changes;
      } else {
        ChangeOneDefault(t, kept, i);
        RunFirst(t, DefaultChange(e), changes);
      }
    }
  }

  // The column that a new one becomes.
  function NewColumns(added: seq<Edit>): (r: seq<Column>)
    ensures |r| == |added|
  {
    seq(|added|, i requires 0 <= i < |added| => NewColumn(added[i]).(notNull := added[i].notNull || added[i].identity))
  }

  ghost predicate Addable(columns: seq<Column>, added: seq<Edit>) {
    && Distinct(NamesOf(columns) + Ids(added))
    && forall e | e in added :: IsIdentifier(e.Id())
  }

  // At most one column is an identity column.
  ghost predicate OneIdentity(columns: seq<Column>, added: seq<Edit>) {
    && (forall i, j | 0 <= i < j < |added| :: !(added[i].identity && added[j].identity))
    && (forall c, e | c in columns && e in added :: !(c.identity && e.identity))
  }

  lemma AddableFirst(columns: seq<Column>, added: seq<Edit>)
    requires added != [] && added[0].original.None? && Distinct(NamesOf(columns))
    ensures var c := NewColumns(added)[0];
      Addable(columns, added) <==>
        && IsIdentifier(c.name) && c.name !in NamesOf(columns)
        && Addable(columns + [c], added[1..])
  {
    var c := NewColumns(added)[0];
    var names := NamesOf(columns) + Ids(added);
    assert names == NamesOf(columns + [c]) + Ids(added[1..]);
    assert added == [added[0]] + added[1..];
    var n := |columns|;
    assert names[n] == c.name && NamesOf(columns) == names[..n];
    if Distinct(names) {
      assert forall i | 0 <= i < n :: NamesOf(columns)[i] == names[i] != names[n];
    }
  }

  lemma OneIdentityFirst(columns: seq<Column>, added: seq<Edit>)
    requires added != [] && OneIdentity(columns, added)
    ensures OneIdentity(columns + [NewColumns(added)[0]], added[1..])
    ensures added[0].identity ==> forall c | c in columns :: !c.identity
  {
    assert added[0] in added;
    forall e | e in added[1..] ensures !(added[0].identity && e.identity) {
      var i :| 0 <= i < |added[1..]| && added[1..][i] == e;
      assert added[i + 1] == e;
    }
  }

  lemma AddOneColumn(t: Table, added: seq<Edit>)
    requires added != [] && added[0].original.None? && OneIdentity(t.columns, added)
    ensures var c := NewColumns(added)[0];
      Apply(t, AddColumn(NewColumn(added[0]))) ==
      if IsIdentifier(c.name) && c.name !in NamesOf(t.columns) then Some(t.(columns := t.columns + [c])) else None
  {
    OneIdentityFirst(t.columns, added);
  }

  lemma AddColumnsFirst(added: seq<Edit>, rest: seq<Change>)
    requires added != [] && added[0].original.None?
    ensures AddColumns(added) + rest == [AddColumn(NewColumn(added[0]))] + (AddColumns(added[1..]) + rest)
  {
    var first: seq<Change> := [AddColumn(NewColumn(added[0]))];
    assert AddColumns(added) == first + AddColumns(added[1..]);
    Assoc(first, AddColumns(added[1..]), rest);
  }

  lemma NewColumnsFirst(added: seq<Edit>)
    requires added != []
    ensures NewColumns(added) == [NewColumns(added)[0]] + NewColumns(added[1..])
  {
    hide NewColumn;
  }

  lemma AddedDistinct(columns: seq<Column>, c: Column)
    requires Distinct(NamesOf(columns)) && c.name !in NamesOf(columns)
    ensures Distinct(NamesOf(columns + [c]))
  {
    var names := NamesOf(columns + [c]);
    assert names == NamesOf(columns) + [c.name];
    forall i, j | 0 <= i < j < |names| ensures names[i] != names[j] {
      assert NamesOf(columns)[i] == names[i] && names[i] in NamesOf(columns);
    }
  }

  lemma Assoc<T>(a: seq<T>, b: seq<T>, c: seq<T>)
    ensures a + b + c == a + (b + c)
  {
  }

  lemma {:induction false} RunAddColumns(t: Table, added: seq<Edit>, rest: seq<Change>)
    requires Distinct(NamesOf(t.columns)) && OneIdentity(t.columns, added) && AllAdded(added)
    ensures Run(t, AddColumns(added) + rest) ==
            if Addable(t.columns, added) then Run(t.(columns := t.columns + NewColumns(added)), rest) else None
    decreases |added|
  {
    if added == [] {
      assert AddColumns(added) + rest == rest && t.columns + NewColumns(added) == t.columns;
      assert NamesOf(t.columns) + Ids(added) == NamesOf(t.columns);
    } else {
      assert added[0] in added && added[0].original.None?;
      assert forall e | e in added[1..] :: e in added;
      AddableFirst(t.columns, added);
      OneIdentityFirst(t.columns, added);
      AddColumnsFirst(added, rest);
      NewColumnsFirst(added);
      AddOneColumn(t, added);
      var more, c := added[1..], NewColumns(added)[0];
      hide Apply, AddColumns, Run, Addable, NewColumn, IsIdentifier, NamesOf, NewColumns, Distinct, OneIdentity;
      RunFirst(t, AddColumn(NewColumn(added[0])), AddColumns(more) + rest);
      if IsIdentifier(c.name) && c.name !in NamesOf(t.columns) {
        AddedDistinct(t.columns, c);
        RunAddColumns(t.(columns := t.columns + [c]), more, rest);
        Assoc(t.columns, [c], NewColumns(more));
      }
    }
  }

  lemma {:induction false} KeptDropNotNulls(columns: seq<Edit>)
    ensures DropNotNulls(columns) == DropNotNulls(Kept(columns))
  {
    if columns != [] {
      KeptDropNotNulls(columns[1..]);
      if columns[0].original.Some? {
        assert Kept(columns)[1..] == Kept(columns[1..]);
      } else {
        assert Kept(columns) == Kept(columns[1..]) && DropNotNulls(columns) == DropNotNulls(columns[1..]);
      }
    }
  }

  lemma {:induction false} KeptSetDefaults(columns: seq<Edit>)
    ensures SetDefaults(columns) == SetDefaults(Kept(columns))
  {
    if columns != [] {
      KeptSetDefaults(columns[1..]);
      if columns[0].original.Some? {
        assert Kept(columns)[1..] == Kept(columns[1..]);
      } else {
        assert Kept(columns) == Kept(columns[1..]) && SetDefaults(columns) == SetDefaults(columns[1..]);
      }
    }
  }

  lemma {:induction false} AddedAddColumns(columns: seq<Edit>)
    ensures AddColumns(columns) == AddColumns(Added(columns))
  {
    if columns != [] {
      AddedAddColumns(columns[1..]);
      if columns[0].original.None? {
        assert Added(columns)[1..] == Added(columns[1..]);
      } else {
        assert Added(columns) == Added(columns[1..]) && AddColumns(columns) == AddColumns(columns[1..]);
      }
    }
  }

  lemma {:induction false} KeptOrAdded(columns: seq<Edit>)
    ensures forall e | e in columns :: if e.original.Some? then e in Kept(columns) else e in Added(columns)
  {
    if columns != [] {
      KeptOrAdded(columns[1..]);
      assert columns == [columns[0]] + columns[1..];
    }
  }

  function EditedColumn(e: Edit): Column
    requires e.original.Some?
  {
    var c := e.original.value;
    c.(notNull := c.notNull && !IsCleared(e), notNullName := if IsCleared(e) then "" else c.notNullName, def := e.def)
  }

  function EditedColumns(kept: seq<Edit>): (r: seq<Column>)
    requires AllKept(kept)
    ensures |r| == |kept|
  {
    seq(|kept|, i requires 0 <= i < |kept| => EditedColumn(kept[i]))
  }

  lemma ClearedIff(kept: seq<Edit>, i: nat)
    requires Distinct(Ids(kept)) && i < |kept|
    ensures kept[i].Id() in Cleared(kept) <==> IsCleared(kept[i])
  {
    assert kept[i] in kept;
    if kept[i].Id() in Cleared(kept) {
      var e :| e in kept && IsCleared(e) && e.Id() == kept[i].Id();
      var j :| 0 <= j < |kept| && kept[j] == e;
      assert Ids(kept)[i] == Ids(kept)[j];
    }
  }

  lemma OriginalNames(s: State, t: Table)
    requires Editable(s, t)
    ensures var kept := Kept(s.columns);
      NamesOf(Originals(kept)) == Ids(kept) && Distinct(Ids(kept))
  {
    var kept := Kept(s.columns);
    KeepDistinct(t.columns, Gone(s.removed));
    assert forall e | e in kept :: e.Id() == e.original.value.name;
    assert NamesOf(Originals(kept)) == Ids(kept);
  }

  // The table after the PRIMARY KEY is dropped.
  function WithoutKey(s: State, t: Table): Table {
    if KeyChanged(s) then t.(key := [], keyName := "") else t
  }

  lemma RunDropKeys(s: State, t: Table, rest: seq<Change>)
    requires Editable(s, t)
    ensures Run(t, DropKeys(s) + rest) == Run(WithoutKey(s, t), rest)
  {
    if KeyChanged(s) && s.keyName != "" {
      RunFirst(t, DropConstraint(s.keyName), rest);
    } else {
      assert [] + rest == rest;
      assert KeyChanged(s) ==> t.(key := [], keyName := "") == t;
    }
  }

  lemma RunNotNulls(s: State, t: Table, rest: seq<Change>)
    requires Editable(s, t)
    ensures var b := WithoutKey(s, t);
      Run(b, DropNotNulls(s.columns) + rest) ==
      if CanClear(s, t) then Run(b.(columns := Clear(b.columns, Cleared(Kept(s.columns)))), rest) else None
  {
    hide Run, Apply, DropNotNulls;
    var b, kept := WithoutKey(s, t), Kept(s.columns);
    OriginalNames(s, t);
    KeptDropNotNulls(s.columns);
    assert Clear(b.columns, {}) == b.columns && {} + Cleared(kept) == Cleared(kept);
    hide Kept, Cleared, Clearable, CanClear;
    RunDropNotNulls(b, kept, {}, rest);
    ClearableIff(s, t);
  }

  lemma ClearableIff(s: State, t: Table)
    requires Editable(s, t)
    ensures Clearable(WithoutKey(s, t), Kept(s.columns)) <==> CanClear(s, t)
  {
    KeptOrAdded(s.columns);
    hide Added, KeyChanged;
  }

  lemma KeptAfterClear(s: State, t: Table)
    requires Editable(s, t)
    ensures var kept := Kept(s.columns);
      Keep(Clear(t.columns, Cleared(kept)), Gone(s.removed)) == Clear(Originals(kept), Cleared(kept))
  {
    KeepClear(t.columns, Gone(s.removed), Cleared(Kept(s.columns)));
  }

  lemma ClearedColumns(kept: seq<Edit>)
    requires Distinct(Ids(kept)) && AllKept(kept)
      && forall i | 0 <= i < |kept| :: kept[i].identity == kept[i].original.value.identity
    ensures var columns := Clear(Originals(kept), Cleared(kept));
      && |columns| == |kept| && NamesOf(columns) == Ids(kept)
      && Aligned(columns, kept, 0) && WithDefaults(columns, kept, 0) == EditedColumns(kept)
  {
    var columns := Clear(Originals(kept), Cleared(kept));
    hide Cleared;
    forall i | 0 <= i < |kept|
      ensures kept[i].original.Some? && Originals(kept)[i] == kept[i].original.value && columns[i].name == Ids(kept)[i]
      ensures WithDefaults(columns, kept, 0)[i] == EditedColumns(kept)[i]
    {
      assert kept[i] in kept;
      ClearedIff(kept, i);
    }
    assert NamesOf(columns) == Ids(kept);
    assert WithDefaults(columns, kept, 0) == EditedColumns(kept);
  }

  lemma UnlockedKept(s: State, t: Table)
    requires Editable(s, t)
    ensures var kept := Kept(s.columns);
      && Distinct(Ids(kept))
      && forall i | 0 <= i < |kept| ::
           && kept[i].identity == kept[i].original.value.identity
           && (kept[i].def != kept[i].original.value.def ==>
             && !kept[i].original.value.identity
             && !kept[i].original.value.generated)
  {
    OriginalNames(s, t);
    var kept := Kept(s.columns);
    forall i | 0 <= i < |kept| ensures IsUnlocked(kept[i], t) {
      assert s.columns[i] == kept[i] && s.columns[i] in s.columns;
    }
  }

  lemma RemovedNamed(s: State, t: Table, names: set<string>, c: Column)
    requires Editable(s, t) && c in s.removed
    ensures exists d :: d in Clear(t.columns, names) && d.name == c.name
  {
    var i :| 0 <= i < |t.columns| && t.columns[i] == c;
    assert Clear(t.columns, names)[i].name == c.name;
  }

  lemma RemovedOf(s: State, t: Table)
    requires Editable(s, t) && KeyStays(s, t)
    ensures var b := WithoutKey(s, t); var columns := Clear(b.columns, Cleared(Kept(s.columns)));
      && Distinct(NamesOf(columns)) && Distinct(NamesOf(s.removed))
      && forall c | c in s.removed :: (exists d :: d in columns && d.name == c.name) && c.name !in b.key
  {
    var kept := Kept(s.columns);
    var columns := Clear(t.columns, Cleared(kept));
    assert NamesOf(columns) == NamesOf(t.columns);
    forall c | c in s.removed ensures (exists d :: d in columns && d.name == c.name) {
      RemovedNamed(s, t, Cleared(kept), c);
    }
  }

  lemma RunColumns(s: State, t: Table, rest: seq<Change>)
    requires Editable(s, t) && KeyStays(s, t)
    ensures var b, kept := WithoutKey(s, t), Kept(s.columns);
      Run(b.(columns := Clear(b.columns, Cleared(kept))), DropColumns(s.removed) + rest) ==
      if s.removed != [] && kept == [] then None
      else Run(b.(columns := Clear(Originals(kept), Cleared(kept))), rest)
  {
    var b, kept := WithoutKey(s, t), Kept(s.columns);
    var after := b.(columns := Clear(b.columns, Cleared(kept)));
    SameColumns(s, t);
    KeptAfterClear(s, t);
    UnlockedKept(s, t);
    ClearedColumns(kept);
    RemovedOf(s, t);
    hide Run, Apply, Cleared, Originals, Clear, EditedColumns, Aligned, WithDefaults, Editable, KeyStays, WithoutKey,
      Distinct, NamesOf,
      Ids, Kept, Keep;
    KeepAll(after.columns, {});
    assert {} + Gone(s.removed) == Gone(s.removed);
    RunDropColumns(after, s.removed, {}, rest);
  }

  lemma RunDefaults(s: State, t: Table, rest: seq<Change>)
    requires Editable(s, t)
    ensures var b, kept := WithoutKey(s, t), Kept(s.columns);
      Run(b.(columns := Clear(Originals(kept), Cleared(kept))), SetDefaults(s.columns) + rest) ==
      Run(b.(columns := EditedColumns(kept)), rest)
  {
    var kept := Kept(s.columns);
    UnlockedKept(s, t);
    ClearedColumns(kept);
    KeptSetDefaults(s.columns);
    hide Run, Apply, Cleared, Originals, Clear, EditedColumns, Aligned, WithDefaults, SetDefaults, Editable;
    assert kept[0..] == kept;
    RunSetDefaults(WithoutKey(s, t).(columns := Clear(Originals(kept), Cleared(kept))), kept, 0, rest);
  }

  lemma IdsAdd(a: seq<Edit>, b: seq<Edit>)
    ensures Ids(a + b) == Ids(a) + Ids(b)
  {
  }

  lemma EditedColumnNames(kept: seq<Edit>)
    requires AllKept(kept)
    ensures NamesOf(EditedColumns(kept)) == Ids(kept)
  {
    forall i | 0 <= i < |kept| ensures NamesOf(EditedColumns(kept))[i] == Ids(kept)[i] {
      assert kept[i] in kept;
    }
  }

  lemma EditedNames(s: State, t: Table)
    requires Editable(s, t)
    ensures var columns := EditedColumns(Kept(s.columns));
      && NamesOf(columns) == Ids(Kept(s.columns)) && Distinct(NamesOf(columns))
      && NamesOf(columns) + Ids(Added(s.columns)) == Ids(s.columns)
  {
    OriginalNames(s, t);
    hide Ids, NamesOf, EditedColumns, Distinct;
    EditedColumnNames(Kept(s.columns));
    IdsAdd(Kept(s.columns), Added(s.columns));
  }

  lemma RunAdds(s: State, t: Table, rest: seq<Change>)
    requires Editable(s, t)
    ensures var b, kept, added := WithoutKey(s, t), Kept(s.columns), Added(s.columns);
      Run(b.(columns := EditedColumns(kept)), AddColumns(s.columns) + rest) ==
      if CanAdd(s) then Run(b.(columns := EditedColumns(kept) + NewColumns(added)), rest) else None
  {
    var kept, added := Kept(s.columns), Added(s.columns);
    EditedNames(s, t);
    KeptOrAdded(s.columns);
    AddedAddColumns(s.columns);
    IdentityOnce(s, t);
    hide Run, Apply, NamesOf, Ids, EditedColumns, NewColumns, IsIdentifier, Distinct, OneIdentity, Editable, AddColumns;
    RunAddColumns(WithoutKey(s, t).(columns := EditedColumns(kept)), added, rest);
  }

  lemma IdentityOnceOf(kept: seq<Edit>, added: seq<Edit>)
    requires var all := kept + added; forall i, j | 0 <= i < j < |all| :: !(all[i].identity && all[j].identity)
    requires AllKept(kept) && forall i | 0 <= i < |kept| :: kept[i].identity == kept[i].original.value.identity
    ensures OneIdentity(EditedColumns(kept), added)
  {
    var all := kept + added;
    forall i, j | 0 <= i < j < |added| ensures !(added[i].identity && added[j].identity) {
      assert all[|kept| + i] == added[i] && all[|kept| + j] == added[j];
    }
    forall c, e | c in EditedColumns(kept) && e in added ensures !(c.identity && e.identity) {
      var i :| 0 <= i < |kept| && EditedColumns(kept)[i] == c;
      var j :| 0 <= j < |added| && added[j] == e;
      assert all[i] == kept[i] && all[|kept| + j] == added[j] && kept[i] in kept;
    }
  }

  lemma IdentityOnce(s: State, t: Table)
    requires Editable(s, t)
    ensures OneIdentity(EditedColumns(Kept(s.columns)), Added(s.columns))
  {
    UnlockedKept(s, t);
    hide OneIdentity, EditedColumns;
    IdentityOnceOf(Kept(s.columns), Added(s.columns));
  }

  // The columns and the table that the script makes.
  function MadeColumns(s: State): seq<Column> {
    var columns := EditedColumns(Kept(s.columns)) + NewColumns(Added(s.columns));
    if KeyChanged(s) && KeyOf(s.columns) != [] then WithKey(columns, KeyOf(s.columns)) else columns
  }

  function Made(s: State, t: Table): Table {
    Table(MadeColumns(s), if KeyChanged(s) then KeyOf(s.columns) else t.key, if KeyChanged(s) then "" else t.keyName)
  }

  lemma {:induction false} KeyIn(columns: seq<Edit>)
    ensures forall n :: n in KeyOf(columns) <==> exists e :: e in columns && e.primaryKey && e.Id() == n
  {
    if columns != [] {
      KeyIn(columns[1..]);
      assert columns == [columns[0]] + columns[1..];
    }
  }

  lemma {:induction false} KeyDistinct(columns: seq<Edit>)
    requires Distinct(Ids(columns))
    ensures Distinct(KeyOf(columns))
  {
    if columns != [] {
      FirstDiffers(columns);
      KeyDistinct(columns[1..]);
      if columns[0].primaryKey {
        KeyIn(columns[1..]);
        var name, more := columns[0].Id(), KeyOf(columns[1..]);
        assert name !in more;
        assert KeyOf(columns) == [name] + more;
        forall i, j | 0 <= i < j < |more| + 1 ensures ([name] + more)[i] != ([name] + more)[j] {
          assert more[j - 1] in more;
        }
      } else {
        assert KeyOf(columns) == KeyOf(columns[1..]);
      }
    }
  }

  lemma KeyNames(s: State)
    requires CanAdd(s)
    ensures Distinct(KeyOf(s.columns)) && forall n | n in KeyOf(s.columns) :: n in Ids(s.columns)
  {
    KeyDistinct(s.columns);
    KeyIn(s.columns);
    forall n | n in KeyOf(s.columns) ensures n in Ids(s.columns) {
      var e :| e in s.columns && e.Id() == n;
      var i :| 0 <= i < |s.columns| && s.columns[i] == e;
      assert Ids(s.columns)[i] == n;
    }
  }

  lemma AddOneKey(b: Table, key: seq<string>)
    requires b.key == [] && key != [] && Distinct(key) && forall k | k in key :: k in NamesOf(b.columns)
    ensures Run(b, [AddKey(key)]) == Some(Table(WithKey(b.columns, key), key, ""))
  {
    hide NamesOf, Distinct;
    assert [AddKey(key)][1..] == [];
  }

  lemma RunAddKeys(s: State, t: Table)
    requires Editable(s, t) && CanAdd(s)
    ensures var b := WithoutKey(s, t);
      Run(b.(columns := EditedColumns(Kept(s.columns)) + NewColumns(Added(s.columns))), AddKeys(s)) == Some(Made(s, t))
  {
    var columns := EditedColumns(Kept(s.columns)) + NewColumns(Added(s.columns));
    KeyNames(s);
    MadeNames(s, t);
    hide EditedColumns, NewColumns, NamesOf, Ids, KeyOf, KeyChanged, Distinct, Editable, CanAdd, Kept, Added, WithKey;
    if KeyChanged(s) && KeyOf(s.columns) != [] {
      AddOneKey(WithoutKey(s, t).(columns := columns), KeyOf(s.columns));
    }
  }

  lemma MadeNames(s: State, t: Table)
    requires Editable(s, t)
    ensures NamesOf(EditedColumns(Kept(s.columns)) + NewColumns(Added(s.columns))) == Ids(s.columns)
  {
    hide EditedColumns, NewColumns, Ids, NamesOf, Editable;
    EditedNames(s, t);
    NewNames(Added(s.columns));
    NamesAdd(EditedColumns(Kept(s.columns)), NewColumns(Added(s.columns)));
  }

  lemma NamesAdd(a: seq<Column>, b: seq<Column>)
    ensures NamesOf(a + b) == NamesOf(a) + NamesOf(b)
  {
  }

  lemma NewNames(added: seq<Edit>)
    requires AllAdded(added)
    ensures NamesOf(NewColumns(added)) == Ids(added)
  {
    forall i | 0 <= i < |added| ensures NamesOf(NewColumns(added))[i] == Ids(added)[i] {
      assert added[i] in added;
    }
  }

  // Whether the script is valid, and what it makes, if no column of a PRIMARY KEY that isn't
  // changed is removed.
  lemma ScriptRuns(s: State, t: Table)
    requires Editable(s, t) && KeyStays(s, t)
    ensures Run(t, Script(s)) == if CanRun(s, t) then Some(Made(s, t)) else None
  {
    hide Run, Editable, KeyStays, CanClear, CanAdd, Made, Kept, Added, DropKeys, AddKeys, WithoutKey,
      DropNotNulls, DropColumns, SetDefaults, AddColumns, EditedColumns, NewColumns, Clear, Originals, Cleared;
    var adds := AddColumns(s.columns) + AddKeys(s);
    var defaults := SetDefaults(s.columns) + adds;
    var drops := DropColumns(s.removed) + defaults;
    RunDropKeys(s, t, DropNotNulls(s.columns) + drops);
    RunNotNulls(s, t, drops);
    RunColumns(s, t, defaults);
    RunDefaults(s, t, adds);
    RunAdds(s, t, AddKeys(s));
    if CanAdd(s) {
      RunAddKeys(s, t);
    }
    SameColumns(s, t);
  }

  lemma SameColumns(s: State, t: Table)
    ensures WithoutKey(s, t).columns == t.columns
  {
  }

  ghost predicate DropsFrom(changes: seq<Change>, key: seq<string>) {
    exists n :: n in key && DropColumn(n) in changes
  }

  // Without ADD PRIMARY KEY, a PRIMARY KEY is only ever lost.
  lemma {:induction false} KeyIsLost(t: Table, changes: seq<Change>)
    requires forall c | c in changes :: !c.AddKey?
    requires Run(t, changes).Some? && (t.key == [] || DropsFrom(changes, t.key))
    ensures Run(t, changes).value.key == []
    decreases |changes|
  {
    if changes != [] {
      var c, next := changes[0], Apply(t, changes[0]).value;
      assert changes == [c] + changes[1..];
      if t.key != [] && next.key != [] {
        var n :| n in t.key && DropColumn(n) in changes;
        assert next.key == t.key && c != DropColumn(n);
        assert DropsFrom(changes[1..], next.key);
      }
      KeyIsLost(next, changes[1..]);
    }
  }

  lemma {:induction false} NoAddKey(columns: seq<Edit>)
    ensures forall c | c in DropNotNulls(columns) + SetDefaults(columns) + AddColumns(columns) :: !c.AddKey?
  {
    if columns != [] {
      NoAddKey(columns[1..]);
    }
  }

  lemma ScriptWithKey(s: State)
    requires !KeyChanged(s)
    ensures forall c | c in Script(s) :: !c.AddKey?
    ensures forall c | c in s.removed :: DropColumn(c.name) in Script(s)
  {
    NoAddKey(s.columns);
    forall c | c in s.removed ensures DropColumn(c.name) in DropColumns(s.removed) {
      var i :| 0 <= i < |s.removed| && s.removed[i] == c;
      assert DropColumns(s.removed)[i] == DropColumn(c.name);
    }
    hide DropNotNulls, SetDefaults, AddColumns, KeyOf, KeyChanged;
    assert DropKeys(s) == [] && AddKeys(s) == [];
  }

  lemma KeyNamed(t: Table)
    requires IsTable(t)
    ensures forall k | k in t.key :: IsIdentifier(k)
  {
    forall k | k in t.key ensures IsIdentifier(k) {
      var j :| 0 <= j < |t.columns| && NamesOf(t.columns)[j] == k;
      assert t.columns[j] in t.columns;
    }
  }

  // A column of a PRIMARY KEY is removed, and another one has its name, so the PRIMARY KEY isn't
  // added again.
  lemma KeyIsNotAdded(s: State, t: Table)
    requires Editable(s, t) && !KeyStays(s, t)
    ensures !Works(s, t)
  {
    if !CanRead(s) {
      ScriptUnreadable(s, t);
      return;
    }
    ScriptWithKey(s);
    KeyNamed(t);
    assert forall x | x in Texts(t.key, s.reserved) :: x != "";
    JoinEmpty(s.key);
    assert Join([]) == "";
    KeySize(s.columns, s.reserved);
    ScriptDoes(s, t);
    var c :| c in s.removed && c.name in t.key;
    hide Script, Run, IsTable, IsIdentifier, Kept, Added, Originals, Keep;
    assert DropsFrom(Script(s), t.key);
    if Run(t, Script(s)).Some? {
      KeyIsLost(t, Script(s));
    }
  }

  lemma {:induction false} KeySize(columns: seq<Edit>, reserved: Reserved)
    ensures |KeyTexts(columns, reserved)| == |KeyOf(columns)|
  {
    if columns != [] {
      KeySize(columns[1..], reserved);
    }
  }

  // Columns with the same name are the same column.
  lemma SameEdit(s: State, e: Edit)
    requires Distinct(Ids(s.columns)) && e in s.columns
    ensures forall f | f in s.columns && f.Id() == e.Id() :: f == e
  {
    forall f | f in s.columns && f.Id() == e.Id() ensures f == e {
      var i :| 0 <= i < |s.columns| && s.columns[i] == e;
      var j :| 0 <= j < |s.columns| && s.columns[j] == f;
      assert Ids(s.columns)[i] == Ids(s.columns)[j];
    }
  }

  lemma InKeyIff(s: State, e: Edit)
    requires CanAdd(s) && e in s.columns
    ensures e.Id() in KeyOf(s.columns) <==> e.primaryKey
  {
    KeyIn(s.columns);
    SameEdit(s, e);
  }

  // A different PRIMARY KEY looks different, if no name of a column starts with a dollar sign.
  lemma KeySame(s: State, t: Table)
    requires Editable(s, t) && CanAdd(s) && forall c | c in t.columns :: !Names.IsInternal(c.name)
    ensures KeyShows(s, t)
  {
    KeyNamed(t);
    TextsAre(t.key, s.reserved);
    EditsNamed(s, t);
    assert forall e | e in s.columns :: IsUnlocked(e, t);
    KeyTextsAre(s.columns, s.reserved);
    KeyTextsNamed(s.columns, s.reserved);
    if !KeyChanged(s) {
      JoinSame(KeyTexts(s.columns, s.reserved), s.key);
    }
  }

  lemma EditsNamed(s: State, t: Table)
    requires Editable(s, t)
    ensures AreNamed(s.columns) && forall c | c in s.removed :: IsIdentifier(c.name)
    ensures CanAdd(s) ==> forall e | e in s.columns :: IsIdentifier(e.Id())
  {
    forall e | e in s.columns && e.original.Some? ensures IsIdentifier(e.original.value.name) {
      assert IsUnlocked(e, t);
    }
  }

  // The script does what it means, if the engine can read it, and is otherwise not valid.
  lemma ScriptDoes(s: State, t: Table)
    requires Editable(s, t) && CanRead(s)
    ensures Execute(t, ScriptText(s)) == Run(t, Script(s))
  {
    EditsNamed(s, t);
    hide Editable, Execute, Run, Script, ScriptText, AreNamed, CanRead;
    ScriptTextMeans(s);
    ExecuteMeanings(t, ScriptText(s));
  }

  lemma ScriptUnreadable(s: State, t: Table)
    requires Editable(s, t) && !CanRead(s)
    ensures Execute(t, ScriptText(s)).None?
  {
    var c := UnreadableIn(s);
    assert HasNames(t) by {
      assert forall i | 0 <= i < |t.columns| :: t.columns[i] in t.columns && NamesOf(t.columns)[i] == t.columns[i].name;
    }
    hide CanRead, ScriptText, Editable, HasNames, Execute;
    UnreadableScript(t, ScriptText(s));
  }

  lemma {:induction false} KeyTextsNamed(columns: seq<Edit>, reserved: Reserved)
    requires forall e | e in columns :: IsIdentifier(e.Id()) && e.IsReadable()
    ensures forall x | x in KeyTexts(columns, reserved) :: IsName(x)
  {
    if columns != [] {
      assert columns[0] in columns && forall e | e in columns[1..] :: e in columns;
      SqlNameIsName(columns[0], reserved);
      KeyTextsNamed(columns[1..], reserved);
    }
  }

  lemma KeptAt(kept: seq<Edit>, columns: seq<Column>, i: nat, key: seq<string>)
    requires i < |kept| && AllKept(kept)
    ensures kept[i] in kept
    ensures var all, c := EditedColumns(kept) + columns, EditedColumn(kept[i]);
      && all[i] == c && c.name == kept[i].Id()
      && WithKey(all, key)[i] == c.(notNull := c.notNull || c.name in key)
  {
    assert kept[i] in kept;
  }

  // The column that one that was already there becomes in the end.
  lemma KeptColumn(s: State, i: nat)
    requires i < |Kept(s.columns)|
    ensures var e := Kept(s.columns)[i];
      && e in Kept(s.columns) && i < |MadeColumns(s)|
      && MadeColumns(s)[i] == EditedColumn(e).(notNull :=
           EditedColumn(e).notNull || (KeyChanged(s) && e.Id() in KeyOf(s.columns)))
  {
    hide KeyOf, KeyChanged, EditedColumns, NewColumns, Kept, Added, EditedColumn;
    KeptAt(Kept(s.columns), NewColumns(Added(s.columns)), i, KeyOf(s.columns));
  }

  lemma KeptShows(s: State, t: Table, i: nat)
    requires Editable(s, t) && CanWork(s, t) && i < |Kept(s.columns)|
    ensures i < |s.columns| && i < |MadeColumns(s)| && Shows(MadeColumns(s)[i], s.columns[i])
  {
    var e := Kept(s.columns)[i];
    KeptColumn(s, i);
    assert s.columns[i] == e && e in s.columns && IsUnlocked(e, t);
    InKeyIff(s, e);
    var c := e.original.value;
    assert (c.identity || c.name in t.key) ==> c.notNull;
    hide KeyOf, KeyChanged, MadeColumns, Kept, Added, Editable;
  }

  // A new column isn't in a PRIMARY KEY that isn't changed.
  lemma AddedNotInKey(s: State, t: Table, e: Edit)
    requires Editable(s, t) && CanAdd(s) && KeyStays(s, t) && KeyShows(s, t) && !KeyChanged(s)
    requires e in s.columns && e.original.None?
    ensures !e.primaryKey
  {
    InKeyIff(s, e);
    SameEdit(s, e);
    hide KeyOf, Ids, KeyChanged, CanAdd;
    if e.primaryKey {
      assert e.Id() in t.key;
      var j :| 0 <= j < |t.columns| && NamesOf(t.columns)[j] == e.Id();
      var c := t.columns[j];
      KeptHas(s, t, c);
    }
  }

  lemma KeptHas(s: State, t: Table, c: Column)
    requires Editable(s, t) && c in t.columns && c.name !in Gone(s.removed)
    ensures exists e :: e in s.columns && e.original == Some(c)
  {
    KeepNames(t.columns, Gone(s.removed));
    assert c in Originals(Kept(s.columns));
    var k :| 0 <= k < |Kept(s.columns)| && Originals(Kept(s.columns))[k] == c;
    assert Kept(s.columns)[k] in Kept(s.columns);
  }

  lemma AddedAt(columns: seq<Column>, added: seq<Edit>, i: nat, key: seq<string>)
    requires i < |added|
    ensures var all, c := columns + NewColumns(added), NewColumn(added[i]);
      && all[|columns| + i] == c.(notNull := added[i].notNull || added[i].identity)
      && WithKey(all, key)[|columns| + i] == c.(notNull := added[i].notNull || added[i].identity || c.name in key)
  {
  }

  // The column that a new one becomes in the end.
  lemma AddedColumn(s: State, i: nat)
    requires i < |Added(s.columns)|
    ensures var k, e := |Kept(s.columns)| + i, Added(s.columns)[i];
      && e in Added(s.columns) && k < |MadeColumns(s)|
      && MadeColumns(s)[k] == NewColumn(e).(notNull :=
           e.notNull || e.identity || (KeyChanged(s) && NewColumn(e).name in KeyOf(s.columns)))
  {
    hide KeyOf, KeyChanged, EditedColumns, NewColumns, Kept, Added, NewColumn;
    AddedAt(EditedColumns(Kept(s.columns)), Added(s.columns), i, KeyOf(s.columns));
    assert Added(s.columns)[i] in Added(s.columns);
  }

  lemma NewShows(c: Column, e: Edit)
    requires e.original.None? && c == NewColumn(e).(notNull := e.notNull || e.identity || e.primaryKey)
    ensures Shows(c, e)
  {
  }

  lemma AddedShows(s: State, t: Table, i: nat)
    requires Editable(s, t) && CanWork(s, t) && i < |Added(s.columns)|
    ensures var k := |Kept(s.columns)| + i;
      k < |s.columns| && k < |MadeColumns(s)| && Shows(MadeColumns(s)[k], s.columns[k])
  {
    hide MadeColumns, KeyOf, KeyChanged, Kept, Added, CanClear, KeyStays, CanAdd, CanRead, KeyShows, Shows;
    var e := Added(s.columns)[i];
    assert s.columns == Kept(s.columns) + Added(s.columns);
    hide Editable;
    AddedColumn(s, i);
    assert s.columns[|Kept(s.columns)| + i] == e && e in s.columns;
    InKeyIff(s, e);
    if !KeyChanged(s) {
      AddedNotInKey(s, t, e);
    }
    NewShows(MadeColumns(s)[|Kept(s.columns)| + i], e);
  }

  lemma MadeSize(s: State)
    requires s.columns == Kept(s.columns) + Added(s.columns)
    ensures |MadeColumns(s)| == |Kept(s.columns)| + |Added(s.columns)| == |s.columns|
  {
    hide KeyOf, KeyChanged, EditedColumns, NewColumns, Kept, Added;
  }

  lemma ShowsAt(s: State, t: Table, i: nat)
    requires Editable(s, t) && CanWork(s, t)
      && i < |s.columns| == |MadeColumns(s)| == |Kept(s.columns)| + |Added(s.columns)|
    ensures Shows(MadeColumns(s)[i], s.columns[i])
  {
    hide MadeColumns, Editable, CanWork, KeyOf, KeyChanged, Kept, Added, Shows;
    if i < |Kept(s.columns)| {
      KeptShows(s, t, i);
    } else {
      AddedShows(s, t, i - |Kept(s.columns)|);
    }
  }

  lemma AllShow(s: State, t: Table)
    requires Editable(s, t) && CanWork(s, t)
    ensures |MadeColumns(s)| == |s.columns| && forall i | 0 <= i < |s.columns| :: Shows(MadeColumns(s)[i], s.columns[i])
  {
    MadeSize(s);
    hide MadeColumns, Editable, CanWork, Kept, Added, Shows;
    forall i | 0 <= i < |s.columns| ensures Shows(MadeColumns(s)[i], s.columns[i]) {
      ShowsAt(s, t, i);
    }
  }

  lemma MadeIsEdited(s: State, t: Table)
    requires Editable(s, t) && CanWork(s, t)
    ensures IsEdited(Made(s, t), s)
  {
    MadeSize(s);
    AllShow(s, t);
    hide MadeColumns, Editable, CanWork, KeyOf, KeyChanged, Kept, Added, Shows;
  }

  // The script of a table that was edited is valid at every step and makes that table, exactly
  // when what was edited can be made (see CanWork).
  lemma ScriptWorksIff(s: State, t: Table)
    requires Editable(s, t)
    ensures Works(s, t) <==> CanWork(s, t)
  {
    if !CanRead(s) {
      ScriptUnreadable(s, t);
    } else if !KeyStays(s, t) {
      KeyIsNotAdded(s, t);
    } else {
      ScriptDoes(s, t);
      ScriptRuns(s, t);
      if CanWork(s, t) {
        MadeIsEdited(s, t);
      }
    }
  }
}
