/**
 The editor of a table, where a field that's locked can't be changed. Whatever is edited, the
 state is one that EditTable is about.
 */
module TableEditor {
  import opened Wrappers
  import opened AlterTable
  import opened EditTable
  import Names

  datatype Action =
    | SetName(i: nat, name: string, upper: string)
    | SetType(i: nat, typ: string)
    | SetNotNull(i: nat, checked: bool)
    | SetPrimaryKey(i: nat, checked: bool)
    | SetIdentity(i: nat, checked: bool)
    | SetDefault(i: nat, def: string)
    | Add
    | Remove(i: nat)

  function FieldOf(a: Action): Field
    requires !a.Add? && !a.Remove?
  {
    match a
    case SetName(_, _, _) => Name
    case SetType(_, _) => Type
    case SetNotNull(_, _) => NotNull
    case SetPrimaryKey(_, _) => PrimaryKey
    case SetIdentity(_, _) => Identity
    case SetDefault(_, _) => Default
  }

  // The table when the editor is opened.
  function Opened(t: Table, reserved: Reserved): State {
    State(seq(|t.columns|, i requires 0 <= i < |t.columns| =>
            var c := t.columns[i]; Edit(Some(c), c.name, c.name, c.typ, c.notNull, c.name in t.key, c.identity, c.def)),
          [], Texts(t.key, reserved), t.keyName, reserved)
  }

  const BLANK := Edit(None, "", "", "VARCHAR(255)", false, false, false, "")

  // Only one column can be an identity column.
  function WithIdentity(columns: seq<Edit>, i: nat): seq<Edit> {
    seq(|columns|, j requires 0 <= j < |columns| => columns[j].(identity := j == i))
  }

  function Change(e: Edit, a: Action): Edit
    requires !a.Add? && !a.Remove?
  {
    match a
    case SetName(_, name, upper) => e.(name := name, upper := upper)
    case SetType(_, typ) => e.(typ := typ)
    case SetNotNull(_, checked) => e.(notNull := checked)
    case SetPrimaryKey(_, checked) => e.(primaryKey := checked)
    case SetIdentity(_, checked) => e.(identity := checked)
    case SetDefault(_, def) => e.(def := def)
  }

  function Step(s: State, a: Action): State {
    match a
    case Add => s.(columns := s.columns + [BLANK])
    case Remove(i) =>
      if i >= |s.columns| then s
      else
        var original := s.columns[i].original;
        s.(columns := s.columns[..i] + s.columns[i + 1..],
           removed := if original.Some? then s.removed + [original.value] else s.removed)
    case _ =>
      if a.i >= |s.columns| || Locked(s, s.columns[a.i], FieldOf(a)) then s
      else if a.SetIdentity? && a.checked then s.(columns := WithIdentity(s.columns, a.i))
      else s.(columns := s.columns[a.i := Change(s.columns[a.i], a)])
  }

  // The column shows what was set, unless that's locked: the DEFAULT of an identity column, the
  // identity column of a table that was opened with one, and what's fixed of a column that was
  // already there.
  lemma SetIsShown(s: State, a: Action)
    requires !a.Add? && !a.Remove? && a.i < |s.columns|
    ensures var e, e' := s.columns[a.i], Step(s, a).columns[a.i];
      && e'.original == e.original
      && (e.original.None? ==>
        && e'.name == (if a.SetName? then a.name else e.name)
        && e'.upper == (if a.SetName? then a.upper else e.upper)
        && e'.typ == (if a.SetType? then a.typ else e.typ)
        && e'.notNull == (if a.SetNotNull? then a.checked else e.notNull)
        && e'.def == (if a.SetDefault? && !e.identity then a.def else e.def)
        && e'.identity == (if a.SetIdentity? && !s.HasIdentity() then a.checked else e.identity))
      && (e.original.Some? ==>
        var c := e.original.value;
        && e'.name == e.name && e'.upper == e.upper && e'.typ == e.typ && e'.identity == e.identity
        && e'.notNull == (if a.SetNotNull? && c.notNull && c.notNullName != "" then a.checked else e.notNull)
        && e'.def == (if a.SetDefault? && !c.identity && !c.generated then a.def else e.def))
      && e'.primaryKey == (if a.SetPrimaryKey? then a.checked else e.primaryKey)
    ensures var s' := Step(s, a);
      && s'.removed == s.removed && s'.key == s.key && s'.keyName == s.keyName && s'.reserved == s.reserved
      && |s'.columns| == |s.columns|
      && forall j | 0 <= j < |s.columns| && j != a.i ::
           s'.columns[j] ==
             if a.SetIdentity? && a.checked && s.columns[a.i].original.None? && !s.HasIdentity()
             then s.columns[j].(identity := false) else s.columns[j]
  {
  }

  function After(s: State, actions: seq<Action>): State
    decreases |actions|
  {
    if actions == [] then s else After(Step(s, actions[0]), actions[1..])
  }

  // The originals of the columns, without Kept.
  function OriginalsOf(columns: seq<Edit>): seq<Column> {
    if columns == [] then []
    else (if columns[0].original.Some? then [columns[0].original.value] else []) + OriginalsOf(columns[1..])
  }

  lemma {:induction false} OriginalsOfKept(columns: seq<Edit>)
    ensures OriginalsOf(columns) == Originals(Kept(columns))
  {
    if columns != [] {
      OriginalsOfKept(columns[1..]);
      if columns[0].original.Some? {
        assert Kept(columns) == [columns[0]] + Kept(columns[1..]);
        assert Originals(Kept(columns)) == [columns[0].original.value] + Originals(Kept(columns[1..]));
      } else {
        assert Kept(columns) == Kept(columns[1..]);
      }
    }
  }

  // The columns that were already there are first.
  ghost predicate KeptFirst(columns: seq<Edit>) {
    forall i, j | 0 <= i < j < |columns| :: columns[j].original.Some? ==> columns[i].original.Some?
  }

  lemma {:induction false} NoneKept(columns: seq<Edit>)
    requires AllAdded(columns)
    ensures Kept(columns) == [] && Added(columns) == columns
  {
    if columns != [] {
      NoneKept(columns[1..]);
    }
  }

  lemma {:induction false} KeptFirstSplits(columns: seq<Edit>)
    requires KeptFirst(columns)
    ensures columns == Kept(columns) + Added(columns)
  {
    if columns != [] {
      var first, more := [columns[0]], columns[1..];
      assert columns == first + more;
      if columns[0].original.None? {
        NoneKept(columns);
      } else {
        KeptFirstSplits(more);
        assert Kept(columns) == first + Kept(more) && Added(columns) == Added(more);
        hide Kept, Added, AllKept, AllAdded;
        Assoc(first, Kept(more), Added(more));
      }
    }
  }

  lemma SplitAt(kept: seq<Edit>, added: seq<Edit>, i: nat)
    requires AllKept(kept) && AllAdded(added) && i < |kept + added|
    ensures (kept + added)[i].original.Some? <==> i < |kept|
  {
  }

  lemma SplitKeptFirst(columns: seq<Edit>)
    requires columns == Kept(columns) + Added(columns)
    ensures KeptFirst(columns)
  {
    forall i, j | 0 <= i < j < |columns| && columns[j].original.Some? ensures columns[i].original.Some? {
      SplitAt(Kept(columns), Added(columns), i);
      SplitAt(Kept(columns), Added(columns), j);
    }
  }

  lemma {:induction false} OriginalsOfAdd(a: seq<Edit>, b: seq<Edit>)
    ensures OriginalsOf(a + b) == OriginalsOf(a) + OriginalsOf(b)
  {
    OriginalsOfNone();
    hide OriginalsOf;
    if a == [] {
      assert a + b == b && [] + OriginalsOf(b) == OriginalsOf(b);
    } else {
      var e, more := a[0], a[1..];
      OriginalsOfAdd(more, b);
      assert a == [e] + more;
      Assoc([e], more, b);
      OriginalsOfFirst(e, more);
      OriginalsOfFirst(e, more + b);
      if e.original.Some? {
        Assoc([e.original.value], OriginalsOf(more), OriginalsOf(b));
      }
    }
  }

  lemma OriginalsOfNone()
    ensures OriginalsOf([]) == []
  {
  }

  lemma OriginalsOfFirst(e: Edit, columns: seq<Edit>)
    ensures OriginalsOf([e] + columns) ==
            if e.original.Some? then [e.original.value] + OriginalsOf(columns) else OriginalsOf(columns)
  {
    assert ([e] + columns)[1..] == columns;
  }

  lemma {:induction false} OriginalsOfSame(a: seq<Edit>, b: seq<Edit>)
    requires |a| == |b| && forall i | 0 <= i < |a| :: a[i].original == b[i].original
    ensures OriginalsOf(a) == OriginalsOf(b)
  {
    if a != [] {
      assert forall i | 0 <= i < |a| - 1 :: a[1..][i].original == b[1..][i].original;
      OriginalsOfSame(a[1..], b[1..]);
    }
  }

  // What Editable says, without Kept.
  ghost predicate Edits(s: State, t: Table) {
    && IsTable(t) && s.key == Texts(t.key, s.reserved) && s.keyName == t.keyName
    && KeptFirst(s.columns) && OriginalsOf(s.columns) == Keep(t.columns, Gone(s.removed))
    && (forall c | c in s.removed :: c in t.columns) && Distinct(NamesOf(s.removed))
    && (forall i | 0 <= i < |s.columns| :: IsUnlocked(s.columns[i], t))
    && (forall i, j | 0 <= i < j < |s.columns| :: !(s.columns[i].identity && s.columns[j].identity))
  }

  lemma EditsIff(s: State, t: Table)
    ensures Edits(s, t) <==> Editable(s, t)
  {
    OriginalsOfKept(s.columns);
    if KeptFirst(s.columns) {
      KeptFirstSplits(s.columns);
    }
    if s.columns == Kept(s.columns) + Added(s.columns) {
      SplitKeptFirst(s.columns);
    }
    assert (forall i | 0 <= i < |s.columns| :: IsUnlocked(s.columns[i], t)) <==>
           forall e | e in s.columns :: IsUnlocked(e, t);
  }

  lemma OpenedColumn(t: Table, reserved: Reserved, i: nat)
    requires IsTable(t) && i < |t.columns|
    ensures var e := Opened(t, reserved).columns[i];
      e.original == Some(t.columns[i]) && e.identity == t.columns[i].identity && IsUnlocked(e, t)
  {
    assert t.columns[i] in t.columns;
  }

  lemma OpenedEdits(t: Table, reserved: Reserved)
    requires IsTable(t)
    ensures Edits(Opened(t, reserved), t)
  {
    var s := Opened(t, reserved);
    OpenedIdentity(t, reserved);
    hide Opened, IsUnlocked, OriginalsOf, Keep, Gone, IsTable;
    forall i | 0 <= i < |s.columns|
      ensures s.columns[i].original == Some(t.columns[i]) && s.columns[i].identity == t.columns[i].identity
        && IsUnlocked(s.columns[i], t)
    {
      OpenedColumn(t, reserved, i);
    }
    OpenedOriginals(t.columns, s.columns);
    GoneOfNone();
    KeepAll(t.columns, Gone([]));
  }

  lemma GoneOfNone()
    ensures Gone([]) == {}
  {
  }

  lemma OpenedIdentity(t: Table, reserved: Reserved)
    requires IsTable(t)
    ensures var s := Opened(t, reserved);
      && |s.columns| == |t.columns| && s.removed == [] && s.key == Texts(t.key, s.reserved) && s.keyName == t.keyName
      && forall i, j | 0 <= i < j < |s.columns| :: !(s.columns[i].identity && s.columns[j].identity)
  {
  }

  lemma {:induction false} OpenedOriginals(columns: seq<Column>, edits: seq<Edit>)
    requires |edits| == |columns| && forall i | 0 <= i < |edits| :: edits[i].original == Some(columns[i])
    ensures OriginalsOf(edits) == columns
  {
    if columns != [] {
      OpenedOriginals(columns[1..], edits[1..]);
    }
  }

  lemma AddKeeps(s: State, t: Table)
    requires Edits(s, t)
    ensures Edits(Step(s, Add), t)
  {
    OriginalsOfAdd(s.columns, [BLANK]);
    assert OriginalsOf([BLANK]) == [];
  }

  lemma IdentityKeeps(s: State, t: Table, i: nat)
    requires Edits(s, t) && i < |s.columns| && !Locked(s, s.columns[i], Identity)
    ensures Edits(s.(columns := WithIdentity(s.columns, i)), t)
  {
    var after := WithIdentity(s.columns, i);
    OriginalsOfSame(after, s.columns);
    forall j | 0 <= j < |after| ensures IsUnlocked(after[j], t) {
      assert s.columns[j] in s.columns && IsUnlocked(s.columns[j], t);
    }
  }

  lemma ChangeUnlocked(s: State, t: Table, e: Edit, a: Action)
    requires IsUnlocked(e, t) && !a.Add? && !a.Remove? && !Locked(s, e, FieldOf(a))
    ensures Change(e, a).original == e.original && IsUnlocked(Change(e, a), t)
    ensures Change(e, a).identity ==> e.identity || (a.SetIdentity? && a.checked)
  {
  }

  lemma SetKeeps(s: State, t: Table, a: Action)
    requires Edits(s, t) && !a.Add? && !a.Remove? && a.i < |s.columns| && !Locked(s, s.columns[a.i], FieldOf(a))
    requires !(a.SetIdentity? && a.checked)
    ensures Edits(s.(columns := s.columns[a.i := Change(s.columns[a.i], a)]), t)
  {
    var after := s.columns[a.i := Change(s.columns[a.i], a)];
    ChangeUnlocked(s, t, s.columns[a.i], a);
    OriginalsOfSame(after, s.columns);
    hide IsUnlocked, OriginalsOf, Locked, Change, IsTable, Distinct, Keep, FieldOf;
  }

  lemma {:induction false} WithoutIn(columns: seq<Column>, more: seq<Column>, name: string)
    requires forall c | c in columns :: c.name != name
    ensures Without(columns + more, name) == columns + Without(more, name)
  {
    if columns == [] {
      assert columns + more == more && columns + Without(more, name) == Without(more, name);
    } else {
      var first, rest := [columns[0]], columns[1..];
      assert columns == first + rest && columns[0] in columns;
      WithoutIn(rest, more, name);
      WithoutFirst(columns[0], rest + more, name);
      hide Without;
      Assoc(first, rest, more);
      Assoc(first, rest, Without(more, name));
    }
  }

  lemma NotBefore(x: seq<Column>, c: Column, y: seq<Column>)
    requires Distinct(NamesOf(x + ([c] + y)))
    ensures forall d | d in x :: d.name != c.name
  {
    var all := x + ([c] + y);
    forall d | d in x ensures d.name != c.name {
      var i :| 0 <= i < |x| && x[i] == d;
      NamesDiffer(all, i, |x|);
    }
  }

  lemma WithoutMiddle(x: seq<Column>, c: Column, y: seq<Column>)
    requires Distinct(NamesOf(x + ([c] + y)))
    ensures Without(x + ([c] + y), c.name) == x + y
  {
    NotBefore(x, c, y);
    hide Without, Distinct, NamesOf;
    WithoutIn(x, [c] + y, c.name);
    WithoutFirst(c, y, c.name);
  }

  lemma OriginalsWithoutOf(a: seq<Edit>, e: Edit, b: seq<Edit>)
    requires Distinct(NamesOf(OriginalsOf(a + ([e] + b))))
    ensures OriginalsOf(a + b) ==
            if e.original.None? then OriginalsOf(a + ([e] + b))
            else Without(OriginalsOf(a + ([e] + b)), e.original.value.name)
  {
    hide OriginalsOf, Without, Distinct, NamesOf;
    OriginalsOfAdd(a, [e] + b);
    OriginalsOfAdd(a, b);
    OriginalsOfFirst(e, b);
    if e.original.Some? {
      WithoutMiddle(OriginalsOf(a), e.original.value, OriginalsOf(b));
    }
  }

  // The original of the column is the only one with its name.
  lemma OriginalsWithout(columns: seq<Edit>, i: nat)
    requires i < |columns| && Distinct(NamesOf(OriginalsOf(columns)))
    ensures OriginalsOf(columns[..i] + columns[i + 1..]) ==
            if columns[i].original.None? then OriginalsOf(columns)
            else Without(OriginalsOf(columns), columns[i].original.value.name)
  {
    hide OriginalsOf, Without, Distinct, NamesOf;
    assert columns == columns[..i] + ([columns[i]] + columns[i + 1..]);
    OriginalsWithoutOf(columns[..i], columns[i], columns[i + 1..]);
  }

  lemma RemovedMore(removed: seq<Column>, c: Column)
    requires Distinct(NamesOf(removed)) && c.name !in Gone(removed)
    ensures Gone(removed + [c]) == Gone(removed) + {c.name} && Distinct(NamesOf(removed + [c]))
  {
    forall n | n in Gone(removed) + {c.name} ensures n in Gone(removed + [c]) {
      if n == c.name {
        assert c in removed + [c];
      } else {
        var d :| d in removed && d.name == n;
        assert d in removed + [c];
      }
    }
    forall i | 0 <= i < |removed| ensures NamesOf(removed)[i] != c.name {
      assert removed[i] in removed;
    }
    AddedDistinct(removed, c);
  }

  lemma OriginalIn(columns: seq<Edit>, i: nat)
    requires i < |columns| && columns[i].original.Some?
    ensures columns[i].original.value in OriginalsOf(columns)
  {
    var a, b := columns[..i], columns[i..];
    assert columns == a + b;
    OriginalsOfAdd(a, b);
    assert OriginalsOf(b)[0] == columns[i].original.value;
  }

  lemma RemoveKeeps(s: State, t: Table, i: nat)
    requires Edits(s, t) && i < |s.columns|
    ensures Edits(Step(s, Remove(i)), t)
  {
    RemoveOrder(s, t, i);
    RemoveGone(s, t, i);
    hide OriginalsOf, Keep, Gone, IsTable, IsUnlocked, KeptFirst, Distinct, NamesOf;
  }

  lemma RemoveGone(s: State, t: Table, i: nat)
    requires Edits(s, t) && i < |s.columns|
    ensures var after := Step(s, Remove(i));
      && OriginalsOf(after.columns) == Keep(t.columns, Gone(after.removed))
      && (forall c | c in after.removed :: c in t.columns) && Distinct(NamesOf(after.removed))
  {
    KeepDistinct(t.columns, Gone(s.removed));
    OriginalsWithout(s.columns, i);
    if s.columns[i].original.Some? {
      var c := s.columns[i].original.value;
      OriginalIn(s.columns, i);
      KeepNames(t.columns, Gone(s.removed));
      hide OriginalsOf, Keep, Gone, IsUnlocked, KeptFirst, Distinct, NamesOf, Without;
      KeepRemove(t.columns, Gone(s.removed), c.name);
      RemovedMore(s.removed, c);
    }
  }

  lemma RemoveOrder(s: State, t: Table, i: nat)
    requires Edits(s, t) && i < |s.columns|
    ensures var after := s.columns[..i] + s.columns[i + 1..];
      && KeptFirst(after) && (forall k | 0 <= k < |after| :: IsUnlocked(after[k], t))
      && (forall j, k | 0 <= j < k < |after| :: !(after[j].identity && after[k].identity))
  {
    var after := s.columns[..i] + s.columns[i + 1..];
    assert forall k | 0 <= k < |after| :: after[k] == s.columns[if k < i then k else k + 1];
  }

  lemma StepKeeps(s: State, t: Table, a: Action)
    requires Edits(s, t)
    ensures Edits(Step(s, a), t)
  {
    if a.Add? {
      AddKeeps(s, t);
    } else if a.Remove? {
      if a.i < |s.columns| {
        RemoveKeeps(s, t, a.i);
      }
    } else if a.i < |s.columns| && !Locked(s, s.columns[a.i], FieldOf(a)) {
      if a.SetIdentity? && a.checked {
        IdentityKeeps(s, t, a.i);
      } else {
        SetKeeps(s, t, a);
      }
    }
  }

  lemma {:induction false} AfterEdits(s: State, t: Table, actions: seq<Action>)
    requires Edits(s, t)
    ensures Edits(After(s, actions), t)
    decreases |actions|
  {
    if actions != [] {
      StepKeeps(s, t, actions[0]);
      AfterEdits(Step(s, actions[0]), t, actions[1..]);
    }
  }

  // Whatever is edited, the script is valid at every step and makes the table that was edited,
  // exactly when that can be made.
  lemma EditedScriptWorksIff(t: Table, reserved: Reserved, actions: seq<Action>)
    requires IsTable(t)
    ensures var s := After(Opened(t, reserved), actions); Works(s, t) <==> CanWork(s, t)
  {
    OpenedEdits(t, reserved);
    AfterEdits(Opened(t, reserved), t, actions);
    EditsIff(After(Opened(t, reserved), actions), t);
    ScriptWorksIff(After(Opened(t, reserved), actions), t);
  }

  // Nothing has been edited.
  ghost predicate IsUnchanged(s: State, t: Table) {
    && |s.columns| == |t.columns|
    && forall i | 0 <= i < |s.columns| ::
         var c, e := t.columns[i], s.columns[i];
         e.original == Some(c) && e.notNull == c.notNull && e.def == c.def && (e.primaryKey <==> c.name in t.key)
  }

  // The names in the PRIMARY KEY, in the order of the columns.
  function KeyInOrder(columns: seq<Column>, key: seq<string>): seq<string> {
    if columns == [] then []
    else (if columns[0].name in key then [columns[0].name] else []) + KeyInOrder(columns[1..], key)
  }

  lemma {:induction false} NoDropNotNulls(columns: seq<Edit>)
    ensures DropNotNulls(columns) == [] <==> forall i | 0 <= i < |columns| :: !IsCleared(columns[i])
  {
    if columns != [] {
      NoDropNotNulls(columns[1..]);
      assert (forall i | 0 <= i < |columns| :: !IsCleared(columns[i])) <==>
             !IsCleared(columns[0]) && forall i | 0 <= i < |columns| - 1 :: !IsCleared(columns[1..][i]) by {
        assert forall i | 0 < i < |columns| :: columns[i] == columns[1..][i - 1];
      }
    }
  }

  lemma {:induction false} NoSetDefaults(columns: seq<Edit>)
    ensures SetDefaults(columns) == [] <==> forall i | 0 <= i < |columns| :: KeepsDefault(columns[i])
  {
    if columns != [] {
      NoSetDefaults(columns[1..]);
      assert (forall i | 0 <= i < |columns| :: KeepsDefault(columns[i])) <==>
             KeepsDefault(columns[0]) && forall i | 0 <= i < |columns| - 1 :: KeepsDefault(columns[1..][i]) by {
        assert forall i | 0 < i < |columns| :: columns[i] == columns[1..][i - 1];
      }
    }
  }

  lemma {:induction false} NoAddColumns(columns: seq<Edit>)
    ensures AddColumns(columns) == [] <==> AllKept(columns)
    ensures AllKept(columns) ==> Kept(columns) == columns
  {
    if columns != [] {
      NoAddColumns(columns[1..]);
      assert AllKept(columns) <==> columns[0].original.Some? && AllKept(columns[1..]) by {
        assert forall i | 0 < i < |columns| :: columns[i] == columns[1..][i - 1];
      }
    }
  }

  lemma {:induction false} KeyTextsOfOriginals(columns: seq<Column>, edits: seq<Edit>, key: seq<string>,
    reserved: Reserved)
    requires |edits| == |columns|
    requires forall i | 0 <= i < |edits| ::
      && edits[i].original == Some(columns[i])
      && (edits[i].primaryKey <==> columns[i].name in key)
    ensures KeyTexts(edits, reserved) == Texts(KeyInOrder(columns, key), reserved)
  {
    if columns != [] {
      KeyTextsOfOriginals(columns[1..], edits[1..], key, reserved);
      var rest := KeyInOrder(columns[1..], key);
      assert Texts([columns[0].name] + rest, reserved) == [Names.Requote(columns[0].name, reserved.engine)]
        + Texts(rest, reserved);
      assert [] + rest == rest && [] + Texts(rest, reserved) == Texts(rest, reserved);
    }
  }

  lemma {:induction false} KeyOfOriginals(columns: seq<Column>, edits: seq<Edit>, key: seq<string>)
    requires |edits| == |columns|
    requires forall i | 0 <= i < |edits| ::
      && edits[i].original == Some(columns[i])
      && (edits[i].primaryKey <==> columns[i].name in key)
    ensures KeyOf(edits) == KeyInOrder(columns, key)
  {
    if columns != [] {
      KeyOfOriginals(columns[1..], edits[1..], key);
    }
  }

  // As many changes are printed as there are.
  lemma {:induction false} TextsSize(columns: seq<Edit>, reserved: Reserved)
    ensures |DefaultTexts(columns, reserved)| == |SetDefaults(columns)|
    ensures |AddTexts(columns, reserved)| == |AddColumns(columns)|
  {
    if columns != [] {
      TextsSize(columns[1..], reserved);
    }
  }

  lemma ScriptSize(s: State)
    ensures |ScriptText(s)| == |Script(s)|
  {
    TextsSize(s.columns, s.reserved);
    KeySize(s.columns, s.reserved);
    assert |ColumnTexts(s.removed, s.reserved)| == |DropColumns(s.removed)|;
    assert |AddKeyTexts(s)| == |AddKeys(s)|;
    hide DropKeys, DropNotNulls, ColumnTexts, DefaultTexts, AddTexts, AddKeyTexts, DropColumns, SetDefaults,
      AddColumns, AddKeys;
  }

  lemma KeepLength(columns: seq<Column>, gone: set<string>)
    ensures |Keep(columns, gone)| <= |columns|
    ensures |Keep(columns, gone)| == |columns| ==> forall c | c in columns :: c.name !in gone
  {
    if columns != [] {
      assert columns == [columns[0]] + columns[1..];
      KeepLength(columns[1..], gone);
    }
  }

  lemma GoneNone(removed: seq<Column>)
    requires Gone(removed) == {}
    ensures removed == []
  {
    if removed != [] {
      GoneFirst(removed);
    }
  }

  // The script has no changes if nothing has been edited.
  lemma UnchangedScript(s: State, t: Table)
    requires Editable(s, t) && t.key == KeyInOrder(t.columns, t.key) && IsUnchanged(s, t)
    ensures Script(s) == [] && KeyShows(s, t)
  {
    NoDropNotNulls(s.columns);
    NoSetDefaults(s.columns);
    NoAddColumns(s.columns);
    KeyTextsOfOriginals(t.columns, s.columns, t.key, s.reserved);
    KeyOfOriginals(t.columns, s.columns, t.key);
    KeepLength(t.columns, Gone(s.removed));
    assert Gone(s.removed) == {};
    GoneNone(s.removed);
  }

  // Nothing has been edited if the script has no changes.
  lemma EmptyScript(s: State, t: Table)
    requires Editable(s, t) && Script(s) == [] && KeyShows(s, t)
    ensures IsUnchanged(s, t)
  {
    NoDropNotNulls(s.columns);
    NoSetDefaults(s.columns);
    NoAddColumns(s.columns);
    assert |DropColumns(s.removed)| == |s.removed|;
    assert s.removed == [];
    KeepAll(t.columns, Gone(s.removed));
    SameKey(s, t);
    forall i | 0 <= i < |s.columns| ensures s.columns[i].original == Some(t.columns[i]) && IsUnlocked(s.columns[i], t) {
      assert Originals(s.columns)[i] == t.columns[i] && s.columns[i] in s.columns;
    }
  }

  lemma SameKey(s: State, t: Table)
    requires Editable(s, t) && AllKept(s.columns) && Kept(s.columns) == s.columns && DropKeys(s) == []
      && AddKeys(s) == [] && KeyShows(s, t)
    ensures forall i | 0 <= i < |s.columns| :: s.columns[i].primaryKey <==> s.columns[i].Id() in t.key
  {
    OriginalNames(s, t);
    assert CanAdd(s);
    assert Join([]) == "";
    KeySize(s.columns, s.reserved);
    assert !KeyChanged(s);
    forall i | 0 <= i < |s.columns| ensures s.columns[i].primaryKey <==> s.columns[i].Id() in t.key {
      InKeyIff(s, s.columns[i]);
    }
  }

  // The script has no changes, and no other PRIMARY KEY that looks the same, exactly when nothing
  // has been edited, for a PRIMARY KEY that's in the order of the columns. (Otherwise, the script
  // puts it in that order.)
  lemma ScriptEmptyIff(t: Table, reserved: Reserved, actions: seq<Action>)
    requires IsTable(t) && t.key == KeyInOrder(t.columns, t.key)
    ensures var s := After(Opened(t, reserved), actions); ScriptText(s) == [] && KeyShows(s, t) <==> IsUnchanged(s, t)
  {
    var s := After(Opened(t, reserved), actions);
    OpenedEdits(t, reserved);
    AfterEdits(Opened(t, reserved), t, actions);
    EditsIff(s, t);
    ScriptSize(s);
    hide After, Opened, Edits, Script, ScriptText, Editable, KeyShows;
    if IsUnchanged(s, t) {
      UnchangedScript(s, t);
    }
    if Script(s) == [] && KeyShows(s, t) {
      EmptyScript(s, t);
    }
  }

  // A table whose only column is its PRIMARY KEY.
  const ID := Column("ID", "INTEGER", true, "NOT_NULL_1", false, false, "")
  const NO_WORDS := Reserved({}, {})
  const KEYED := Table([ID], ["ID"], "KEY_1")
  const NULLABLE := Edit(Some(ID), "ID", "ID", "INTEGER", false, true, false, "")

  lemma KeyedIsTable()
    ensures IsTable(KEYED)
  {
    assert NamesOf([ID]) == ["ID"];
  }

  lemma KeyedAfter()
    ensures After(Opened(KEYED, NO_WORDS), [SetNotNull(0, false)]) ==
            State([NULLABLE], [], Texts(["ID"], NO_WORDS), "KEY_1", NO_WORDS)
  {
    var s := Opened(KEYED, NO_WORDS);
    assert s.columns[0] == NULLABLE.(notNull := true);
    assert Step(s, SetNotNull(0, false)).columns == [NULLABLE];
  }

  // The NOT NULL of a column of the PRIMARY KEY isn't locked, but it can't be removed.
  lemma NotNullOfKeyFails()
    ensures var s := After(Opened(KEYED, NO_WORDS), [SetNotNull(0, false)]); Editable(s, KEYED) && !Works(s, KEYED)
  {
    var actions := [SetNotNull(0, false)];
    var s := After(Opened(KEYED, NO_WORDS), actions);
    KeyedIsTable();
    KeyedAfter();
    KeyedKey();
    hide After, Step, IsTable, Editable, Edits, Works, Opened, KeyTexts, Texts, Join;
    OpenedEdits(KEYED, NO_WORDS);
    AfterEdits(Opened(KEYED, NO_WORDS), KEYED, actions);
    EditsIff(s, KEYED);
    ScriptWorksIff(s, KEYED);
    assert NULLABLE in s.columns && IsCleared(NULLABLE);
  }

  lemma KeyedKey()
    ensures KeyTexts([NULLABLE], NO_WORDS) == Texts(["ID"], NO_WORDS)
  {
    assert [NULLABLE][1..] == [];
    hide Names.Print;
  }

  // A new column whose name is entered in quotes can be a column that the table already has.
  lemma SameIdentifierFails()
    ensures var s := After(Opened(KEYED, NO_WORDS), [Add, SetName(1, "\"ID\"", "\"ID\"")]);
      Editable(s, KEYED) && !Works(s, KEYED)
  {
    var actions := [Add, SetName(1, "\"ID\"", "\"ID\"")];
    var s := After(Opened(KEYED, NO_WORDS), actions);
    KeyedIsTable();
    QuotedId();
    hide IsTable, Editable, Edits, Works, Names.EnteredName;
    var added := Step(Opened(KEYED, NO_WORDS), Add);
    assert actions[1..] == [SetName(1, "\"ID\"", "\"ID\"")];
    assert s == Step(added, actions[1]);
    OpenedEdits(KEYED, NO_WORDS);
    AfterEdits(Opened(KEYED, NO_WORDS), KEYED, actions);
    EditsIff(s, KEYED);
    ScriptWorksIff(s, KEYED);
    assert Ids(s.columns)[0] == "ID" && Ids(s.columns)[1] == "ID";
  }

  lemma QuotedId()
    ensures Names.EnteredName("\"ID\"", "\"ID\"") == "ID"
  {
    var text := "\"ID\"";
    assert Names.Double("ID") == "ID" by {
      assert "ID"[1..] == "D" && "D"[1..] == "";
    }
    assert text == "\"" + Names.Double("ID") + "\"";
    Names.Trimmed(text);
    Names.ParseNameIff(text, "ID");
  }

  const DOLLAR := Column("$A", "INTEGER", false, "", false, false, "")
  const WITH_DOLLAR := Table([ID, DOLLAR], ["ID"], "KEY_1")

  lemma WithDollarIsTable()
    ensures IsTable(WITH_DOLLAR)
  {
    assert NamesOf([ID, DOLLAR]) == ["ID", "$A"];
  }

  // A column whose name starts with a dollar sign can't be removed, because the engine prints its
  // name without quotes.
  lemma DollarFails()
    ensures var s := After(Opened(WITH_DOLLAR, NO_WORDS), [Remove(1)]);
      Editable(s, WITH_DOLLAR) && !Works(s, WITH_DOLLAR)
  {
    var actions := [Remove(1)];
    var s := After(Opened(WITH_DOLLAR, NO_WORDS), actions);
    WithDollarIsTable();
    assert s == Step(Opened(WITH_DOLLAR, NO_WORDS), Remove(1));
    assert DOLLAR in s.removed;
    hide IsTable, Editable, Edits, Works, After, Step, Opened;
    OpenedEdits(WITH_DOLLAR, NO_WORDS);
    AfterEdits(Opened(WITH_DOLLAR, NO_WORDS), WITH_DOLLAR, actions);
    EditsIff(s, WITH_DOLLAR);
    ScriptWorksIff(s, WITH_DOLLAR);
  }
}
