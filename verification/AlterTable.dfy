/**
 The ALTER TABLE statements for a table that was edited, and what they do to it.

 A name of the table is an identifier, and a statement has its text (see Names). Both are sequences
 of characters, as the engine reads them. A table has columns, a PRIMARY KEY and NOT NULLs. Its
 rows, its other constraints, and whether the text of a type or default is valid, aren't modelled.
 */
module AlterTable {
  import opened Wrappers
  import Names

  // notNullName is the text of the name of its NOT NULL, or empty if that can't be dropped.
  datatype Column = Column(name: string, typ: string, notNull: bool, notNullName: string, identity: bool,
                           generated: bool, def: string)

  datatype Table = Table(columns: seq<Column>, key: seq<string>, keyName: string)

  // The text of a name: a regular identifier, or one in quotes.
  predicate IsName(s: string) {
    Names.IsRegular(s) || (|s| > 2 && s[0] == '"' && s[|s| - 1] == '"' && Names.Undouble(s[1..|s| - 1]).Some?)
  }

  // The engine allows up to 128 characters.
  predicate IsIdentifier(id: string) {
    1 <= |id| <= Names.MAX
  }

  function NamesOf(columns: seq<Column>): seq<string> {
    seq(|columns|, i requires 0 <= i < |columns| => columns[i].name)
  }

  predicate Distinct(names: seq<string>) {
    forall i, j | 0 <= i < j < |names| :: names[i] != names[j]
  }

  // The constraints of a table have different names, and only a NOT NULL or PRIMARY KEY has one.
  ghost predicate IsTable(t: Table) {
    && t.columns != [] && Distinct(NamesOf(t.columns))
    && (forall c | c in t.columns ::
        && IsIdentifier(c.name)
        && (c.notNullName != "" ==> c.notNull && c.notNullName != t.keyName))
    && (forall i, j | 0 <= i < j < |t.columns|
      && t.columns[i].notNullName != "" :: t.columns[i].notNullName != t.columns[j].notNullName)
    && (forall i, j | 0 <= i < j < |t.columns| :: !(t.columns[i].identity && t.columns[j].identity))
    && (t.key == [] <==> t.keyName == "")
    && (forall c | c in t.columns && (c.identity || c.name in t.key) :: c.notNull)
    && forall k | k in t.key :: k in NamesOf(t.columns)
  }

  datatype Change =
    | DropConstraint(name: string)
    | DropColumn(name: string)
    | SetDefault(name: string, def: string)
    | DropDefault(name: string)
    | AddColumn(column: Column)
    | AddKey(key: seq<string>)

  // The place of the column with the name, or the length.
  function IndexOf(columns: seq<Column>, name: string): (k: nat)
    ensures k <= |columns| && (k < |columns| ==> columns[k].name == name)
    ensures forall i | 0 <= i < k :: columns[i].name != name
  {
    if columns == [] || columns[0].name == name then 0 else 1 + IndexOf(columns[1..], name)
  }

  function NotNullIndexOf(columns: seq<Column>, name: string): (k: nat)
    ensures k <= |columns| && (k < |columns| ==> columns[k].notNullName == name)
    ensures forall i | 0 <= i < k :: columns[i].notNullName != name
  {
    if columns == [] || columns[0].notNullName == name then 0 else 1 + NotNullIndexOf(columns[1..], name)
  }

  // What one ALTER TABLE does, if it's valid. Its names are identifiers.
  function Apply(t: Table, change: Change): Option<Table> {
    match change
    case DropConstraint(name) =>
      if name == "" then None
      else if name == t.keyName then Some(t.(key := [], keyName := ""))
      else
        var i := NotNullIndexOf(t.columns, name);
        if i == |t.columns| || t.columns[i].name in t.key || t.columns[i].identity then None
        else Some(t.(columns := t.columns[i := t.columns[i].(notNull := false, notNullName := "")]))
    case DropColumn(name) =>
      // A PRIMARY KEY of only the column is dropped with it.
      var i := IndexOf(t.columns, name);
      if i == |t.columns| || |t.columns| == 1 || (name in t.key && |t.key| > 1) then None
      else
        var columns := t.columns[..i] + t.columns[i + 1..];
        Some(if name in t.key then Table(columns, [], "") else t.(columns := columns))
    case SetDefault(name, def) =>
      var i := IndexOf(t.columns, name);
      if i == |t.columns| || t.columns[i].identity || t.columns[i].generated then None
      else Some(t.(columns := t.columns[i := t.columns[i].(def := def)]))
    case DropDefault(name) =>
      var i := IndexOf(t.columns, name);
      if i == |t.columns| || t.columns[i].identity || t.columns[i].def == "" then None
      else Some(t.(columns := t.columns[i := t.columns[i].(def := "")]))
    case AddColumn(c) =>
      if !IsIdentifier(c.name) || c.name in NamesOf(t.columns)
         || (c.identity && exists d | d in t.columns :: d.identity)
      then None
      else Some(t.(columns := t.columns + [c.(notNull := c.notNull || c.identity, notNullName := "")]))
    case AddKey(key) =>
      if t.key != [] || key == [] || !Distinct(key) || (exists k | k in key :: k !in NamesOf(t.columns)) then None
      else Some(t.(key := key, keyName := "", columns := WithKey(t.columns, key)))
  }

  // The columns of a PRIMARY KEY become NOT NULL.
  function WithKey(columns: seq<Column>, key: seq<string>): seq<Column> {
    seq(|columns|, i requires 0 <= i < |columns| =>
      columns[i].(notNull := columns[i].notNull || columns[i].name in key))
  }

  function Run(t: Table, changes: seq<Change>): Option<Table>
    decreases |changes|
  {
    if changes == [] then Some(t)
    else
      var next := Apply(t, changes[0]);
      if next.None? then None else Run(next.value, changes[1..])
  }

  // The words that are in quotes if they're a name: for the engine and for the application.
  datatype Reserved = Reserved(engine: set<string>, page: set<string>)

  // A column as it's edited. A new column has no original, and upper is the upper case form of the
  // name that was entered, as the browser makes it.
  datatype Edit = Edit(original: Option<Column>, name: string, upper: string, typ: string, notNull: bool,
                       primaryKey: bool, identity: bool, def: string)
  {
    // The identifier that its name is, or an empty string if it isn't one.
    function Id(): string {
      if original.Some? then original.value.name else Names.EnteredName(name, upper)
    }

    // The engine can read the text of its name.
    predicate IsReadable() {
      original.Some? ==> !Names.IsInternal(original.value.name)
    }

    // The text of its name.
    function SqlName(reserved: Reserved): string {
      if original.Some? then Names.Requote(original.value.name, reserved.engine)
      else Names.ToName(name, upper, reserved.page)
    }
  }

  // Its NOT NULL is removed.
  predicate IsCleared(e: Edit) {
    e.original.Some? && e.original.value.notNull && !e.notNull
  }

  predicate KeepsDefault(e: Edit) {
    e.original.None? || e.def == e.original.value.def
  }

  // The key has the texts of the names of the PRIMARY KEY.
  datatype State = State(columns: seq<Edit>, removed: seq<Column>, key: seq<string>, keyName: string,
                         reserved: Reserved)
  {
    predicate HasIdentity() {
      exists e | e in columns :: e.original.Some? && e.original.value.identity
    }
  }

  datatype Field = NotNull | PrimaryKey | Identity | Default | Name | Type

  // Whether a change of the field is refused.
  predicate Locked(s: State, e: Edit, field: Field) {
    match e.original
    case None => (field.Identity? && s.HasIdentity()) || (field.Default? && e.identity)
    case Some(c) =>
      match field
      case NotNull => !c.notNull || c.notNullName == ""
      case PrimaryKey => false
      case Default => c.identity || c.generated
      case _ => true
  }

  function Texts(names: seq<string>, reserved: Reserved): seq<string> {
    seq(|names|, i requires 0 <= i < |names| => Names.Requote(names[i], reserved.engine))
  }

  function KeyOf(columns: seq<Edit>): seq<string> {
    if columns == [] then []
    else (if columns[0].primaryKey then [columns[0].Id()] else []) + KeyOf(columns[1..])
  }

  function KeyTexts(columns: seq<Edit>, reserved: Reserved): seq<string> {
    if columns == [] then []
    else (if columns[0].primaryKey then [columns[0].SqlName(reserved)] else []) + KeyTexts(columns[1..], reserved)
  }

  function Join(names: seq<string>): string {
    if names == [] then "" else if |names| == 1 then names[0] else names[0] + "," + Join(names[1..])
  }

  predicate KeyChanged(s: State) {
    Join(KeyTexts(s.columns, s.reserved)) != Join(s.key)
  }

  function DropKeys(s: State): seq<Change> {
    if KeyChanged(s) && s.keyName != "" then [DropConstraint(s.keyName)] else []
  }

  function DropNotNulls(columns: seq<Edit>): seq<Change> {
    if columns == [] then []
    else
      var e := columns[0];
      (if e.original.Some? && e.original.value.notNull && !e.notNull
       then [DropConstraint(e.original.value.notNullName)] else [])
      + DropNotNulls(columns[1..])
  }

  function DropColumns(removed: seq<Column>): seq<Change> {
    seq(|removed|, i requires 0 <= i < |removed| => DropColumn(removed[i].name))
  }

  function DefaultChange(e: Edit, name: string): Change {
    if e.def == "" then DropDefault(name) else SetDefault(name, e.def)
  }

  function SetDefaults(columns: seq<Edit>): seq<Change> {
    if columns == [] then []
    else
      var e := columns[0];
      (if e.original.None? || e.def == e.original.value.def then []
       else [DefaultChange(e, e.Id())])
      + SetDefaults(columns[1..])
  }

  // An identity column has no default.
  function NewColumn(e: Edit): Column {
    Column(e.Id(), e.typ, e.notNull, "", e.identity, false, if e.identity then "" else e.def)
  }

  function AddColumns(columns: seq<Edit>): seq<Change> {
    if columns == [] then []
    else (if columns[0].original.None? then [AddColumn(NewColumn(columns[0]))] else []) + AddColumns(columns[1..])
  }

  function AddKeys(s: State): seq<Change> {
    if KeyChanged(s) && KeyOf(s.columns) != [] then [AddKey(KeyOf(s.columns))] else []
  }

  // What the script means: its changes, with identifiers.
  function Script(s: State): seq<Change> {
    DropKeys(s) + (DropNotNulls(s.columns) + (DropColumns(s.removed)
      + (SetDefaults(s.columns) + (AddColumns(s.columns) + AddKeys(s)))))
  }

  function ColumnTexts(removed: seq<Column>, reserved: Reserved): seq<Change> {
    seq(|removed|, i requires 0 <= i < |removed| => DropColumn(Names.Requote(removed[i].name, reserved.engine)))
  }

  function DefaultTexts(columns: seq<Edit>, reserved: Reserved): seq<Change> {
    if columns == [] then []
    else
      var e := columns[0];
      (if e.original.None? || e.def == e.original.value.def then []
       else [DefaultChange(e, e.SqlName(reserved))])
      + DefaultTexts(columns[1..], reserved)
  }

  function AddTexts(columns: seq<Edit>, reserved: Reserved): seq<Change> {
    if columns == [] then []
    else
      var e := columns[0];
      (if e.original.None? then [AddColumn(NewColumn(e).(name := e.SqlName(reserved)))] else [])
        + AddTexts(columns[1..], reserved)
  }

  function AddKeyTexts(s: State): seq<Change> {
    var key := KeyTexts(s.columns, s.reserved);
    if KeyChanged(s) && key != [] then [AddKey(key)] else []
  }

  // The script, with the texts of the names.
  function ScriptText(s: State): seq<Change> {
    DropKeys(s) + (DropNotNulls(s.columns) + (ColumnTexts(s.removed, s.reserved)
      + (DefaultTexts(s.columns, s.reserved) + (AddTexts(s.columns, s.reserved) + AddKeyTexts(s)))))
  }

  function Identifiers(names: seq<string>): seq<string> {
    seq(|names|, i requires 0 <= i < |names| => Names.ParseName(names[i]))
  }

  // What a statement means, which has the identifiers that the texts are. (The text of the name of a
  // constraint is the one that the engine printed.)
  function Meaning(change: Change): Change {
    match change
    case DropConstraint(name) => DropConstraint(if Names.IsInternal(name) then "" else name)
    case DropColumn(name) => DropColumn(Names.ParseName(name))
    case SetDefault(name, def) => SetDefault(Names.ParseName(name), def)
    case DropDefault(name) => DropDefault(Names.ParseName(name))
    case AddColumn(c) => AddColumn(c.(name := Names.ParseName(c.name)))
    case AddKey(key) => AddKey(Identifiers(key))
  }

  // The statements are executed in their order.
  function Execute(t: Table, changes: seq<Change>): Option<Table>
    decreases |changes|
  {
    if changes == [] then Some(t)
    else
      var next := Apply(t, Meaning(changes[0]));
      if next.None? then None else Execute(next.value, changes[1..])
  }

  function Meanings(changes: seq<Change>): seq<Change> {
    seq(|changes|, i requires 0 <= i < |changes| => Meaning(changes[i]))
  }

  lemma {:induction false} ExecuteMeanings(t: Table, changes: seq<Change>)
    ensures Execute(t, changes) == Run(t, Meanings(changes))
    decreases |changes|
  {
    if changes != [] {
      assert Meanings(changes)[1..] == Meanings(changes[1..]);
      var next := Apply(t, Meaning(changes[0]));
      if next.Some? {
        ExecuteMeanings(next.value, changes[1..]);
      }
    }
  }

  lemma MeaningsAdd(a: seq<Change>, b: seq<Change>)
    ensures Meanings(a + b) == Meanings(a) + Meanings(b)
  {
  }

  // The names of columns that were already there are identifiers.
  ghost predicate AreNamed(columns: seq<Edit>) {
    forall e | e in columns && e.original.Some? :: IsIdentifier(e.original.value.name)
  }

  // The engine can read the name of every column and constraint that the script has.
  predicate CanRead(s: State) {
    && (KeyChanged(s) ==> !Names.IsInternal(s.keyName) && KeyReadable(s.columns))
    && NotNullsReadable(s.columns)
    && DefaultsReadable(s.columns)
    && forall c | c in s.removed :: !Names.IsInternal(c.name)
  }

  predicate KeyReadable(columns: seq<Edit>) {
    forall e | e in columns && e.primaryKey :: e.IsReadable()
  }

  predicate NotNullsReadable(columns: seq<Edit>) {
    forall e | e in columns && IsCleared(e) :: !Names.IsInternal(e.original.value.notNullName)
  }

  predicate DefaultsReadable(columns: seq<Edit>) {
    forall e | e in columns && !KeepsDefault(e) :: e.IsReadable()
  }

  lemma SqlNameIs(e: Edit, reserved: Reserved)
    requires e.original.Some? ==> IsIdentifier(e.original.value.name) && e.IsReadable()
    ensures Names.ParseName(e.SqlName(reserved)) == e.Id()
  {
    if e.original.Some? {
      Names.RequoteIs(e.original.value.name, reserved.engine);
    } else {
      Names.EnteredNameIs(e.name, e.upper, reserved.page);
    }
  }

  lemma PrintIsName(id: string, reserved: set<string>)
    requires IsIdentifier(id)
    ensures IsName(Names.Print(id, reserved))
  {
    var printed := Names.Print(id, reserved);
    if !(Names.IsRegular(id) && id == Names.Upper(id) && id !in reserved) {
      Names.UndoubleDouble(id);
      assert printed[1..|printed| - 1] == Names.Double(id);
      Names.DoubleLength(id);
    }
  }

  lemma SqlNameIsName(e: Edit, reserved: Reserved)
    requires IsIdentifier(e.Id()) && e.IsReadable()
    ensures IsName(e.SqlName(reserved))
  {
    if e.original.Some? {
      PrintIsName(e.original.value.name, reserved.engine);
    } else if Names.IsQuoted(e.name) {
      Names.Trimmed(e.name);
    } else {
      PrintIsName(e.upper, reserved.page);
    }
  }

  lemma TextsAre(names: seq<string>, reserved: Reserved)
    requires forall n | n in names :: IsIdentifier(n) && !Names.IsInternal(n)
    ensures Identifiers(Texts(names, reserved)) == names && forall x | x in Texts(names, reserved) :: IsName(x)
  {
    forall i | 0 <= i < |names|
      ensures Names.ParseName(Texts(names, reserved)[i]) == names[i] && IsName(Texts(names, reserved)[i])
    {
      assert names[i] in names;
      Names.RequoteIs(names[i], reserved.engine);
      PrintIsName(names[i], reserved.engine);
    }
  }

  lemma {:induction false} KeyTextsAre(columns: seq<Edit>, reserved: Reserved)
    requires AreNamed(columns) && KeyReadable(columns)
    ensures Identifiers(KeyTexts(columns, reserved)) == KeyOf(columns)
  {
    if columns != [] {
      var e, more := columns[0], columns[1..];
      assert e in columns && forall f | f in more :: f in columns;
      if e.primaryKey {
        SqlNameIs(e, reserved);
      }
      KeyTextsAre(more, reserved);
      var rest := KeyTexts(more, reserved);
      assert Identifiers([e.SqlName(reserved)] + rest) == [Names.ParseName(e.SqlName(reserved))] + Identifiers(rest);
      assert [] + rest == rest && [] + KeyOf(more) == KeyOf(more);
    }
  }

  lemma {:induction false} ColumnTextsMean(removed: seq<Column>, reserved: Reserved)
    requires forall c | c in removed :: IsIdentifier(c.name) && !Names.IsInternal(c.name)
    ensures Meanings(ColumnTexts(removed, reserved)) == DropColumns(removed)
  {
    forall i | 0 <= i < |removed| ensures Meaning(ColumnTexts(removed, reserved)[i]) == DropColumn(removed[i].name) {
      assert removed[i] in removed;
      Names.RequoteIs(removed[i].name, reserved.engine);
    }
  }

  lemma {:induction false} DefaultTextsMean(columns: seq<Edit>, reserved: Reserved)
    requires AreNamed(columns) && DefaultsReadable(columns)
    ensures Meanings(DefaultTexts(columns, reserved)) == SetDefaults(columns)
  {
    hide Names.ParseName, Edit.SqlName, Edit.Id;
    if columns != [] {
      var e, more := columns[0], columns[1..];
      assert e in columns && forall f | f in more :: f in columns;
      if !KeepsDefault(e) {
        SqlNameIs(e, reserved);
      }
      DefaultTextsMean(more, reserved);
      MeaningsAdd([DefaultChange(e, e.SqlName(reserved))], DefaultTexts(more, reserved));
      MeaningsAdd([], DefaultTexts(more, reserved));
    }
  }

  lemma {:induction false} AddTextsMean(columns: seq<Edit>, reserved: Reserved)
    ensures Meanings(AddTexts(columns, reserved)) == AddColumns(columns)
  {
    hide Names.ParseName, Edit.SqlName, Edit.Id;
    if columns != [] {
      var e, more := columns[0], columns[1..];
      if e.original.None? {
        SqlNameIs(e, reserved);
      }
      AddTextsMean(more, reserved);
      MeaningsAdd([AddColumn(NewColumn(e).(name := e.SqlName(reserved)))], AddTexts(more, reserved));
      MeaningsAdd([], AddTexts(more, reserved));
    }
  }

  lemma {:induction false} NotNullsMean(columns: seq<Edit>)
    requires NotNullsReadable(columns)
    ensures Meanings(DropNotNulls(columns)) == DropNotNulls(columns)
  {
    if columns != [] {
      var e, more := columns[0], columns[1..];
      assert e in columns && forall f | f in more :: f in columns;
      NotNullsMean(more);
      if IsCleared(e) {
        MeaningsAdd([DropConstraint(e.original.value.notNullName)], DropNotNulls(more));
      }
      MeaningsAdd([], DropNotNulls(more));
    }
  }

  lemma AddKeyTextsMean(s: State)
    requires AreNamed(s.columns) && (KeyChanged(s) ==> KeyReadable(s.columns))
    ensures Meanings(AddKeyTexts(s)) == AddKeys(s)
  {
    if KeyChanged(s) {
      KeyTextsAre(s.columns, s.reserved);
      assert |KeyTexts(s.columns, s.reserved)| == |KeyOf(s.columns)|;
    }
    hide KeyTexts, KeyOf, KeyChanged;
  }

  // The script does what it means, if the engine can read it.
  lemma ScriptTextMeans(s: State)
    requires AreNamed(s.columns) && (forall c | c in s.removed :: IsIdentifier(c.name)) && CanRead(s)
    ensures Meanings(ScriptText(s)) == Script(s)
  {
    NotNullsMean(s.columns);
    ColumnTextsMean(s.removed, s.reserved);
    DefaultTextsMean(s.columns, s.reserved);
    AddTextsMean(s.columns, s.reserved);
    AddKeyTextsMean(s);
    assert Meanings(DropKeys(s)) == DropKeys(s);
    hide DropKeys, DropNotNulls, ColumnTexts, DefaultTexts, AddTexts, AddKeyTexts, DropColumns, SetDefaults,
      AddColumns, AddKeys, Meanings, CanRead;
    var adds := AddTexts(s.columns, s.reserved) + AddKeyTexts(s);
    var defaults := DefaultTexts(s.columns, s.reserved) + adds;
    var drops := ColumnTexts(s.removed, s.reserved) + defaults;
    MeaningsAdd(DropKeys(s), DropNotNulls(s.columns) + drops);
    MeaningsAdd(DropNotNulls(s.columns), drops);
    MeaningsAdd(ColumnTexts(s.removed, s.reserved), defaults);
    MeaningsAdd(DefaultTexts(s.columns, s.reserved), adds);
    MeaningsAdd(AddTexts(s.columns, s.reserved), AddKeyTexts(s));
  }

  // The engine can't read a name that starts with a dollar sign.
  predicate IsReadable(change: Change) {
    match change
    case DropConstraint(name) => !Names.IsInternal(name)
    case DropColumn(name) => !Names.IsInternal(name)
    case SetDefault(name, _) => !Names.IsInternal(name)
    case DropDefault(name) => !Names.IsInternal(name)
    case AddColumn(c) => !Names.IsInternal(c.name)
    case AddKey(key) => forall k | k in key :: !Names.IsInternal(k)
  }

  ghost predicate HasNames(t: Table) {
    "" !in NamesOf(t.columns)
  }

  lemma UnreadableFails(t: Table, change: Change)
    requires HasNames(t) && !IsReadable(change)
    ensures Apply(t, Meaning(change)).None?
  {
    hide Names.ParseName;
    match change
    case DropConstraint(_) =>
    case DropColumn(name) => Names.InternalIsNoName(name); NoColumn(t);
    case SetDefault(name, _) => Names.InternalIsNoName(name); NoColumn(t);
    case DropDefault(name) => Names.InternalIsNoName(name); NoColumn(t);
    case AddColumn(c) => Names.InternalIsNoName(c.name);
    case AddKey(key) =>
      var i :| 0 <= i < |key| && Names.IsInternal(key[i]);
      Names.InternalIsNoName(key[i]);
      assert Identifiers(key)[i] == "";
  }

  lemma NoColumn(t: Table)
    requires HasNames(t)
    ensures IndexOf(t.columns, "") == |t.columns|
  {
    forall i | 0 <= i < |t.columns| ensures t.columns[i].name != "" {
      assert NamesOf(t.columns)[i] in NamesOf(t.columns);
    }
  }

  lemma StillHasNames(t: Table, change: Change)
    requires HasNames(t) && Apply(t, change).Some?
    ensures HasNames(Apply(t, change).value)
  {
    assert forall c | c in t.columns :: c.name != "" by {
      forall c | c in t.columns ensures c.name != "" {
        var i :| 0 <= i < |t.columns| && t.columns[i] == c;
        assert NamesOf(t.columns)[i] == c.name;
      }
    }
  }

  // A script that has such a name isn't valid.
  lemma {:induction false} UnreadableScript(t: Table, changes: seq<Change>)
    requires HasNames(t) && exists c :: c in changes && !IsReadable(c)
    ensures Execute(t, changes).None?
    decreases |changes|
  {
    if !IsReadable(changes[0]) {
      UnreadableFails(t, changes[0]);
    } else {
      var next := Apply(t, Meaning(changes[0]));
      assert changes == [changes[0]] + changes[1..];
      if next.Some? {
        StillHasNames(t, Meaning(changes[0]));
        UnreadableScript(next.value, changes[1..]);
      }
    }
  }

  lemma {:induction false} KeyTextIn(columns: seq<Edit>, reserved: Reserved, e: Edit)
    requires e in columns && e.primaryKey
    ensures e.SqlName(reserved) in KeyTexts(columns, reserved)
  {
    if columns[0] != e {
      assert columns == [columns[0]] + columns[1..];
      KeyTextIn(columns[1..], reserved, e);
    }
  }

  lemma {:induction false} NotNullIn(columns: seq<Edit>, e: Edit)
    requires e in columns && IsCleared(e)
    ensures DropConstraint(e.original.value.notNullName) in DropNotNulls(columns)
  {
    if columns[0] != e {
      assert columns == [columns[0]] + columns[1..];
      NotNullIn(columns[1..], e);
    }
  }

  lemma {:induction false} DefaultIn(columns: seq<Edit>, reserved: Reserved, e: Edit)
    requires e in columns && !KeepsDefault(e)
    ensures DefaultChange(e, e.SqlName(reserved)) in DefaultTexts(columns, reserved)
  {
    if columns[0] != e {
      assert columns == [columns[0]] + columns[1..];
      DefaultIn(columns[1..], reserved, e);
    }
  }

  lemma InScriptText(s: State, c: Change)
    requires c in DropKeys(s) || c in DropNotNulls(s.columns) || c in ColumnTexts(s.removed, s.reserved)
      || c in DefaultTexts(s.columns, s.reserved) || c in AddKeyTexts(s)
    ensures c in ScriptText(s)
  {
    hide DropKeys, DropNotNulls, ColumnTexts, DefaultTexts, AddTexts, AddKeyTexts;
  }

  lemma UnreadableIn(s: State) returns (c: Change)
    requires !CanRead(s)
    ensures c in ScriptText(s) && !IsReadable(c)
  {
    hide ScriptText, Join, KeyTexts, DropNotNulls, DefaultTexts, Edit.SqlName, ColumnTexts, AddTexts;
    if KeyChanged(s) && Names.IsInternal(s.keyName) {
      c := DropConstraint(s.keyName);
    } else if KeyChanged(s) && !KeyReadable(s.columns) {
      var e :| e in s.columns && e.primaryKey && !e.IsReadable();
      KeyTextIn(s.columns, s.reserved, e);
      UnreadableText(e, s.reserved);
      c := AddKey(KeyTexts(s.columns, s.reserved));
    } else if !NotNullsReadable(s.columns) {
      var e :| e in s.columns && IsCleared(e) && Names.IsInternal(e.original.value.notNullName);
      NotNullIn(s.columns, e);
      c := DropConstraint(e.original.value.notNullName);
    } else if !DefaultsReadable(s.columns) {
      var e :| e in s.columns && !KeepsDefault(e) && !e.IsReadable();
      DefaultIn(s.columns, s.reserved, e);
      c := DefaultChange(e, e.SqlName(s.reserved));
      UnreadableText(e, s.reserved);
    } else {
      var i :| 0 <= i < |s.removed| && Names.IsInternal(s.removed[i].name);
      UnreadableColumn(s.removed, s.reserved, i);
      c := DropColumn(s.removed[i].name);
    }
    InScriptText(s, c);
  }

  lemma UnreadableText(e: Edit, reserved: Reserved)
    requires !e.IsReadable()
    ensures Names.IsInternal(e.SqlName(reserved))
  {
  }

  lemma UnreadableColumn(removed: seq<Column>, reserved: Reserved, i: nat)
    requires i < |removed| && Names.IsInternal(removed[i].name)
    ensures DropColumn(removed[i].name) in ColumnTexts(removed, reserved)
  {
    assert ColumnTexts(removed, reserved)[i] == DropColumn(removed[i].name);
  }

  method KeyNames(columns: seq<Edit>, reserved: Reserved) returns (key: seq<string>)
    ensures key == KeyTexts(columns, reserved)
  {
    key := [];
    for i := 0 to |columns|
      invariant key + KeyTexts(columns[i..], reserved) == KeyTexts(columns, reserved)
    {
      assert columns[i..][1..] == columns[i + 1..];
      if columns[i].primaryKey {
        key := key + [columns[i].SqlName(reserved)];
      }
    }
  }

  method DropNotNullChanges(columns: seq<Edit>) returns (changes: seq<Change>)
    ensures changes == DropNotNulls(columns)
  {
    changes := [];
    for i := 0 to |columns|
      invariant changes + DropNotNulls(columns[i..]) == DropNotNulls(columns)
    {
      var e := columns[i];
      assert columns[i..][1..] == columns[i + 1..];
      if e.original.Some? && e.original.value.notNull && !e.notNull {
        changes := changes + [DropConstraint(e.original.value.notNullName)];
      }
    }
  }

  method SetDefaultChanges(columns: seq<Edit>, reserved: Reserved) returns (changes: seq<Change>)
    ensures changes == DefaultTexts(columns, reserved)
  {
    hide Edit.SqlName;
    changes := [];
    for i := 0 to |columns|
      invariant changes + DefaultTexts(columns[i..], reserved) == DefaultTexts(columns, reserved)
    {
      var e := columns[i];
      assert columns[i..][1..] == columns[i + 1..];
      if e.original.None? || e.def == e.original.value.def {
        continue;
      }
      changes := changes + [DefaultChange(e, e.SqlName(reserved))];
    }
  }

  method AddColumnChanges(columns: seq<Edit>, reserved: Reserved) returns (changes: seq<Change>)
    ensures changes == AddTexts(columns, reserved)
  {
    hide Edit.SqlName, Edit.Id;
    changes := [];
    for i := 0 to |columns|
      invariant changes + AddTexts(columns[i..], reserved) == AddTexts(columns, reserved)
    {
      var e := columns[i];
      assert columns[i..][1..] == columns[i + 1..];
      if e.original.None? {
        changes := changes + [AddColumn(NewColumn(e).(name := e.SqlName(reserved)))];
      }
    }
  }

  method DropColumnChanges(removed: seq<Column>, reserved: Reserved) returns (changes: seq<Change>)
    ensures changes == ColumnTexts(removed, reserved)
  {
    changes := [];
    for i := 0 to |removed|
      invariant changes == ColumnTexts(removed, reserved)[..i]
    {
      changes := changes + [DropColumn(Names.Requote(removed[i].name, reserved.engine))];
    }
  }

  lemma Regroup<T>(a: seq<T>, b: seq<T>, c: seq<T>, d: seq<T>, e: seq<T>, f: seq<T>)
    ensures a + b + c + d + e + f == a + (b + (c + (d + (e + f))))
  {
  }

  // The statements, whose order is fixed: the PRIMARY KEY goes first and comes back last.
  method ToSql(s: State) returns (changes: seq<Change>)
    ensures changes == ScriptText(s)
  {
    hide KeyTexts, Join, DropNotNulls, ColumnTexts, DefaultTexts, AddTexts;
    var key := KeyNames(s.columns, s.reserved);
    var keyChanged := Join(key) != Join(s.key);
    var dropKey := if keyChanged && s.keyName != "" then [DropConstraint(s.keyName)] else [];
    var notNulls := DropNotNullChanges(s.columns);
    var columns := DropColumnChanges(s.removed, s.reserved);
    var defaults := SetDefaultChanges(s.columns, s.reserved);
    var adds := AddColumnChanges(s.columns, s.reserved);
    var addKey := if keyChanged && key != [] then [AddKey(key)] else [];
    Regroup(dropKey, notNulls, columns, defaults, adds, addKey);
    changes := dropKey + notNulls + columns + defaults + adds + addKey;
  }

  // The end of the first name of a list, at the comma after it or at the end.
  function NameEnd(s: string): (n: nat)
    ensures n <= |s|
  {
    if s != "" && s[0] == '"' then QuotedEnd(s, 1) else PlainEnd(s)
  }

  function PlainEnd(s: string): (n: nat)
    ensures n <= |s|
  {
    if s == "" || s[0] == ',' then 0 else 1 + PlainEnd(s[1..])
  }

  function QuotedEnd(s: string, i: nat): (n: nat)
    requires i <= |s|
    ensures n <= |s|
    decreases |s| - i
  {
    if i == |s| then i
    else if s[i] != '"' then QuotedEnd(s, i + 1)
    else if i + 1 < |s| && s[i + 1] == '"' then QuotedEnd(s, i + 2)
    else i + 1
  }

  lemma {:induction false} PlainNameEnd(s: string, rest: string)
    requires ',' !in s && (rest == "" || rest[0] == ',')
    ensures PlainEnd(s + rest) == |s|
  {
    if s == "" {
      assert s + rest == rest;
    } else {
      assert (s + rest)[1..] == s[1..] + rest;
      assert forall c | c in s[1..] :: c in s;
      PlainNameEnd(s[1..], rest);
    }
  }

  // The closing quote is the first one that isn't doubled.
  lemma {:induction false} QuotedNameEnd(s: string, i: nat, body: string, rest: string)
    requires i <= |s| && s[i..] == body + "\"" + rest && Names.Undouble(body).Some?
    requires rest == "" || rest[0] == ','
    ensures QuotedEnd(s, i) == i + |body| + 1
    decreases |body|
  {
    assert s[i..][0] == s[i];
    if body == "" {
      assert i + 1 < |s| ==> s[i..][1] == s[i + 1];
    } else if body[0] == '"' {
      assert s[i..][1] == s[i + 1] && s[i + 2..] == s[i..][2..] == body[2..] + "\"" + rest;
      QuotedNameEnd(s, i + 2, body[2..], rest);
    } else {
      assert s[i + 1..] == s[i..][1..] == body[1..] + "\"" + rest;
      QuotedNameEnd(s, i + 1, body[1..], rest);
    }
  }

  lemma NameEndOf(name: string, rest: string)
    requires IsName(name) && (rest == "" || rest[0] == ',')
    ensures NameEnd(name + rest) == |name|
  {
    if name[0] == '"' {
      var body := name[1..|name| - 1];
      assert (name + rest)[1..] == body + "\"" + rest;
      QuotedNameEnd(name + rest, 1, body, rest);
    } else {
      PlainNameEnd(name, rest);
    }
  }

  // Two lists of names that look the same are the same.
  lemma {:induction false} JoinSame(a: seq<string>, b: seq<string>)
    requires (forall s | s in a :: IsName(s)) && (forall s | s in b :: IsName(s)) && Join(a) == Join(b)
    ensures a == b
    decreases |a|
  {
    if a == [] || b == [] {
      JoinEmpty(a);
      JoinEmpty(b);
    } else {
      var s := Join(a);
      JoinFirst(a);
      JoinFirst(b);
      assert a[0] == s[..NameEnd(s)] == b[0];
      assert (forall x | x in a[1..] :: x in a) && forall x | x in b[1..] :: x in b;
      if |a| > 1 && |b| > 1 {
        assert s[|a[0]| + 1..] == Join(a[1..]) && s[|a[0]| + 1..] == Join(b[1..]);
        JoinSame(a[1..], b[1..]);
      }
      assert a == [a[0]] + a[1..] && b == [b[0]] + b[1..];
    }
  }

  lemma JoinEmpty(a: seq<string>)
    requires forall s | s in a :: s != ""
    ensures Join(a) == "" <==> a == []
  {
    if a != [] {
      assert a[0] in a;
    }
  }

  lemma JoinFirst(a: seq<string>)
    requires a != [] && forall s | s in a :: IsName(s)
    ensures |a[0]| <= |Join(a)| && Join(a)[..|a[0]|] == a[0] && NameEnd(Join(a)) == |a[0]|
    ensures |a| == 1 <==> |Join(a)| == |a[0]|
  {
    assert IsName(a[0]);
    if |a| == 1 {
      assert a[0] + "" == a[0];
      NameEndOf(a[0], "");
    } else {
      assert Join(a) == a[0] + ("," + Join(a[1..]));
      NameEndOf(a[0], "," + Join(a[1..]));
    }
  }
}
