/**
 SQL descriptor areas (section 20.1 of ISO/IEC 9075-2:2016). An item descriptor area says what the
 type of its DATA is, and DATA has to be laid out as that type wherever it's read.
 */
module Descriptors {
  import opened Wrappers
  import opened SqlCli
  import opened Utf8
  import opened Retrieval

  // The types (Table 28).
  const SQL_CHAR := 1
  const SQL_NUMERIC := 2
  const SQL_DECIMAL := 3
  const SQL_INTEGER := 4
  const SQL_SMALLINT := 5
  const SQL_FLOAT := 6
  const SQL_REAL := 7
  const SQL_DOUBLE := 8
  const SQL_DATETIME := 9
  const SQL_VARCHAR := 12
  const SQL_BOOLEAN := 16
  const SQL_BIGINT := 25
  const SQL_CODE_DATE := 1
  const SQL_TYPE_DATE := 91
  const SQL_TYPE_TIMESTAMP_WITH_TIMEZONE := 95

  // The components that are numbers, and the ones that are strings.
  const TYPE: nat := 0
  const LENGTH: nat := 1
  const OCTET_LENGTH: nat := 2
  const PRECISION: nat := 3
  const SCALE: nat := 4
  const DATETIME_INTERVAL_CODE: nat := 5
  const NULLABLE: nat := 7
  const UNNAMED: nat := 8
  const LEVEL: nat := 9
  const INDICATOR: nat := 11
  const RETURNED_LENGTH: nat := 12
  const RETURNED_OCTET_LENGTH: nat := 13
  const NUMBERS: nat := 20
  const NAME: nat := 0
  const CHARACTER_SET_CATALOG: nat := 1
  const CHARACTER_SET_SCHEMA: nat := 2
  const CHARACTER_SET_NAME: nat := 3
  const STRINGS: nat := 16

  type Numbers = n: seq<int> | |n| == NUMBERS witness seq(NUMBERS, _ => 0)
  type Strings = s: seq<string> | |s| == STRINGS witness seq(STRINGS, _ => "")

  // How a value is laid out in memory.
  datatype Layout = SmallIntLayout | IntegerLayout | BigIntLayout | RealLayout | DoubleLayout | StringLayout

  // Garbage is memory that was allocated but not written.
  datatype Data =
    | Garbage
    | SmallIntData(n: int)
    | IntegerData(n: int)
    | BigIntData(n: int)
    | RealData(f: Float)
    | DoubleData(f: Float)
    | StringData(octets: seq<Octet>)
  {
    ghost predicate Is(layout: Layout) {
      match layout
      case SmallIntLayout => SmallIntData?
      case IntegerLayout => IntegerData?
      case BigIntLayout => BigIntData?
      case RealLayout => RealData?
      case DoubleLayout => DoubleData?
      case StringLayout => StringData? && IsPiece(octets)
    }
  }

  // The start of a string in UTF-8, whose last character can be cut.
  ghost predicate IsPiece(octets: seq<Octet>) {
    exists s: seq<Character>, k :: IsPieceOf(octets, s, k)
  }

  ghost predicate IsPieceOf(octets: seq<Octet>, s: seq<Character>, k: int) {
    0 <= k <= |Encode(s)| && octets == Encode(s)[..k]
  }

  // The C data type of the DATA of an item, and its size if it's a string.
  function LayoutOf(t: int): Layout {
    if t == SQL_SMALLINT then SmallIntLayout
    else if t == SQL_INTEGER then IntegerLayout
    else if t == SQL_BIGINT then BigIntLayout
    else if t == SQL_REAL then RealLayout
    else if t == SQL_FLOAT || t == SQL_DOUBLE then DoubleLayout
    else StringLayout
  }

  // DATA is undefined when it's None.
  datatype Item = Item(number: Numbers, text: Strings, data: Option<Data>) {
    // DATA can be read as the type of the item, unless it's the null value.
    ghost predicate Valid() {
      && number[LEVEL] == 0
      && (data.Some? && number[INDICATOR] >= 0 ==> data.value.Is(LayoutOf(number[TYPE])))
    }

    function Set(component: nat, value: int): Item
      requires component < NUMBERS
    {
      this.(number := number[component := value])
    }

    function SetText(component: nat, value: string): Item
      requires component < STRINGS
    {
      this.(text := text[component := value])
    }

    function Size(): int {
      if number[TYPE] == SQL_CHAR || number[TYPE] == SQL_VARCHAR then number[LENGTH] * 4 + 1
      else if number[TYPE] == SQL_NUMERIC || number[TYPE] == SQL_DECIMAL then number[PRECISION] + 3
      else 64
    }

    // A host parameter of the type matches the item.
    predicate Matches(t: HostType, length: int, target: bool) {
      match t
      case CharHost =>
        number[TYPE] in {SQL_NUMERIC, SQL_DECIMAL, SQL_DATETIME}
          || (number[TYPE] == SQL_CHAR && number[LENGTH] == length)
      case VarcharHost =>
        || number[TYPE] in {SQL_NUMERIC, SQL_DECIMAL, SQL_DATETIME}
        || (number[TYPE] == SQL_VARCHAR && (number[LENGTH] == length || (target && length >= number[LENGTH])))
      case DoubleHost => number[TYPE] == SQL_DOUBLE || number[TYPE] == SQL_FLOAT
      case _ => number[TYPE] == t.Code()
    }

    // The item is valid for a type that vsql has.
    predicate IsComplete() {
      && number[LEVEL] == 0
      && var t := number[TYPE];
        || ((t == SQL_CHAR || t == SQL_VARCHAR) && number[LENGTH] >= 1)
        || ((t == SQL_NUMERIC || t == SQL_DECIMAL) && number[PRECISION] >= 1 && 0 <= number[SCALE] <= number[PRECISION])
        || (t == SQL_FLOAT && number[PRECISION] >= 1)
        || t in {SQL_SMALLINT, SQL_INTEGER, SQL_BIGINT, SQL_REAL, SQL_DOUBLE, SQL_BOOLEAN}
        || (t == SQL_DATETIME && SQL_CODE_DATE <= number[DATETIME_INTERVAL_CODE] <= 5 && 0 <= number[PRECISION] <= 9)
    }
  }

  function Empty(): (r: Item)
    ensures r.data.None? && (forall k | 0 <= k < NUMBERS :: r.number[k] == 0)
      && forall k | 0 <= k < STRINGS :: r.text[k] == ""
  {
    Item(seq(NUMBERS, _ => 0), seq(STRINGS, _ => ""), None)
  }

  // The types of host parameters.
  datatype HostType =
    CharHost | VarcharHost | SmallIntHost | IntegerHost | BigIntHost | RealHost | DoubleHost | BooleanHost
  {
    function Code(): int {
      match this
      case CharHost => SQL_CHAR
      case VarcharHost => SQL_VARCHAR
      case SmallIntHost => SQL_SMALLINT
      case IntegerHost => SQL_INTEGER
      case BigIntHost => SQL_BIGINT
      case RealHost => SQL_REAL
      case DoubleHost => SQL_DOUBLE
      case BooleanHost => SQL_BOOLEAN
    }

    // How DATA is read or written for a host parameter of the type. A BOOLEAN is 'TRUE' or 'FALSE'.
    function Layout(): Layout {
      match this
      case SmallIntHost => SmallIntLayout
      case IntegerHost => IntegerLayout
      case BigIntHost => BigIntLayout
      case RealHost => RealLayout
      case DoubleHost => DoubleLayout
      case _ => StringLayout
    }
  }

  // A host parameter that matches an item reads and writes the layout that the item has.
  lemma MatchesLayout(item: Item, t: HostType, length: int, target: bool)
    requires item.Matches(t, length, target)
    ensures t.Layout() == LayoutOf(item.number[TYPE])
  {
  }

  // The types that vsql has, by their codes.
  predicate IsKnown(t: int) {
    t in {1, 2, 3, 4, 5, 6, 7, 8, 9, 12, 16, 25}
  }

  // It matches exactly if it has that layout, and the same kind of string: a CHARACTER of that
  // length, a CHARACTER VARYING of that length (or of more for a target), or a BOOLEAN for itself.
  lemma MatchesIff(item: Item, t: HostType, length: int, target: bool)
    ensures item.Matches(t, length, target) <==>
      var code := item.number[TYPE];
      && IsKnown(code) && t.Layout() == LayoutOf(code) && (code == 16 <==> t.BooleanHost?)
      && (code == 1 ==> t.CharHost? && item.number[LENGTH] == length)
      && (code == 12 ==>
            && t.VarcharHost?
            && if target then item.number[LENGTH] <= length else item.number[LENGTH] == length)
  {
  }

  // An item is complete exactly if its type is known and has the numbers that it needs.
  lemma IsCompleteIff(item: Item)
    ensures item.IsComplete() <==>
      var t := item.number[TYPE];
      && IsKnown(t) && item.number[LEVEL] == 0
      && (t in {1, 12} ==> item.number[LENGTH] > 0)
      && (t in {2, 3} ==> item.number[PRECISION] > 0 && 0 <= item.number[SCALE] <= item.number[PRECISION])
      && (t == 6 ==> item.number[PRECISION] > 0)
      && (t == 9 ==> 1 <= item.number[DATETIME_INTERVAL_CODE] <= 5 && 0 <= item.number[PRECISION] <= 9)
  {
  }

  // The value of a host parameter. A string has no null character.
  datatype HostValue = HostInteger(n: int) | HostFloat(f: Float) | HostString(octets: seq<Octet>) {
    ghost predicate Of(t: HostType) {
      match t
      case CharHost => HostString? && IsPiece(octets)
      case VarcharHost => HostString? && IsPiece(octets)
      case SmallIntHost => HostInteger? && InRange(n, SMALLINT_LIMIT)
      case BigIntHost => HostInteger? && InRange(n, BIGINT_LIMIT)
      case RealHost => HostFloat?
      case DoubleHost => HostFloat?
      case _ => HostInteger?
    }
  }

  const TRUE_OCTETS: seq<Octet> := [0x54, 0x52, 0x55, 0x45]
  const FALSE_OCTETS: seq<Octet> := [0x46, 0x41, 0x4C, 0x53, 0x45]

  // A BOOLEAN is these letters.
  lemma BooleanLetters()
    ensures |TRUE_OCTETS| == 4 && forall i | 0 <= i < 4 :: TRUE_OCTETS[i] == "TRUE"[i] as int
    ensures |FALSE_OCTETS| == 5 && forall i | 0 <= i < 5 :: FALSE_OCTETS[i] == "FALSE"[i] as int
  {
  }

  // The DATA of a value of a host parameter.
  function ToData(t: HostType, value: HostValue): Data {
    match value
    case HostString(octets) => StringData(octets)
    case HostFloat(f) => if t.RealHost? then RealData(f) else DoubleData(f)
    case HostInteger(n) =>
      match t
      case SmallIntHost => SmallIntData(n)
      case BigIntHost => BigIntData(n)
      case BooleanHost => StringData(if n != 0 then TRUE_OCTETS else FALSE_OCTETS)
      case _ => IntegerData(n)
  }

  // What DESCRIBE finds out about a column.
  datatype Description = Description(
    concise: int, code: int, length: int, octetLength: int, precision: int, scale: int, nullable: int, unnamed: int,
    name: string, characterSet: string)

  // A datetime is its concise type for the CLI.
  predicate IsDatetime(concise: int) {
    SQL_TYPE_DATE <= concise <= SQL_TYPE_TIMESTAMP_WITH_TIMEZONE
  }

  function DescribedType(concise: int): int {
    if IsDatetime(concise) then SQL_DATETIME else concise
  }

  function ConciseType(t: int, code: int): int {
    if t == SQL_DATETIME then SQL_TYPE_DATE - SQL_CODE_DATE + code else t
  }

  // A value that is bound to a dynamic parameter: null, or the DATA of an item.
  datatype Bound = Bound(concise: int, size: int, scale: int, value: Option<Data>)

  lemma WholeIsPiece(s: seq<Character>, k: nat)
    requires k <= |Encode(s)|
    ensures IsPiece(Encode(s)[..k])
  {
    assert IsPieceOf(Encode(s)[..k], s, k);
  }

  lemma AsciiIsPiece(octets: seq<Octet>)
    requires forall i | 0 <= i < |octets| :: 0 < octets[i] < 0x80
    ensures IsPiece(octets)
  {
    var s: seq<Character> := seq(|octets|, i requires 0 <= i < |octets| => octets[i]);
    EncodeAscii(s);
    assert Encode(s) == Encode(s)[..|octets|] == octets;
    WholeIsPiece(s, |octets|);
  }

  function BindItem(item: Item): Bound {
    var t := item.number[TYPE];
    Bound(ConciseType(t, item.number[DATETIME_INTERVAL_CODE]),
          if t == SQL_CHAR || t == SQL_VARCHAR then item.number[LENGTH]
          else if t != SQL_BOOLEAN then item.number[PRECISION] else 0,
          item.number[SCALE],
          if item.number[INDICATOR] < 0 then None else item.data)
  }

  // What is bound for an item. DATA isn't read when it's the null value, and otherwise it's laid
  // out as the type of the item.
  ghost predicate IsBound(b: Bound, item: Item) {
    && (b.value.None? <==> item.number[INDICATOR] < 0)
    && (b.value.Some? ==> b.value == item.data && b.value.value.Is(LayoutOf(item.number[TYPE])))
    && (item.number[TYPE] == SQL_DATETIME <==> IsDatetime(b.concise))
  }

  function Described(d: Description): Item {
    Empty().Set(TYPE, DescribedType(d.concise)).Set(DATETIME_INTERVAL_CODE, d.code).Set(LENGTH, d.length)
           .Set(OCTET_LENGTH, d.octetLength).Set(PRECISION, d.precision).Set(SCALE, d.scale)
           .Set(NULLABLE, d.nullable).Set(UNNAMED, d.unnamed)
           .SetText(NAME, d.name).SetText(CHARACTER_SET_NAME, d.characterSet)
  }

  // Everything that was found out is in the item.
  lemma DescribedHas(d: Description)
    ensures var r := Described(d);
      && r.number[TYPE] == (if 91 <= d.concise <= 95 then 9 else d.concise)
      && r.number[DATETIME_INTERVAL_CODE] == d.code && r.number[LENGTH] == d.length
      && r.number[OCTET_LENGTH] == d.octetLength && r.number[PRECISION] == d.precision && r.number[SCALE] == d.scale
      && r.number[NULLABLE] == d.nullable && r.number[UNNAMED] == d.unnamed && r.number[LEVEL] == 0
      && r.number[INDICATOR] == 0 && r.number[RETURNED_LENGTH] == 0 && r.number[RETURNED_OCTET_LENGTH] == 0
      && r.text[NAME] == d.name && r.text[CHARACTER_SET_NAME] == d.characterSet
      && r.text[CHARACTER_SET_CATALOG] == "" && r.text[CHARACTER_SET_SCHEMA] == "" && r.data.None?
  {
  }

  // An item that was described, and then has DATA, is bound with the length, precision and scale of
  // its column, and as the type of its column exactly if a datetime has the code of its concise type.
  lemma DescribedIsBoundIff(d: Description, indicator: int, data: Option<Data>)
    ensures var b := BindItem(Described(d).Set(INDICATOR, indicator).(data := data));
      && b.scale == d.scale && b.value == (if indicator < 0 then None else data)
      && b.size == (if d.concise == SQL_CHAR || d.concise == SQL_VARCHAR then d.length
                    else if d.concise == SQL_BOOLEAN then 0 else d.precision)
      && (b.concise == d.concise <==>
          && (IsDatetime(d.concise) ==> d.code == d.concise - SQL_TYPE_DATE + 1)
          && (d.concise == SQL_DATETIME ==> d.code == SQL_DATETIME - SQL_TYPE_DATE + 1))
  {
    var item := Described(d);
    assert item.number[TYPE] == DescribedType(d.concise) && item.number[DATETIME_INTERVAL_CODE] == d.code;
    assert item.number[LENGTH] == d.length && item.number[PRECISION] == d.precision && item.number[SCALE] == d.scale;
  }

  // A piece of a value that a CHARACTER of that many characters has. There's only space to fill if
  // the piece is the whole value.
  function Padded(piece: seq<Octet>, length: int): seq<Octet> {
    if Starts(piece) < length then piece + Spaces(length - Starts(piece)) else piece
  }

  lemma PaddedFits(s: seq<Character>, k: nat, length: nat)
    requires k <= |Encode(s)| && k <= length * 4 && (k < |Encode(s)| ==> k == length * 4)
    ensures var padded := Padded(Encode(s)[..k], length);
      && |padded| <= length * 4 && IsPiece(padded) && 0 !in padded
      && (|s| <= length ==> padded == Encode(Fitted(s, length)))
  {
    hide Encode, Starts;
    var octets := Encode(s);
    assert octets[..|octets|] == octets;
    PieceSize(s, k);
    PieceSize(s, |octets|);
    NoNull(s);
    WholeIsPiece(s, k);
    if |s| <= length {
      assert k == |octets|;
      var f := Fitted(s, length);
      EncodeSpaces(length - |s|);
      EncodeAdd(s, seq(length - |s|, _ => SPACE));
      assert Encode(f)[..|Encode(f)|] == Encode(f);
      WholeIsPiece(f, |Encode(f)|);
      assert Spaces(0) == [] && octets + [] == octets;
      NoNull(f);
    }
  }

  // How many octets of a value fit in size octets with a null character.
  function Fit(octets: nat, size: int): int {
    if octets < size then octets else size - 1
  }

  // The DATA that a value gives, if it can be converted to the type of the item.
  function ColumnData(item: Item, column: Column): Option<Data>
    requires column.Value?
  {
    match LayoutOf(item.number[TYPE])
    case SmallIntLayout =>
      if ToInteger(column, SMALLINT_LIMIT).Some? then Some(SmallIntData(column.integer.value)) else None
    case IntegerLayout =>
      if ToInteger(column, INTEGER_LIMIT).Some? then Some(IntegerData(column.integer.value)) else None
    case BigIntLayout => if ToInteger(column, BIGINT_LIMIT).Some? then Some(BigIntData(column.integer.value)) else None
    case RealLayout => if column.float.Some? then Some(RealData(column.float.value)) else None
    case DoubleLayout => if column.float.Some? then Some(DoubleData(column.float.value)) else None
    case StringLayout =>
      var octets := Encode(column.text);
      if item.Size() < 1 then None else
        var piece := octets[..Fit(|octets|, item.Size())];
        Some(StringData(if item.number[TYPE] == SQL_CHAR then Padded(piece, item.number[LENGTH]) else piece))
  }

  // What the item is after a column was retrieved.
  ghost predicate Got(before: Item, column: Column, varying: bool, after: Item) {
    && after.text == before.text
    && (forall k | 0 <= k < NUMBERS && k !in {INDICATOR, RETURNED_LENGTH, RETURNED_OCTET_LENGTH} ::
          after.number[k] == before.number[k])
    && if column.Null? then
         && after.number[INDICATOR] == -1 && after.data == Some(Garbage)
         && after.number[RETURNED_LENGTH] == before.number[RETURNED_LENGTH]
         && after.number[RETURNED_OCTET_LENGTH] == before.number[RETURNED_OCTET_LENGTH]
       else
         && after.number[INDICATOR] == 0 && after.data == ColumnData(before, column) && after.data.Some?
         && Lengths(before, column, varying, after)
  }

  function GotCode(before: Item, column: Column): ReturnCode {
    if column.Value? && ColumnData(before, column).None? then Error
    else if column.Value? && LayoutOf(before.number[TYPE]).StringLayout? && |Encode(column.text)| >= before.Size()
    then SuccessWithInfo
    else Success
  }

  // The returned lengths are those of the value that's assigned to a CHARACTER VARYING, and
  // otherwise those of the whole value of a column that is one.
  ghost predicate Lengths(before: Item, column: Column, varying: bool, after: Item)
    requires column.Value?
  {
    if before.number[TYPE] == SQL_VARCHAR then
      after.data.Some? && after.data.value.StringData?
      && after.number[RETURNED_LENGTH] == Starts(after.data.value.octets)
      && after.number[RETURNED_OCTET_LENGTH] == |after.data.value.octets|
    else if varying then
      after.number[RETURNED_LENGTH] == |column.text| && after.number[RETURNED_OCTET_LENGTH] == |Encode(column.text)|
    else
      && after.number[RETURNED_LENGTH] == before.number[RETURNED_LENGTH]
      && after.number[RETURNED_OCTET_LENGTH] == before.number[RETURNED_OCTET_LENGTH]
  }

  // strlen
  method OctetLength(buffer: array<Octet>, ghost piece: seq<Octet>) returns (n: nat)
    requires Holds(buffer[..], piece)
    ensures n == |piece|
  {
    assert forall i | 0 <= i < |piece| :: buffer[i] == buffer[..][..|piece|][i];
    n := 0;
    while buffer[n] != 0
      invariant n <= |piece|
      decreases |piece| - n
    {
      n := n + 1;
    }
  }

  // A value is read to its end in pieces, so the next time it's read from its start. A piece can
  // end in the middle of a character.
  method Measure(row: Row, i: nat) returns (characters: nat, octets: nat)
    requires row.Valid() && 1 <= i <= |row.columns| && row.column != i
    modifies row`column, row`at
    ensures row.Valid() && row.column == 0
    ensures row.columns[i - 1].Value? ==>
      characters == |row.columns[i - 1].text| && octets == |Encode(row.columns[i - 1].text)|
  {
    hide Encode, Starts;
    var piece := new Octet[256];
    characters, octets := 0, 0;
    var rc := SuccessWithInfo;
    if row.columns[i - 1].Null? {
      var ind;
      rc, ind := row.GetString(i, piece, false);
      return;
    }
    while rc.SuccessWithInfo?
      invariant row.Valid() && octets <= |Encode(row.columns[i - 1].text)|
      invariant if rc.SuccessWithInfo? then row.From(i) == octets else Retrieved(row, i, rc, octets)
      invariant characters == Starts(Encode(row.columns[i - 1].text)[..octets])
      decreases rc.SuccessWithInfo?, |Encode(row.columns[i - 1].text)| - octets
    {
      var more;
      ghost var end;
      rc, more, end := CountPiece(row, i, piece, octets);
      var length := OctetLength(piece, Encode(row.columns[i - 1].text)[octets..end]);
      characters, octets := characters + more, octets + length;
    }
    PieceSize(row.columns[i - 1].text, octets);
  }

  // The column is read into memory of the size of the item, and a CHARACTER is padded there.
  method ReadText(row: Row, i: nat, item: Item) returns (rc: ReturnCode, data: Data, length: int)
    requires item.IsComplete() && LayoutOf(item.number[TYPE]).StringLayout?
    requires row.Valid() && 1 <= i <= |row.columns| && row.column != i
    modifies row`column, row`at
    ensures row.Valid() && (row.column == 0 || row.column == i) && !Failed(rc)
    ensures row.columns[i - 1].Null? ==> rc.Success? && data.Garbage? && length == -1
    ensures row.columns[i - 1].Value? ==>
      && length >= 0 && ColumnData(item, row.columns[i - 1]) == Some(data) && data.Is(StringLayout)
      && rc == (if |Encode(row.columns[i - 1].text)| >= item.Size() then SuccessWithInfo else Success)
  {
    hide Encode, Starts;
    var memory := new Octet[item.Size()];
    rc, length := row.GetString(i, memory, true);
    if length < 0 {
      return rc, Garbage, length;
    }
    ghost var text := row.columns[i - 1].text;
    ghost var k := Fit(|Encode(text)|, item.Size());
    assert Encode(text)[0..] == Encode(text) && Encode(text)[0..][..k] == Encode(text)[..k];
    WholeIsPiece(text, k);
    if item.number[TYPE] == SQL_CHAR {
      PaddedFits(text, k, item.number[LENGTH]);
      PadMemory(memory, item.number[LENGTH], Encode(text)[..k]);
      assert Holds(memory[..], Padded(Encode(text)[..k], item.number[LENGTH]));
    }
    var n := OctetLength(memory, ColumnData(item, row.columns[i - 1]).value.octets);
    data := StringData(memory[..n]);
  }

  method PadMemory(memory: array<Octet>, length: nat, ghost piece: seq<Octet>)
    requires Holds(memory[..], piece) && |Padded(piece, length)| < memory.Length
    modifies memory
    ensures Holds(memory[..], Padded(piece, length))
  {
    var characters := Characters(memory, piece);
    var end := OctetLength(memory, piece);
    if characters < length {
      assert memory[..end] == memory[..][..end];
      Pad(memory, end, length - characters);
    }
  }

  method ReadData(row: Row, i: nat, item: Item) returns (rc: ReturnCode, data: Data, length: int)
    requires item.IsComplete() && row.Valid() && 1 <= i <= |row.columns| && row.column != i
    modifies row`column, row`at
    ensures row.Valid() && (row.column == 0 || row.column == i)
    ensures rc.Success? || rc.SuccessWithInfo? || rc.Error?
    ensures Failed(rc) ==> row.columns[i - 1].Value? && ColumnData(item, row.columns[i - 1]).None?
    ensures row.columns[i - 1].Null? ==> rc.Success? && data.Garbage? && length == -1
    ensures !Failed(rc) && row.columns[i - 1].Value? ==>
      && length >= 0 && ColumnData(item, row.columns[i - 1]) == Some(data) && data.Is(LayoutOf(item.number[TYPE]))
      && rc == (if LayoutOf(item.number[TYPE]).StringLayout? && |Encode(row.columns[i - 1].text)| >= item.Size()
                then SuccessWithInfo else Success)
  {
    hide Encode, Starts;
    data := Garbage;
    var n, f;
    match LayoutOf(item.number[TYPE]) {
      case SmallIntLayout =>
        rc, n, length := row.GetInteger(i, SMALLINT_LIMIT, true);
        if !Failed(rc) && length >= 0 { data := SmallIntData(n); }
      case IntegerLayout =>
        rc, n, length := row.GetInteger(i, INTEGER_LIMIT, true);
        if !Failed(rc) && length >= 0 { data := IntegerData(n); }
      case BigIntLayout =>
        rc, n, length := row.GetInteger(i, BIGINT_LIMIT, true);
        if !Failed(rc) && length >= 0 { data := BigIntData(n); }
      case RealLayout =>
        rc, f, length := row.GetFloat(i, true);
        if !Failed(rc) && length >= 0 { data := RealData(f); }
      case DoubleLayout =>
        rc, f, length := row.GetFloat(i, true);
        if !Failed(rc) && length >= 0 { data := DoubleData(f); }
      case StringLayout =>
        rc, data, length := ReadText(row, i, item);
    }
  }

  // Only item k has changed.
  ghost predicate Only(before: seq<Item>, after: seq<Item>, k: nat) {
    && |after| == |before|
    && forall j | 0 <= j < |before| && j != k :: after[j] == before[j]
  }

  // The values of an item descriptor area.
  datatype Image = Image(count: int, topLevelCount: int, items: seq<Item>)

  class Descriptor {
    const owner: Option<nat>
    const name: string
    const max: nat
    const items: array<Item>
    var count: int
    var topLevelCount: int

    ghost predicate Valid()
      reads this, items
    {
      && items.Length == max && 1 <= max <= 32767
      && forall k | 0 <= k < max :: items[k].Valid()
    }

    constructor (owner: Option<nat>, name: string, max: nat)
      requires 1 <= max <= 32767
      ensures Valid() && fresh(items) && this.owner == owner && this.name == name && this.max == max
      ensures count == 0 && topLevelCount == 0
      ensures forall k | 0 <= k < max :: items[k] == Empty()
    {
      this.owner, this.name, this.max, count, topLevelCount := owner, name, max, 0, 0;
      items := new Item[max](_ => Empty());
    }

    // What it has.
    ghost function Values(): Image
      reads this, items
    {
      Image(count, topLevelCount, items[..])
    }

    // GET DESCRIPTOR of item n. data is the type and length of the target of DATA, if there is one.
    method GetItem(n: int, data: Option<(HostType, int)>, indicator: bool) returns (status: SqlState)
      requires Valid()
      ensures status == INVALID_INDEX <==> n < 1 || n > max
      ensures status == NO_DATA_FOUND <==> 1 <= n <= max && n > count
      ensures status == ERROR_IN_ASSIGNMENT <==>
        1 <= n <= max && n <= count && data.Some? && !items[n - 1].Matches(data.value.0, data.value.1, true)
      ensures status == SUCCESSFUL <==>
        && 1 <= n <= max && n <= count
        && (data.Some? ==> items[n - 1].Matches(data.value.0, data.value.1, true)
                           && (indicator || items[n - 1].number[INDICATOR] >= 0))
    {
      if n < 1 || n > max {
        return INVALID_INDEX;
      }
      if n > count {
        return NO_DATA_FOUND;
      }
      if data.Some? {
        if !items[n - 1].Matches(data.value.0, data.value.1, true) {
          return ERROR_IN_ASSIGNMENT;
        }
        if items[n - 1].number[INDICATOR] < 0 && !indicator {
          return NULL_WITHOUT_INDICATOR;
        }
      }
      return SUCCESSFUL;
    }

    // The value of a target that isn't a string. It's None when it isn't assigned, since DATA is
    // null or undefined.
    method GetData(k: nat, t: HostType, length: int) returns (value: Option<HostValue>)
      requires Valid() && k < max && items[k].Matches(t, length, true) && !t.CharHost? && !t.VarcharHost?
      ensures value == if items[k].data.None? || items[k].number[INDICATOR] < 0 then None
                       else Some(FromData(t, items[k].data.value))
    {
      MatchesLayout(items[k], t, length, true);
      if items[k].data.None? || items[k].number[INDICATOR] < 0 {
        return None;
      }
      // The layout that's read is the one that was written.
      match t {
        case SmallIntHost => value := Some(HostInteger(items[k].data.value.n));
        case IntegerHost => value := Some(HostInteger(items[k].data.value.n));
        case BigIntHost => value := Some(HostInteger(items[k].data.value.n));
        case RealHost => value := Some(HostFloat(items[k].data.value.f));
        case DoubleHost => value := Some(HostFloat(items[k].data.value.f));
        case BooleanHost => value := Some(HostInteger(if items[k].data.value.octets == TRUE_OCTETS then 1 else 0));
      }
    }

    // A string target has the first characters of DATA, or all of them and spaces.
    method GetText(k: nat, t: HostType, length: nat, target: array<Octet>, ghost s: seq<Character>, ghost n: nat)
      returns (truncated: bool)
      requires Valid() && k < max && items[k].Matches(t, length, true) && (t.CharHost? || t.VarcharHost?)
      requires n <= |Encode(s)|
      requires items[k].data.Some? && items[k].number[INDICATOR] >= 0 ==>
        items[k].data.value == StringData(Encode(s)[..n])
      requires target.Length == (length + 1) * 4
      modifies target
      ensures if items[k].data.None? || items[k].number[INDICATOR] < 0
        then !truncated && target[..] == old(target[..])
        else Holds(target[..], Put(s, n, length)) && (truncated <==> Starts(Encode(s)[..n]) > length)
    {
      if items[k].data.None? || items[k].number[INDICATOR] < 0 {
        return false;
      }
      var octets := items[k].data.value.octets;
      var data := new Octet[|octets| + 1];
      NoNull(s);
      Store(data, octets);
      truncated := PutString(target, length, data, s, n);
    }

    method SetCount(n: int) returns (status: SqlState)
      requires Valid()
      modifies this`count
      ensures Valid() && (status == SUCCESSFUL <==> InRange(n, INTEGER_LIMIT))
      ensures count == if status == SUCCESSFUL then n else old(count)
      ensures status == SUCCESSFUL || status == OUT_OF_RANGE
    {
      if !InRange(n, INTEGER_LIMIT) {
        return OUT_OF_RANGE;
      }
      count := n;
      return SUCCESSFUL;
    }

    // The item for SET DESCRIPTOR. It doesn't have to be within COUNT.
    method SetItem(n: int) returns (status: SqlState)
      requires Valid()
      ensures status == (if 1 <= n <= max then SUCCESSFUL else INVALID_INDEX)
    {
      return if n < 1 || n > max then INVALID_INDEX else SUCCESSFUL;
    }

    // A number is set. DATA is undefined, even if the number can't be set.
    method SetNumber(k: nat, component: nat, value: int) returns (status: SqlState)
      requires Valid() && k < max && component < NUMBERS
      modifies items
      ensures Valid() && Only(old(items[..]), items[..], k) && items[k].data == None
      ensures status == SUCCESSFUL ==> items[k].number[component] == value
      ensures status != SUCCESSFUL ==> items[k] == old(items[k]).(data := None)
      ensures status == OUT_OF_RANGE <==> !InRange(value, INTEGER_LIMIT)
      ensures status == INVALID_LEVEL <==> InRange(value, INTEGER_LIMIT) && component == LEVEL && value != 0
      ensures status == INVALID_DATETIME_CODE <==>
        && InRange(value, INTEGER_LIMIT) && component == DATETIME_INTERVAL_CODE
        && !(old(items[k].number[TYPE]) == SQL_DATETIME && SQL_CODE_DATE <= value <= 5)
      ensures status in {SUCCESSFUL, OUT_OF_RANGE, INVALID_LEVEL, INVALID_DATETIME_CODE}
      // The other components are reset to their defaults when the type is set.
      ensures status == SUCCESSFUL && component == TYPE ==> items[k] == OfType(value)
      // TIME and TIMESTAMP have another default precision. Nothing else changes.
      ensures status == SUCCESSFUL && component == DATETIME_INTERVAL_CODE ==>
        items[k] == old(items[k]).(data := None).Set(PRECISION, if value == 3 || value == 5 then 6 else 0)
                                 .Set(component, value)
      ensures status == SUCCESSFUL && component != TYPE && component != DATETIME_INTERVAL_CODE ==>
        items[k] == old(items[k]).(data := None).Set(component, value)
    {
      items[k] := items[k].(data := None);
      if !InRange(value, INTEGER_LIMIT) {
        return OUT_OF_RANGE;
      }
      if component == LEVEL && value != 0 {
        return INVALID_LEVEL;
      } else if component == TYPE {
        var level := items[k].number[LEVEL];
        items[k] := Empty().Set(LEVEL, level);
        if value == SQL_CHAR || value == SQL_VARCHAR {
          items[k] := items[k].Set(LENGTH, 1).SetText(CHARACTER_SET_SCHEMA,
            "INFORMATION_SCHEMA").SetText(CHARACTER_SET_NAME, "UTF8");
        } else if value == SQL_NUMERIC || value == SQL_DECIMAL {
          items[k] := items[k].Set(PRECISION, 18);
        } else if value == SQL_FLOAT {
          items[k] := items[k].Set(PRECISION, 53);
        }
      } else if component == DATETIME_INTERVAL_CODE {
        if items[k].number[TYPE] != SQL_DATETIME || value < SQL_CODE_DATE || value > 5 {
          return INVALID_DATETIME_CODE;
        }
        items[k] := items[k].Set(PRECISION, if value == 3 || value == 5 then 6 else 0);
      }
      items[k] := items[k].Set(component, value);
      return SUCCESSFUL;
    }

    method SetString(k: nat, component: nat, value: string)
      requires Valid() && k < max && component < STRINGS
      modifies items
      ensures Valid() && Only(old(items[..]), items[..], k)
        && items[k] == old(items[k]).SetText(component, value).(data := None)
    {
      items[k] := items[k].(data := None);
      items[k] := items[k].SetText(component, value);
    }

    // DATA is set to the value of a host parameter that matches the item.
    method SetData(k: nat, t: HostType, length: int, value: HostValue) returns (status: SqlState)
      requires Valid() && k < max && value.Of(t)
      modifies items
      ensures Valid() && Only(old(items[..]), items[..], k)
      ensures status == ERROR_IN_ASSIGNMENT <==> !items[k].Matches(t, length, false)
      ensures status == OUT_OF_RANGE <==>
        items[k].Matches(t, length, false) && t.IntegerHost? && !InRange(value.n, INTEGER_LIMIT)
      ensures status in {SUCCESSFUL, ERROR_IN_ASSIGNMENT, OUT_OF_RANGE}
      ensures items[k] == if status == SUCCESSFUL then old(items[k]).(data := Some(ToData(t, value))) else old(items[k])
    {
      if !items[k].Matches(t, length, false) {
        return ERROR_IN_ASSIGNMENT;
      }
      if t.IntegerHost? && !InRange(value.n, INTEGER_LIMIT) {
        return OUT_OF_RANGE;
      }
      MatchesLayout(items[k], t, length, false);
      AsciiIsPiece(TRUE_OCTETS);
      AsciiIsPiece(FALSE_OCTETS);
      items[k] := items[k].(data := Some(ToData(t, value)));
      return SUCCESSFUL;
    }

    // The first COUNT items are as many as n, and complete.
    method CheckItems(n: nat, code: SqlState) returns (status: SqlState)
      requires Valid() && code != SUCCESSFUL && code != INVALID_COUNT
      ensures status in {SUCCESSFUL, INVALID_COUNT, code}
      ensures status == INVALID_COUNT <==> count < 0 || count > max
      ensures status == SUCCESSFUL <==> count == n <= max && forall k | 0 <= k < n :: items[k].IsComplete()
    {
      if count < 0 || count > max {
        return INVALID_COUNT;
      }
      var i := 0;
      while i < count
        invariant 0 <= i <= count
        invariant forall k | 0 <= k < i :: items[k].IsComplete()
      {
        if !items[i].IsComplete() {
          return code;
        }
        i := i + 1;
      }
      return if count != n then code else SUCCESSFUL;
    }

    method DescribeColumn(d: Description, k: nat)
      requires Valid() && k < max
      modifies items
      ensures Valid() && Only(old(items[..]), items[..], k) && items[k] == Described(d)
    {
      items[k] := Empty();
      items[k] := items[k].Set(TYPE, d.concise).Set(DATETIME_INTERVAL_CODE, d.code).Set(LENGTH, d.length)
                          .Set(OCTET_LENGTH, d.octetLength).Set(PRECISION, d.precision).Set(SCALE, d.scale)
                          .Set(NULLABLE, d.nullable).Set(UNNAMED, d.unnamed)
                          .SetText(NAME, d.name).SetText(CHARACTER_SET_NAME, d.characterSet);
      if SQL_TYPE_DATE <= items[k].number[TYPE] <= SQL_TYPE_TIMESTAMP_WITH_TIMEZONE {
        items[k] := items[k].Set(TYPE, SQL_DATETIME);
      }
    }

    // DESCRIBE. COUNT is the number of columns, even when there aren't enough items for them.
    method Describe(columns: seq<Description>) returns (status: SqlState)
      requires Valid()
      modifies this`count, this`topLevelCount, items
      ensures Valid() && count == topLevelCount == |columns|
      ensures status == if |columns| > max then TOO_FEW_ITEMS else SUCCESSFUL
      ensures forall k | 0 <= k < max ::
        items[k] == if |columns| <= max && k < |columns| then Described(columns[k]) else old(items[k])
    {
      count, topLevelCount := |columns|, |columns|;
      if |columns| > max {
        return TOO_FEW_ITEMS;
      }
      for i := 0 to |columns|
        invariant Valid() && count == |columns| && topLevelCount == |columns|
        invariant forall k | 0 <= k < max :: items[k] == if k < i then Described(columns[k]) else old(items[k])
      {
        DescribeColumn(columns[i], i);
      }
      return SUCCESSFUL;
    }

    // The values of the items are bound to the dynamic parameters of a statement: each is the
    // null value, or DATA that is laid out as its type.
    method BindItems(n: nat) returns (status: SqlState, bound: seq<Bound>)
      requires Valid()
      ensures status in {SUCCESSFUL, INVALID_COUNT, INPUT_MISMATCH}
      ensures status == INVALID_COUNT <==> count < 0 || count > max
      ensures status == SUCCESSFUL <==>
        && count == n <= max
        && forall k | 0 <= k < n :: items[k].IsComplete() && (items[k].data.Some? || items[k].number[INDICATOR] < 0)
      ensures |bound| <= n && (status == SUCCESSFUL ==> |bound| == n)
      ensures forall k | 0 <= k < |bound| :: k < max && IsBound(bound[k], items[k])
    {
      bound := [];
      status := CheckItems(n, INPUT_MISMATCH);
      if status != SUCCESSFUL {
        return;
      }
      var i := 0;
      while i < n
        invariant |bound| == i <= n
        invariant forall k | 0 <= k < i :: items[k].data.Some? || items[k].number[INDICATOR] < 0
        invariant forall k | 0 <= k < i :: IsBound(bound[k], items[k])
      {
        if items[i].data.None? && items[i].number[INDICATOR] >= 0 {
          return INPUT_MISMATCH, bound;
        }
        bound := bound + [BindItem(items[i])];
        i := i + 1;
      }
    }

    // A column is retrieved as the type of item k. The item doesn't change if that fails.
    method GetColumn(row: Row, i: nat, k: nat) returns (rc: ReturnCode)
      requires Valid() && k < max && items[k].IsComplete()
      requires row.Valid() && 1 <= i <= |row.columns| && row.column != i
      modifies items, row`column, row`at
      ensures Valid() && row.Valid() && Only(old(items[..]), items[..], k)
      ensures row.column == 0 || row.column == i
      ensures rc == GotCode(old(items[k]), row.columns[i - 1])
      ensures if Failed(rc) then items[k] == old(items[k])
              else Got(old(items[k]), row.columns[i - 1], i in row.varying, items[k])
    {
      hide Encode, Starts;
      var item := items[k];
      var characters, octets := 0, 0;
      var varying := item.number[TYPE] != SQL_VARCHAR && i in row.varying;
      if varying {
        characters, octets := Measure(row, i);
      }
      var data, length;
      rc, data, length := ReadData(row, i, item);
      if Failed(rc) {
        return;
      }
      item := item.(data := Some(data)).Set(INDICATOR, if length < 0 then -1 else 0);
      if length >= 0 {
        if item.number[TYPE] == SQL_VARCHAR {
          characters, octets := Starts(data.octets), |data.octets|;
          varying := true;
        }
        if varying {
          item := item.Set(RETURNED_LENGTH, characters).Set(RETURNED_OCTET_LENGTH, octets);
        }
      }
      items[k] := item;
    }

    // The row that was fetched is assigned to the items.
    method Into(row: Row) returns (rc: ReturnCode, status: SqlState)
      requires Valid() && row.Valid() && row.column == 0
      modifies items, row`column, row`at
      ensures Valid() && row.Valid()
      ensures status == INVALID_COUNT <==> count < 0 || count > max
      ensures status == OUTPUT_MISMATCH <==>
        && 0 <= count <= max
        && !(count == |row.columns| && forall k | 0 <= k < count :: old(items[k]).IsComplete())
      ensures status == INVALID_COUNT || status == OUTPUT_MISMATCH ==> items[..] == old(items[..])
      ensures status in {INVALID_COUNT, OUTPUT_MISMATCH, SUCCESSFUL, RIGHT_TRUNCATION}
      ensures status in {SUCCESSFUL, RIGHT_TRUNCATION} ==>
        && (Failed(rc) <==> exists k | 0 <= k < count :: Failed(GotCode(old(items[k]), row.columns[k])))
        && (!Failed(rc) ==> forall k | 0 <= k < count ::
          Got(old(items[k]), row.columns[k], k + 1 in row.varying, items[k]))
        && (!Failed(rc) ==> (status == RIGHT_TRUNCATION <==>
              exists k | 0 <= k < count :: GotCode(old(items[k]), row.columns[k]).SuccessWithInfo?))
        && forall k | count <= k < max :: items[k] == old(items[k])
    {
      hide Encode, Starts, Got, GotCode;
      rc := Success;
      status := CheckItems(|row.columns|, OUTPUT_MISMATCH);
      if status != SUCCESSFUL {
        return;
      }
      var i := 0;
      while i < count && !Failed(rc)
        invariant 0 <= i <= count && Valid() && row.Valid()
        invariant row.column <= i && (status == SUCCESSFUL || status == RIGHT_TRUNCATION)
        invariant forall k | i <= k < max :: items[k] == old(items[k])
        invariant if Failed(rc) then i > 0 && rc == GotCode(old(items[i - 1]), row.columns[i - 1])
          else forall k | 0 <= k < i ::
            !Failed(GotCode(old(items[k]), row.columns[k]))
              && Got(old(items[k]), row.columns[k], k + 1 in row.varying, items[k])
        invariant !Failed(rc) ==>
          (status == RIGHT_TRUNCATION <==> exists k | 0 <= k < i ::
            GotCode(old(items[k]), row.columns[k]).SuccessWithInfo?)
      {
        rc := GetColumn(row, i + 1, i);
        if rc.SuccessWithInfo? {
          status := RIGHT_TRUNCATION;
        }
        i := i + 1;
      }
    }
  }

  // A value that isn't longer than a CHARACTER is padded with spaces to its length, and the
  // returned lengths of a CHARACTER VARYING are those of the value even if it's longer.
  lemma GotCharacter(before: Item, column: Column, varying: bool, after: Item)
    requires before.IsComplete() && before.number[TYPE] == SQL_CHAR && column.Value?
    requires Got(before, column, varying, after)
    ensures |column.text| <= before.number[LENGTH] ==>
      after.data == Some(StringData(Encode(Fitted(column.text, before.number[LENGTH]))))
    ensures varying ==>
      after.number[RETURNED_LENGTH] == |column.text| && after.number[RETURNED_OCTET_LENGTH] == |Encode(column.text)|
  {
    var octets := Encode(column.text);
    var k := Fit(|octets|, before.Size());
    PaddedFits(column.text, k, before.number[LENGTH]);
  }

  // The value of a host parameter that DATA is assigned to, other than a string.
  function FromData(t: HostType, data: Data): HostValue
    requires !t.CharHost? && !t.VarcharHost?
  {
    match data
    case RealData(f) => HostFloat(f)
    case DoubleData(f) => HostFloat(f)
    case StringData(octets) => HostInteger(if octets == TRUE_OCTETS then 1 else 0)
    case Garbage => HostInteger(0)
    case SmallIntData(n) => HostInteger(n)
    case IntegerData(n) => HostInteger(n)
    case BigIntData(n) => HostInteger(n)
  }

  // A value that was set is the one that's retrieved. Any BOOLEAN but 0 (zero) is 1.
  lemma SetThenGet(t: HostType, value: HostValue)
    requires value.Of(t) && !t.CharHost? && !t.VarcharHost?
    ensures FromData(t, ToData(t, value)) ==
      if t.BooleanHost? then HostInteger(if value.n != 0 then 1 else 0) else value
  {
  }

  // An item with the defaults for a type.
  function OfType(t: int): (r: Item)
    ensures r.number[TYPE] == t && r.data.None?
    ensures r.number[LENGTH] == (if t in {SQL_CHAR, SQL_VARCHAR} then 1 else 0)
    ensures r.number[PRECISION] == (if t in {SQL_NUMERIC, SQL_DECIMAL} then 18 else if t == SQL_FLOAT then 53 else 0)
    ensures t in {SQL_CHAR, SQL_VARCHAR} ==>
      r.text[CHARACTER_SET_SCHEMA] == "INFORMATION_SCHEMA" && r.text[CHARACTER_SET_NAME] == "UTF8"
    ensures forall k | 0 <= k < NUMBERS && k !in {TYPE, LENGTH, PRECISION} :: r.number[k] == 0
  {
    if t == SQL_CHAR || t == SQL_VARCHAR then
      Empty().Set(TYPE, t).Set(LENGTH, 1).SetText(CHARACTER_SET_SCHEMA,
        "INFORMATION_SCHEMA").SetText(CHARACTER_SET_NAME, "UTF8")
    else if t == SQL_NUMERIC || t == SQL_DECIMAL then Empty().Set(TYPE, t).Set(PRECISION, 18)
    else if t == SQL_FLOAT then Empty().Set(TYPE, t).Set(PRECISION, 53)
    else Empty().Set(TYPE, t)
  }
}
