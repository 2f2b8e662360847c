/**
 The assignment of a column of the row that was fetched to a target (sections 9.1 and 9.4 of
 ISO/IEC 9075-2:2016).
 */
module Retrieval {
  import opened Wrappers
  import opened SqlCli
  import opened Utf8

  // The buffer has the string.
  ghost predicate Holds(buffer: seq<Octet>, s: seq<Octet>) {
    |s| < |buffer| && buffer[..|s|] == s && buffer[|s|] == 0 && 0 !in s
  }

  // What is assigned for a piece that is the first k octets of a value.
  ghost function Put(s: seq<Character>, k: nat, length: nat): seq<Octet>
    requires k <= |Encode(s)|
  {
    var piece := Encode(s)[..k];
    if Starts(piece) > length then Encode(Fitted(s, length)) else piece + Spaces(length - Starts(piece))
  }

  // It fits in a target of (length + 1) * 4 octets.
  lemma PutFits(s: seq<Character>, k: nat, length: nat)
    requires k <= |Encode(s)|
    ensures |Put(s, k, length)| <= length * 4 && 0 !in Put(s, k, length)
    ensures k == |Encode(s)| ==> Put(s, k, length) == Encode(Fitted(s, length))
    ensures Starts(Encode(s)[..k]) > length ==> length < |s| && Put(s, k, length) == Encode(Fitted(s, length))
  {
    var piece := Encode(s)[..k];
    PieceSize(s, k);
    NoNull(s);
    if Starts(piece) > length {
      NoNull(s[..length]);
      PieceSize(s[..length], |Encode(s[..length])|);
      assert Encode(s[..length])[..|Encode(s[..length])|] == Encode(s[..length]);
    } else if k == |Encode(s)| {
      EncodeSpaces(length - |s|);
      EncodeAdd(s, seq(length - |s|, _ => SPACE));
    }
  }

  // The last octet that's copied is the last one of a character.
  lemma PutCut(s: seq<Character>, k: nat, length: nat, octets: nat)
    requires octets < k <= |Encode(s)| && IsFirst(Encode(s)[octets]) && Starts(Encode(s)[..octets]) == length
    ensures Starts(Encode(s)[..k]) > length && length < |s| && Encode(s)[..octets] == Encode(s[..length])
  {
    PieceBoundary(s, octets);
    assert Encode(s)[..k] == Encode(s)[..octets] + Encode(s)[octets..k];
    StartsAdd(Encode(s)[..octets], Encode(s)[octets..k]);
  }

  // The value can be the target.
  method PutString(target: array<Octet>, length: nat, value: array<Octet>, ghost s: seq<Character>, ghost k: nat)
    returns (truncated: bool)
    requires k <= |Encode(s)| && Holds(value[..], Encode(s)[..k])
    requires target.Length >= (length + 1) * 4
    modifies target
    ensures Holds(target[..], Put(s, k, length))
    ensures truncated <==> Starts(Encode(s)[..k]) > length
  {
    ghost var piece := Encode(s)[..k];
    var octets, characters := Scan(length, value, piece);
    truncated := value[octets] != 0;
    if octets < k {
      assert piece[..octets] == Encode(s)[..octets];
      PutCut(s, k, length, octets);
    } else {
      assert piece[..octets] == piece;
    }
    PutFits(s, k, length);
    Move(target, value, octets, piece);
    Pad(target, octets, length - characters);
    assert truncated ==> Spaces(0) == [] && target[..octets] == Put(s, k, length);
  }

  // The octets of the first length characters of the value.
  method Scan(length: nat, value: array<Octet>, ghost piece: seq<Octet>) returns (octets: nat, characters: nat)
    requires Holds(value[..], piece)
    ensures octets <= |piece| && characters == Starts(piece[..octets]) <= length
    ensures octets == |piece| || (characters == length && IsFirst(piece[octets]))
  {
    octets, characters := 0, 0;
    while value[octets] != 0
      invariant octets <= |piece| && characters == Starts(piece[..octets]) <= length
      decreases |piece| - octets
    {
      assert piece[..octets + 1] == piece[..octets] + [piece[octets]];
      assert value[octets] == value[..][..|piece|][octets];
      StartsAdd(piece[..octets], [piece[octets]]);
      if IsFirst(value[octets]) {
        if characters == length {
          break;
        }
        characters := characters + 1;
      }
      octets := octets + 1;
    }
  }

  method Move(target: array<Octet>, value: array<Octet>, octets: nat, ghost piece: seq<Octet>)
    requires Holds(value[..], piece) && octets <= |piece| && octets <= target.Length
    modifies target
    ensures target[..octets] == piece[..octets]
    ensures target != value ==> target[octets..] == old(target[octets..])
  {
    for i := 0 to octets
      invariant value[..][..|piece|] == piece
      invariant target[..i] == piece[..i]
      invariant target[octets..] == old(target[octets..])
    {
      assert value[i] == value[..][..|piece|][i] == piece[i];
      target[i] := value[i];
    }
  }

  method Pad(target: array<Octet>, octets: nat, spaces: nat)
    requires octets + spaces < target.Length && 0 !in target[..octets]
    modifies target
    ensures Holds(target[..], old(target[..octets]) + Spaces(spaces))
  {
    ghost var s := target[..octets];
    var end := octets;
    while end < octets + spaces
      invariant octets <= end <= octets + spaces
      invariant target[..end] == s + Spaces(end - octets)
    {
      target[end] := 0x20;
      end := end + 1;
      assert target[..end] == target[..end - 1] + [0x20];
    }
    target[end] := 0;
    assert target[..][..end] == target[..end];
  }

  // A value of an approximate numeric type, which isn't looked into.
  datatype Float = Float(bits: nat)

  // A value, converted to a character string, and to a number if it can be.
  datatype Column = Null | Value(text: seq<Character>, integer: Option<int>, float: Option<Float>)

  // A type of integers has the ones from -limit to limit - 1.
  const SMALLINT_LIMIT := 0x8000
  const INTEGER_LIMIT := 0x8000_0000
  const BIGINT_LIMIT := 0x8000_0000_0000_0000

  predicate InRange(n: int, limit: nat) {
    0 <= n + limit && n < limit
  }

  function ToInteger(column: Column, limit: nat): Option<int>
    requires column.Value?
  {
    if column.integer.Some? && InRange(column.integer.value, limit) then column.integer else None
  }

  // The row that was fetched, for SQLGetData.
  class Row {
    const columns: seq<Column>
    // The columns that are CHARACTER VARYING.
    const varying: set<nat>
    // The column that is being retrieved in pieces (or 0), and how many of its octets have been.
    var column: nat
    var at: nat

    constructor (columns: seq<Column>, varying: set<nat>)
      ensures Valid() && this.columns == columns && this.varying == varying && column == 0
    {
      this.columns, this.varying, column, at := columns, varying, 0, 0;
    }

    ghost predicate Valid()
      reads this
    {
      column > 0 ==> column <= |columns| && columns[column - 1].Value? && at < |Encode(columns[column - 1].text)|
    }

    function From(i: nat): nat
      reads this
    {
      if column == i then at else 0
    }

    // A value that doesn't fit is retrieved in pieces. After the last piece, it starts again. A
    // null value needs an indicator.
    method GetString(i: nat, buffer: array<Octet>, wanted: bool) returns (rc: ReturnCode, indicator: int)
      requires Valid() && 1 <= i <= |columns| && 0 < buffer.Length
      modifies this`column, this`at, buffer
      ensures Valid()
      ensures columns[i - 1].Null? ==>
        && rc == (if wanted then Success else Error) && indicator == -1
        && buffer[..] == old(buffer[..]) && column == 0
      ensures columns[i - 1].Value? ==>
        var rest := Encode(columns[i - 1].text)[old(From(i))..];
        && indicator == |rest|
        && if |rest| < buffer.Length then rc.Success? && Holds(buffer[..], rest) && column == 0
           else rc.SuccessWithInfo? && Holds(buffer[..], rest[..buffer.Length - 1])
                && column == i && at == old(From(i)) + buffer.Length - 1
    {
      var start := From(i);
      column, at := 0, 0;
      if columns[i - 1].Null? {
        return if wanted then Success else Error, -1;
      }
      var octets := Encode(columns[i - 1].text);
      NoNull(columns[i - 1].text);
      indicator := |octets| - start;
      var n := if indicator < buffer.Length then indicator else buffer.Length - 1;
      Store(buffer, octets[start..start + n]);
      rc := Success;
      if n < indicator {
        column, at := i, start + n;
        rc := SuccessWithInfo;
      }
      assert octets[start..start + n] == octets[start..][..n];
      assert octets[start..][..indicator] == octets[start..];
    }

    method GetInteger(i: nat, limit: nat, wanted: bool) returns (rc: ReturnCode, integer: int, indicator: int)
      requires Valid() && 1 <= i <= |columns| && column != i
      modifies this`column, this`at
      ensures Valid() && column == 0
      ensures columns[i - 1].Null? ==> rc == (if wanted then Success else Error) && indicator == -1
      ensures columns[i - 1].Value? && ToInteger(columns[i - 1], limit).None? ==> rc.Error?
      ensures columns[i - 1].Value? && ToInteger(columns[i - 1], limit).Some? ==>
        rc.Success? && indicator == 0 && ToInteger(columns[i - 1], limit) == Some(integer)
    {
      column, at := 0, 0;
      if columns[i - 1].Null? {
        return if wanted then Success else Error, 0, -1;
      }
      match ToInteger(columns[i - 1], limit)
      case None => return Error, 0, 0;
      case Some(n) => return Success, n, 0;
    }

    method GetFloat(i: nat, wanted: bool) returns (rc: ReturnCode, float: Float, indicator: int)
      requires Valid() && 1 <= i <= |columns| && column != i
      modifies this`column, this`at
      ensures Valid() && column == 0
      ensures columns[i - 1].Null? ==> rc == (if wanted then Success else Error) && indicator == -1
      ensures columns[i - 1].Value? && columns[i - 1].float.None? ==> rc.Error?
      ensures columns[i - 1].Value? && columns[i - 1].float.Some? ==>
        rc.Success? && indicator == 0 && columns[i - 1].float == Some(float)
    {
      column, at := 0, 0;
      match columns[i - 1]
      case Null => return if wanted then Success else Error, Float(0), -1;
      case Value(_, _, None) => return Error, Float(0), 0;
      case Value(_, _, Some(f)) => return Success, f, 0;
    }
  }

  method Store(buffer: array<Octet>, s: seq<Octet>)
    requires |s| < buffer.Length && 0 !in s
    modifies buffer
    ensures Holds(buffer[..], s)
  {
    for i := 0 to |s|
      invariant buffer[..i] == s[..i]
    {
      buffer[i] := s[i];
    }
    buffer[|s|] := 0;
    assert buffer[..][..|s|] == buffer[..|s|] == s;
  }

  // The number of characters that start in a piece.
  method Characters(buffer: array<Octet>, ghost piece: seq<Octet>) returns (n: nat)
    requires Holds(buffer[..], piece)
    ensures n == Starts(piece)
  {
    n := 0;
    var i := 0;
    while buffer[i] != 0
      invariant i <= |piece| && n == Starts(piece[..i])
      decreases |piece| - i
    {
      assert piece[..i + 1] == piece[..i] + [piece[i]];
      assert buffer[i] == buffer[..][..|piece|][i];
      StartsAdd(piece[..i], [piece[i]]);
      if IsFirst(buffer[i]) {
        n := n + 1;
      }
      i := i + 1;
    }
    assert piece[..|piece|] == piece;
  }

  // The first octets octets of a value have been retrieved, and rc is the return code.
  ghost predicate Retrieved(row: Row, i: nat, rc: ReturnCode, octets: nat)
    reads row
  {
    && row.Valid() && 1 <= i <= |row.columns| && row.columns[i - 1].Value?
    && octets <= |Encode(row.columns[i - 1].text)|
    && if rc.SuccessWithInfo? then row.column == i && row.at == octets
       else rc.Success? && row.column == 0 && octets == |Encode(row.columns[i - 1].text)|
  }

  // The characters of the next piece of a value. A piece can end in the middle of a character.
  method CountPiece(row: Row, i: nat, buffer: array<Octet>, ghost p: nat)
    returns (rc: ReturnCode, n: nat, ghost end: nat)
    requires row.Valid() && 1 <= i <= |row.columns| && row.columns[i - 1].Value? && buffer.Length > 1
    requires row.From(i) == p <= |Encode(row.columns[i - 1].text)|
    modifies row`column, row`at, buffer
    ensures Retrieved(row, i, rc, end) && p <= end && (rc.SuccessWithInfo? ==> p < end)
    ensures Holds(buffer[..], Encode(row.columns[i - 1].text)[p..end])
    ensures Starts(Encode(row.columns[i - 1].text)[..end]) == Starts(Encode(row.columns[i - 1].text)[..p]) + n
  {
    hide Encode, Starts;
    ghost var octets := Encode(row.columns[i - 1].text);
    var indicator;
    rc, indicator := row.GetString(i, buffer, false);
    end := if rc.SuccessWithInfo? then row.at else |octets|;
    assert octets[p..][..end - p] == octets[p..end];
    assert octets[p..][..|octets| - p] == octets[p..];
    n := Characters(buffer, octets[p..end]);
    assert octets[..end] == octets[..p] + octets[p..end];
    StartsAdd(octets[..p], octets[p..end]);
  }

  method CountRest(row: Row, i: nat, buffer: array<Octet>, first: ReturnCode, counted: nat, ghost k: nat)
    returns (n: nat)
    requires Retrieved(row, i, first, k) && buffer.Length > 1
    requires counted == Starts(Encode(row.columns[i - 1].text)[..k])
    modifies row`column, row`at, buffer
    ensures row.Valid() && row.column == 0 && n == |row.columns[i - 1].text|
  {
    hide Encode, Starts;
    ghost var p := k;
    var rc := first;
    n := counted;
    while rc.SuccessWithInfo?
      invariant Retrieved(row, i, rc, p) && n == Starts(Encode(row.columns[i - 1].text)[..p])
      decreases rc.SuccessWithInfo?, |Encode(row.columns[i - 1].text)| - p
    {
      var more;
      rc, more, p := CountPiece(row, i, buffer, p);
      n := n + more;
    }
    PieceSize(row.columns[i - 1].text, p);
  }

  datatype TargetType = Integer | Boolean | Text(length: nat)

  // A host parameter. max is the largest value of its indicator parameter, or 0 (zero) if it
  // doesn't have one.
  class HostTarget {
    const targetType: TargetType
    const max: nat
    const value: array<Octet>
    var integer: int
    var indicator: int

    constructor (targetType: TargetType, max: nat)
      ensures this.targetType == targetType && this.max == max && fresh(value) && Valid()
    {
      this.targetType, this.max := targetType, max;
      value := new Octet[if targetType.Text? then (targetType.length + 1) * 4 else 0](_ => 0);
      integer, indicator := 0, 0;
    }

    ghost predicate Valid() {
      targetType.Text? ==> value.Length == (targetType.length + 1) * 4
    }
  }

  const TRUE: seq<Character> := [0x54, 0x52, 0x55, 0x45]

  method AssignText(row: Row, i: nat, t: HostTarget) returns (rc: ReturnCode)
    requires row.Valid() && 1 <= i <= |row.columns| && row.column != i && t.Valid() && t.targetType.Text?
    modifies row`column, row`at, t`indicator, t.value
    ensures row.Valid()
    ensures row.columns[i - 1].Null? ==> if t.max > 0 then rc.Success? && t.indicator == -1 else rc.Error?
    ensures row.columns[i - 1].Value? ==>
      var text := row.columns[i - 1].text;
      if |text| <= t.targetType.length then rc.Success? && t.indicator == 0
      else if t.max == 0 then rc.SuccessWithInfo?
      else if |text| > t.max then rc.IndicatorOverflow?
      else rc.SuccessWithInfo? && t.indicator == |text|
    ensures if row.columns[i - 1].Null? then t.value[..] == old(t.value[..])
            else Holds(t.value[..], Encode(Fitted(row.columns[i - 1].text, t.targetType.length)))
  {
    var ind;
    rc, ind := row.GetString(i, t.value, t.max > 0);
    if t.max > 0 {
      t.indicator := ind;
    }
    if Failed(rc) || (t.max > 0 && t.indicator < 0) {
      return;
    }
    ghost var octets := Encode(row.columns[i - 1].text);
    ghost var k := if rc.SuccessWithInfo? then row.at else |octets|;
    assert octets[0..][..k] == octets[..k] && octets[0..] == octets;
    rc := CutText(row, i, t, rc, k);
  }

  // The target has the first k octets of the value.
  method CutText(row: Row, i: nat, t: HostTarget, first: ReturnCode, ghost k: nat) returns (rc: ReturnCode)
    requires Retrieved(row, i, first, k) && t.Valid() && t.targetType.Text?
    requires Holds(t.value[..], Encode(row.columns[i - 1].text)[..k])
    requires first.SuccessWithInfo? ==> k + 1 == t.value.Length
    modifies row`column, row`at, t`indicator, t.value
    ensures row.Valid()
    ensures var text := row.columns[i - 1].text;
      if |text| <= t.targetType.length then rc.Success? && t.indicator == 0
      else if t.max == 0 then rc.SuccessWithInfo?
      else if |text| > t.max then rc.IndicatorOverflow?
      else rc.SuccessWithInfo? && t.indicator == |text|
    ensures Holds(t.value[..], Encode(Fitted(row.columns[i - 1].text, t.targetType.length)))
  {
    hide Encode, Starts;
    ghost var text := row.columns[i - 1].text;
    var characters := Characters(t.value, Encode(text)[..k]);
    PieceSize(text, k);
    PutFits(text, k, t.targetType.length);
    var truncated := PutString(t.value, t.targetType.length, t.value, text, k);
    if !truncated {
      t.indicator := 0;
      return first;
    }
    if t.max == 0 {
      return SuccessWithInfo;
    }
    var b := new Octet[256];
    characters := CountRest(row, i, b, first, characters, k);
    if characters > t.max {
      return IndicatorOverflow;
    }
    t.indicator := characters;
    return SuccessWithInfo;
  }

  method AssignInteger(row: Row, i: nat, t: HostTarget) returns (rc: ReturnCode)
    requires row.Valid() && 1 <= i <= |row.columns| && row.column != i && t.targetType.Integer?
    modifies row`column, row`at, t`indicator, t`integer
    ensures row.Valid()
    ensures row.columns[i - 1].Null? ==> if t.max > 0 then rc.Success? && t.indicator == -1 else rc.Error?
    ensures row.columns[i - 1].Value? ==>
      if row.columns[i - 1].integer.Some? && -0x8000_0000 <= row.columns[i - 1].integer.value < 0x8000_0000 then
        rc.Success? && t.indicator == 0 && row.columns[i - 1].integer == Some(t.integer)
      else
        rc.Error? && t.integer == old(t.integer)
    ensures row.columns[i - 1].Null? ==> t.integer == old(t.integer)
  {
    var integer, ind;
    rc, integer, ind := row.GetInteger(i, INTEGER_LIMIT, t.max > 0);
    if t.max > 0 {
      t.indicator := ind;
    }
    if !Failed(rc) && (t.max == 0 || t.indicator >= 0) {
      t.integer := integer;
      t.indicator := 0;
    }
  }

  lemma IsTrue(text: seq<Character>, k: nat)
    requires k <= |Encode(text)| && (k < |Encode(text)| ==> k > 4)
    ensures Encode(text)[..k] == [0x54, 0x52, 0x55, 0x45] <==> text == TRUE
  {
    EncodeAscii(text);
    EncodeAscii(TRUE);
    if Encode(text)[..k] == [0x54, 0x52, 0x55, 0x45] {
      assert k == 4 && Encode(text)[..k] == Encode(text);
      assert forall j | 0 <= j < 4 :: Encode(text)[j] < 0x80;
    }
    if text == TRUE {
      assert Encode(text) == [0x54, 0x52, 0x55, 0x45];
    }
  }

  // strcmp(b, "TRUE") == 0
  method EqualsTrue(b: array<Octet>, ghost s: seq<Octet>) returns (r: bool)
    requires Holds(b[..], s) && b.Length > 5
    ensures r <==> s == [0x54, 0x52, 0x55, 0x45]
  {
    assert forall j | 0 <= j < |s| :: b[j] == b[..][..|s|][j];
    r := b[0] == 0x54 && b[1] == 0x52 && b[2] == 0x55 && b[3] == 0x45 && b[4] == 0;
  }

  // A BOOLEAN is retrieved as a string.
  method AssignBoolean(row: Row, i: nat, t: HostTarget) returns (rc: ReturnCode)
    requires row.Valid() && 1 <= i <= |row.columns| && row.column != i && t.targetType.Boolean?
    modifies row`column, row`at, t`indicator, t`integer
    ensures row.Valid()
    ensures row.columns[i - 1].Null? ==> if t.max > 0 then rc.Success? && t.indicator == -1 else rc.Error?
    ensures row.columns[i - 1].Value? ==>
      && t.indicator == 0 && t.integer == (if row.columns[i - 1].text == TRUE then 1 else 0)
      && if |Encode(row.columns[i - 1].text)| < 256 then rc.Success? else rc.SuccessWithInfo?
    ensures row.columns[i - 1].Null? ==> t.integer == old(t.integer)
  {
    var b := new Octet[256];
    var ind;
    rc, ind := row.GetString(i, b, t.max > 0);
    if t.max > 0 {
      t.indicator := ind;
    }
    if !Failed(rc) && (t.max == 0 || t.indicator >= 0) {
      ghost var text := row.columns[i - 1].text;
      ghost var k := if rc.SuccessWithInfo? then row.at else |Encode(text)|;
      assert Encode(text)[0..] == Encode(text) && Encode(text)[0..][..k] == Encode(text)[..k];
      IsTrue(text, k);
      var r := EqualsTrue(b, Encode(text)[..k]);
      t.integer := if r then 1 else 0;
      t.indicator := 0;
    }
  }

  // The assignment of a column. A string target has the first characters of the value (never part
  // of one), or all of them and spaces, whatever pieces the value was retrieved in.
  method Assign(row: Row, i: nat, t: HostTarget) returns (rc: ReturnCode)
    requires row.Valid() && 1 <= i <= |row.columns| && row.column != i && t.Valid()
    modifies row`column, row`at, t`indicator, t`integer, t.value
    ensures row.Valid()
    ensures row.columns[i - 1].Null? ==> if t.max > 0 then rc.Success? && t.indicator == -1 else rc.Error?
    ensures row.columns[i - 1].Value? && t.targetType.Text? ==>
      var text := row.columns[i - 1].text;
      if |text| <= t.targetType.length then rc.Success? && t.indicator == 0
      else if t.max == 0 then rc.SuccessWithInfo?
      else if |text| > t.max then rc.IndicatorOverflow?
      else rc.SuccessWithInfo? && t.indicator == |text|
    ensures row.columns[i - 1].Value? && t.targetType.Integer? ==>
      if row.columns[i - 1].integer.Some? && -0x8000_0000 <= row.columns[i - 1].integer.value < 0x8000_0000 then
        rc.Success? && t.indicator == 0 && row.columns[i - 1].integer == Some(t.integer)
      else
        rc.Error? && t.integer == old(t.integer)
    ensures row.columns[i - 1].Value? && t.targetType.Boolean? ==>
      && t.indicator == 0 && t.integer == (if row.columns[i - 1].text == TRUE then 1 else 0)
      && if |Encode(row.columns[i - 1].text)| < 256 then rc.Success? else rc.SuccessWithInfo?
    ensures t.targetType.Text? && row.columns[i - 1].Value? ==>
      Holds(t.value[..], Encode(Fitted(row.columns[i - 1].text, t.targetType.length)))
    ensures row.columns[i - 1].Null? ==> t.integer == old(t.integer) && t.value[..] == old(t.value[..])
  {
    match t.targetType {
      case Integer => rc := AssignInteger(row, i, t);
      case Boolean => rc := AssignBoolean(row, i, t);
      case Text(_) => rc := AssignText(row, i, t);
    }
  }
}
