/**
 The labels of the numbered rules of the standard: 1), a), i), 1), A), I) at each depth, and then
 again from 1).
 */
module RuleLabels {
  import opened Wrappers

  datatype Kind = Digit | Lower | RomanLower | Upper | RomanUpper

  const LEVELS: seq<Kind> := [Digit, Lower, RomanLower, Digit, Upper, RomanUpper]

  function KindOf(level: nat): Kind {
    LEVELS[level % 6]
  }

  predicate IsDigit(c: char) {
    '0' <= c <= '9'
  }

  predicate IsLower(c: char) {
    'a' <= c <= 'z'
  }

  predicate IsUpper(c: char) {
    'A' <= c <= 'Z'
  }

  predicate IsDigits(s: string) {
    s != "" && forall i | 0 <= i < |s| :: IsDigit(s[i])
  }

  predicate IsUppers(s: string) {
    s != "" && forall i | 0 <= i < |s| :: IsUpper(s[i])
  }

  function ToLower(s: string): string {
    seq(|s|, i requires 0 <= i < |s| => if IsUpper(s[i]) then s[i] - 'A' + 'a' else s[i])
  }

  function ToUpper(s: string): string {
    seq(|s|, i requires 0 <= i < |s| => if IsLower(s[i]) then s[i] - 'a' + 'A' else s[i])
  }

  function Roman(n: nat): string {
    if n >= 40 then "xl" + Roman(n - 40)
    else if n >= 10 then "x" + Roman(n - 10)
    else if n >= 9 then "ix" + Roman(n - 9)
    else if n >= 5 then "v" + Roman(n - 5)
    else if n >= 4 then "iv" + Roman(n - 4)
    else if n >= 1 then "i" + Roman(n - 1)
    else ""
  }

  const LAST_ROMAN: nat := 49

  function Romans(): seq<string> {
    seq(LAST_ROMAN, i requires 0 <= i < LAST_ROMAN => Roman(i + 1))
  }

  function Index(list: seq<string>, s: string): (k: nat)
    ensures k <= |list| && (k < |list| ==> list[k] == s)
    ensures s in list ==> k < |list|
  {
    if list == [] || list[0] == s then 0 else 1 + Index(list[1..], s)
  }

  function Decimal(n: nat): (s: string)
    ensures IsDigits(s)
  {
    var digit := [(n % 10) as char + '0'];
    if n < 10 then digit else Decimal(n / 10) + digit
  }

  function Number(s: string): nat
    requires s == "" || IsDigits(s)
  {
    if s == "" then 0 else 10 * Number(s[..|s| - 1]) + (s[|s| - 1] - '0') as nat
  }

  predicate LabelMatches(mark: string, level: nat) {
    match KindOf(level)
    case Digit => IsDigits(mark)
    case Lower => 1 <= |mark| <= 2 && forall i | 0 <= i < |mark| :: IsLower(mark[i])
    case Upper => |mark| == 1 && IsUpper(mark[0])
    case RomanLower => mark in Romans()
    case RomanUpper => ToLower(mark) in Romans() && IsUppers(mark)
  }

  function FirstLabel(level: nat): string {
    match KindOf(level)
    case Digit => "1"
    case Lower => "a"
    case Upper => "A"
    case RomanLower => "i"
    case RomanUpper => "I"
  }

  function NextChar(c: char): char
    requires c <= 'z'
  {
    c + 1 as char
  }

  // There is none after the last Roman numeral. After z) is aa), ab), etc.
  function NextLabel(mark: string, level: nat): Option<string>
    requires LabelMatches(mark, level)
  {
    match KindOf(level)
    case Digit => Some(Decimal(Number(mark) + 1))
    case RomanLower =>
      var i := Index(Romans(), mark);
      if i + 1 == |Romans()| then None else Some(Romans()[i + 1])
    case RomanUpper =>
      var i := Index(Romans(), ToLower(mark));
      if i + 1 == |Romans()| then None else Some(ToUpper(Romans()[i + 1]))
    case Upper => Some([NextChar(mark[0])])
    case Lower =>
      if mark == "z" then Some("aa")
      else if |mark| == 2 then Some([mark[0], NextChar(mark[1])])
      else Some([NextChar(mark[0])])
  }

  // Which one the label is at the level.
  function Rank(mark: string, level: nat): nat
    requires LabelMatches(mark, level)
  {
    match KindOf(level)
    case Digit => Number(mark)
    case RomanLower => Index(Romans(), mark) + 1
    case RomanUpper => Index(Romans(), ToLower(mark)) + 1
    case Upper => (mark[0] - 'A') as nat + 1
    case Lower =>
      if |mark| == 1 then (mark[0] - 'a') as nat + 1
      else 26 * ((mark[0] - 'a') as nat + 1) + (mark[1] - 'a') as nat + 1
  }

  lemma {:induction false} NumberOfDecimal(n: nat)
    ensures Number(Decimal(n)) == n
  {
    var s := Decimal(n);
    if n >= 10 {
      NumberOfDecimal(n / 10);
      assert s[..|s| - 1] == Decimal(n / 10);
    } else {
      assert s[..0] == "";
    }
  }

  // What a numeral is, so no two of them are the same.
  function RomanValue(s: string): nat {
    if s == "" then 0
    else if |s| > 1 && s[0] == 'x' && s[1] == 'l' then 40 + RomanValue(s[2..])
    else if |s| > 1 && s[0] == 'i' && s[1] == 'x' then 9 + RomanValue(s[2..])
    else if |s| > 1 && s[0] == 'i' && s[1] == 'v' then 4 + RomanValue(s[2..])
    else (match s[0] case 'x' => 10 case 'v' => 5 case 'i' => 1 case _ => 0) + RomanValue(s[1..])
  }

  lemma {:induction false} RomanValueOf(n: nat)
    requires n < 50
    ensures RomanValue(Roman(n)) == n
    ensures n < 40 ==> Roman(n) == "" || Roman(n)[0] != 'l'
    ensures n < 4 ==> Roman(n) == "" || Roman(n)[0] == 'i'
  {
    if n >= 40 {
      RomanValueOf(n - 40);
      assert Roman(n)[2..] == Roman(n - 40);
    } else if n >= 10 {
      RomanValueOf(n - 10);
      assert Roman(n)[1..] == Roman(n - 10);
    } else if n == 9 {
      assert Roman(n)[2..] == "";
    } else if n >= 5 {
      RomanValueOf(n - 5);
      assert Roman(n)[1..] == Roman(n - 5);
    } else if n == 4 {
      assert Roman(n)[2..] == "";
    } else if n >= 1 {
      RomanValueOf(n - 1);
      assert Roman(n)[1..] == Roman(n - 1);
    }
  }

  lemma RomanIndex(i: nat)
    requires i < LAST_ROMAN
    ensures Romans()[i] in Romans() && Index(Romans(), Romans()[i]) == i
  {
    var s := Romans()[i];
    assert s in Romans();
    RomanValueOf(i + 1);
    RomanValueOf(Index(Romans(), s) + 1);
  }

  lemma {:induction false} RomanIsLower(n: nat)
    ensures forall i | 0 <= i < |Roman(n)| :: IsLower(Roman(n)[i])
  {
    if n >= 40 {
      RomanIsLower(n - 40);
    } else if n >= 10 {
      RomanIsLower(n - 10);
    } else if n >= 9 {
      RomanIsLower(n - 9);
    } else if n >= 5 {
      RomanIsLower(n - 5);
    } else if n >= 4 {
      RomanIsLower(n - 4);
    } else if n >= 1 {
      RomanIsLower(n - 1);
    }
  }

  lemma LowerOfUpper(s: string)
    requires forall i | 0 <= i < |s| :: IsLower(s[i])
    ensures ToLower(ToUpper(s)) == s
  {
  }

  // The next label is one more.
  lemma NextRank(mark: string, next: string, level: nat)
    requires LabelMatches(mark, level) && NextLabel(mark, level) == Some(next) && LabelMatches(next, level)
    ensures Rank(next, level) == Rank(mark, level) + 1
  {
    match KindOf(level) {
      case Digit => NumberOfDecimal(Number(mark) + 1);
      case RomanLower => RomanIndex(Index(Romans(), mark) + 1);
      case RomanUpper =>
        var i := Index(Romans(), ToLower(mark)) + 1;
        RomanIsLower(i + 1);
        LowerOfUpper(Romans()[i]);
        RomanIndex(i);
      case _ =>
    }
  }

  lemma FirstRank(level: nat)
    ensures LabelMatches(FirstLabel(level), level) && Rank(FirstLabel(level), level) == 1
  {
    assert Roman(0) == "" && Roman(1) == "i";
    RomanIndex(0);
    assert Romans()[0] == "i" && ToLower("I") == "i";
    assert ""+"1" == "1" && "1"[..0] == "";
  }

  // The last label of the level, after which there's none. (After az) there's no ba).)
  predicate IsLast(mark: string, level: nat) {
    match KindOf(level)
    case Digit => false
    case Lower => |mark| == 2 && mark[1] == 'z'
    case Upper => mark == "Z"
    case RomanLower => mark == "xlix"
    case RomanUpper => mark == "XLIX"
  }

  lemma LastRoman(mark: string)
    requires mark in Romans()
    ensures Index(Romans(), mark) + 1 == |Romans()| <==> mark == "xlix"
  {
    var i := Index(Romans(), mark);
    assert Romans()[i] == mark;
    assert Roman(0) == "" && Roman(9) == "ix" && Roman(49) == "xlix";
    RomanIndex(48);
    assert Romans()[48] == Roman(49);
  }

  lemma UpperOfLower(s: string)
    requires IsUppers(s)
    ensures ToUpper(ToLower(s)) == s
  {
  }

  lemma UpperMatches(i: nat)
    requires i < LAST_ROMAN
    ensures var s := ToUpper(Romans()[i]); ToLower(s) in Romans() && IsUppers(s)
  {
    RomanIsLower(i + 1);
    LowerOfUpper(Romans()[i]);
    assert Romans()[i] in Romans();
    assert Roman(i + 1) != "";
  }

  lemma LastUpper(mark: string)
    requires IsUppers(mark)
    ensures ToLower(mark) == "xlix" <==> mark == "XLIX"
  {
    UpperOfLower(mark);
    assert ToLower("XLIX") == "xlix" && ToUpper("xlix") == "XLIX";
  }

  lemma NextUpperRoman(mark: string, level: nat)
    requires LabelMatches(mark, level) && KindOf(level).RomanUpper?
    ensures var next := NextLabel(mark, level); next.Some? && LabelMatches(next.value, level) <==> mark != "XLIX"
  {
    hide Romans, Index, ToLower, ToUpper, IsUppers;
    LastRoman(ToLower(mark));
    LastUpper(mark);
    var i := Index(Romans(), ToLower(mark)) + 1;
    if i < |Romans()| {
      RomansSize();
      UpperMatches(i);
    }
  }

  lemma RomansSize()
    ensures |Romans()| == LAST_ROMAN
  {
  }

  // Each label but the last one has a next one at its level.
  lemma NextMatchesIff(mark: string, level: nat)
    requires LabelMatches(mark, level)
    ensures var next := NextLabel(mark, level);
      next.Some? && LabelMatches(next.value, level) <==> !IsLast(mark, level)
  {
    match KindOf(level) {
      case RomanLower => LastRoman(mark);
      case RomanUpper => NextUpperRoman(mark, level);
      case Lower =>
        var next := NextLabel(mark, level).value;
        if |mark| == 2 {
          assert IsLower(next[0]) && (IsLower(next[1]) <==> mark[1] != 'z');
        } else {
          assert mark == "z" || IsLower(next[0]);
        }
      case Upper => assert mark == "Z" <==> mark[0] == 'Z';
      case Digit =>
    }
  }
}
