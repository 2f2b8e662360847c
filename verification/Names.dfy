/**
 Connection and user names: the parser of the runtime (vsql_m_name), which counts octets. Names of
 columns: the printers of the application (toName) and of the engine, and how the engine reads
 them, which counts characters.

 A string is a sequence of octets for the runtime and of characters for the engine. Both read a
 name in the same way, since all that they look for is ASCII. There is no null character.
 */
module Names {
  import opened Wrappers

  // In octets for the runtime, and in characters for the engine.
  const MAX := 128

  predicate IsLetter(c: char) {
    'A' <= c <= 'Z' || 'a' <= c <= 'z'
  }

  predicate IsDigit(c: char) {
    '0' <= c <= '9'
  }

  function ToUpper(c: char): char {
    if 'a' <= c <= 'z' then c - 'a' + 'A' else c
  }

  lemma CharactersAre(c: char)
    ensures IsLetter(c) <==> c in "ABCDEFGHIJKLMNOPQRSTUVWXYZ" || c in "abcdefghijklmnopqrstuvwxyz"
    ensures IsDigit(c) <==> c in "0123456789"
    ensures c !in "abcdefghijklmnopqrstuvwxyz" ==> ToUpper(c) == c
  {
  }

  lemma UpperOf(k: nat)
    requires k < 26
    ensures ToUpper("abcdefghijklmnopqrstuvwxyz"[k]) == "ABCDEFGHIJKLMNOPQRSTUVWXYZ"[k]
  {
  }

  function Upper(s: string): string {
    seq(|s|, i requires 0 <= i < |s| => ToUpper(s[i]))
  }

  predicate StartsIdentifier(c: char) {
    IsLetter(c) || c == '_'
  }

  // A regular identifier.
  predicate IsRegular(s: string) {
    s != "" && StartsIdentifier(s[0]) && forall i | 0 < i < |s| :: StartsIdentifier(s[i]) || IsDigit(s[i])
  }

  function TrimStart(s: string): string {
    if s != "" && s[0] == ' ' then TrimStart(s[1..]) else s
  }

  function TrimEnd(s: string): string {
    if s != "" && s[|s| - 1] == ' ' then TrimEnd(s[..|s| - 1]) else s
  }

  // The body of a delimited identifier, where a quote is doubled.
  function Double(s: string): string {
    if s == "" then "" else (if s[0] == '"' then "\"\"" else [s[0]]) + Double(s[1..])
  }

  function Undouble(s: string): Option<string> {
    if s == "" then Some("")
    else if s[0] == '"' then
      if |s| > 1 && s[1] == '"' then Prepend("\"", Undouble(s[2..])) else None
    else
      Prepend([s[0]], Undouble(s[1..]))
  }

  function Prepend(s: string, o: Option<string>): Option<string> {
    match o
    case None => None
    case Some(t) => Some(s + t)
  }

  lemma PrependTwice(s: string, t: string, o: Option<string>)
    ensures Prepend(s, Prepend(t, o)) == Prepend(s + t, o)
    ensures Prepend("", o) == o
  {
    if o.Some? {
      assert s + (t + o.value) == s + t + o.value;
      assert "" + o.value == o.value;
    }
  }

  // The identifier that s is, or an empty string.
  function ParseName(s: string): string {
    var t := TrimEnd(TrimStart(s));
    if t != "" && t[0] == '"' then
      if |t| < 3 || t[|t| - 1] != '"' then "" else
        match Undouble(t[1..|t| - 1])
        case None => ""
        case Some(x) => if |x| <= MAX then x else ""
    else if IsRegular(t) && |t| <= MAX then Upper(t) else ""
  }

  // What it is for a text to be written for an identifier: with the case ignored, or in quotes.
  ghost predicate Denotes(text: string, identifier: string) {
    || (IsRegular(text) && identifier == Upper(text))
    || (identifier != "" && text == "\"" + Double(identifier) + "\"")
  }

  lemma {:induction false} UndoubleDouble(s: string)
    ensures Undouble(Double(s)) == Some(s)
  {
    if s != "" {
      UndoubleDouble(s[1..]);
      assert [s[0]] + s[1..] == s;
      var d := Double(s);
      if s[0] == '"' {
        assert d[2..] == Double(s[1..]);
      } else {
        assert d[1..] == Double(s[1..]);
      }
    }
  }

  lemma {:induction false} DoubleUndouble(s: string)
    requires Undouble(s).Some?
    ensures Double(Undouble(s).value) == s
  {
    if s != "" {
      if s[0] == '"' {
        DoubleUndouble(s[2..]);
        assert s == "\"\"" + s[2..];
        assert Undouble(s).value[1..] == Undouble(s[2..]).value;
      } else {
        DoubleUndouble(s[1..]);
        assert s == [s[0]] + s[1..];
        assert Undouble(s).value[1..] == Undouble(s[1..]).value;
      }
    }
  }

  lemma {:induction false} DoubleLength(s: string)
    ensures |Double(s)| >= |s|
  {
    if s != "" {
      DoubleLength(s[1..]);
    }
  }

  lemma DelimitedIff(t: string, identifier: string)
    requires identifier != "" && t != "" && t[0] == '"'
    ensures |t| >= 3 && t[|t| - 1] == '"' && Undouble(t[1..|t| - 1]) == Some(identifier) <==>
            t == "\"" + Double(identifier) + "\""
  {
    if |t| >= 3 && t[|t| - 1] == '"' && Undouble(t[1..|t| - 1]) == Some(identifier) {
      DoubleUndouble(t[1..|t| - 1]);
      assert t == "\"" + t[1..|t| - 1] + "\"";
    }
    if t == "\"" + Double(identifier) + "\"" {
      assert t[1..|t| - 1] == Double(identifier);
      UndoubleDouble(identifier);
      DoubleLength(identifier);
    }
  }

  // A name is accepted exactly when the text (without surrounding spaces) is an identifier of up
  // to 128 octets (or characters), and then it is that identifier. So any other delimited name is
  // rejected.
  lemma ParseNameIff(s: string, identifier: string)
    requires identifier != ""
    ensures ParseName(s) == identifier <==>
            Denotes(TrimEnd(TrimStart(s)), identifier) && |identifier| <= 128
  {
    hide Undouble, Double, TrimStart, TrimEnd;
    var t := TrimEnd(TrimStart(s));
    if t != "" && t[0] == '"' {
      DelimitedIff(t, identifier);
    }
  }

  // The printer of the application. upper is the upper case form of the name that was entered,
  // as the browser makes it.
  function ToName(name: string, upper: string, reserved: set<string>): string {
    if name == "" then ""
    else if |name| > 1 && name[0] == '"' && name[|name| - 1] == '"' then name
    else Print(upper, reserved)
  }

  // An identifier, which is only in quotes if it has to be.
  function Print(identifier: string, reserved: set<string>): string {
    if IsRegular(identifier) && identifier == Upper(identifier) && identifier !in reserved then identifier
    else "\"" + Double(identifier) + "\""
  }

  // The printer of the engine leaves the names of subqueries as they are. These start with a dollar
  // sign, and so can the name of a column.
  function Requote(identifier: string, reserved: set<string>): string {
    if IsInternal(identifier) then identifier else Print(identifier, reserved)
  }

  predicate IsInternal(s: string) {
    s != "" && s[0] == '$'
  }

  // A text that starts and ends with a quote.
  predicate IsQuoted(s: string) {
    |s| > 1 && s[0] == '"' && s[|s| - 1] == '"'
  }

  // The identifier that a name that was entered is.
  function EnteredName(name: string, upper: string): string {
    if name == "" then "" else if IsQuoted(name) then ParseName(name) else if 1 <= |upper| <= MAX then upper else ""
  }

  function Spaces(n: nat): string {
    seq(n, _ => ' ')
  }

  lemma {:induction false} TrimStartSpaces(n: nat, s: string)
    ensures TrimStart(Spaces(n) + s) == TrimStart(s)
  {
    if n == 0 {
      assert Spaces(0) + s == s;
    } else {
      assert (Spaces(n) + s)[1..] == Spaces(n - 1) + s;
      TrimStartSpaces(n - 1, s);
    }
  }

  lemma {:induction false} TrimEndSpaces(s: string, n: nat)
    ensures TrimEnd(s + Spaces(n)) == TrimEnd(s)
  {
    if n == 0 {
      assert s + Spaces(0) == s;
    } else {
      var t := s + Spaces(n);
      assert t[..|t| - 1] == s + Spaces(n - 1);
      TrimEndSpaces(s, n - 1);
    }
  }

  // Spaces around the text of a name are ignored.
  lemma SpacesIgnored(a: nat, s: string, b: nat)
    requires s != "" && s[0] != ' ' && s[|s| - 1] != ' '
    ensures ParseName(Spaces(a) + s + Spaces(b)) == ParseName(s)
  {
    assert Spaces(a) + s + Spaces(b) == Spaces(a) + (s + Spaces(b));
    TrimStartSpaces(a, s + Spaces(b));
    assert TrimStart(s + Spaces(b)) == s + Spaces(b);
    TrimEndSpaces(s, b);
    Trimmed(s);
  }

  lemma PrintIs(identifier: string, reserved: set<string>)
    ensures ParseName(Print(identifier, reserved)) == if 1 <= |identifier| <= 128 then identifier else ""
  {
    var printed := Print(identifier, reserved);
    var r := ParseName(printed);
    if identifier != "" {
      Trimmed(printed);
      ParseNameIff(printed, identifier);
      if r != "" {
        ParseNameIff(printed, r);
        PrintedOnce(identifier, reserved, r);
      }
    }
  }

  lemma {:induction false} TrimEndKeeps(s: string)
    requires s != "" && s[0] != ' '
    ensures TrimEnd(s) != "" && TrimEnd(s)[0] == s[0]
  {
    if s[|s| - 1] == ' ' {
      TrimEndKeeps(s[..|s| - 1]);
    }
  }

  lemma InternalIsNoName(s: string)
    requires IsInternal(s)
    ensures ParseName(s) == ""
  {
    TrimEndKeeps(s);
  }

  // What the engine prints for an identifier can be read, exactly if it doesn't start with a dollar
  // sign and isn't too long.
  lemma RequoteIs(identifier: string, reserved: set<string>)
    ensures ParseName(Requote(identifier, reserved)) ==
            if 1 <= |identifier| <= 128 && !IsInternal(identifier) then identifier else ""
  {
    if IsInternal(identifier) {
      InternalIsNoName(identifier);
    } else {
      PrintIs(identifier, reserved);
    }
  }

  lemma Trimmed(s: string)
    requires s != "" && s[0] != ' ' && s[|s| - 1] != ' '
    ensures TrimEnd(TrimStart(s)) == s
  {
  }

  lemma PrintedOnce(identifier: string, reserved: set<string>, r: string)
    requires identifier != "" && r != "" && Denotes(Print(identifier, reserved), r)
    ensures r == identifier
  {
    UndoubleDouble(identifier);
    UndoubleDouble(r);
    var a, b := "\"" + Double(identifier) + "\"", "\"" + Double(r) + "\"";
    assert a[1..|a| - 1] == Double(identifier) && b[1..|b| - 1] == Double(r);
    assert a[0] == b[0] == '"';
  }

  // What's printed for a name that was entered is the identifier that it is.
  lemma EnteredNameIs(name: string, upper: string, reserved: set<string>)
    ensures ParseName(ToName(name, upper, reserved)) == EnteredName(name, upper)
  {
    if name != "" && !IsQuoted(name) {
      PrintIs(upper, reserved);
    }
  }

  // The runtime reads back the name that the application printed.
  lemma ToNameRoundTrip(name: string, upper: string, reserved: set<string>)
    requires name != "" && !(|name| > 1 && name[0] == '"' && name[|name| - 1] == '"')
    requires 1 <= |upper| <= 128
    ensures ParseName(ToName(name, upper, reserved)) == upper
  {
    var printed := ToName(name, upper, reserved);
    if printed == upper && IsRegular(upper) && upper == Upper(upper) {
      assert upper[|upper| - 1] != ' ';
    }
    assert printed[0] != ' ' && printed[|printed| - 1] != ' ';
    ParseNameIff(printed, upper);
  }

  // The string in a buffer.
  function CString(s: string): string {
    if s == "" || s[0] == '\0' then "" else [s[0]] + CString(s[1..])
  }

  lemma {:induction false} CStringPrefix(s: string, n: nat)
    requires n < |s| && s[n] == '\0' && '\0' !in s[..n]
    ensures CString(s) == s[..n]
  {
    if n > 0 {
      assert s[0] == s[..n][0];
      assert s[1..][..n - 1] == s[..n][1..];
      CStringPrefix(s[1..], n - 1);
    }
  }

  lemma {:induction false} TrimStartDrop(s: string, k: nat)
    requires k <= |s| && (forall i | 0 <= i < k :: s[i] == ' ') && (k < |s| ==> s[k] != ' ')
    ensures TrimStart(s) == s[k..]
  {
    if k > 0 {
      TrimStartDrop(s[1..], k - 1);
    }
  }

  lemma {:induction false} TrimEndTake(s: string, k: nat)
    requires k <= |s| && (forall i | k <= i < |s| :: s[i] == ' ') && (k > 0 ==> s[k - 1] != ' ')
    ensures TrimEnd(s) == s[..k]
    decreases |s|
  {
    if k < |s| {
      TrimEndTake(s[..|s| - 1], k);
      assert s[..|s| - 1][..k] == s[..k];
    }
  }

  ghost predicate Holds(name: seq<char>, value: string) {
    '\0' in name && CString(name) == value
  }

  lemma HoldsPrefix(name: seq<char>, n: nat)
    requires n < |name| && name[n] == '\0' && '\0' !in name[..n]
    ensures Holds(name, name[..n])
  {
    CStringPrefix(name, n);
    assert name[n] in name;
  }

  lemma UndoubleStep(done: string, rest: string)
    requires rest != "" && (rest[0] == '"' ==> |rest| > 1 && rest[1] == '"')
    ensures Prepend(done, Undouble(rest)) ==
            Prepend(done + [rest[0]], Undouble(if rest[0] == '"' then rest[2..] else rest[1..]))
    ensures Undouble(rest).Some? ==> Undouble(rest).value != ""
  {
    PrependTwice(done, [rest[0]], Undouble(if rest[0] == '"' then rest[2..] else rest[1..]));
  }

  lemma InsideOf(s: string, start: nat, end: nat)
    requires start + 2 <= end <= |s|
    ensures s[start..end][1..end - start - 1] == s[start + 1..end - 1]
  {
    var t := s[start..end];
    assert forall k | 0 <= k < |t| :: t[k] == s[start + k];
  }

  method Trim(s: string) returns (start: nat, end: nat)
    ensures start <= end <= |s| && s[start..end] == TrimEnd(TrimStart(s))
  {
    start, end := 0, |s|;
    while start < end && s[start] == ' '
      invariant start <= end && forall i | 0 <= i < start :: s[i] == ' '
    {
      start := start + 1;
    }
    TrimStartDrop(s, start);
    while end > start && s[end - 1] == ' '
      invariant start <= end <= |s| && forall i | end <= i < |s| :: s[i] == ' '
    {
      end := end - 1;
    }
    TrimEndTake(s[start..], end - start);
    assert s[start..][..end - start] == s[start..end];
  }

  // The buffer always holds a string (it never overflows), which is the name.
  method Name(name: array<char>, s: string)
    requires name.Length == MAX + 1 && '\0' !in s
    modifies name
    ensures Holds(name[..], ParseName(s))
  {
    hide TrimStart, TrimEnd;
    var start, end := Trim(s);
    name[0] := '\0';
    HoldsPrefix(name[..], 0);
    if start < end && s[start] == '"' {
      if end - start < 3 || s[end - 1] != '"' {
        return;
      }
      InsideOf(s, start, end);
      Delimited(name, s, start + 1, end - 1);
    } else {
      Regular(name, s, start, end);
    }
  }

  method Delimited(name: array<char>, s: string, start: nat, end: nat)
    requires name.Length == MAX + 1 && '\0' !in s && start < end <= |s|
    modifies name
    ensures var u := Undouble(s[start..end]);
      Holds(name[..], if u.Some? && |u.value| <= MAX then u.value else "")
  {
    ghost var u := Undouble(s[start..end]);
    var i, n := start, 0;
    PrependTwice("", "", Undouble(s[i..end]));
    while i < end
      invariant start <= i <= end && 0 <= n <= MAX
      invariant u == Prepend(name[..n], Undouble(s[i..end]))
      invariant '\0' !in name[..n]
    {
      ghost var rest := s[i..end];
      if n == MAX || (s[i] == '"' && (i + 1 == end || s[i + 1] != '"')) {
        if Undouble(rest).Some? {
          UndoubleStep(name[..n], rest);
        }
        name[0] := '\0';
        HoldsPrefix(name[..], 0);
        return;
      }
      UndoubleStep(name[..n], rest);
      if s[i] == '"' {
        assert s[i + 2..end] == rest[2..];
        i := i + 1;
      } else {
        assert s[i + 1..end] == rest[1..];
      }
      assert s[i] in s;
      name[n] := s[i];
      assert name[..n + 1] == name[..n] + [s[i]];
      n := n + 1;
      i := i + 1;
    }
    assert name[..n] + "" == name[..n];
    name[n] := '\0';
    HoldsPrefix(name[..], n);
  }

  method Regular(name: array<char>, s: string, start: nat, end: nat)
    requires name.Length == MAX + 1 && '\0' !in s && start <= end <= |s|
    modifies name
    ensures var t := s[start..end];
      Holds(name[..], if IsRegular(t) && |t| <= MAX then Upper(t) else "")
  {
    ghost var t := s[start..end];
    var i, n := start, 0;
    while i < end
      invariant start <= i <= end && n == i - start <= MAX
      invariant name[..n] == Upper(t[..n])
      invariant forall k | 0 <= k < n :: StartsIdentifier(t[k]) || (k > 0 && IsDigit(t[k]))
    {
      assert t[n] == s[i] && s[i] in s;
      if n == MAX || !(IsLetter(s[i]) || s[i] == '_' || (i > start && IsDigit(s[i]))) {
        name[0] := '\0';
        HoldsPrefix(name[..], 0);
        return;
      }
      name[n] := ToUpper(s[i]);
      assert name[..n + 1] == Upper(t[..n]) + [ToUpper(t[n])];
      n := n + 1;
      i := i + 1;
    }
    assert t[..n] == t;
    name[n] := '\0';
    HoldsPrefix(name[..], n);
  }
}
