/**
 The dynamic parameters in the text of a statement: the scanner of the runtime (vsql_m_scan) and
 the second counter, of the application (paramCount).

 The reference is a lexer for SQL tokens, where a doubled quote is a quote inside a literal and
 bracketed comments nest. The characters of a statement are its octets.
 */
module Scanner {
  import opened CStrings

  predicate IsAlpha(c: char) {
    'A' <= c <= 'Z' || 'a' <= c <= 'z'
  }

  predicate IsSpace(c: char) {
    c == ' ' || '\t' as int <= c as int <= '\r' as int
  }

  predicate StartsWord(c: char) {
    IsAlpha(c) || c == '_'
  }

  predicate InWord(c: char) {
    StartsWord(c) || '0' <= c <= '9'
  }

  lemma CharactersAre(c: char)
    ensures IsAlpha(c) <==> c in "ABCDEFGHIJKLMNOPQRSTUVWXYZ" || c in "abcdefghijklmnopqrstuvwxyz"
    ensures InWord(c) <==> IsAlpha(c) || c in "_0123456789"
    ensures IsSpace(c) <==> c in " \t\n\U{0b}\U{0c}\r"
  {
  }

  function ToUpper(c: char): char {
    if 'a' <= c <= 'z' then c - 'a' + 'A' else c
  }

  datatype Token =
    | Skipped   // a literal, a delimited identifier or a comment
    | Word(text: string)
    | Parameter
    | OpenParenthesis
    | CloseParenthesis
    | Space
    | Other

  ghost predicate Pair(s: string, i: nat, a: char, b: char) {
    i + 1 < |s| && s[i] == a && s[i + 1] == b
  }

  // The end of a literal, from after its opening quote. A doubled quote is in it.
  ghost function LiteralEnd(s: string, i: nat, quote: char): (end: nat)
    requires i <= |s|
    ensures i <= end <= |s|
    decreases |s| - i
  {
    if i == |s| then i
    else if s[i] != quote then LiteralEnd(s, i + 1, quote)
    else if i + 1 < |s| && s[i + 1] == quote then LiteralEnd(s, i + 2, quote)
    else i + 1
  }

  // The end of a bracketed comment, from a place that is in this many of them.
  ghost function CommentEnd(s: string, i: nat, depth: nat): (end: nat)
    requires i <= |s|
    ensures i <= end <= |s|
    decreases |s| - i
  {
    if i == |s| || depth == 0 then i
    else if Pair(s, i, '/', '*') then CommentEnd(s, i + 2, depth + 1)
    else if Pair(s, i, '*', '/') then CommentEnd(s, i + 2, depth - 1)
    else CommentEnd(s, i + 1, depth)
  }

  ghost function LineEnd(s: string, i: nat): (end: nat)
    requires i <= |s|
    ensures i <= end <= |s| && (i < |s| && s[i] != '\n' ==> end > i)
    decreases |s| - i
  {
    if i == |s| || s[i] == '\n' then i else LineEnd(s, i + 1)
  }

  ghost function WordEnd(s: string, i: nat): (end: nat)
    requires i <= |s|
    ensures i <= end <= |s| && (i < |s| && InWord(s[i]) ==> end > i)
    decreases |s| - i
  {
    if i == |s| || !InWord(s[i]) then i else WordEnd(s, i + 1)
  }

  // The token at i, and its end.
  ghost function Next(s: string, i: nat): (r: (Token, nat))
    requires i < |s|
    ensures i < r.1 <= |s|
  {
    var c := s[i];
    if c == '\'' || c == '"' then (Skipped, LiteralEnd(s, i + 1, c))
    else if Pair(s, i, '/', '*') then (Skipped, CommentEnd(s, i + 2, 1))
    else if Pair(s, i, '-', '-') then (Skipped, LineEnd(s, i))
    else if StartsWord(c) then (Word(s[i..WordEnd(s, i)]), WordEnd(s, i))
    else (Single(c), i + 1)
  }

  function Single(c: char): Token {
    match c
    case '?' => Parameter
    case '(' => OpenParenthesis
    case ')' => CloseParenthesis
    case _ => if IsSpace(c) then Space else Other
  }

  ghost function Tokens(s: string, i: nat): seq<Token>
    requires i <= |s|
    decreases |s| - i
  {
    if i == |s| then [] else var (t, end) := Next(s, i); [t] + Tokens(s, end)
  }

  function Parameters(tokens: seq<Token>): nat {
    if tokens == [] then 0
    else (if tokens[0].Parameter? then 1 else 0) + Parameters(tokens[1..])
  }

  // The same character, or the same letter in the other case.
  predicate SameLetter(c: char, d: char) {
    || c == d
    || ('A' <= c <= 'Z' && d as int == c as int + 32)
    || ('A' <= d <= 'Z' && c as int == d as int + 32)
  }

  // The same text, but for the case of its letters.
  predicate Spells(s: string, t: string) {
    |s| == |t| && forall i | 0 <= i < |s| :: SameLetter(s[i], t[i])
  }

  // Only the first 9 letters of a word are compared.
  predicate IsCombining(word: string) {
    || Spells(word, "UNION") || Spells(word, "EXCEPT") || Spells(word, "ORDER")
    || Spells(word, "OFFSET") || Spells(word, "FETCH")
    || (|word| >= 9 && Spells(word[..9], "INTERSECT"))
  }

  // A word as it is compared.
  function Keyword(text: string): string {
    seq(if |text| < 9 then |text| else 9, i requires 0 <= i < |text| => ToUpper(text[i]))
  }

  const COMBINING: seq<string> := ["UNION", "EXCEPT", "INTERSECT", "ORDER", "OFFSET", "FETCH"]

  predicate IsUpper(text: string) {
    forall i | 0 <= i < |text| :: 'A' <= text[i] <= 'Z'
  }

  lemma KeywordSpells(word: string, text: string)
    requires IsUpper(text) && |text| < 9
    ensures Keyword(word) == text <==> Spells(word, text)
  {
    if Spells(word, text) {
      forall i | 0 <= i < |text| ensures Keyword(word)[i] == text[i] {
        assert SameLetter(word[i], text[i]);
      }
    } else if |word| == |text| {
      var i :| 0 <= i < |text| && !SameLetter(word[i], text[i]);
      assert Keyword(word)[i] != text[i];
    }
  }

  lemma KeywordBegins(word: string, text: string)
    requires IsUpper(text) && |text| == 9
    ensures Keyword(word) == text <==> |word| >= 9 && Spells(word[..9], text)
  {
    if |word| >= 9 {
      if Spells(word[..9], text) {
        forall i | 0 <= i < 9 ensures Keyword(word)[i] == text[i] {
          assert SameLetter(word[..9][i], text[i]);
        }
      } else {
        var i :| 0 <= i < 9 && !SameLetter(word[..9][i], text[i]);
        assert Keyword(word)[i] != text[i];
      }
    }
  }

  // What the comparison of upper case words finds, in any case.
  lemma KeywordIff(word: string)
    ensures Keyword(word) == "SELECT" <==> Spells(word, "SELECT")
    ensures Keyword(word) in COMBINING <==> IsCombining(word)
  {
    KeywordSpells(word, "SELECT");
    KeywordSpells(word, "UNION");
    KeywordSpells(word, "EXCEPT");
    KeywordBegins(word, "INTERSECT");
    KeywordSpells(word, "ORDER");
    KeywordSpells(word, "OFFSET");
    KeywordSpells(word, "FETCH");
  }

  // Nothing but spaces, literals and comments.
  predicate Blank(tokens: seq<Token>) {
    forall t | t in tokens :: t.Space? || t.Skipped?
  }

  function Depth(tokens: seq<Token>): int {
    if tokens == [] then 0
    else (match tokens[0] case OpenParenthesis => 1 case CloseParenthesis => -1 case _ => 0)
         + Depth(tokens[1..])
  }

  // The statement starts with SELECT, and none of the combining words is in it outside of
  // parentheses.
  ghost predicate CanBeSingle(tokens: seq<Token>) {
    exists k | 0 <= k < |tokens| ::
      && Blank(tokens[..k]) && tokens[k].Word? && Spells(tokens[k].text, "SELECT")
      && NotCombined(tokens, k + 1)
  }

  ghost predicate NotCombined(tokens: seq<Token>, from: nat) {
    forall j | from <= j < |tokens| && tokens[j].Word? && Depth(tokens[..j]) == 0 ::
      !IsCombining(tokens[j].text)
  }

  // The state of the scanner over the tokens: n, depth, first and single.
  datatype State = State(n: nat, depth: int, first: bool, single: bool) {
    function Step(t: Token): State {
      match t
      case Skipped => this
      case Word(text) =>
        if first then this.(first := false, single := Spells(text, "SELECT"))
        else if depth == 0 && IsCombining(text) then this.(single := false)
        else this
      case Parameter => this.(n := n + 1, first := false)
      case OpenParenthesis => this.(depth := depth + 1, first := false)
      case CloseParenthesis => this.(depth := depth - 1, first := false)
      case Space => this
      case Other => this.(first := false)
    }

    function Run(tokens: seq<Token>): State
      decreases |tokens|
    {
      if tokens == [] then this else Step(tokens[0]).Run(tokens[1..])
    }
  }

  const START := State(0, 0, true, false)

  lemma {:induction false} RunCounts(st: State, tokens: seq<Token>)
    ensures var r := st.Run(tokens);
      && r.n == st.n + Parameters(tokens)
      && r.depth == st.depth + Depth(tokens)
      && r.first == (st.first && Blank(tokens))
    decreases |tokens|
  {
    if tokens != [] {
      RunCounts(st.Step(tokens[0]), tokens[1..]);
      assert forall t | t in tokens :: t == tokens[0] || t in tokens[1..];
    }
  }

  lemma {:induction false} RunLast(st: State, tokens: seq<Token>)
    requires tokens != []
    ensures st.Run(tokens) == st.Run(tokens[..|tokens| - 1]).Step(tokens[|tokens| - 1])
    decreases |tokens|
  {
    if |tokens| > 1 {
      RunLast(st.Step(tokens[0]), tokens[1..]);
      assert tokens[..|tokens| - 1][1..] == tokens[1..][..|tokens| - 2];
    }
  }

  lemma {:induction false} DepthLast(tokens: seq<Token>, t: Token)
    ensures Depth(tokens + [t]) == Depth(tokens) + Depth([t])
  {
    if tokens == [] {
      assert tokens + [t] == [t];
    } else {
      assert (tokens + [t])[1..] == tokens[1..] + [t];
      DepthLast(tokens[1..], t);
    }
  }

  lemma CombinedLast(tokens: seq<Token>, from: nat)
    requires from < |tokens|
    ensures var n := |tokens| - 1; var t := tokens[n];
      NotCombined(tokens, from) <==>
        && NotCombined(tokens[..n], from)
        && !(t.Word? && Depth(tokens[..n]) == 0 && IsCombining(t.text))
  {
    var n := |tokens| - 1;
    var before := tokens[..n];
    assert forall k | 0 <= k <= n :: tokens[..k] == before[..k];
    assert forall k | 0 <= k < n :: tokens[k] == before[k];
    assert NotCombined(tokens, from) ==> NotCombined(before, from);
  }

  lemma SingleOnlyLast(tokens: seq<Token>)
    requires tokens != [] && Blank(tokens[..|tokens| - 1])
    ensures var t := tokens[|tokens| - 1];
      CanBeSingle(tokens) <==> t.Word? && Spells(t.text, "SELECT")
  {
    var n := |tokens| - 1;
    forall k | 0 <= k < n ensures !tokens[k].Word? {
      assert tokens[k] == tokens[..n][k] && tokens[..n][k] in tokens[..n];
    }
    assert NotCombined(tokens, n + 1);
  }

  lemma SingleNotLast(tokens: seq<Token>)
    requires tokens != [] && !Blank(tokens[..|tokens| - 1])
    ensures var n := |tokens| - 1; var t := tokens[n];
      CanBeSingle(tokens) <==>
        && CanBeSingle(tokens[..n])
        && !(t.Word? && Depth(tokens[..n]) == 0 && IsCombining(t.text))
  {
    var n := |tokens| - 1;
    var before := tokens[..n];
    forall k | 0 <= k < n
      ensures tokens[k] == before[k] && tokens[..k] == before[..k]
    {}
    if CanBeSingle(tokens) {
      var k :| 0 <= k < |tokens| && Blank(tokens[..k]) && tokens[k].Word?
               && Spells(tokens[k].text, "SELECT") && NotCombined(tokens, k + 1);
      CombinedLast(tokens, k + 1);
      assert Blank(before[..k]) && NotCombined(before, k + 1);
    }
    if CanBeSingle(before) {
      var k :| 0 <= k < |before| && Blank(before[..k]) && before[k].Word?
               && Spells(before[k].text, "SELECT") && NotCombined(before, k + 1);
      CombinedLast(tokens, k + 1);
      assert Blank(tokens[..k]) && tokens[k] == before[k];
    }
  }

  // The fold over the tokens computes the rule for a single row select.
  lemma {:induction false} SingleIff(tokens: seq<Token>)
    ensures START.Run(tokens).single <==> CanBeSingle(tokens)
    decreases |tokens|
  {
    if tokens != [] {
      var before := tokens[..|tokens| - 1];
      SingleIff(before);
      RunLast(START, tokens);
      RunCounts(START, before);
      if Blank(before) {
        SingleOnlyLast(tokens);
        SingleBlank(before);
      } else {
        SingleNotLast(tokens);
      }
    }
  }

  lemma SingleBlank(tokens: seq<Token>)
    requires Blank(tokens)
    ensures !CanBeSingle(tokens)
  {
    assert forall k | 0 <= k < |tokens| :: tokens[k] in tokens;
  }

  // The case of letters changes no token but the letters of words.
  lemma {:induction false} EndsSame(s: string, t: string, i: nat, quote: char)
    requires Spells(s, t) && i <= |s| && (quote == '\'' || quote == '"')
    ensures LiteralEnd(s, i, quote) == LiteralEnd(t, i, quote)
    ensures LineEnd(s, i) == LineEnd(t, i)
    ensures WordEnd(s, i) == WordEnd(t, i)
    decreases |s| - i
  {
    if i < |s| {
      assert SameLetter(s[i], t[i]);
      EndsSame(s, t, i + 1, quote);
      if i + 1 < |s| {
        assert SameLetter(s[i + 1], t[i + 1]);
        EndsSame(s, t, i + 2, quote);
      }
    }
  }

  lemma {:induction false} CommentsSame(s: string, t: string, i: nat, depth: nat)
    requires Spells(s, t) && i <= |s|
    ensures CommentEnd(s, i, depth) == CommentEnd(t, i, depth)
    decreases |s| - i
  {
    if i < |s| && depth > 0 {
      assert SameLetter(s[i], t[i]);
      CommentsSame(s, t, i + 1, depth);
      if i + 1 < |s| {
        assert SameLetter(s[i + 1], t[i + 1]);
        CommentsSame(s, t, i + 2, depth + 1);
        CommentsSame(s, t, i + 2, depth - 1);
      }
    }
  }

  lemma NextSame(s: string, t: string, i: nat)
    requires Spells(s, t) && i < |s|
    ensures Next(s, i).1 == Next(t, i).1
    ensures var (a, b) := (Next(s, i).0, Next(t, i).0);
      a == b || (a.Word? && b.Word? && Spells(a.text, b.text))
  {
    assert SameLetter(s[i], t[i]);
    assert i + 1 < |s| ==> SameLetter(s[i + 1], t[i + 1]);
    EndsSame(s, t, i, '"');
    EndsSame(s, t, i + 1, if s[i] == '\'' then '\'' else '"');
    if i + 1 < |s| {
      CommentsSame(s, t, i + 2, 1);
    }
    if StartsWord(s[i]) {
      var end := WordEnd(s, i);
      forall k | 0 <= k < end - i ensures SameLetter(s[i..end][k], t[i..end][k]) {
        assert SameLetter(s[i + k], t[i + k]);
      }
    }
  }

  lemma SpellsSame(s: string, t: string, text: string)
    requires Spells(s, t)
    ensures Spells(s, text) <==> Spells(t, text)
  {
    if |s| == |text| {
      forall i | 0 <= i < |s| ensures SameLetter(s[i], text[i]) <==> SameLetter(t[i], text[i]) {
        assert SameLetter(s[i], t[i]);
      }
    }
  }

  lemma CombiningSame(s: string, t: string)
    requires Spells(s, t)
    ensures IsCombining(s) <==> IsCombining(t)
  {
    SpellsSame(s, t, "UNION");
    SpellsSame(s, t, "EXCEPT");
    SpellsSame(s, t, "ORDER");
    SpellsSame(s, t, "OFFSET");
    SpellsSame(s, t, "FETCH");
    if |s| >= 9 {
      SpellsSame(s[..9], t[..9], "INTERSECT");
    }
  }

  lemma {:induction false} RunSame(st: State, s: string, t: string, i: nat)
    requires Spells(s, t) && i <= |s|
    ensures st.Run(Tokens(s, i)) == st.Run(Tokens(t, i))
    decreases |s| - i
  {
    if i < |s| {
      var (a, end) := Next(s, i);
      var b := Next(t, i).0;
      NextSame(s, t, i);
      if a != b {
        SpellsSame(a.text, b.text, "SELECT");
        CombiningSame(a.text, b.text);
      }
      RunNext(st, s, i);
      RunNext(st, t, i);
      RunSame(st.Step(a), s, t, end);
    }
  }

  // Texts that differ in the case of their letters only have the same result.
  lemma CaseIgnored(s: string, t: string)
    requires Spells(s, t)
    ensures Parameters(Tokens(s, 0)) == Parameters(Tokens(t, 0))
    ensures CanBeSingle(Tokens(s, 0)) <==> CanBeSingle(Tokens(t, 0))
  {
    RunSame(START, s, t, 0);
    RunCounts(START, Tokens(s, 0));
    RunCounts(START, Tokens(t, 0));
    SingleIff(Tokens(s, 0));
    SingleIff(Tokens(t, 0));
  }

  // One of the 64 spellings of SELECT.
  predicate IsSelect(s: string) {
    && |s| == 6
    && (s[0] == 'S' || s[0] == 's') && (s[1] == 'E' || s[1] == 'e') && (s[2] == 'L' || s[2] == 'l')
    && (s[3] == 'E' || s[3] == 'e') && (s[4] == 'C' || s[4] == 'c') && (s[5] == 'T' || s[5] == 't')
  }

  predicate IsWord(s: string) {
    s != "" && StartsWord(s[0]) && forall i | 0 <= i < |s| :: InWord(s[i])
  }

  predicate AreWords(words: seq<string>) {
    forall w | w in words :: IsWord(w)
  }

  // A piece of a query: a word, or words in parentheses.
  datatype Piece = Outside(word: string) | Inside(words: seq<string>) {
    predicate IsValid() {
      match this
      case Outside(word) => IsWord(word)
      case Inside(words) => AreWords(words)
    }

    ghost function Text(): string {
      match this
      case Outside(word) => " " + word
      case Inside(words) => " (" + Spaced(words) + ")"
    }
  }

  ghost function Spaced(words: seq<string>): string {
    if words == [] then "" else " " + words[0] + Spaced(words[1..])
  }

  ghost function Query(pieces: seq<Piece>): string {
    if pieces == [] then "" else pieces[0].Text() + Query(pieces[1..])
  }

  lemma {:induction false} WordEndIs(s: string, i: nat, end: nat)
    requires i <= end <= |s| && (end == |s| || !InWord(s[end]))
    requires forall k | i <= k < end :: InWord(s[k])
    ensures WordEnd(s, i) == end
    decreases end - i
  {
    if i < end {
      WordEndIs(s, i + 1, end);
    }
  }

  // A word of the text that is followed by something else.
  lemma RunWord(st: State, s: string, i: nat, word: string)
    requires i + |word| <= |s| && s[i..i + |word|] == word && IsWord(word)
    requires i + |word| == |s| || !InWord(s[i + |word|])
    ensures st.Run(Tokens(s, i)) == st.Step(Word(word)).Run(Tokens(s, i + |word|))
  {
    forall k | i <= k < i + |word| ensures s[k] == word[k - i] && InWord(s[k]) {
      assert s[i..i + |word|][k - i] == s[k];
    }
    WordEndIs(s, i, i + |word|);
    RunNext(st, s, i);
  }

  lemma RunSpaceWord(st: State, s: string, i: nat, word: string)
    requires IsWord(word) && i + 1 + |word| <= |s| && s[i..i + 1 + |word|] == " " + word
    requires i + 1 + |word| == |s| || !InWord(s[i + 1 + |word|])
    ensures st.Run(Tokens(s, i)) == st.Step(Word(word)).Run(Tokens(s, i + 1 + |word|))
  {
    assert s[i] == s[i..i + 1 + |word|][0];
    assert s[i + 1..i + 1 + |word|] == s[i..i + 1 + |word|][1..];
    RunNext(st, s, i);
    RunWord(st, s, i + 1, word);
  }

  lemma SplitAt(s: string, i: nat, end: nat, a: string, b: string)
    requires i <= end <= |s| && s[i..end] == a + b
    ensures i + |a| <= end && s[i..i + |a|] == a && s[i + |a|..end] == b
    ensures b != "" ==> s[i + |a|] == b[0]
  {
    assert |s[i..end]| == |a| + |b|;
    assert s[i..i + |a|] == s[i..end][..|a|];
    assert s[i + |a|..end] == s[i..end][|a|..];
    assert b != "" ==> s[i + |a|..end][0] == s[i + |a|];
  }

  lemma StepInside(st: State, word: string)
    requires !st.first && st.depth == 1
    ensures st.Step(Word(word)) == st
  {
    hide IsCombining;
  }

  lemma SpacedAt(s: string, i: nat, words: seq<string>)
    requires words != [] && i + |Spaced(words)| <= |s| && s[i..i + |Spaced(words)|] == Spaced(words)
    ensures var next, end := i + 1 + |words[0]|, i + |Spaced(words)|;
      && next + |Spaced(words[1..])| == end && s[i..next] == " " + words[0]
      && s[next..end] == Spaced(words[1..]) && (next < end ==> s[next] == ' ')
  {
    SplitAt(s, i, i + |Spaced(words)|, " " + words[0], Spaced(words[1..]));
    SpacedStarts(words[1..]);
  }

  // Words in parentheses don't change the state.
  lemma {:induction false} RunInside(st: State, s: string, i: nat, words: seq<string>)
    requires AreWords(words) && !st.first && st.depth == 1
    requires var end := i + |Spaced(words)|; end < |s| && s[i..end] == Spaced(words) && s[end] == ')'
    ensures st.Run(Tokens(s, i)) == st.Run(Tokens(s, i + |Spaced(words)|))
    decreases |words|
  {
    if words != [] {
      SpacedAt(s, i, words);
      assert IsWord(words[0]) && AreWords(words[1..]);
      hide Tokens, State.Run, State.Step, Spaced, AreWords, IsWord;
      RunSpaceWord(st, s, i, words[0]);
      StepInside(st, words[0]);
      RunInside(st, s, i + 1 + |words[0]|, words[1..]);
    }
  }

  lemma SpacedStarts(words: seq<string>)
    ensures Spaced(words) == "" || Spaced(words)[0] == ' '
  {}

  lemma QueryStarts(pieces: seq<Piece>)
    ensures Query(pieces) == "" || Query(pieces)[0] == ' '
  {}

  predicate AreValid(pieces: seq<Piece>) {
    forall p | p in pieces :: p.IsValid()
  }

  ghost predicate AnyCombining(pieces: seq<Piece>) {
    exists p | p in pieces :: p.Outside? && IsCombining(p.word)
  }

  lemma RunParentheses(st: State, s: string, i: nat, words: seq<string>)
    requires AreWords(words) && !st.first && st.depth == 0
    requires var end := i + 3 + |Spaced(words)|; end <= |s| && s[i..end] == " (" + Spaced(words) + ")"
    ensures st.Run(Tokens(s, i)) == st.Run(Tokens(s, i + 3 + |Spaced(words)|))
  {
    var end := i + 3 + |Spaced(words)|;
    hide Tokens, State.Run, Spaced;
    assert s[i..end] == " (" + (Spaced(words) + ")");
    SplitAt(s, i, end, " (", Spaced(words) + ")");
    SplitAt(s, i + 2, end, Spaced(words), ")");
    assert s[i] == s[i..i + 2][0] && s[i + 1] == s[i..i + 2][1];
    RunNext(st, s, i);
    RunNext(st, s, i + 1);
    RunInside(st.(depth := 1), s, i + 2, words);
    RunNext(st.(depth := 1), s, end - 1);
  }

  lemma RunPiece(st: State, s: string, i: nat, piece: Piece)
    requires piece.IsValid() && !st.first && st.depth == 0
    requires var end := i + |piece.Text()|;
      end <= |s| && s[i..end] == piece.Text() && (end == |s| || s[end] == ' ')
    ensures st.Run(Tokens(s, i)) ==
            st.(single := st.single && !(piece.Outside? && IsCombining(piece.word)))
              .Run(Tokens(s, i + |piece.Text()|))
  {
    hide Tokens, State.Run, IsCombining;
    match piece
    case Outside(word) =>
      RunSpaceWord(st, s, i, word);
    case Inside(words) =>
      RunParentheses(st, s, i, words);
  }

  lemma AnyFirst(pieces: seq<Piece>)
    requires pieces != []
    ensures AnyCombining(pieces) <==>
      (pieces[0].Outside? && IsCombining(pieces[0].word)) || AnyCombining(pieces[1..])
  {
    hide IsCombining;
    assert forall p | p in pieces :: p == pieces[0] || p in pieces[1..];
  }

  // After SELECT, only the words outside of parentheses can combine the query.
  lemma {:induction false} RunQuery(st: State, s: string, i: nat, pieces: seq<Piece>)
    requires AreValid(pieces) && !st.first && st.depth == 0
    requires i <= |s| && s[i..] == Query(pieces)
    ensures st.Run(Tokens(s, i)) == st.(single := st.single && !AnyCombining(pieces))
    decreases |pieces|
  {
    hide IsCombining, Piece.Text;
    if pieces == [] {
      assert Tokens(s, i) == [];
    } else {
      hide Tokens, State.Run, AnyCombining;
      var next := i + |pieces[0].Text()|;
      SplitAt(s, i, |s|, pieces[0].Text(), Query(pieces[1..]));
      QueryStarts(pieces[1..]);
      assert pieces[0].IsValid() && AreValid(pieces[1..]);
      AnyFirst(pieces);
      RunPiece(st, s, i, pieces[0]);
      RunQuery(st.(single := st.single && !(pieces[0].Outside? && IsCombining(pieces[0].word))), s, next,
               pieces[1..]);
    }
  }

  lemma SelectIsWord(s: string)
    requires IsSelect(s)
    ensures IsWord(s) && Spells(s, "SELECT")
  {
    forall i | 0 <= i < 6 ensures SameLetter(s[i], "SELECT"[i]) && InWord(s[i]) {
    }
  }

  // Whatever the case of SELECT is, a query of words is single exactly if none of the words
  // outside of parentheses combines it.
  lemma QuerySingleIff(select: string, pieces: seq<Piece>)
    requires IsSelect(select) && AreValid(pieces)
    ensures CanBeSingle(Tokens(select + Query(pieces), 0)) <==> !AnyCombining(pieces)
  {
    var s := select + Query(pieces);
    SplitAt(s, 0, |s|, select, Query(pieces));
    QueryStarts(pieces);
    SelectIsWord(select);
    RunWord(START, s, 0, select);
    RunQuery(START.Step(Word(select)), s, 6, pieces);
    SingleIff(Tokens(s, 0));
  }

  lemma RunNext(st: State, s: string, i: nat)
    requires i < |s|
    ensures var (t, end) := Next(s, i); st.Run(Tokens(s, i)) == st.Step(t).Run(Tokens(s, end))
  {
    var (t, end) := Next(s, i);
    assert Tokens(s, i) == [t] + Tokens(s, end);
  }

  lemma RunEnd(st: State, s: string)
    ensures st.Run(Tokens(s, |s|)) == st
  {}

  // What the scanner skips for a literal: up to the next quote, doubled or not.
  ghost function QuoteEnd(s: string, i: nat, quote: char): (end: nat)
    requires i <= |s|
    ensures i <= end <= |s|
    decreases |s| - i
  {
    if i == |s| then i else if s[i] == quote then i + 1 else QuoteEnd(s, i + 1, quote)
  }

  // A doubled quote can be read as the end of a literal and the start of another one.
  lemma {:induction false} AdjacentLiterals(st: State, s: string, i: nat, quote: char)
    requires i <= |s| && (quote == '\'' || quote == '"')
    ensures st.Run(Tokens(s, LiteralEnd(s, i, quote))) == st.Run(Tokens(s, QuoteEnd(s, i, quote)))
    decreases |s| - i
  {
    if i == |s| {
    } else if s[i] != quote {
      AdjacentLiterals(st, s, i + 1, quote);
    } else if i + 1 < |s| && s[i + 1] == quote {
      RunNext(st, s, i + 1);
    }
  }

  method SkipQuoted(s: string, start: nat, quote: char) returns (i: nat)
    requires IsCString(s) && start < |s| && quote != '\0'
    ensures i == QuoteEnd(Text(s), start, quote)
  {
    i := start;
    while s[i] != '\0' && s[i] != quote
      invariant start <= i < |s|
      invariant QuoteEnd(Text(s), start, quote) == QuoteEnd(Text(s), i, quote)
      decreases |s| - i
    {
      i := i + 1;
    }
    if s[i] != '\0' {
      i := i + 1;
    }
  }

  method SkipComment(s: string, start: nat) returns (i: nat)
    requires IsCString(s) && start < |s|
    ensures i == CommentEnd(Text(s), start, 1)
  {
    i := start;
    var depth := 1;
    while s[i] != '\0' && depth > 0
      invariant start <= i < |s| && depth >= 0
      invariant CommentEnd(Text(s), start, 1) == CommentEnd(Text(s), i, depth)
      decreases |s| - i
    {
      if s[i] == '/' && s[i + 1] == '*' {
        depth := depth + 1;
        i := i + 1;
      } else if s[i] == '*' && s[i + 1] == '/' {
        depth := depth - 1;
        i := i + 1;
      }
      i := i + 1;
    }
  }

  method SkipLine(s: string, start: nat) returns (i: nat)
    requires IsCString(s) && start < |s|
    ensures i == LineEnd(Text(s), start)
  {
    i := start;
    while s[i] != '\0' && s[i] != '\n'
      invariant start <= i < |s|
      invariant LineEnd(Text(s), start) == LineEnd(Text(s), i)
      decreases |s| - i
    {
      i := i + 1;
    }
  }

  // The end of a word, and as much of it as is compared.
  method ScanWord(s: string, start: nat) returns (i: nat, word: string)
    requires IsCString(s) && start < |s|
    ensures i == WordEnd(Text(s), start)
    ensures word == Keyword(Text(s)[start..i])
  {
    i := start;
    while InWord(s[i])
      invariant start <= i < |s|
      invariant WordEnd(Text(s), start) == WordEnd(Text(s), i)
      decreases |s| - i
    {
      i := i + 1;
    }
    word := "";
    ghost var keyword := Keyword(Text(s)[start..i]);
    while |word| < i - start && |word| < 9
      invariant |word| <= i - start && |word| <= 9
      invariant word == keyword[..|word|]
    {
      assert keyword[|word|] == ToUpper(s[start + |word|]);
      word := word + [ToUpper(s[start + |word|])];
    }
  }

  // A word that isn't the first one.
  method Combines(word: string) returns (found: bool)
    ensures found <==> word in COMBINING
  {
    found := false;
    for k := 0 to |COMBINING|
      invariant found <==> word in COMBINING[..k]
    {
      if word == COMBINING[k] {
        found := true;
      }
    }
  }

  method AtWord(s: string, start: nat, depth: int, first: bool, single: bool, ghost n: nat)
    returns (i: nat, first': bool, single': bool)
    requires IsCString(s) && start < |s|
    ensures i == WordEnd(Text(s), start)
    ensures State(n, depth, first', single') ==
            State(n, depth, first, single).Step(Word(Text(s)[start..i]))
  {
    var word;
    i, word := ScanWord(s, start);
    KeywordIff(Text(s)[start..i]);
    first', single' := first, single;
    if first {
      single' := word == "SELECT";
      first' := false;
    } else if depth == 0 {
      var combines := Combines(word);
      single' := single && !combines;
    }
  }

  method AtOther(c: char, n: nat, depth: int, first: bool, ghost single: bool)
    returns (n': nat, depth': int, first': bool)
    ensures State(n', depth', first', single) == State(n, depth, first, single).Step(Single(c))
  {
    n', depth' := n, depth;
    if c == '?' {
      n' := n + 1;
    } else if c == '(' {
      depth' := depth + 1;
    } else if c == ')' {
      depth' := depth - 1;
    }
    first' := first && IsSpace(c);
  }

  // The number of dynamic parameters, and if the statement can be a single row select. Every
  // read is within the string and its null character.
  method Scan(s: string) returns (n: nat, single: bool)
    requires IsCString(s)
    ensures n == Parameters(Tokens(Text(s), 0))
    ensures single <==> CanBeSingle(Tokens(Text(s), 0))
    ensures forall t | Spells(Text(s), t) ::
      n == Parameters(Tokens(t, 0)) && (single <==> CanBeSingle(Tokens(t, 0)))
    ensures forall select, pieces | IsSelect(select) && AreValid(pieces) && Text(s) == select + Query(pieces) ::
      single <==> !AnyCombining(pieces)
  {
    hide Tokens, State.Run, CanBeSingle, Spells, IsCombining, Query, IsSelect, AreValid, AnyCombining;
    ghost var text := Text(s);
    ghost var result := START.Run(Tokens(text, 0));
    var depth, first, i := 0, true, 0;
    n, single := 0, false;
    while s[i] != '\0'
      invariant 0 <= i < |s|
      invariant State(n, depth, first, single).Run(Tokens(text, i)) == result
      decreases |s| - i
    {
      ghost var st := State(n, depth, first, single);
      RunNext(st, text, i);
      if s[i] == '\'' || s[i] == '"' {
        var quote := s[i];
        AdjacentLiterals(st, text, i + 1, quote);
        i := SkipQuoted(s, i + 1, quote);
      } else if s[i] == '/' && s[i + 1] == '*' {
        i := SkipComment(s, i + 2);
      } else if s[i] == '-' && s[i + 1] == '-' {
        i := SkipLine(s, i);
      } else if StartsWord(s[i]) {
        i, first, single := AtWord(s, i, depth, first, single, n);
      } else {
        n, depth, first := AtOther(s[i], n, depth, first, single);
        i := i + 1;
      }
    }
    RunEnd(State(n, depth, first, single), text);
    RunCounts(START, Tokens(text, 0));
    SingleIff(Tokens(text, 0));
    forall t | Spells(text, t)
      ensures n == Parameters(Tokens(t, 0)) && (single <==> CanBeSingle(Tokens(t, 0)))
    {
      CaseIgnored(text, t);
    }
    forall select, pieces |
      IsSelect(select) && AreValid(pieces) && text == select + Query(pieces)
      ensures single <==> !AnyCombining(pieces)
    {
      QuerySingleIff(select, pieces);
    }
  }

  // The counter of the application: the text without comments, literals and quoted names, split
  // at the placeholders. A bracketed comment ends at the first end of a comment, and one that has
  // no end isn't a comment.
  ghost function FirstClose(s: string, i: nat): (end: nat)
    requires i <= |s|
    ensures i <= end <= |s| + 1
    decreases |s| - i
  {
    if i == |s| then |s| + 1 else if Pair(s, i, '*', '/') then i + 2 else FirstClose(s, i + 1)
  }

  ghost function ParamCount(s: string, i: nat): nat
    requires i <= |s|
    decreases |s| - i
  {
    if i == |s| then 0
    else if Pair(s, i, '/', '*') && FirstClose(s, i + 2) <= |s| then ParamCount(s, FirstClose(s, i + 2))
    else if Pair(s, i, '-', '-') then ParamCount(s, LineEnd(s, i))
    else if s[i] == '\'' || s[i] == '"' then ParamCount(s, LiteralEnd(s, i + 1, s[i]))
    else (if s[i] == '?' then 1 else 0) + ParamCount(s, i + 1)
  }

  // No bracketed comment of the statement has another one in it, and all of them are closed.
  ghost predicate FlatComments(s: string, i: nat)
    requires i <= |s|
    decreases |s| - i
  {
    i < |s| ==>
      && (Pair(s, i, '/', '*') ==>
            var end := FirstClose(s, i + 2);
            end <= |s| && forall k | i + 2 <= k < end - 1 :: !Pair(s, k, '/', '*'))
      && FlatComments(s, Next(s, i).1)
  }

  lemma {:induction false} WordHasNoParameters(s: string, i: nat)
    requires i <= |s|
    ensures ParamCount(s, i) == ParamCount(s, WordEnd(s, i))
    decreases |s| - i
  {
    if i < |s| && InWord(s[i]) {
      WordHasNoParameters(s, i + 1);
    }
  }

  lemma {:induction false} FlatCommentEnd(s: string, i: nat)
    requires i <= |s| && FirstClose(s, i) <= |s|
    requires forall k | i <= k < FirstClose(s, i) - 1 :: !Pair(s, k, '/', '*')
    ensures CommentEnd(s, i, 1) == FirstClose(s, i)
    decreases |s| - i
  {
    if i < |s| && !Pair(s, i, '*', '/') {
      FlatCommentEnd(s, i + 1);
    }
  }

  // Both counters agree when the comments are closed and not nested.
  lemma {:induction false} CountersAgree(s: string, i: nat)
    requires i <= |s| && FlatComments(s, i)
    ensures Parameters(Tokens(s, i)) == ParamCount(s, i)
    decreases |s| - i
  {
    if i < |s| {
      var (t, end) := Next(s, i);
      CountersAgree(s, end);
      assert Tokens(s, i) == [t] + Tokens(s, end);
      if Pair(s, i, '/', '*') {
        FlatCommentEnd(s, i + 2);
      } else if StartsWord(s[i]) {
        WordHasNoParameters(s, i);
      }
    }
  }

  // They don't agree when a comment is nested, or not closed.
  lemma CountersDisagree()
    ensures Parameters(Tokens("/*/**/?*/", 0)) == 0 && ParamCount("/*/**/?*/", 0) == 1
    ensures Parameters(Tokens("/*?", 0)) == 0 && ParamCount("/*?", 0) == 1
  {
    var s := "/*/**/?*/";
    assert CommentEnd(s, 6, 1) == CommentEnd(s, 7, 1) == 9;
    assert CommentEnd(s, 2, 1) == CommentEnd(s, 4, 2) == CommentEnd(s, 6, 1);
    assert Tokens(s, 0) == [Skipped] + Tokens(s, 9);
    assert FirstClose(s, 2) == FirstClose(s, 3) == FirstClose(s, 4) == 6;
    assert ParamCount(s, 7) == ParamCount(s, 8) == ParamCount(s, 9);
    assert ParamCount(s, 0) == ParamCount(s, 6) == 1;

    var t := "/*?";
    assert CommentEnd(t, 2, 1) == 3 && FirstClose(t, 2) == FirstClose(t, 3) == 4;
    assert Tokens(t, 0) == [Skipped] + Tokens(t, 3);
    assert ParamCount(t, 0) == ParamCount(t, 1) == ParamCount(t, 2) == 1;
  }

  function QuestionMarks(s: string): nat {
    if s == "" then 0 else (if s[0] == '?' then 1 else 0) + QuestionMarks(s[1..])
  }

  // No comment, literal or delimited identifier starts in the text.
  ghost predicate IsPlain(s: string, i: nat, end: nat)
    requires i <= end <= |s|
  {
    forall k | i <= k < end :: s[k] != '\'' && s[k] != '"' && !Pair(s, k, '/', '*') && !Pair(s, k, '-', '-')
  }

  // Where the application goes on in a comment: after its first end, or if there is none, after the
  // first character.
  ghost function Resumes(s: string, i: nat): nat
    requires i + 2 <= |s|
  {
    if FirstClose(s, i + 2) <= |s| then FirstClose(s, i + 2) else i + 1
  }

  // What the application reads of each bracketed comment is plain.
  ghost predicate PlainComments(s: string, i: nat)
    requires i <= |s|
    decreases |s| - i
  {
    i < |s| ==>
      && (Pair(s, i, '/', '*') ==> Resumes(s, i) <= Next(s, i).1 && IsPlain(s, Resumes(s, i), Next(s, i).1))
      && PlainComments(s, Next(s, i).1)
  }

  // The placeholders that it finds in the comments.
  ghost function InComments(s: string, i: nat): nat
    requires i <= |s| && PlainComments(s, i)
    decreases |s| - i
  {
    if i == |s| then 0
    else
      var end := Next(s, i).1;
      (if Pair(s, i, '/', '*') then QuestionMarks(s[Resumes(s, i)..end]) else 0) + InComments(s, end)
  }

  lemma {:induction false} PlainCount(s: string, i: nat, end: nat)
    requires i <= end <= |s| && IsPlain(s, i, end)
    ensures ParamCount(s, i) == QuestionMarks(s[i..end]) + ParamCount(s, end)
    decreases end - i
  {
    if i < end {
      assert s[i..end][1..] == s[i + 1..end];
      PlainCount(s, i + 1, end);
    }
  }

  lemma CommentCount(s: string, i: nat)
    requires i < |s| && Pair(s, i, '/', '*') && Resumes(s, i) <= Next(s, i).1
    requires IsPlain(s, Resumes(s, i), Next(s, i).1)
    ensures ParamCount(s, i) == QuestionMarks(s[Resumes(s, i)..Next(s, i).1]) + ParamCount(s, Next(s, i).1)
  {
    PlainCount(s, Resumes(s, i), Next(s, i).1);
  }

  // The application counts the placeholders in these comments too.
  lemma {:induction false} CountersDifferBy(s: string, i: nat)
    requires i <= |s| && PlainComments(s, i)
    ensures ParamCount(s, i) == Parameters(Tokens(s, i)) + InComments(s, i)
    decreases |s| - i
  {
    if i < |s| {
      var (t, end) := Next(s, i);
      CountersDifferBy(s, end);
      assert Tokens(s, i) == [t] + Tokens(s, end);
      if Pair(s, i, '/', '*') {
        CommentCount(s, i);
      } else if StartsWord(s[i]) {
        WordHasNoParameters(s, i);
      }
    }
  }

  // So the counters agree exactly if there is none in what the application reads of the comments.
  lemma CountersAgreeIff(s: string)
    requires PlainComments(s, 0)
    ensures ParamCount(s, 0) == Parameters(Tokens(s, 0)) <==> InComments(s, 0) == 0
  {
    CountersDifferBy(s, 0);
  }
}
