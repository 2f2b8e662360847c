/**
 The numbered rules of a Subclause of the standard, which are found by their labels and indentation.
 */
module StandardIndex {
  import opened Wrappers
  import opened RuleLabels

  // A line without its indentation, and with one space between its words.
  datatype Line = Line(indent: nat, text: string)

  // The abbreviation of a section.
  function SectionOf(s: string): Option<string> {
    if s == "Syntax Rules" then Some("SR")
    else if s == "Access Rules" then Some("AR")
    else if s == "General Rules" then Some("GR")
    else if s == "Conformance Rules" then Some("CR")
    else if s == "Description" then Some("DE")
    else None
  }

  predicate IsOtherHeading(s: string) {
    s == "Function" || s == "Format" || s == "Definition"
  }

  predicate IsHeading(s: string) {
    SectionOf(s).Some? || IsOtherHeading(s)
  }

  // How many of the first characters are all digits, or are all letters.
  function Run(s: string, digits: bool): (n: nat)
    ensures n <= |s|
    ensures forall i | 0 <= i < n :: if digits then IsDigit(s[i]) else IsLower(s[i]) || IsUpper(s[i])
  {
    if s != "" && (if digits then IsDigit(s[0]) else IsLower(s[0]) || IsUpper(s[0])) then 1 + Run(s[1..], digits) else 0
  }

  // The label that a line seems to start with, and the text after it.
  function LabelOf(s: string): (r: Option<(string, string)>)
    ensures r.Some? ==> r.value.0 != "" && '.' !in r.value.0
  {
    var n := if s != "" && IsDigit(s[0]) then Run(s, true) else Run(s, false);
    if 0 < n && n + 1 < |s| && s[n] == ')' && s[n + 1] == ' ' then Some((s[..n], s[n + 2..])) else None
  }

  predicate IsAll(s: string, digits: bool) {
    s != "" && forall i | 0 <= i < |s| :: if digits then IsDigit(s[i]) else IsLower(s[i]) || IsUpper(s[i])
  }

  lemma {:induction false} RunEnds(s: string, n: nat, digits: bool)
    requires n < |s| && !IsDigit(s[n]) && !IsLower(s[n]) && !IsUpper(s[n])
    requires n > 0 ==> IsAll(s[..n], digits)
    ensures Run(s, digits) == n
  {
    if n > 0 {
      assert s[0] == s[..n][0];
      forall i | 0 <= i < n - 1
        ensures if digits then IsDigit(s[1..n][i]) else IsLower(s[1..n][i]) || IsUpper(s[1..n][i])
      {
        assert s[1..n][i] == s[..n][i + 1];
      }
      assert s[1..][..n - 1] == s[1..n];
      RunEnds(s[1..], n - 1, digits);
    }
  }

  // A line starts with a label if it's a number or a word, a parenthesis and a space.
  lemma LabelOfIff(s: string, name: string, text: string)
    ensures LabelOf(s) == Some((name, text)) <==>
      s == name + ") " + text && (IsAll(name, true) || IsAll(name, false))
  {
    if s == name + ") " + text && (IsAll(name, true) || IsAll(name, false)) {
      var n := |name|;
      assert s[..n] == name && s[n] == ')' && s[n + 1] == ' ' && s[n + 2..] == text && s[0] == name[0];
      RunEnds(s, n, IsAll(name, true));
    }
    if LabelOf(s) == Some((name, text)) {
      assert s == s[..|name|] + ") " + s[|name| + 2..];
    }
  }

  // The indentation and label at a depth.
  datatype Entry = Entry(indent: nat, name: string)

  function Names(stack: seq<Entry>): (r: seq<string>)
    ensures |r| == |stack|
  {
    seq(|stack|, i requires 0 <= i < |stack| => stack[i].name)
  }

  // The labels of a rule, each of which is a label of its depth.
  predicate IsPath(p: seq<string>) {
    forall i | 0 <= i < |p| :: LabelMatches(p[i], i)
  }

  ghost function Ranks(p: seq<string>): (r: seq<nat>)
    requires IsPath(p)
    ensures |r| == |p|
  {
    seq(|p|, i requires 0 <= i < |p| => Rank(p[i], i))
  }

  // The order of the rules: a rule, then the rules within it, and then the next rule.
  predicate Before(a: seq<nat>, b: seq<nat>) {
    b != [] && (a == [] || a[0] < b[0] || (a[0] == b[0] && Before(a[1..], b[1..])))
  }

  lemma {:induction false} BeforeTransitive(a: seq<nat>, b: seq<nat>, c: seq<nat>)
    requires Before(a, b) && Before(b, c)
    ensures Before(a, c)
  {
    if a != [] && a[0] == b[0] && b[0] == c[0] {
      BeforeTransitive(a[1..], b[1..], c[1..]);
    }
  }

  lemma {:induction false} NotBeforeItself(a: seq<nat>)
    ensures !Before(a, a)
  {
    if a != [] {
      NotBeforeItself(a[1..]);
    }
  }

  lemma {:induction false} BeforeWithin(a: seq<nat>, n: nat)
    ensures Before(a, a + [n])
  {
    if a != [] {
      BeforeWithin(a[1..], n);
      assert (a + [n])[1..] == a[1..] + [n];
    }
  }

  lemma {:induction false} BeforeNext(a: seq<nat>, d: nat, n: nat)
    requires d < |a| && a[d] < n
    ensures Before(a, a[..d] + [n])
  {
    if d > 0 {
      BeforeNext(a[1..], d - 1, n);
      assert (a[..d] + [n])[1..] == a[1..][..d - 1] + [n];
    } else {
      assert a[..0] + [n] == [n];
    }
  }

  function ExpectedIndent(stack: seq<Entry>, depth: nat): nat {
    if depth < |stack| then stack[depth].indent
    else if stack == [] then 0
    else stack[|stack| - 1].indent + 6
  }

  // The label could be the next one at the depth, or the first one of a new depth.
  predicate IsCandidate(names: seq<string>, name: string, d: nat)
    requires IsPath(names)
  {
    if d < |names| then LabelMatches(name, d) && NextLabel(names[d], d) == Some(name)
    else d == |names| && name == FirstLabel(d)
  }

  // The line is another rule, when the labels are those of the last one.
  ghost predicate Accepts(names: seq<string>, text: string)
    requires IsPath(names)
  {
    LabelOf(text).Some? && exists d | 0 <= d <= |names| :: IsCandidate(names, LabelOf(text).value.0, d)
  }

  function Distance(a: nat, b: nat): nat {
    if a < b then b - a else a - b
  }

  // The candidate whose indentation is the closest, and the first of them.
  ghost predicate IsBest(stack: seq<Entry>, name: string, indent: nat, depth: nat)
    requires IsPath(Names(stack))
  {
    && depth <= |stack| && IsCandidate(Names(stack), name, depth)
    && forall d | 0 <= d <= |stack| && IsCandidate(Names(stack), name, d) ::
         var best := Distance(ExpectedIndent(stack, depth), indent);
         var other := Distance(ExpectedIndent(stack, d), indent);
         best < other || (best == other && depth <= d)
  }

  method FindDepth(stack: seq<Entry>, name: string, indent: nat) returns (depth: Option<nat>)
    requires IsPath(Names(stack))
    ensures depth.None? ==> forall d | 0 <= d <= |stack| :: !IsCandidate(Names(stack), name, d)
    ensures depth.Some? ==> IsBest(stack, name, indent, depth.value)
    // One at exactly its indentation is chosen, or the first of them.
    ensures forall d | 0 <= d < |stack| && IsCandidate(Names(stack), name, d) && stack[d].indent == indent ::
      depth.Some? && depth.value <= d && stack[depth.value].indent == indent
    // A new depth is indented by 6 more than the last one.
    ensures stack != [] && indent == stack[|stack| - 1].indent + 6 && IsCandidate(Names(stack), name, |stack|) ==>
      || depth == Some(|stack|)
      || exists d :: 0 <= d < |stack| && IsCandidate(Names(stack), name, d) && stack[d].indent == indent
  {
    depth := None;
    for d := 0 to |stack| + 1
      invariant depth.None? ==> forall k | 0 <= k < d :: !IsCandidate(Names(stack), name, k)
      invariant depth.Some? ==>
        && depth.value < d && IsCandidate(Names(stack), name, depth.value)
        && forall k | 0 <= k < d && IsCandidate(Names(stack), name, k) ::
             var best := Distance(ExpectedIndent(stack, depth.value), indent);
             var other := Distance(ExpectedIndent(stack, k), indent);
             best < other || (best == other && depth.value <= k)
    {
      if IsCandidate(Names(stack), name, d)
         && (depth.None?
             || Distance(ExpectedIndent(stack, d), indent) < Distance(ExpectedIndent(stack, depth.value), indent)) {
        depth := Some(d);
      }
    }
  }

  // A rule of the index.
  datatype Rule = Rule(section: string, number: string, text: string)

  // Where a rule was found: its labels, its lines, and the heading above it.
  datatype Place = Place(heading: nat, path: seq<string>, start: nat, end: nat)

  function Dotted(path: seq<string>): string
    requires path != []
  {
    if |path| == 1 then path[0] else path[0] + "." + Dotted(path[1..])
  }

  // The text after the label of the first line, and then the other lines.
  function TextOf(body: seq<Line>, start: nat, end: nat): string
    requires start < end <= |body| && LabelOf(body[start].text).Some?
  {
    if start + 1 == end then LabelOf(body[start].text).value.1
    else TextOf(body, start, end - 1) + " " + body[end - 1].text
  }

  // The rule is what's at the place: it's below its heading, and goes on until the next rule or
  // heading.
  ghost predicate IsAt(r: Rule, p: Place, body: seq<Line>) {
    && p.heading < p.start < p.end <= |body| && p.path != [] && IsPath(p.path)
    && SectionOf(body[p.heading].text) == Some(r.section)
    && (forall i | p.heading < i < p.end :: !IsHeading(body[i].text))
    && (forall i | p.start < i < p.end :: !Accepts(p.path, body[i].text))
    && LabelOf(body[p.start].text).Some? && LabelOf(body[p.start].text).value.0 == p.path[|p.path| - 1]
    && r.number == Dotted(p.path) && r.text == TextOf(body, p.start, p.end)
  }

  // Another rule below the same heading has the labels.
  ghost predicate Has(places: seq<Place>, n: nat, heading: nat, path: seq<string>)
    requires n <= |places|
  {
    exists k | 0 <= k < n :: places[k].heading == heading && places[k].path == path
  }

  // The rule that has this one in it, and the one before it at the same depth, come before it.
  ghost predicate NoGap(places: seq<Place>, n: nat)
    requires n < |places| && IsPath(places[n].path) && places[n].path != []
  {
    var p := places[n].path;
    var d := |p| - 1;
    && (d > 0 ==> Has(places, n, places[n].heading, p[..d]))
    && (Rank(p[d], d) > 1 ==>
          exists s :: LabelMatches(s, d) && Rank(s, d) == Rank(p[d], d) - 1
            && Has(places, n, places[n].heading, p[..d] + [s]))
  }

  ghost predicate InOrder(places: seq<Place>) {
    forall i, j | 0 <= i < j < |places| ::
      && places[i].end <= places[j].start && places[i].heading <= places[j].heading
      && (places[i].heading == places[j].heading ==>
            IsPath(places[i].path) && IsPath(places[j].path) && Before(Ranks(places[i].path), Ranks(places[j].path)))
  }

  // A rule goes on until the next rule, a heading or the last line that was read.
  ghost predicate GoesOn(places: seq<Place>, k: nat, body: seq<Line>, read: nat)
    requires k < |places| && read <= |body|
  {
    || places[k].end == read
    || (places[k].end < read && IsHeading(body[places[k].end].text))
    || (k + 1 < |places| && places[k + 1].start == places[k].end)
  }

  // The line is in the section of the heading.
  ghost predicate Below(body: seq<Line>, heading: nat, i: nat) {
    && heading < i < |body| && SectionOf(body[heading].text).Some?
    && forall j | heading < j <= i :: !IsHeading(body[j].text)
  }

  ghost predicate HasStarted(places: seq<Place>, heading: nat, i: nat) {
    exists k | 0 <= k < |places| :: places[k].heading == heading && places[k].start <= i
  }

  ghost predicate IsFirst(body: seq<Line>, heading: nat, i: nat) {
    Below(body, heading, i) && Accepts([], body[i].text)
  }

  // No line that can be the first rule of a section is missed.
  ghost predicate NoneMissed(places: seq<Place>, body: seq<Line>, read: nat) {
    forall h: nat, i: nat | IsFirst(body, h, i) && i < read :: HasStarted(places, h, i)
  }

  // Which rules there are in the lines that were read.
  ghost predicate Found(rules: seq<Rule>, places: seq<Place>, body: seq<Line>, read: nat) {
    && |places| == |rules| && read <= |body|
    && (forall k | 0 <= k < |rules| :: IsAt(rules[k], places[k], body) && places[k].end <= read)
    && (forall k | 0 <= k < |rules| :: NoGap(places, k) && GoesOn(places, k, body, read))
    && InOrder(places)
  }

  // The stack has the labels of the last rule below the heading.
  ghost predicate OnStack(names: seq<string>, places: seq<Place>, heading: nat) {
    && IsPath(names)
    && (forall d | 0 < d <= |names| :: Has(places, |places|, heading, names[..d]))
    && (forall k | 0 <= k < |places| ::
          && places[k].heading <= heading
          && (places[k].heading == heading ==>
                IsPath(places[k].path) && (places[k].path == names || Before(Ranks(places[k].path), Ranks(names)))))
  }

  lemma HasMore(places: seq<Place>, more: Place, n: nat, heading: nat, path: seq<string>)
    requires n <= |places|
    ensures Has(places, n, heading, path) <==> Has(places + [more], n, heading, path)
    ensures Has(places + [more], |places| + 1, heading, path) <==>
            Has(places, |places|, heading, path) || (more.heading == heading && more.path == path)
  {
    var after := places + [more];
    assert after[|places|] == more && forall k | 0 <= k < |places| :: after[k] == places[k];
  }

  lemma NoGapMore(places: seq<Place>, more: Place)
    requires forall k | 0 <= k < |places| :: IsPath(places[k].path) && places[k].path != [] && NoGap(places, k)
    ensures forall k | 0 <= k < |places| :: NoGap(places + [more], k)
  {
    var after := places + [more];
    forall k | 0 <= k < |places| ensures NoGap(after, k) {
      assert after[k] == places[k] && NoGap(places, k);
      var p := places[k].path;
      var d := |p| - 1;
      if d > 0 {
        HasMore(places, more, k, places[k].heading, p[..d]);
      }
      if Rank(p[d], d) > 1 {
        var s :| LabelMatches(s, d) && Rank(s, d) == Rank(p[d], d) - 1
          && Has(places, k, places[k].heading, p[..d] + [s]);
        HasMore(places, more, k, places[k].heading, p[..d] + [s]);
      }
    }
  }

  lemma RanksTake(p: seq<string>, d: nat, s: string)
    requires IsPath(p) && d <= |p| && LabelMatches(s, d)
    ensures IsPath(p[..d] + [s]) && Ranks(p[..d] + [s]) == Ranks(p)[..d] + [Rank(s, d)]
  {
  }

  // A rule with the next label at a depth of the stack, or the first one of a new depth.
  lemma NewPath(names: seq<string>, d: nat, s: string)
    requires IsPath(names) && d <= |names| && LabelMatches(s, d)
    requires if d < |names| then NextLabel(names[d], d) == Some(s) else s == FirstLabel(d)
    ensures IsPath(names[..d] + [s]) && Before(Ranks(names), Ranks(names[..d] + [s]))
    ensures Rank(s, d) > 1 ==> d < |names| && Rank(s, d) == Rank(names[d], d) + 1
  {
    RanksTake(names, d, s);
    if d < |names| {
      NextRank(names[d], s, d);
      BeforeNext(Ranks(names), d, Rank(s, d));
    } else {
      FirstRank(d);
      assert Ranks(names)[..d] == Ranks(names);
      BeforeWithin(Ranks(names), 1);
    }
  }

  lemma NewInOrder(places: seq<Place>, names: seq<string>, heading: nat, more: Place)
    requires InOrder(places) && OnStack(names, places, heading) && more.heading == heading
    requires forall k | 0 <= k < |places| :: places[k].end <= more.start
    requires IsPath(more.path) && Before(Ranks(names), Ranks(more.path))
    ensures InOrder(places + [more])
  {
    var after := places + [more];
    forall i, j | 0 <= i < j < |after|
      ensures after[i].end <= after[j].start && after[i].heading <= after[j].heading
      ensures after[i].heading == after[j].heading ==>
        IsPath(after[i].path) && IsPath(after[j].path) && Before(Ranks(after[i].path), Ranks(after[j].path))
    {
      if j == |places| && places[i].heading == heading && places[i].path != names {
        BeforeTransitive(Ranks(places[i].path), Ranks(names), Ranks(more.path));
      }
    }
  }

  lemma NewNoGap(places: seq<Place>, names: seq<string>, heading: nat, d: nat, s: string, start: nat)
    requires OnStack(names, places, heading) && d <= |names| && LabelMatches(s, d)
    requires if d < |names| then NextLabel(names[d], d) == Some(s) else s == FirstLabel(d)
    ensures var more := Place(heading, names[..d] + [s], start, start + 1);
      IsPath(more.path) && NoGap(places + [more], |places|)
  {
    var more := Place(heading, names[..d] + [s], start, start + 1);
    NewPath(names, d, s);
    var p := more.path;
    assert p[..d] == names[..d];
    HasMore(places, more, |places|, heading, p[..d]);
    if Rank(p[d], d) > 1 {
      assert names[..d] + [names[d]] == names[..d + 1];
      HasMore(places, more, |places|, heading, names[..d + 1]);
    }
  }

  lemma NewOnStack(places: seq<Place>, names: seq<string>, heading: nat, d: nat, s: string, start: nat)
    requires OnStack(names, places, heading) && d <= |names| && LabelMatches(s, d)
    requires if d < |names| then NextLabel(names[d], d) == Some(s) else s == FirstLabel(d)
    ensures OnStack(names[..d] + [s], places + [Place(heading, names[..d] + [s], start, start + 1)], heading)
  {
    var p := names[..d] + [s];
    var more := Place(heading, p, start, start + 1);
    var after := places + [more];
    NewPath(names, d, s);
    forall e | 0 < e <= |p| ensures Has(after, |after|, heading, p[..e]) {
      HasMore(places, more, |places|, heading, p[..e]);
      if e <= d {
        assert p[..e] == names[..e];
      } else {
        assert p[..e] == p;
      }
    }
    forall k | 0 <= k < |after| && after[k].heading == heading
      ensures IsPath(after[k].path) && (after[k].path == p || Before(Ranks(after[k].path), Ranks(p)))
    {
      if k < |places| && places[k].path != names {
        BeforeTransitive(Ranks(places[k].path), Ranks(names), Ranks(p));
      }
    }
  }

  // A line that doesn't belong to a rule, or is a heading.
  lemma SkipLine(rules: seq<Rule>, places: seq<Place>, body: seq<Line>, read: nat)
    requires Found(rules, places, body, read) && read < |body|
    requires IsHeading(body[read].text) || forall k | 0 <= k < |places| :: places[k].end < read
    ensures Found(rules, places, body, read + 1)
  {
    forall k | 0 <= k < |rules| ensures NoGap(places, k) && GoesOn(places, k, body, read + 1) {
      assert IsAt(rules[k], places[k], body) && GoesOn(places, k, body, read);
    }
  }

  // A line of the last rule.
  function Longer(places: seq<Place>): seq<Place>
    requires places != []
  {
    var n := |places| - 1;
    places[n := places[n].(end := places[n].end + 1)]
  }

  lemma HasLonger(places: seq<Place>, n: nat, heading: nat, path: seq<string>)
    requires places != [] && n <= |places|
    ensures Has(Longer(places), n, heading, path) <==> Has(places, n, heading, path)
  {
    assert forall k | 0 <= k < |places| ::
      && Longer(places)[k].path == places[k].path
      && Longer(places)[k].heading == places[k].heading;
  }

  lemma LongerNoGap(places: seq<Place>, k: nat)
    requires k < |places| && IsPath(places[k].path) && places[k].path != [] && NoGap(places, k)
    ensures IsPath(Longer(places)[k].path) && Longer(places)[k].path != [] && NoGap(Longer(places), k)
  {
    var after := Longer(places);
    assert after[k].path == places[k].path && after[k].heading == places[k].heading;
    var p := places[k].path;
    var d := |p| - 1;
    HasLonger(places, k, places[k].heading, p[..d]);
    if Rank(p[d], d) > 1 {
      var s :| LabelMatches(s, d) && Rank(s, d) == Rank(p[d], d) - 1 && Has(places, k, places[k].heading, p[..d] + [s]);
      HasLonger(places, k, places[k].heading, p[..d] + [s]);
    }
  }

  lemma LongerAt(rule: Rule, p: Place, body: seq<Line>)
    requires IsAt(rule, p, body) && p.end < |body| && !IsHeading(body[p.end].text)
    requires !Accepts(p.path, body[p.end].text)
    ensures IsAt(rule.(text := rule.text + " " + body[p.end].text), p.(end := p.end + 1), body)
  {
    hide SectionOf, LabelOf, IsHeading, Dotted, IsPath, Accepts;
  }

  lemma LongerInOrder(places: seq<Place>)
    requires places != [] && InOrder(places)
    ensures InOrder(Longer(places))
  {
    hide Before, IsPath, Ranks;
    var after := Longer(places);
    forall i, j | 0 <= i < j < |after|
      ensures after[i].end <= after[j].start && after[i].heading <= after[j].heading
      ensures after[i].heading == after[j].heading ==>
        IsPath(after[i].path) && IsPath(after[j].path) && Before(Ranks(after[i].path), Ranks(after[j].path))
    {
      assert after[i] == places[i] && after[j].path == places[j].path && after[j].start == places[j].start;
    }
  }

  lemma SkipNoneMissed(places: seq<Place>, body: seq<Line>, read: nat)
    requires NoneMissed(places, body, read) && forall h: nat :: !IsFirst(body, h, read)
    ensures NoneMissed(places, body, read + 1)
  {
    hide IsFirst;
  }

  lemma LongerNoneMissed(places: seq<Place>, body: seq<Line>, read: nat)
    requires places != [] && NoneMissed(places, body, read) && places[|places| - 1].start <= read
    requires forall h: nat | IsFirst(body, h, read) :: h == places[|places| - 1].heading
    ensures NoneMissed(Longer(places), body, read + 1)
  {
    hide IsFirst;
    var after := Longer(places);
    assert forall k | 0 <= k < |places| :: after[k].heading == places[k].heading && after[k].start == places[k].start;
    forall h: nat, i: nat | IsFirst(body, h, i) && i <= read ensures HasStarted(after, h, i) {
      if i < read {
        assert HasStarted(places, h, i);
      } else {
        assert after[|places| - 1].heading == h;
      }
    }
  }

  lemma MoreNoneMissed(places: seq<Place>, more: Place, body: seq<Line>, read: nat)
    requires NoneMissed(places, body, read) && more.start == read
    requires forall h: nat | IsFirst(body, h, read) :: h == more.heading
    ensures NoneMissed(places + [more], body, read + 1)
  {
    hide IsFirst;
    var after := places + [more];
    assert after[|places|] == more && forall k | 0 <= k < |places| :: after[k] == places[k];
    forall h: nat, i: nat | IsFirst(body, h, i) && i <= read ensures HasStarted(after, h, i) {
      if i < read {
        assert HasStarted(places, h, i);
      }
    }
  }

  lemma LongerOther(rules: seq<Rule>, places: seq<Place>, body: seq<Line>, read: nat, k: nat)
    requires Found(rules, places, body, read) && read < |body| && k + 1 < |rules|
    requires places[|rules| - 1].end == read
    ensures Longer(places)[k] == places[k] && places[k].end <= read
    ensures IsPath(places[k].path) && places[k].path != [] && NoGap(Longer(places), k)
      && GoesOn(Longer(places), k, body, read + 1)
  {
    hide SectionOf, LabelOf, IsHeading, Dotted, TextOf, Before, NoGap, IsPath, Ranks, Accepts;
    var n := |rules| - 1;
    assert IsAt(rules[k], places[k], body) && IsAt(rules[n], places[n], body);
    assert GoesOn(places, k, body, read) && places[k].end <= places[n].start < read;
    LongerNoGap(places, k);
  }

  lemma LongerRule(rules: seq<Rule>, rule: Rule, places: seq<Place>, body: seq<Line>, read: nat)
    requires Found(rules + [rule], places, body, read) && read < |body|
    requires places[|rules|].end == read && !IsHeading(body[read].text)
    requires IsPath(places[|rules|].path) && !Accepts(places[|rules|].path, body[read].text)
    ensures Found(rules + [rule.(text := rule.text + " " + body[read].text)], Longer(places), body, read + 1)
  {
    var n, all := |rules|, rules + [rule];
    var all' := rules + [rule.(text := rule.text + " " + body[read].text)];
    assert IsAt(all[n], places[n], body) && NoGap(places, n);
    LongerInOrder(places);
    LongerNoGap(places, n);
    LongerAt(rule, places[n], body);
    hide SectionOf, LabelOf, IsHeading, Dotted, TextOf, Before, NoGap, IsPath, InOrder, Accepts;
    forall k | 0 <= k < n
      ensures IsAt(all'[k], Longer(places)[k], body) && Longer(places)[k].end <= read
      ensures NoGap(Longer(places), k) && GoesOn(Longer(places), k, body, read + 1)
    {
      assert IsAt(all[k], places[k], body);
      LongerOther(all, places, body, read, k);
    }
  }

  lemma LongerOnStack(names: seq<string>, places: seq<Place>, heading: nat)
    requires places != [] && OnStack(names, places, heading)
    ensures OnStack(names, Longer(places), heading)
  {
    forall d | 0 < d <= |names| ensures Has(Longer(places), |places|, heading, names[..d]) {
      HasLonger(places, |places|, heading, names[..d]);
    }
    assert forall k | 0 <= k < |places| ::
      && Longer(places)[k].path == places[k].path
      && Longer(places)[k].heading == places[k].heading;
  }

  lemma PathsOf(rules: seq<Rule>, places: seq<Place>, body: seq<Line>, read: nat)
    requires Found(rules, places, body, read)
    ensures forall k | 0 <= k < |places| :: IsPath(places[k].path) && places[k].path != [] && NoGap(places, k)
    ensures forall k | 0 <= k < |places| :: places[k].end <= read
  {
    hide SectionOf, LabelOf, IsHeading, Dotted, TextOf, Before, IsPath, InOrder, GoesOn, Has;
    forall k | 0 <= k < |places| ensures IsPath(places[k].path) && places[k].path != [] && NoGap(places, k) {
      assert IsAt(rules[k], places[k], body);
    }
  }

  lemma NewPlaces(rules: seq<Rule>, places: seq<Place>, body: seq<Line>, read: nat,
                  names: seq<string>, heading: nat, d: nat, s: string)
    requires Found(rules, places, body, read) && read < |body|
    requires OnStack(names, places, heading) && d <= |names| && LabelMatches(s, d)
    requires if d < |names| then NextLabel(names[d], d) == Some(s) else s == FirstLabel(d)
    ensures var after := places + [Place(heading, names[..d] + [s], read, read + 1)];
      && InOrder(after)
      && forall k | 0 <= k < |after| :: IsPath(after[k].path) && after[k].path != [] && NoGap(after, k)
  {
    hide Before, IsPath, NextLabel, LabelMatches, FirstLabel, InOrder, Found, NoGap, Rank, Ranks, Has;
    var more := Place(heading, names[..d] + [s], read, read + 1);
    PathsOf(rules, places, body, read);
    NewPath(names, d, s);
    NewNoGap(places, names, heading, d, s, read);
    FoundInOrder(rules, places, body, read);
    NewInOrder(places, names, heading, more);
    NoGapMore(places, more);
  }

  lemma FoundInOrder(rules: seq<Rule>, places: seq<Place>, body: seq<Line>, read: nat)
    requires Found(rules, places, body, read)
    ensures InOrder(places)
  {
  }

  lemma NewRule(rules: seq<Rule>, rule: Rule, places: seq<Place>, body: seq<Line>, read: nat, more: Place)
    requires Found(rules, places, body, read) && read < |body| && more.start == read && more.end == read + 1
    requires forall k | 0 <= k < |places| - 1 :: places[k].end < read
    requires IsAt(rule, more, body)
    requires InOrder(places + [more])
    requires forall k | 0 <= k <= |places| ::
      var after := places + [more];
      IsPath(after[k].path) && after[k].path != [] && NoGap(after, k)
    ensures Found(rules + [rule], places + [more], body, read + 1)
  {
    hide SectionOf, LabelOf, IsHeading, Dotted, TextOf, Before, NoGap, IsPath, InOrder, Accepts;
    var all, after := rules + [rule], places + [more];
    forall k | 0 <= k < |rules| ensures after[k] == places[k] && IsAt(all[k], after[k], body)
      && GoesOn(after, k, body, read + 1) {
      assert IsAt(rules[k], places[k], body) && GoesOn(places, k, body, read);
      NewGoesOn(places, more, body, read, k);
    }
    assert after[|rules|] == more && all[|rules|] == rule;
  }

  lemma NewGoesOn(places: seq<Place>, more: Place, body: seq<Line>, read: nat, k: nat)
    requires k < |places| && read < |body| && GoesOn(places, k, body, read)
    requires more.start == read && (k < |places| - 1 ==> places[k].end < read)
    ensures GoesOn(places + [more], k, body, read + 1)
  {
  }

  // What's true after the lines that were read. The rules are the rules, with the current one.
  ghost predicate Reading(body: seq<Line>, read: nat, section: Option<string>, stack: seq<Entry>, current: Option<Rule>,
                          rules: seq<Rule>, places: seq<Place>, heading: nat)
  {
    && Found(WithCurrent(rules, current), places, body, read) && NoneMissed(places, body, read)
    && (current.None? ==> forall k | 0 <= k < |places| :: places[k].end < read)
    && (current.Some? ==>
          && section == Some(current.value.section)
          && var last := places[|rules|]; last.end == read && last.heading == heading && last.path == Names(stack))
    && (section.Some? ==>
          && heading < read && SectionOf(body[heading].text) == section
          && (forall k | heading < k < read :: !IsHeading(body[k].text))
          && OnStack(Names(stack), places, heading)
          && (current.None? ==> stack == [] && forall k | heading < k < read :: !Accepts([], body[k].text)))
    && (section.None? ==> forall h | 0 <= h < read && SectionOf(body[h].text).Some? ::
          exists k | h < k < read :: IsHeading(body[k].text))
  }

  function WithCurrent(rules: seq<Rule>, current: Option<Rule>): seq<Rule> {
    if current.Some? then rules + [current.value] else rules
  }

  lemma AtHeading(body: seq<Line>, read: nat, section: Option<string>, stack: seq<Entry>, current: Option<Rule>,
                  rules: seq<Rule>, places: seq<Place>, heading: nat, after: seq<Entry>)
    requires Reading(body, read, section, stack, current, rules, places, heading)
    requires read < |body| && IsHeading(body[read].text) && (SectionOf(body[read].text).Some? ==> after == [])
    ensures Reading(body, read + 1, SectionOf(body[read].text), after, None, WithCurrent(rules, current), places, read)
  {
    var all := WithCurrent(rules, current);
    SkipLine(all, places, body, read);
    SkipNoneMissed(places, body, read);
    forall k | 0 <= k < |places| ensures places[k].heading < read && places[k].end <= read {
      assert IsAt(all[k], places[k], body);
    }
  }

  // The heading of a line is the last one.
  lemma SectionHeading(body: seq<Line>, read: nat, section: Option<string>, heading: nat)
    requires read < |body|
    requires section.Some? ==>
      && heading < read && IsHeading(body[heading].text)
      && forall k | heading < k < read :: !IsHeading(body[k].text)
    requires section.None? ==> forall h | 0 <= h < read && SectionOf(body[h].text).Some? ::
      exists k | h < k < read :: IsHeading(body[k].text)
    ensures forall h: nat | IsFirst(body, h, read) :: section.Some? && h == heading && Accepts([], body[read].text)
  {
  }

  lemma AtOther(body: seq<Line>, read: nat, section: Option<string>, stack: seq<Entry>,
                rules: seq<Rule>, places: seq<Place>, heading: nat)
    requires Reading(body, read, section, stack, None, rules, places, heading)
    requires read < |body| && !IsHeading(body[read].text) && (section.Some? ==> !Accepts([], body[read].text))
    ensures Reading(body, read + 1, section, stack, None, rules, places, heading)
  {
    SectionHeading(body, read, section, heading);
    SkipLine(rules, places, body, read);
    SkipNoneMissed(places, body, read);
  }

  lemma AtNone(body: seq<Line>, read: nat, stack: seq<Entry>, current: Option<Rule>,
               rules: seq<Rule>, places: seq<Place>, heading: nat)
    requires Reading(body, read, None, stack, current, rules, places, heading)
    requires read < |body| && !IsHeading(body[read].text)
    ensures Reading(body, read + 1, None, stack, current, rules, places, heading)
  {
    AtOther(body, read, None, stack, rules, places, heading);
  }

  lemma LastStart(rules: seq<Rule>, places: seq<Place>, body: seq<Line>, read: nat)
    requires Found(rules, places, body, read) && rules != []
    ensures places != [] && places[|places| - 1].start < read
  {
    assert IsAt(rules[|rules| - 1], places[|rules| - 1], body);
  }

  lemma AtMore(body: seq<Line>, read: nat, section: Option<string>, stack: seq<Entry>, rule: Rule,
               rules: seq<Rule>, places: seq<Place>, heading: nat)
    requires Reading(body, read, section, stack, Some(rule), rules, places, heading)
    requires read < |body| && !IsHeading(body[read].text)
    requires IsPath(Names(stack)) && !Accepts(Names(stack), body[read].text)
    ensures places != []
    ensures Reading(body, read + 1, section, stack, Some(rule.(text := rule.text + " " + body[read].text)),
                    rules, Longer(places), heading)
  {
    SectionHeading(body, read, section, heading);
    LastStart(rules + [rule], places, body, read);
    hide IsAt, NoGap, GoesOn, InOrder, IsHeading, SectionOf, Accepts, IsFirst, NoneMissed;
    LongerNoneMissed(places, body, read);
    LongerRule(rules, rule, places, body, read);
    LongerOnStack(Names(stack), places, heading);
  }

  lemma EndsBefore(rules: seq<Rule>, places: seq<Place>, body: seq<Line>, read: nat)
    requires Found(rules, places, body, read)
    ensures forall k | 0 <= k < |places| - 1 :: places[k].end < read
  {
    forall k | 0 <= k < |places| - 1 ensures places[k].end < read {
      var n := |places| - 1;
      assert IsAt(rules[n], places[n], body) && places[k].end <= places[n].start;
    }
  }

  lemma NewAt(body: seq<Line>, read: nat, section: string, heading: nat, names: seq<string>)
    requires heading < read < |body| && names != [] && IsPath(names)
    requires SectionOf(body[heading].text) == Some(section)
      && forall i | heading < i <= read :: !IsHeading(body[i].text)
    requires LabelOf(body[read].text).Some? && LabelOf(body[read].text).value.0 == names[|names| - 1]
    ensures IsAt(Rule(section, Dotted(names), LabelOf(body[read].text).value.1),
      Place(heading, names, read, read + 1), body)
  {
    hide SectionOf, LabelOf, IsHeading, IsPath, Dotted;
  }

  lemma NamesTake(stack: seq<Entry>, d: nat, indent: nat, s: string)
    requires d <= |stack|
    ensures Names(stack[..d] + [Entry(indent, s)]) == Names(stack)[..d] + [s] == Names(stack[..d]) + [s]
  {
  }

  // The next rule below the heading.
  lemma NextRule(body: seq<Line>, read: nat, section: string, names: seq<string>, rules: seq<Rule>, places: seq<Place>,
                 heading: nat, d: nat, s: string, text: string)
    requires Found(rules, places, body, read) && OnStack(names, places, heading)
    requires heading < read < |body| && SectionOf(body[heading].text) == Some(section)
    requires forall i | heading < i <= read :: !IsHeading(body[i].text)
    requires LabelOf(body[read].text) == Some((s, text)) && d <= |names| && IsCandidate(names, s, d)
    ensures var path := names[..d] + [s]; var more := Place(heading, path, read, read + 1);
      && OnStack(path, places + [more], heading)
      && Found(rules + [Rule(section, Dotted(path), text)], places + [more], body, read + 1)
  {
    FirstRank(d);
    NewPath(names, d, s);
    NewOnStack(places, names, heading, d, s, read);
    EndsBefore(rules, places, body, read);
    NewAt(body, read, section, heading, names[..d] + [s]);
    NewPlaces(rules, places, body, read, names, heading, d, s);
    hide LabelMatches, NextLabel, FirstLabel, Found, IsHeading, SectionOf, LabelOf, OnStack, IsPath, Dotted, InOrder,
      NoGap, IsAt;
    NewRule(rules, Rule(section, Dotted(names[..d] + [s]), text), places, body, read,
      Place(heading, names[..d] + [s], read, read + 1));
  }

  lemma Continue(body: seq<Line>, read: nat, section: string, after: seq<Entry>, rule: Rule, rules: seq<Rule>,
                 places: seq<Place>, more: Place)
    requires Found(rules + [rule], places + [more], body, read + 1) && NoneMissed(places + [more], body, read + 1)
    requires OnStack(more.path, places + [more], more.heading) && Names(after) == more.path && |places| == |rules|
    requires more.end == read + 1 && rule.section == section && more.heading < read < |body|
    requires SectionOf(body[more.heading].text) == Some(section)
    requires forall k | more.heading < k <= read :: !IsHeading(body[k].text)
    ensures Reading(body, read + 1, Some(section), after, Some(rule), rules, places + [more], more.heading)
  {
    hide Found, IsHeading, SectionOf, OnStack, Accepts, NoneMissed, Names;
  }

  // What's known of the lines below the heading of a section.
  lemma BelowHeading(body: seq<Line>, read: nat, section: Option<string>, stack: seq<Entry>, current: Option<Rule>,
                     rules: seq<Rule>, places: seq<Place>, heading: nat)
    requires Reading(body, read, section, stack, current, rules, places, heading)
    requires read < |body| && !IsHeading(body[read].text) && section.Some?
    ensures Found(WithCurrent(rules, current), places, body, read) && NoneMissed(places, body, read)
    ensures OnStack(Names(stack), places, heading) && heading < read && SectionOf(body[heading].text) == section
    ensures forall k | heading < k <= read :: !IsHeading(body[k].text)
    ensures forall h: nat | IsFirst(body, h, read) :: h == heading
  {
    hide Found, SectionOf, LabelOf, OnStack, Accepts, IsFirst, NoneMissed, Names, WithCurrent, IsOtherHeading;
    SectionHeading(body, read, section, heading);
  }

  lemma AtRule(body: seq<Line>, read: nat, section: Option<string>, stack: seq<Entry>, current: Option<Rule>,
               rules: seq<Rule>, places: seq<Place>, heading: nat, d: nat, s: string, text: string, after: seq<Entry>)
    requires Reading(body, read, section, stack, current, rules, places, heading)
    requires read < |body| && !IsHeading(body[read].text) && section.Some?
    requires LabelOf(body[read].text) == Some((s, text)) && d <= |stack|
    requires IsPath(Names(stack)) && IsCandidate(Names(stack), s, d)
    requires after == stack[..d] + [Entry(body[read].indent, s)]
    ensures Reading(body, read + 1, section, after, Some(Rule(section.value, Dotted(Names(after)), text)),
                    WithCurrent(rules, current), places + [Place(heading, Names(after), read, read + 1)], heading)
  {
    BelowHeading(body, read, section, stack, current, rules, places, heading);
    NamesTake(stack, d, body[read].indent, s);
    hide Reading, IsCandidate, Found, IsHeading, SectionOf, LabelOf, OnStack, IsPath, Dotted, Accepts, IsFirst,
      NoneMissed, Names;
    var more := Place(heading, Names(after), read, read + 1);
    var rule := Rule(section.value, Dotted(Names(after)), text);
    var all := WithCurrent(rules, current);
    FoundSize(all, places, body, read);
    NextRule(body, read, section.value, Names(stack), all, places, heading, d, s, text);
    MoreNoneMissed(places, more, body, read);
    Continue(body, read, section.value, after, rule, all, places, more);
  }

  lemma FoundSize(rules: seq<Rule>, places: seq<Place>, body: seq<Line>, read: nat)
    requires Found(rules, places, body, read)
    ensures |places| == |rules|
  {
  }

  lemma Start(body: seq<Line>)
    ensures Reading(body, 0, None, [], None, [], [], 0)
  {
  }

  lemma StackIsPath(body: seq<Line>, read: nat, section: Option<string>, stack: seq<Entry>, current: Option<Rule>,
                    rules: seq<Rule>, places: seq<Place>, heading: nat)
    requires Reading(body, read, section, stack, current, rules, places, heading) && section.Some?
    ensures IsPath(Names(stack))
  {
  }

  lemma NotStarted(body: seq<Line>, read: nat, section: Option<string>, stack: seq<Entry>,
                   rules: seq<Rule>, places: seq<Place>, heading: nat)
    requires Reading(body, read, section, stack, None, rules, places, heading) && section.Some?
    ensures stack == [] && Names(stack) == []
  {
  }

  lemma Finish(body: seq<Line>, section: Option<string>, stack: seq<Entry>, current: Option<Rule>,
               rules: seq<Rule>, places: seq<Place>, heading: nat)
    requires Reading(body, |body|, section, stack, current, rules, places, heading)
    ensures Found(WithCurrent(rules, current), places, body, |body|) && NoneMissed(places, body, |body|)
  {
  }

  // What has been read: the section, the indentation and label at each depth, and the rules.
  datatype Reader = Reader(section: Option<string>, stack: seq<Entry>, current: Option<Rule>, rules: seq<Rule>)

  // The depth of the rule that the line starts, or None for another line.
  ghost function DepthOf(stack: seq<Entry>, line: Line): (depth: Option<nat>)
    ensures depth.Some? ==> LabelOf(line.text).Some? && depth.value <= |stack|
  {
    if IsPath(Names(stack)) && LabelOf(line.text).Some?
      && exists d: nat :: IsBest(stack, LabelOf(line.text).value.0, line.indent, d) then
      var d: nat :| IsBest(stack, LabelOf(line.text).value.0, line.indent, d);
      Some(d)
    else None
  }

  lemma DepthIs(stack: seq<Entry>, line: Line, depth: Option<nat>)
    requires IsPath(Names(stack))
    requires LabelOf(line.text).None? ==> depth.None?
    requires LabelOf(line.text).Some? ==>
      if depth.Some? then IsBest(stack, LabelOf(line.text).value.0, line.indent, depth.value)
      else forall d | 0 <= d <= |stack| :: !IsCandidate(Names(stack), LabelOf(line.text).value.0, d)
    ensures DepthOf(stack, line) == depth
  {
    hide IsCandidate, LabelOf, IsPath, Names, ExpectedIndent, Distance;
  }

  ghost function ReadLine(r: Reader, line: Line): Reader {
    if IsHeading(line.text) then
      Reader(SectionOf(line.text), if SectionOf(line.text).Some? then [] else r.stack, None,
        WithCurrent(r.rules, r.current))
    else if r.section.None? then r
    else
      match DepthOf(r.stack, line)
      case None =>
        if r.current.None? then r
        else r.(current := Some(r.current.value.(text := r.current.value.text + " " + line.text)))
      case Some(d) =>
        var (name, text) := LabelOf(line.text).value;
        var stack := r.stack[..d] + [Entry(line.indent, name)];
        Reader(r.section, stack, Some(Rule(r.section.value, Dotted(Names(stack)), text)),
          WithCurrent(r.rules, r.current))
  }

  ghost function Read(body: seq<Line>, n: nat): Reader
    requires n <= |body|
  {
    if n == 0 then Reader(None, [], None, []) else ReadLine(Read(body, n - 1), body[n - 1])
  }

  ghost function RulesOf(body: seq<Line>): seq<Rule> {
    WithCurrent(Read(body, |body|).rules, Read(body, |body|).current)
  }

  // The rules are what's at their places, and no rule is missed.
  ghost predicate AreRules(rules: seq<Rule>, places: seq<Place>, body: seq<Line>) {
    Found(rules, places, body, |body|) && NoneMissed(places, body, |body|)
  }

  // The rules of a Subclause. Those below a heading are in order without gaps (so no two have the
  // same number), and every line after one belongs to a rule until there's another heading.
  method Rules(body: seq<Line>) returns (rules: seq<Rule>)
    ensures rules == RulesOf(body)
    ensures exists places :: AreRules(rules, places, body)
  {
    ghost var places: seq<Place>;
    hide Reading, Found, NoneMissed, IsPath, IsCandidate, LabelOf, SectionOf, Names, Dotted, WithCurrent, IsBest,
      DepthOf, IsOtherHeading;
    rules, places := [], [];
    var section: Option<string>, stack: seq<Entry>, current: Option<Rule> := None, [], None;
    ghost var heading := 0;
    var i := 0;
    Start(body);
    while i < |body|
      invariant 0 <= i <= |body| && Reading(body, i, section, stack, current, rules, places, heading)
      invariant Reader(section, stack, current, rules) == Read(body, i)
    {
      var line := body[i];
      if SectionOf(line.text).Some? {
        AtHeading(body, i, section, stack, current, rules, places, heading, []);
        rules, current := WithCurrent(rules, current), None;
        section, stack, heading := SectionOf(line.text), [], i;
      } else if IsOtherHeading(line.text) {
        AtHeading(body, i, section, stack, current, rules, places, heading, stack);
        rules, current := WithCurrent(rules, current), None;
        section, heading := None, i;
      } else if section.None? {
        AtNone(body, i, stack, current, rules, places, heading);
      } else {
        StackIsPath(body, i, section, stack, current, rules, places, heading);
        var found := LabelOf(line.text);
        var depth := None;
        if found.Some? {
          depth := FindDepth(stack, found.value.0, line.indent);
        }
        DepthIs(stack, line, depth);
        if depth.None? {
          if current.Some? {
            AtMore(body, i, section, stack, current.value, rules, places, heading);
            current := Some(current.value.(text := current.value.text + " " + line.text));
            places := Longer(places);
          } else {
            NotStarted(body, i, section, stack, rules, places, heading);
            AtOther(body, i, section, stack, rules, places, heading);
          }
        } else {
          var after := stack[..depth.value] + [Entry(line.indent, found.value.0)];
          AtRule(body, i, section, stack, current, rules, places, heading, depth.value, found.value.0, found.value.1,
            after);
          rules := WithCurrent(rules, current);
          stack := after;
          current := Some(Rule(section.value, Dotted(Names(stack)), found.value.1));
          places := places + [Place(heading, Names(stack), i, i + 1)];
        }
      }
      i := i + 1;
    }
    Finish(body, section, stack, current, rules, places, heading);
    rules := WithCurrent(rules, current);
    assert AreRules(rules, places, body);
  }

  // The rule is below the same heading as the line, and the line comes after its label.
  ghost predicate Follows(p: Place, body: seq<Line>, i: nat)
    requires i < |body|
  {
    p.start <= i && forall k | p.start <= k <= i :: k < |body| && !IsHeading(body[k].text)
  }

  lemma {:induction false} SomeRule(rules: seq<Rule>, places: seq<Place>, body: seq<Line>, n: nat, i: nat)
    requires Found(rules, places, body, |body|) && n < |places| && i < |body| && Follows(places[n], body, i)
    ensures exists k :: n <= k < |places| && places[k].start <= i < places[k].end
    decreases |places| - n
  {
    hide Before, IsPath, Ranks, Dotted, TextOf, SectionOf, LabelOf, NoGap, InOrder, IsHeading;
    assert IsAt(rules[n], places[n], body) && GoesOn(places, n, body, |body|);
    if i >= places[n].end {
      SomeRule(rules, places, body, n + 1, i);
    }
  }

  // Every line that comes after the label of a rule, without a heading between them, belongs to
  // exactly one rule.
  lemma OneRule(rules: seq<Rule>, places: seq<Place>, body: seq<Line>, n: nat, i: nat)
    requires Found(rules, places, body, |body|) && n < |places| && i < |body| && Follows(places[n], body, i)
    ensures exists k :: n <= k < |places| && places[k].start <= i < places[k].end
    ensures forall j, k | 0 <= j < |places| && 0 <= k < |places|
                          && places[j].start <= i < places[j].end && places[k].start <= i < places[k].end :: j == k
  {
    SomeRule(rules, places, body, n, i);
    FoundInOrder(rules, places, body, |body|);
  }

  // No two rules below a heading have the same number.
  lemma NumbersDistinct(rules: seq<Rule>, places: seq<Place>, body: seq<Line>, i: nat, j: nat)
    requires Found(rules, places, body, |body|) && i < j < |rules| && places[i].heading == places[j].heading
    ensures rules[i].number != rules[j].number
  {
    assert IsAt(rules[i], places[i], body) && IsAt(rules[j], places[j], body);
    NotBeforeItself(Ranks(places[i].path));
    if Dotted(places[i].path) == Dotted(places[j].path) {
      PathHasNoDot(places[i].path);
      PathHasNoDot(places[j].path);
      DottedSame(places[i].path, places[j].path);
    }
  }

  lemma PathHasNoDot(p: seq<string>)
    requires IsPath(p)
    ensures forall i | 0 <= i < |p| :: '.' !in p[i]
  {
    forall i | 0 <= i < |p| ensures '.' !in p[i] {
      assert LabelMatches(p[i], i);
      LabelHasNoDot(p[i], i);
    }
  }

  lemma LabelHasNoDot(s: string, level: nat)
    requires LabelMatches(s, level)
    ensures '.' !in s
  {
    if KindOf(level).RomanLower? {
      var k :| 0 <= k < |Romans()| && Romans()[k] == s;
      RomanIsLower(k + 1);
    }
  }

  // The first label ends at the first point.
  lemma {:induction false} DottedSame(p: seq<string>, q: seq<string>)
    requires p != [] && q != [] && Dotted(p) == Dotted(q)
    requires (forall i | 0 <= i < |p| :: '.' !in p[i]) && forall i | 0 <= i < |q| :: '.' !in q[i]
    ensures p == q
    decreases |p|
  {
    var s := Dotted(p);
    FirstPoint(p, s);
    FirstPoint(q, s);
    if |p| > 1 && |q| > 1 {
      assert s[|p[0]| + 1..] == Dotted(p[1..]) && s[|q[0]| + 1..] == Dotted(q[1..]);
      DottedSame(p[1..], q[1..]);
      assert p == [p[0]] + p[1..] && q == [q[0]] + q[1..];
    }
  }

  lemma FirstPoint(p: seq<string>, s: string)
    requires p != [] && s == Dotted(p) && '.' !in p[0]
    ensures |p[0]| <= |s| && p[0] == s[..|p[0]|]
    ensures if |p| == 1 then |s| == |p[0]| else |p[0]| < |s| && s[|p[0]|] == '.'
    ensures forall i | 0 <= i < |p[0]| :: s[i] != '.'
  {
  }
}
