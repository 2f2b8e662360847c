/**
 The filter of the test runner: a name matches a pattern in which any "*" stands for any
 characters.
 */
module Glob {
  import opened CStrings
  import opened Wrappers

  // What it is to match. The first wildcard can stand for nothing, or for one more character.
  predicate Matches(f: string, t: string)
    decreases |f| + |t|
  {
    if f == "" then t == ""
    else if f[0] == '*' then Matches(f[1..], t) || (t != "" && Matches(f, t[1..]))
    else t != "" && t[0] == f[0] && Matches(f[1..], t[1..])
  }

  // The rest of the pattern, after a wildcard that stands for the characters before k.
  ghost predicate MatchesAt(f: string, t: string, k: int) {
    0 <= k <= |t| && Matches(f, t[k..])
  }

  ghost predicate MatchesAfter(f: string, t: string, from: int) {
    exists k | from < k :: MatchesAt(f, t, k)
  }

  lemma {:induction false} StarAny(f: string, t: string, j: nat)
    requires f != "" && f[0] == '*' && j <= |t|
    ensures Matches(f, t[j..]) <==> MatchesAt(f[1..], t, j) || MatchesAfter(f[1..], t, j)
    decreases |t| - j
  {
    if j < |t| {
      StarAny(f, t, j + 1);
      assert t[j..][1..] == t[j + 1..];
      assert MatchesAfter(f[1..], t, j) <==> MatchesAt(f[1..], t, j + 1) || MatchesAfter(f[1..], t, j + 1);
    }
  }

  // A wildcard can stand for the characters before the place where it matches.
  lemma {:induction false} StarEarlier(f: string, t: string, j: nat, k: nat)
    requires f != "" && f[0] == '*' && j <= k <= |t| && Matches(f, t[k..])
    ensures Matches(f, t[j..])
    decreases k - j
  {
    if j < k {
      StarEarlier(f, t, j + 1, k);
      assert t[j..][1..] == t[j + 1..];
    }
  }

  lemma {:induction false} LiteralPrefix(f: string, p: nat, t: string)
    requires p <= |f| && '*' !in f[..p]
    ensures Matches(f, t) <==> p <= |t| && t[..p] == f[..p] && Matches(f[p..], t[p..])
  {
    if p > 0 {
      assert f[0] == f[..p][0] && f[1..][..p - 1] == f[..p][1..];
      if t != "" {
        LiteralPrefix(f[1..], p - 1, t[1..]);
        assert p <= |t| ==> t[1..][..p - 1] == t[..p][1..] && t[..p] == [t[0]] + t[..p][1..];
        assert f[..p] == [f[0]] + f[..p][1..];
        assert f[1..][p - 1..] == f[p..] && (p <= |t| ==> t[1..][p - 1..] == t[p..]);
      }
    }
  }

  lemma {:induction false} OnlyStars(f: string)
    ensures Matches(f, "") <==> forall i | 0 <= i < |f| :: f[i] == '*'
  {
    if f != "" {
      OnlyStars(f[1..]);
      assert (forall i | 0 <= i < |f| :: f[i] == '*') <==>
        && f[0] == '*'
        && forall i | 0 <= i < |f[1..]| :: f[1..][i] == '*';
    }
  }

  // The characters between the last wildcard and the current ones are the same.
  ghost predicate SameSince(f: string, t: string, wildcard: nat, i: nat, resume: nat, j: nat) {
    && wildcard < i <= |f| && resume <= j <= |t|
    && '*' !in f[wildcard + 1..i] && f[wildcard + 1..i] == t[resume..j]
  }

  // When another wildcard is found, the one before it doesn't have to be retried.
  lemma LastWildcard(f: string, t: string, wildcard: nat, i: nat, resume: nat, j: nat)
    requires SameSince(f, t, wildcard, i, resume, j) && i < |f| && f[i] == '*'
    requires MatchesAfter(f[wildcard + 1..], t, resume)
    ensures Matches(f[i..], t[j..])
  {
    var k :| resume < k && MatchesAt(f[wildcard + 1..], t, k);
    var g, p := f[wildcard + 1..], i - wildcard - 1;
    assert g[..p] == f[wildcard + 1..i];
    LiteralPrefix(g, p, t[k..]);
    assert g[p..] == f[i..] && t[k..][p..] == t[k + p..];
    StarEarlier(f[i..], t, j, k + p);
  }

  // At the end of the name, the last wildcard can't stand for any more characters.
  lemma NoRetryAtEnd(f: string, t: string, wildcard: nat, i: nat, resume: nat)
    requires SameSince(f, t, wildcard, i, resume, |t|)
    ensures !MatchesAfter(f[wildcard + 1..], t, resume)
  {
    if MatchesAfter(f[wildcard + 1..], t, resume) {
      var k :| resume < k && MatchesAt(f[wildcard + 1..], t, k);
      var g, p := f[wildcard + 1..], i - wildcard - 1;
      assert g[..p] == f[wildcard + 1..i] && |f[wildcard + 1..i]| == |t[resume..]|;
      LiteralPrefix(g, p, t[k..]);
    }
  }

  // How far the search is: the rest of the pattern has to match the rest of the name, or the last
  // wildcard (if there's one) has to stand for more characters.
  datatype Search = Search(i: nat, j: nat, wildcard: Option<nat>, resume: nat) {
    ghost predicate Of(f: string, t: string) {
      && i <= |f| && resume <= j <= |t|
      && (wildcard.Some? ==> SameSince(f, t, wildcard.value, i, resume, j))
    }

    ghost predicate CanMatch(f: string, t: string)
      requires Of(f, t)
    {
      || Matches(f[i..], t[j..])
      || (wildcard.Some? && MatchesAfter(f[wildcard.value + 1..], t, resume))
    }
  }

  lemma Start(f: string, t: string)
    ensures var s := Search(0, 0, None, 0); s.Of(f, t) && (s.CanMatch(f, t) <==> Matches(f, t))
  {
    assert f[0..] == f && t[0..] == t;
  }

  // The same character is consumed from each.
  lemma Literal(f: string, t: string, s: Search)
    requires s.Of(f, t) && s.i < |f| && s.j < |t| && f[s.i] != '*' && f[s.i] == t[s.j]
    ensures var n := s.(i := s.i + 1, j := s.j + 1);
      n.Of(f, t) && (n.CanMatch(f, t) <==> s.CanMatch(f, t))
  {
    assert f[s.i..][1..] == f[s.i + 1..] && t[s.j..][1..] == t[s.j + 1..];
    if s.wildcard.Some? {
      var w := s.wildcard.value;
      assert f[w + 1..s.i + 1] == f[w + 1..s.i] + [f[s.i]] && t[s.resume..s.j + 1] == t[s.resume..s.j] + [t[s.j]];
    }
  }

  lemma Wildcard(f: string, t: string, s: Search)
    requires s.Of(f, t) && s.i < |f| && f[s.i] == '*'
    ensures var n := Search(s.i + 1, s.j, Some(s.i), s.j);
      n.Of(f, t) && (n.CanMatch(f, t) <==> s.CanMatch(f, t))
  {
    StarAny(f[s.i..], t, s.j);
    assert f[s.i..][1..] == f[s.i + 1..];
    if s.wildcard.Some? && MatchesAfter(f[s.wildcard.value + 1..], t, s.resume) {
      LastWildcard(f, t, s.wildcard.value, s.i, s.resume, s.j);
    }
  }

  // The last wildcard stands for one more character.
  lemma Retry(f: string, t: string, s: Search)
    requires s.Of(f, t) && s.j < |t| && (s.i < |f| ==> f[s.i] != '*' && f[s.i] != t[s.j])
    ensures s.wildcard.None? ==> !s.CanMatch(f, t)
    ensures s.wildcard.Some? ==>
      var n := Search(s.wildcard.value + 1, s.resume + 1, s.wildcard, s.resume + 1);
      n.i <= |f| && n.Of(f, t) && (n.CanMatch(f, t) <==> s.CanMatch(f, t))
  {
    if s.wildcard.Some? {
      var g := f[s.wildcard.value + 1..];
      assert MatchesAfter(g, t, s.resume) <==> MatchesAt(g, t, s.resume + 1) || MatchesAfter(g, t, s.resume + 1);
    }
  }

  lemma AtEnd(f: string, t: string, s: Search)
    requires s.Of(f, t) && s.j == |t|
    ensures s.CanMatch(f, t) <==> forall i | s.i <= i < |f| :: f[i] == '*'
  {
    OnlyStars(f[s.i..]);
    assert (forall i | s.i <= i < |f| :: f[i] == '*') <==> forall i | 0 <= i < |f[s.i..]| :: f[s.i..][i] == '*';
    if s.wildcard.Some? {
      NoRetryAtEnd(f, t, s.wildcard.value, s.i, s.resume);
    }
  }

  // It is true if the test isn't run. Every read is within the strings and their null characters.
  method ShouldFilterTest(filter: Option<string>, testcase: string) returns (filtered: bool)
    requires (filter.Some? ==> IsCString(filter.value)) && IsCString(testcase)
    ensures filtered <==> filter.Some? && !Matches(Text(filter.value), Text(testcase))
  {
    if filter.None? {
      return false;
    }
    hide Matches, MatchesAfter, SameSince, Search.CanMatch, Search.Of, IsCString, Text;
    ghost var f, t := Text(filter.value), Text(testcase);
    Start(f, t);
    var i: nat, j: nat, resume: nat := 0, 0, 0;
    var wildcard: Option<nat> := None;
    Read(filter.value, i);
    Read(testcase, j);
    while testcase[j] != '\0'
      invariant 0 <= i <= |f| && 0 <= resume <= j <= |t| && j < |testcase| && i < |filter.value|
      invariant testcase[j] == '\0' <==> j == |t|
      invariant Search(i, j, wildcard, resume).Of(f, t)
      invariant Search(i, j, wildcard, resume).CanMatch(f, t) <==> Matches(f, t)
      decreases |t| - resume, |f| - i
    {
      ghost var s := Search(i, j, wildcard, resume);
      Read(filter.value, i);
      Read(testcase, j);
      if filter.value[i] != '*' && filter.value[i] == testcase[j] {
        Literal(f, t, s);
        i, j := i + 1, j + 1;
      } else if filter.value[i] == '*' {
        Wildcard(f, t, s);
        wildcard, resume := Some(i), j;
        i := i + 1;
      } else {
        Retry(f, t, s);
        if wildcard.None? {
          return true;
        }
        i, resume := wildcard.value + 1, resume + 1;
        j := resume;
      }
      Read(filter.value, i);
      Read(testcase, j);
    }
    AtEnd(f, t, Search(i, j, wildcard, resume));
    ghost var rest := i;
    while filter.value[i] == '*'
      invariant rest <= i <= |f| && i < |filter.value| && forall k | rest <= k < i :: f[k] == '*'
      decreases |f| - i
    {
      Read(filter.value, i);
      i := i + 1;
      Read(filter.value, i);
    }
    Read(filter.value, i);
    return filter.value[i] != '\0';
  }
}
