/**
 The depths that the rules of the index have, for labels that could be at more than one.
 */
module RuleDepths {
  import opened Wrappers
  import opened RuleLabels
  import opened StandardIndex

  // The labels are 1 at the first depth, and a letter at the second one.
  function AtLetter(first: nat, second: nat, letter: char): seq<Entry> {
    [Entry(first, "1"), Entry(second, [letter])]
  }

  lemma NumberOne()
    ensures Decimal(2) == "2" && NextLabel("1", 0) == Some("2") && LabelMatches("1", 0)
  {
    assert Number("1") == 1 by {
      assert "1"[..0] == "";
    }
  }

  lemma LetterPath(first: nat, second: nat, letter: char)
    requires 'a' <= letter <= 'z'
    ensures Names(AtLetter(first, second, letter)) == ["1", [letter]] && IsPath(["1", [letter]])
  {
    NumberOne();
  }

  // Any letter but i is only the next one after the letter before it.
  lemma LetterCandidate(letter: char, d: nat)
    requires 'a' <= letter < 'z' && d <= 2
    ensures IsPath(["1", [letter]])
    ensures IsCandidate(["1", [letter]], [NextChar(letter)], d) <==> d == 1 || (d == 2 && letter == 'h')
  {
    LetterPath(0, 0, letter);
    NumberOne();
    assert IsLower([NextChar(letter)][0]);
  }

  lemma NextLetter(first: nat, second: nat, letter: char, line: Line, text: string)
    requires 'a' <= letter < 'z' && letter != 'h' && LabelOf(line.text) == Some(([NextChar(letter)], text))
    ensures DepthOf(AtLetter(first, second, letter), line) == Some(1)
  {
    var stack := AtLetter(first, second, letter);
    LetterPath(first, second, letter);
    forall d | 0 <= d <= 2 ensures IsCandidate(Names(stack), [NextChar(letter)], d) <==> d == 1 {
      LetterCandidate(letter, d);
    }
    hide IsCandidate, LabelOf, IsPath, NextChar;
    assert IsBest(stack, [NextChar(letter)], line.indent, 1);
    DepthIs(stack, line, Some(1));
  }

  // An i) after an h) is the next letter, unless it's indented by more than 3 from the letters. Then
  // it's the first Roman numeral within the h).
  lemma LetterOrNumeral(first: nat, second: nat, line: Line, text: string)
    requires LabelOf(line.text) == Some(("i", text))
    ensures DepthOf(AtLetter(first, second, 'h'), line) == Some(if line.indent <= second + 3 then 1 else 2)
  {
    var stack := AtLetter(first, second, 'h');
    LetterPath(first, second, 'h');
    assert [NextChar('h')] == "i";
    forall d | 0 <= d <= 2 ensures IsCandidate(Names(stack), "i", d) <==> d >= 1 {
      LetterCandidate('h', d);
    }
    hide IsCandidate, LabelOf, IsPath, NextChar;
    var depth := if line.indent <= second + 3 then 1 else 2;
    assert IsBest(stack, "i", line.indent, depth);
    DepthIs(stack, line, Some(depth));
  }

  // The rule has the number of the letter, or of the numeral within it.
  lemma RuleOfLetterOrNumeral(r: Reader, first: nat, second: nat, line: Line, text: string)
    requires r.section.Some? && r.stack == AtLetter(first, second, 'h') && !IsHeading(line.text)
    requires LabelOf(line.text) == Some(("i", text))
    ensures ReadLine(r, line).current ==
            Some(Rule(r.section.value, if line.indent <= second + 3 then "1.i" else "1.h.i", text))
  {
    LetterOrNumeral(first, second, line, text);
    var d := if line.indent <= second + 3 then 1 else 2;
    var after := r.stack[..d] + [Entry(line.indent, "i")];
    assert Names(after) == if d == 1 then ["1", "i"] else ["1", "h", "i"];
    assert ["1", "i"][1..] == ["i"] && ["1", "h", "i"][1..] == ["h", "i"] && ["h", "i"][1..] == ["i"];
    assert Dotted(["i"]) == "i" && Dotted(["h", "i"]) == "h" + "." + "i";
    assert Dotted(["1", "i"]) == "1" + "." + "i" && Dotted(["1", "h", "i"]) == "1" + "." + "h.i";
    assert Dotted(Names(after)) == if d == 1 then "1.i" else "1.h.i";
    hide LabelOf, IsHeading, DepthOf, Dotted, Names;
    assert DepthOf(r.stack, line) == Some(d);
  }

  // The lines of a section with the rules 1 to 1.h, and one more.
  function Letters(n: nat): seq<Line>
    requires n <= 8
  {
    if n == 0 then [Line(0, "General Rules"), Line(0, "1) x")] else Letters(n - 1) + [Line(6, [LetterAt(n)] + ") x")]
  }

  function LetterAt(n: nat): char
    requires 1 <= n <= 8
  {
    'a' + (n - 1) as char
  }

  lemma LabelOfLetter(n: nat)
    requires 1 <= n <= 8
    ensures LabelOf([LetterAt(n)] + ") x") == Some(([LetterAt(n)], "x")) && !IsHeading([LetterAt(n)] + ") x")
  {
    var s := [LetterAt(n)] + ") x";
    assert s[0] == LetterAt(n) && s[1] == ')' && s[2] == ' ' && s[3] == 'x' && |s| == 4;
    assert s[1..][0] == ')';
    assert Run(s[1..], false) == 0;
    assert s[..1] == [LetterAt(n)] && s[3..] == "x";
  }

  lemma {:induction false} ReadPrefix(body: seq<Line>, more: seq<Line>, n: nat)
    requires n <= |body|
    ensures Read(body + more, n) == Read(body, n)
  {
    if n > 0 {
      ReadPrefix(body, more, n - 1);
      assert (body + more)[n - 1] == body[n - 1];
    }
  }

  lemma ReadOne(body: seq<Line>, line: Line)
    ensures Read(body + [line], |body| + 1) == ReadLine(Read(body, |body|), line)
  {
    hide ReadLine;
    ReadPrefix(body, [line], |body|);
    assert (body + [line])[|body|] == line;
  }

  lemma LabelOfOne()
    ensures LabelOf("1) x") == Some(("1", "x")) && !IsHeading("1) x")
  {
    var s := "1) x";
    assert s[1..][0] == ')' && Run(s[1..], true) == 0;
    assert s[..1] == "1" && s[3..] == "x";
  }

  lemma ReadFirst()
    ensures var r := Read(Letters(0), 2); r.section == Some("GR") && r.stack == [Entry(0, "1")]
  {
    var body := Letters(0);
    var heading, line := body[0], body[1];
    assert Letters(0) == [heading] + [line];
    LabelOfOne();
    ReadOne([heading], line);
    ReadOne([], heading);
    assert [] + [heading] == [heading];
    var r := Read([heading], 1);
    assert Read([], 0) == Reader(None, [], None, []);
    assert r == ReadLine(Reader(None, [], None, []), heading);
    assert r.section == Some("GR") && r.stack == [];
    assert Names([]) == [];
    assert IsBest([], "1", 0, 0);
    hide LabelOf, IsHeading, IsBest, Read;
    DepthIs([], line, Some(0));
    assert [][..0] + [Entry(0, "1")] == [Entry(0, "1")];
  }

  lemma FirstLetter(line: Line, text: string)
    requires LabelOf(line.text) == Some(("a", text))
    ensures DepthOf([Entry(0, "1")], line) == Some(1)
  {
    var stack := [Entry(0, "1")];
    NumberOne();
    assert Names(stack) == ["1"];
    hide LabelOf;
    assert IsBest(stack, "a", line.indent, 1);
    DepthIs(stack, line, Some(1));
  }

  lemma StackAfter(r: Reader, line: Line, name: string, text: string)
    requires r.section.Some? && !IsHeading(line.text) && LabelOf(line.text) == Some((name, text))
    requires DepthOf(r.stack, line) == Some(1)
    ensures var after := ReadLine(r, line);
      after.section == r.section && |r.stack| >= 1 && after.stack == [r.stack[0], Entry(line.indent, name)]
  {
    hide LabelOf, IsHeading, Dotted, Names;
    assert |r.stack| >= 1 && r.stack[..1] == [r.stack[0]];
  }

  lemma {:induction false} ReadLetters(n: nat)
    requires 1 <= n <= 8
    ensures var r := Read(Letters(n), |Letters(n)|);
      r.section == Some("GR") && r.stack == AtLetter(0, 6, LetterAt(n))
  {
    var before, line := Letters(n - 1), Line(6, [LetterAt(n)] + ") x");
    var r := Read(before, |before|);
    LabelOfLetter(n);
    ReadOne(before, line);
    if n == 1 {
      ReadFirst();
      hide LabelOf, IsHeading, DepthOf, Read, ReadLine;
      FirstLetter(line, "x");
    } else {
      ReadLetters(n - 1);
      assert NextChar(LetterAt(n - 1)) == LetterAt(n);
      hide LabelOf, IsHeading, DepthOf, Read, ReadLine;
      NextLetter(0, 6, LetterAt(n - 1), line, "x");
    }
    StackAfter(r, line, [LetterAt(n)], "x");
  }

  // After the rules 1.a to 1.h, an i) at an indentation of 12 is within 1.h, and at 6 it comes after
  // it.
  lemma LastRule(indent: nat)
    ensures var rules := RulesOf(Letters(8) + [Line(indent, "i) y")]);
      rules != [] && rules[|rules| - 1] == Rule("GR", if indent <= 9 then "1.i" else "1.h.i", "y")
  {
    var line := Line(indent, "i) y");
    var s := line.text;
    assert s[1..][0] == ')' && Run(s[1..], false) == 0;
    assert s[..1] == "i" && s[3..] == "y";
    assert LabelOf(s) == Some(("i", "y"));
    ReadLetters(8);
    ReadOne(Letters(8), line);
    hide LabelOf, Read, Letters, ReadLine;
    RuleOfLetterOrNumeral(Read(Letters(8), |Letters(8)|), 0, 6, line, "y");
  }
}
