/**
 UTF-8 (section 3 of RFC 3629). A character is encoded in 1 to 4 octets, and the first of them is
 the only one that isn't 10xxxxxx.
 */
module Utf8 {
  type Octet = b: int | 0 <= b < 0x100

  // The null character isn't in a value, since it ends a string in C.
  type Character = c: int | 0 < c < 0x11_0000 && !(0xD800 <= c < 0xE000) witness 1

  const SPACE: Character := 0x20

  function Octets(c: Character): (r: seq<Octet>)
    ensures 1 <= |r| <= 4 && IsFirst(r[0])
    ensures forall i | 0 < i < |r| :: !IsFirst(r[i])
    ensures 0 !in r
  {
    if c < 0x80 then [c]
    else if c < 0x800 then [0xC0 + c / 0x40, 0x80 + c % 0x40]
    else if c < 0x1_0000 then [0xE0 + c / 0x1000, 0x80 + c / 0x40 % 0x40, 0x80 + c % 0x40]
    else [0xF0 + c / 0x4_0000, 0x80 + c / 0x1000 % 0x40, 0x80 + c / 0x40 % 0x40, 0x80 + c % 0x40]
  }

  function Encode(s: seq<Character>): seq<Octet> {
    if s == [] then [] else Octets(s[0]) + Encode(s[1..])
  }

  // An octet that starts a character.
  predicate IsFirst(b: Octet) {
    b < 0x80 || 0xC0 <= b
  }

  // The test of the runtime.
  lemma MaskIsFirst(b: bv8)
    ensures b & 0xC0 != 0x80 <==> IsFirst(b as int)
  {
    assert b & 0xC0 != 0x80 <==> b < 0x80 || 0xC0 <= b;
    assert (b < 0x80 <==> b as int < 0x80) && (0xC0 <= b <==> 0xC0 <= b as int);
  }

  // The character that octets are, which are as few as possible (section 3 of RFC 3629).
  function Decoded(r: seq<int>): int
    requires 1 <= |r| <= 4
  {
    if |r| == 1 then r[0]
    else if |r| == 2 then (r[0] - 0xC0) * 0x40 + (r[1] - 0x80)
    else if |r| == 3 then (r[0] - 0xE0) * 0x1000 + (r[1] - 0x80) * 0x40 + (r[2] - 0x80)
    else (r[0] - 0xF0) * 0x4_0000 + (r[1] - 0x80) * 0x1000 + (r[2] - 0x80) * 0x40 + (r[3] - 0x80)
  }

  lemma DivideTwice(c: nat)
    ensures c / 0x1000 == c / 0x40 / 0x40 && c / 0x4_0000 == c / 0x1000 / 0x40
  {
  }

  lemma OctetsAre(c: Character)
    ensures Decoded(Octets(c)) == c
    ensures |Octets(c)| == if c < 0x80 then 1 else if c < 0x800 then 2 else if c < 0x1_0000 then 3 else 4
  {
    DivideTwice(c);
    var a, b, d := c / 0x40, c / 0x1000, c / 0x4_0000;
    assert c == a * 0x40 + c % 0x40 && a == b * 0x40 + a % 0x40 && b == d * 0x40 + b % 0x40;
  }

  // How many characters start in a piece of a string.
  function Starts(s: seq<Octet>): (n: nat)
    ensures n <= |s|
  {
    if s == [] then 0 else (if IsFirst(s[0]) then 1 else 0) + Starts(s[1..])
  }

  lemma {:induction false} StartsAdd(s: seq<Octet>, t: seq<Octet>)
    ensures Starts(s + t) == Starts(s) + Starts(t)
  {
    if s == [] {
      assert s + t == t;
    } else {
      StartsAdd(s[1..], t);
      assert (s + t)[1..] == s[1..] + t;
    }
  }

  lemma {:induction false} NoStarts(s: seq<Octet>)
    requires forall i | 0 <= i < |s| :: !IsFirst(s[i])
    ensures Starts(s) == 0
  {
    if s != [] {
      NoStarts(s[1..]);
    }
  }

  // A piece of one character.
  lemma StartsOfCharacter(c: Character, k: nat)
    requires k <= |Octets(c)|
    ensures Starts(Octets(c)[..k]) == if k == 0 then 0 else 1
  {
    if k > 0 {
      NoStarts(Octets(c)[..k][1..]);
    }
  }

  lemma {:induction false} EncodeAdd(s: seq<Character>, t: seq<Character>)
    ensures Encode(s + t) == Encode(s) + Encode(t)
  {
    hide Octets;
    if s == [] {
      assert s + t == t;
    } else {
      assert (s + t)[1..] == s[1..] + t;
      calc {
        Encode(s + t);
        Octets(s[0]) + Encode(s[1..] + t);
        { EncodeAdd(s[1..], t); }
        Octets(s[0]) + (Encode(s[1..]) + Encode(t));
        Encode(s) + Encode(t);
      }
    }
  }

  lemma {:induction false} NoNull(s: seq<Character>)
    ensures 0 !in Encode(s)
  {
    if s != [] {
      NoNull(s[1..]);
    }
  }

  // The start of an encoding is the first character, or goes on in the rest.
  lemma EncodePrefix(s: seq<Character>, k: nat)
    requires s != [] && k <= |Encode(s)|
    ensures var m := |Octets(s[0])|;
      && (k <= m ==> Encode(s)[..k] == Octets(s[0])[..k])
      && (k > m ==> Encode(s)[..k] == Octets(s[0]) + Encode(s[1..])[..k - m])
  {
  }

  // No more than 4 octets for each character that starts in a piece, even if the piece ends in the
  // middle of one.
  lemma {:induction false} PieceSize(s: seq<Character>, k: nat)
    requires k <= |Encode(s)|
    ensures var n := Starts(Encode(s)[..k]);
      && k <= 4 * n && n <= |s|
      && (k == |Encode(s)| ==> n == |s|)
  {
    if s != [] {
      var m := |Octets(s[0])|;
      EncodePrefix(s, k);
      StartsOfCharacter(s[0], if k <= m then k else m);
      assert Octets(s[0])[..m] == Octets(s[0]);
      if k > m {
        PieceSize(s[1..], k - m);
        StartsAdd(Octets(s[0]), Encode(s[1..])[..k - m]);
      } else if k == m && |s| > 1 {
        assert |Encode(s)| == m + |Encode(s[1..])| && |Encode(s[1..])| >= |Octets(s[1])|;
      }
    }
  }

  // A piece that ends where a character starts is whole characters.
  lemma {:induction false} PieceBoundary(s: seq<Character>, k: nat)
    requires k < |Encode(s)| && IsFirst(Encode(s)[k])
    ensures var n := Starts(Encode(s)[..k]);
      n < |s| && Encode(s)[..k] == Encode(s[..n])
  {
    var m := |Octets(s[0])|;
    EncodePrefix(s, k);
    if k == 0 {
      assert s[..0] == [];
    } else {
      assert k >= m;
      assert Encode(s)[k] == Encode(s[1..])[k - m];
      PieceBoundary(s[1..], k - m);
      var n := Starts(Encode(s[1..])[..k - m]);
      StartsOfCharacter(s[0], m);
      assert Octets(s[0])[..m] == Octets(s[0]);
      StartsAdd(Octets(s[0]), Encode(s[1..])[..k - m]);
      assert Encode(s)[..k] == Octets(s[0]) + Encode(s[1..])[..k - m];
      assert s[..n + 1][1..] == s[1..][..n] && s[..n + 1][0] == s[0];
    }
  }

  function Spaces(n: nat): seq<Octet> {
    seq(n, _ => 0x20)
  }

  lemma {:induction false} EncodeSpaces(n: nat)
    ensures Encode(seq(n, _ => SPACE)) == Spaces(n)
  {
    if n > 0 {
      EncodeSpaces(n - 1);
      assert seq(n, _ => SPACE)[1..] == seq(n - 1, _ => SPACE);
      assert Spaces(n) == [0x20] + Spaces(n - 1);
    }
  }

  // The first length characters, padded with spaces to length characters.
  function Fitted(s: seq<Character>, length: nat): (r: seq<Character>)
    ensures |r| == length
  {
    if |s| > length then s[..length] else s + seq(length - |s|, _ => SPACE)
  }

  // The characters of ASCII are encoded as themselves, and nothing else is encoded as them.
  lemma {:induction false} EncodeAscii(s: seq<Character>)
    ensures (forall i | 0 <= i < |s| :: s[i] < 0x80) ==>
      && |Encode(s)| == |s|
      && forall i | 0 <= i < |s| :: Encode(s)[i] == s[i]
    ensures (forall i | 0 <= i < |Encode(s)| :: Encode(s)[i] < 0x80) ==> forall i | 0 <= i < |s| :: s[i] < 0x80
  {
    if s != [] {
      EncodeAscii(s[1..]);
      assert forall i | 0 <= i < |Encode(s[1..])| :: Encode(s)[|Octets(s[0])| + i] == Encode(s[1..])[i];
      assert Encode(s)[0] == Octets(s[0])[0];
    }
  }
}
