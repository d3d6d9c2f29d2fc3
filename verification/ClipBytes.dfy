/** Labels cut to a number of bytes without cutting a character in two. Valid text is
    as section 4 of RFC 3629 spells it out. */
module ClipBytes {

  newtype Byte = x: int | 0 <= x < 256

  type Bytes = seq<Byte>

  const NEWLINE: Byte := 10
  const SPACE: Byte := 32
  const ELLIPSIS: Bytes := [0xE2, 0x80, 0xA6]

  predicate Tail(b: Byte) { 0x80 <= b <= 0xBF }

  /** Not a byte from inside a character. */
  predicate RuneStart(b: Byte) { !Tail(b) }

  predicate Tails(s: Bytes, from: nat, to: nat) { to <= |s| && forall i :: from <= i < to ==> Tail(s[i]) }

  /** The length of the character at the front, or 0 when there is none. */
  function CharLength(s: Bytes): nat {
    if s == [] then 0
    else if s[0] <= 0x7F then 1
    else if 0xC2 <= s[0] <= 0xDF && Tails(s, 1, 2) then 2
    else if 0xE0 <= s[0] <= 0xEF && Tails(s, 1, 3) && (s[0] == 0xE0 ==> s[1] >= 0xA0)
      && (s[0] == 0xED ==> s[1] <= 0x9F) then 3
    else if 0xF0 <= s[0] <= 0xF4 && Tails(s, 1, 4) && (s[0] == 0xF0 ==> s[1] >= 0x90)
      && (s[0] == 0xF4 ==> s[1] <= 0x8F) then 4
    else 0
  }

  lemma CharIsOne(s: Bytes)
    requires CharLength(s) > 0
    ensures CharLength(s) <= |s| && CharLength(s) <= 4 && RuneStart(s[0]) && Tails(s, 1, CharLength(s))
  {
  }

  predicate Utf8(s: Bytes) {
    s == [] || (0 < CharLength(s) <= |s| && Utf8(s[CharLength(s)..]))
  }

  // ---------------------------------------------------------------- what valid text is

  /** A number that stands for a character: not one of the surrogates. */
  predicate Scalar(c: int) { 0 <= c < 0x11_0000 && !(0xD800 <= c < 0xE000) }

  /** The bytes of a character: its bits in groups of six behind a first byte that says
      how many follow. */
  function Encode(c: int): Bytes
    requires Scalar(c)
  {
    if c < 0x80 then [c as Byte]
    else if c < 0x800 then [(0xC0 + c / 0x40) as Byte, (0x80 + c % 0x40) as Byte]
    else if c < 0x1_0000 then
      [(0xE0 + c / 0x1000) as Byte, (0x80 + c / 0x40 % 0x40) as Byte, (0x80 + c % 0x40) as Byte]
    else
      [(0xF0 + c / 0x4_0000) as Byte, (0x80 + c / 0x1000 % 0x40) as Byte, (0x80 + c / 0x40 % 0x40) as Byte,
       (0x80 + c % 0x40) as Byte]
  }

  function EncodeAll(cs: seq<int>): Bytes
    requires forall i :: 0 <= i < |cs| ==> Scalar(cs[i])
  {
    if cs == [] then [] else Encode(cs[0]) + EncodeAll(cs[1..])
  }

  lemma EncodedIsChar(c: int, rest: Bytes)
    requires Scalar(c)
    ensures CharLength(Encode(c) + rest) == |Encode(c)|
  {
    var s := Encode(c) + rest;
    assert s[0] == Encode(c)[0];
    if c < 0x800 {
      assert 0x80 <= c ==> Tail(s[1]);
    } else if c < 0x1_0000 {
      assert Tail(s[1]) && Tail(s[2]);
    } else {
      assert Tail(s[1]) && Tail(s[2]) && Tail(s[3]);
    }
  }

  /** Groups of six bits are read back from their number. */
  lemma Groups(a: int, b: int)
    requires 0 <= b < 0x40
    ensures (a * 0x40 + b) / 0x40 == a && (a * 0x40 + b) % 0x40 == b
  {
  }

  lemma ThreeGroups(a: int, b: int, c: int)
    requires 0 <= b < 0x40 && 0 <= c < 0x40
    ensures var n := (a * 0x40 + b) * 0x40 + c; n / 0x1000 == a && n / 0x40 % 0x40 == b && n % 0x40 == c
  {
    Groups(a, b);
    Groups(a * 0x40 + b, c);
  }

  lemma FourGroups(a: int, b: int, c: int, d: int)
    requires 0 <= b < 0x40 && 0 <= c < 0x40 && 0 <= d < 0x40
    ensures var n := ((a * 0x40 + b) * 0x40 + c) * 0x40 + d;
      n / 0x4_0000 == a && n / 0x1000 % 0x40 == b && n / 0x40 % 0x40 == c && n % 0x40 == d
  {
    var m := (a * 0x40 + b) * 0x40 + c;
    ThreeGroups(a, b, c);
    Groups(m, d);
    assert (m * 0x40 + d) / 0x1000 == m / 0x40;
    assert (m * 0x40 + d) / 0x4_0000 == m / 0x1000;
  }

  lemma TwoIsEncoded(s: Bytes) returns (c: int)
    requires CharLength(s) == 2
    ensures Scalar(c) && 2 <= |s| && Encode(c) == s[..2]
  {
    c := (s[0] as int - 0xC0) * 0x40 + (s[1] as int - 0x80);
    Groups(s[0] as int - 0xC0, s[1] as int - 0x80);
  }

  lemma ThreeIsEncoded(s: Bytes) returns (c: int)
    requires CharLength(s) == 3
    ensures Scalar(c) && 3 <= |s| && Encode(c) == s[..3]
  {
    var x, y, z := s[0] as int - 0xE0, s[1] as int - 0x80, s[2] as int - 0x80;
    c := (x * 0x40 + y) * 0x40 + z;
    ThreeGroups(x, y, z);
    assert 0x800 <= c < 0x1_0000 && Scalar(c);
    assert Encode(c) == [s[0], s[1], s[2]];
  }

  lemma FourIsEncoded(s: Bytes) returns (c: int)
    requires CharLength(s) == 4
    ensures Scalar(c) && 4 <= |s| && Encode(c) == s[..4]
  {
    var x, y, z, last := s[0] as int - 0xF0, s[1] as int - 0x80, s[2] as int - 0x80, s[3] as int - 0x80;
    c := ((x * 0x40 + y) * 0x40 + z) * 0x40 + last;
    FourGroups(x, y, z, last);
    assert 0x1_0000 <= c < 0x11_0000;
    assert Encode(c) == [s[0], s[1], s[2], s[3]];
  }

  lemma CharIsEncoded(s: Bytes) returns (c: int)
    requires CharLength(s) > 0
    ensures Scalar(c) && CharLength(s) <= |s| && Encode(c) == s[..CharLength(s)]
  {
    var n := CharLength(s);
    CharIsOne(s);
    if n == 1 {
      c := s[0] as int;
    } else if n == 2 {
      c := TwoIsEncoded(s);
    } else if n == 3 {
      c := ThreeIsEncoded(s);
    } else {
      c := FourIsEncoded(s);
    }
  }

  ghost predicate Encodes(cs: seq<int>, s: Bytes) {
    (forall i :: 0 <= i < |cs| ==> Scalar(cs[i])) && EncodeAll(cs) == s
  }

  lemma {:induction false} EncodedIsUtf8(cs: seq<int>, s: Bytes)
    requires Encodes(cs, s)
    ensures Utf8(s)
  {
    if cs != [] {
      var rest := EncodeAll(cs[1..]);
      EncodedIsUtf8(cs[1..], rest);
      EncodedIsChar(cs[0], rest);
      assert s[|Encode(cs[0])|..] == rest;
    }
  }

  lemma {:induction false} Utf8IsEncoded(s: Bytes) returns (cs: seq<int>)
    requires Utf8(s)
    ensures Encodes(cs, s)
    decreases |s|
  {
    cs := [];
    if s != [] {
      var k := CharLength(s);
      var c := CharIsEncoded(s);
      var others := Utf8IsEncoded(s[k..]);
      cs := [c] + others;
      assert cs[1..] == others && s == s[..k] + s[k..];
    }
  }

  /** Valid text is a row of encoded characters, and nothing else is. */
  lemma Utf8MeansEncoded(s: Bytes)
    ensures Utf8(s) <==> exists cs :: Encodes(cs, s)
  {
    if Utf8(s) {
      var cs := Utf8IsEncoded(s);
    }
    if cs :| Encodes(cs, s) {
      EncodedIsUtf8(cs, s);
    }
  }

  /** The ellipsis is one character. */
  lemma EllipsisIsOne()
    ensures ELLIPSIS == Encode(0x2026)
  {
  }

  // ---------------------------------------------------------------- newlines

  function Spaced(s: Bytes): Bytes {
    if s == [] then [] else [if s[0] == NEWLINE then SPACE else s[0]] + Spaced(s[1..])
  }

  lemma {:induction false} SpacedAt(s: Bytes)
    ensures |Spaced(s)| == |s|
    ensures forall i :: 0 <= i < |s| ==> Spaced(s)[i] == if s[i] == 10 then 32 else s[i]
  {
    if s != [] {
      SpacedAt(s[1..]);
    }
  }

  /** The character at the front does not depend on what follows it. */
  lemma FrontStays(s: Bytes, t: Bytes)
    requires CharLength(s) > 0 && |t| >= CharLength(s)
    requires forall i :: 0 <= i < CharLength(s) ==> t[i] == s[i]
    ensures CharLength(t) == CharLength(s)
  {
    CharIsOne(s);
  }

  lemma FrontSpaced(s: Bytes)
    requires CharLength(s) > 0
    ensures CharLength(Spaced(s)) == CharLength(s)
  {
    SpacedAt(s);
    CharIsOne(s);
  }

  lemma {:induction false} SpacedDrop(s: Bytes, k: nat)
    requires k <= |s|
    ensures |Spaced(s)| == |s| && Spaced(s)[k..] == Spaced(s[k..])
  {
    SpacedAt(s);
    SpacedAt(s[k..]);
  }

  lemma {:induction false} SpacedIsUtf8(s: Bytes)
    requires Utf8(s)
    ensures Utf8(Spaced(s))
    decreases |s|
  {
    if s != [] {
      var k := CharLength(s);
      SpacedIsUtf8(s[k..]);
      FrontSpaced(s);
      SpacedDrop(s, k);
    }
  }

  lemma {:induction false} JoinedIsUtf8(a: Bytes, b: Bytes)
    requires Utf8(a) && Utf8(b)
    ensures Utf8(a + b)
    decreases |a|
  {
    if a == [] {
      assert a + b == b;
    } else {
      var k := CharLength(a);
      JoinedIsUtf8(a[k..], b);
      FrontStays(a, a + b);
      assert (a + b)[k..] == a[k..] + b;
    }
  }

  /** Cut before a byte that starts a character, valid text stays valid. */
  lemma {:induction false} CutIsUtf8(s: Bytes, cut: nat)
    requires Utf8(s) && cut < |s| && RuneStart(s[cut])
    ensures Utf8(s[..cut])
    decreases |s|
  {
    if cut > 0 {
      var k := CharLength(s);
      CharIsOne(s);
      assert cut >= k;
      if cut == k {
        FrontStays(s, s[..cut]);
        assert s[..cut][k..] == [];
      } else {
        CutIsUtf8(s[k..], cut - k);
        FrontStays(s, s[..cut]);
        assert s[..cut][k..] == s[k..][..cut - k];
      }
    }
  }

  /** In valid text a character starts at every place or at most three before it. */
  lemma {:induction false} StartIsNear(s: Bytes, i: nat) returns (j: nat)
    requires Utf8(s) && i < |s|
    ensures i - 3 <= j <= i && RuneStart(s[j])
    decreases |s|
  {
    var k := CharLength(s);
    CharIsOne(s);
    if i < k {
      j := 0;
    } else {
      j := StartIsNear(s[k..], i - k);
      j := j + k;
    }
  }

  /** The text with newlines replaced when it fits; otherwise an ellipsis behind as
      much of it as leaves room and ends before the start of a character, looking
      back from the longest cut. */
  ghost predicate IsClip(s: Bytes, n: nat, r: Bytes)
    requires |s| > n ==> n >= |ELLIPSIS|
  {
    SpacedAt(s);
    var text := Spaced(s);
    if |text| <= n then r == text
    else
      exists cut: nat ::
        && cut <= n - |ELLIPSIS| && r == text[..cut] + ELLIPSIS && (cut == 0 || RuneStart(text[cut]))
        && forall j :: cut < j <= n - |ELLIPSIS| ==> Tail(text[j])
  }

  method Clip(s: Bytes, n: nat) returns (r: Bytes)
    requires |s| > n ==> n >= |ELLIPSIS|
    ensures |Spaced(s)| == |s| && IsClip(s, n, r) && |r| <= n
  {
    var text := Spaced(s);
    SpacedAt(s);
    if |text| <= n {
      return text;
    }
    var cut := n - |ELLIPSIS|;
    while cut > 0 && !RuneStart(text[cut])
      invariant 0 <= cut <= n - |ELLIPSIS|
      invariant forall j :: cut < j <= n - |ELLIPSIS| ==> !RuneStart(text[j])
    {
      cut := cut - 1;
    }
    r := text[..cut] + ELLIPSIS;
  }

  /** Of valid text a clip is valid and keeps all but at most six bytes of what fits. */
  lemma ClipKeepsCharacters(s: Bytes, n: nat, r: Bytes)
    requires |s| > n ==> n >= |ELLIPSIS|
    requires Utf8(s) && IsClip(s, n, r)
    ensures Utf8(r) && |Spaced(s)| == |s|
    ensures |s| > n ==> n - 6 <= |r| - |ELLIPSIS| <= |s| && r[..|r| - |ELLIPSIS|] == Spaced(s)[..|r| - |ELLIPSIS|]
  {
    var text := Spaced(s);
    SpacedAt(s);
    SpacedIsUtf8(s);
    if |text| > n {
      var cut: nat :| cut <= n - |ELLIPSIS| && r == text[..cut] + ELLIPSIS && (cut == 0 || RuneStart(text[cut]))
        && forall j :: cut < j <= n - |ELLIPSIS| ==> Tail(text[j]);
      var near := StartIsNear(text, n - |ELLIPSIS|);
      CutBeforeEllipsis(text, cut);
      assert r[..cut] == text[..cut];
    }
  }

  lemma CutBeforeEllipsis(text: Bytes, cut: nat)
    requires Utf8(text) && cut < |text| && (cut == 0 || RuneStart(text[cut]))
    ensures Utf8(text[..cut] + ELLIPSIS)
  {
    if cut > 0 {
      CutIsUtf8(text, cut);
    }
    assert CharLength(ELLIPSIS) == 3 && ELLIPSIS[3..] == [];
    JoinedIsUtf8(text[..cut], ELLIPSIS);
  }
}
