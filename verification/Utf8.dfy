/** Well-formed UTF-8 (section 4 of RFC 3629) over bytes, and where its characters begin. */
module Utf8 {
  import opened Common

  predicate Continuation(b: byte) {
    0x80 <= b <= 0xBF
  }

  /** The length of the character a string starts with, or 0 where no well-formed character starts. */
  function CharLength(s: seq<byte>): (n: nat)
    ensures n <= |s| && n <= 4
  {
    if s == [] then 0
    else if s[0] <= 0x7F then 1
    else if 0xC2 <= s[0] <= 0xDF && |s| >= 2 && Continuation(s[1]) then 2
    else if 0xE0 <= s[0] <= 0xEF && |s| >= 3 && ThreeByteSecond(s[0], s[1]) && Continuation(s[2]) then 3
    else if 0xF0 <= s[0] <= 0xF4 && |s| >= 4 && FourByteSecond(s[0], s[1]) && Continuation(s[2]) && Continuation(s[3])
      then 4
    else 0
  }

  predicate ThreeByteSecond(first: byte, second: byte) {
    Continuation(second) && (first == 0xE0 ==> second >= 0xA0) && (first == 0xED ==> second <= 0x9F)
  }

  predicate FourByteSecond(first: byte, second: byte) {
    Continuation(second) && (first == 0xF0 ==> second >= 0x90) && (first == 0xF4 ==> second <= 0x8F)
  }

  predicate Valid(s: seq<byte>)
    decreases |s|
  {
    s == [] || (CharLength(s) > 0 && Valid(s[CharLength(s)..]))
  }

  /** A position a string slice may be cut at. */
  predicate Boundary(s: seq<byte>, i: nat) {
    i == 0 || i == |s| || (i < |s| && !Continuation(s[i]))
  }

  lemma CharLengthOfPrefix(s: seq<byte>, i: nat)
    requires 0 < CharLength(s) <= i <= |s|
    ensures CharLength(s[..i]) == CharLength(s)
  {
  }

  lemma NoBoundaryInside(s: seq<byte>, i: nat)
    requires 0 < i < CharLength(s)
    ensures Continuation(s[i]) && !Boundary(s, i)
  {
  }

  lemma {:induction false} ValidSplit(s: seq<byte>, i: nat)
    requires Valid(s) && Boundary(s, i) && i <= |s|
    ensures Valid(s[..i]) && Valid(s[i..])
    decreases |s|
  {
    if i == 0 {
      assert s[i..] == s;
    } else {
      var n := CharLength(s);
      if i < n {
        NoBoundaryInside(s, i);
      }
      var rest := s[n..];
      assert Boundary(rest, i - n);
      ValidSplit(rest, i - n);
      CharLengthOfPrefix(s, i);
      assert s[..i][n..] == rest[..i - n];
      assert s[i..] == rest[i - n..];
    }
  }

  lemma {:induction false} ValidConcat(a: seq<byte>, b: seq<byte>)
    requires Valid(a) && Valid(b)
    ensures Valid(a + b)
    decreases |a|
  {
    if a == [] {
      assert a + b == b;
    } else {
      var n := CharLength(a);
      assert (a + b)[..|a|] == a;
      CharLengthOfExtension(a, b);
      assert (a + b)[n..] == a[n..] + b;
      ValidConcat(a[n..], b);
    }
  }

  lemma CharLengthOfExtension(a: seq<byte>, b: seq<byte>)
    requires CharLength(a) > 0
    ensures CharLength(a + b) == CharLength(a)
  {
  }

  predicate Ascii(s: seq<byte>) {
    forall i :: 0 <= i < |s| ==> s[i] <= 0x7F
  }

  lemma {:induction false} AsciiIsValid(s: seq<byte>)
    requires Ascii(s)
    ensures Valid(s)
    decreases |s|
  {
    if s != [] {
      AsciiIsValid(s[1..]);
    }
  }

  // ----- encoding

  /** A Unicode scalar value: a code point that is no surrogate. */
  predicate Scalar(c: nat) {
    c <= 0x10FFFF && !(0xD800 <= c <= 0xDFFF)
  }

  function Low(c: nat): byte {
    (0x80 + c % 64) as byte
  }

  /** The table of section 3 of RFC 3629. */
  function Encode(c: nat): seq<byte>
    requires Scalar(c)
  {
    if c < 0x80 then [c as byte]
    else if c < 0x800 then [(0xC0 + c / 64) as byte, Low(c)]
    else if c < 0x10000 then [(0xE0 + c / 4096) as byte, Low(c / 64), Low(c)]
    else [(0xF0 + c / 262144) as byte, Low(c / 4096), Low(c / 64), Low(c)]
  }

  function EncodeAll(text: seq<nat>): seq<byte>
    requires forall i :: 0 <= i < |text| ==> Scalar(text[i])
  {
    if text == [] then [] else Encode(text[0]) + EncodeAll(text[1..])
  }

  lemma EncodeTwo(c: nat, rest: seq<byte>)
    requires 0x80 <= c < 0x800
    ensures CharLength(Encode(c) + rest) == 2
  {
  }

  lemma EncodeThree(c: nat, rest: seq<byte>)
    requires Scalar(c) && 0x800 <= c < 0x10000
    ensures CharLength(Encode(c) + rest) == 3
  {
    var s := Encode(c) + rest;
    var first, second := c / 4096, c / 64 % 64;
    assert c / 64 == first * 64 + second;
    assert s[0] == (0xE0 + first) as byte && s[1] == (0x80 + second) as byte;
  }

  lemma EncodeFour(c: nat, rest: seq<byte>)
    requires Scalar(c) && c >= 0x10000
    ensures CharLength(Encode(c) + rest) == 4
  {
    var s := Encode(c) + rest;
    var first, second := c / 262144, c / 4096 % 64;
    assert c / 4096 == first * 64 + second;
    assert s[0] == (0xF0 + first) as byte && s[1] == (0x80 + second) as byte;
  }

  lemma EncodedLength(c: nat, rest: seq<byte>)
    requires Scalar(c)
    ensures CharLength(Encode(c) + rest) == |Encode(c)|
  {
    if 0x80 <= c < 0x800 {
      EncodeTwo(c, rest);
    } else if 0x800 <= c < 0x10000 {
      EncodeThree(c, rest);
    } else if c >= 0x10000 {
      EncodeFour(c, rest);
    }
    hide CharLength;
  }

  /** The character a well-formed string starts with. */
  function FirstChar(s: seq<byte>): nat
    requires CharLength(s) > 0
  {
    match CharLength(s)
    case 1 => s[0] as nat
    case 2 => (s[0] as nat - 0xC0) * 64 + (s[1] as nat - 0x80)
    case 3 => (s[0] as nat - 0xE0) * 4096 + (s[1] as nat - 0x80) * 64 + (s[2] as nat - 0x80)
    case _ =>
      (s[0] as nat - 0xF0) * 262144 + (s[1] as nat - 0x80) * 4096 + (s[2] as nat - 0x80) * 64 + (s[3] as nat - 0x80)
  }

  lemma LowOf(high: nat, low: nat)
    requires low < 64
    ensures (high * 64 + low) / 64 == high && (high * 64 + low) % 64 == low
  {
  }

  lemma TwoEncode(s: seq<byte>)
    requires CharLength(s) == 2
    ensures Scalar(FirstChar(s)) && Encode(FirstChar(s)) == s[..2]
  {
    LowOf(s[0] as nat - 0xC0, s[1] as nat - 0x80);
  }

  lemma ThreeEncode(s: seq<byte>)
    requires CharLength(s) == 3
    ensures Scalar(FirstChar(s)) && Encode(FirstChar(s)) == s[..3]
  {
    var a, b, c := s[0] as nat - 0xE0, s[1] as nat - 0x80, s[2] as nat - 0x80;
    LowOf(a, b);
    LowOf(a * 64 + b, c);
    var point := FirstChar(s);
    assert point == (a * 64 + b) * 64 + c && point / 4096 == a;
    assert 0x800 <= point < 0x10000 && Scalar(point);
    hide CharLength, FirstChar;
  }

  lemma FourEncode(s: seq<byte>)
    requires CharLength(s) == 4
    ensures Scalar(FirstChar(s)) && Encode(FirstChar(s)) == s[..4]
  {
    var a, b, c, d := s[0] as nat - 0xF0, s[1] as nat - 0x80, s[2] as nat - 0x80, s[3] as nat - 0x80;
    LowOf(a, b);
    LowOf(a * 64 + b, c);
    LowOf((a * 64 + b) * 64 + c, d);
    var point := FirstChar(s);
    assert point == ((a * 64 + b) * 64 + c) * 64 + d && point / 4096 == a * 64 + b && point / 262144 == a;
    assert point >= 0x10000 && Scalar(point);
    hide CharLength, FirstChar;
  }

  lemma FirstCharEncodes(s: seq<byte>)
    requires CharLength(s) > 0
    ensures Scalar(FirstChar(s)) && Encode(FirstChar(s)) == s[..CharLength(s)]
  {
    if CharLength(s) == 2 {
      TwoEncode(s);
    } else if CharLength(s) == 3 {
      ThreeEncode(s);
    } else if CharLength(s) == 4 {
      FourEncode(s);
    } else {
      assert CharLength(s) == 1 && s[0] <= 0x7F;
    }
  }

  lemma {:induction false} EncodedIsValid(text: seq<nat>)
    requires forall i :: 0 <= i < |text| ==> Scalar(text[i])
    ensures Valid(EncodeAll(text))
  {
    if text != [] {
      var rest := EncodeAll(text[1..]);
      EncodedIsValid(text[1..]);
      EncodedLength(text[0], rest);
      assert (Encode(text[0]) + rest)[|Encode(text[0])|..] == rest;
      hide CharLength, Encode;
    }
  }

  ghost predicate EncodedText(s: seq<byte>, text: seq<nat>) {
    (forall i :: 0 <= i < |text| ==> Scalar(text[i])) && EncodeAll(text) == s
  }

  lemma OneMoreChar(c: nat, head: seq<byte>, rest: seq<byte>, text: seq<nat>)
    requires Scalar(c) && Encode(c) == head && EncodedText(rest, text)
    ensures EncodedText(head + rest, [c] + text)
  {
    hide Encode, Scalar;
    assert ([c] + text)[1..] == text;
  }

  lemma {:induction false} ValidIsEncoded(s: seq<byte>) returns (text: seq<nat>)
    requires Valid(s)
    ensures EncodedText(s, text)
    decreases |s|
  {
    hide *;
    if s == [] {
      text := [];
      NothingEncodesNothing();
    } else {
      ValidRest(s);
      FirstCharEncodes(s);
      var n := CharLength(s);
      var rest := ValidIsEncoded(s[n..]);
      OneMoreChar(FirstChar(s), s[..n], s[n..], rest);
      assert s == s[..n] + s[n..];
      text := [FirstChar(s)] + rest;
    }
  }

  lemma NothingEncodesNothing()
    ensures EncodedText([], [])
  {
  }

  lemma ValidRest(s: seq<byte>)
    requires Valid(s) && s != []
    ensures 0 < CharLength(s) <= |s| && Valid(s[CharLength(s)..])
  {
  }

  /** Bytes are well-formed if and only if they encode some text. */
  lemma ValidExactly(s: seq<byte>)
    ensures Valid(s) <==> exists text :: EncodedText(s, text)
  {
    hide Valid, EncodeAll;
    if Valid(s) {
      var text := ValidIsEncoded(s);
    }
    forall text | EncodedText(s, text)
      ensures Valid(s)
    {
      EncodedIsValid(text);
    }
  }
}
