/** Searching byte strings and reading numbers from them, as the response reader does. */
module ByteText {
  import opened Common

  const PLUS: byte := 43

  // ----- searching

  predicate MatchAt(haystack: seq<byte>, needle: seq<byte>, i: nat) {
    i + |needle| <= |haystack| && haystack[i..i + |needle|] == needle
  }

  function FindFrom(haystack: seq<byte>, needle: seq<byte>, from: nat): (r: Option<nat>)
    requires from <= |haystack|
    ensures r.Some? ==> from <= r.value && MatchAt(haystack, needle, r.value)
    ensures r.Some? ==> forall j :: from <= j < r.value ==> !MatchAt(haystack, needle, j)
    ensures r.None? ==> forall j :: from <= j ==> !MatchAt(haystack, needle, j)
    decreases |haystack| - from
  {
    if MatchAt(haystack, needle, from) then Some(from)
    else if from == |haystack| then None
    else FindFrom(haystack, needle, from + 1)
  }

  /** The first place the needle occurs. */
  function FindBytes(haystack: seq<byte>, needle: seq<byte>): (r: Option<nat>)
    ensures r.Some? ==> MatchAt(haystack, needle, r.value)
    ensures r.Some? ==> forall j :: 0 <= j < r.value ==> !MatchAt(haystack, needle, j)
    ensures r.None? ==> forall j :: 0 <= j ==> !MatchAt(haystack, needle, j)
  {
    FindFrom(haystack, needle, 0)
  }

  lemma MatchExtends(h: seq<byte>, more: seq<byte>, needle: seq<byte>, i: nat)
    requires i + |needle| <= |h|
    ensures MatchAt(h + more, needle, i) == MatchAt(h, needle, i)
  {
    assert (h + more)[i..i + |needle|] == h[i..i + |needle|];
  }

  lemma MatchOfPrefix(h: seq<byte>, n: nat, needle: seq<byte>, i: nat)
    requires n <= |h|
    ensures MatchAt(h[..n], needle, i) ==> MatchAt(h, needle, i)
  {
    if i + |needle| <= n {
      assert h[..n][i..i + |needle|] == h[i..i + |needle|];
    }
  }

  lemma SliceOfSuffix(s: seq<byte>, start: nat, a: nat, b: nat)
    requires start <= |s| && a <= b <= |s| - start
    ensures s[start..][a..b] == s[start + a..start + b]
  {
  }

  lemma FoundAt(h: seq<byte>, needle: seq<byte>, i: nat)
    requires MatchAt(h, needle, i) && forall j :: 0 <= j < i ==> !MatchAt(h, needle, j)
    ensures FindBytes(h, needle) == Some(i)
  {
  }

  /** More input never moves the first occurrence. */
  lemma FindExtends(h: seq<byte>, more: seq<byte>, needle: seq<byte>)
    requires FindBytes(h, needle).Some?
    ensures FindBytes(h + more, needle) == FindBytes(h, needle)
  {
    var i := FindBytes(h, needle).value;
    MatchExtends(h, more, needle, i);
    forall j | 0 <= j < i
      ensures !MatchAt(h + more, needle, j)
    {
      MatchExtends(h, more, needle, j);
    }
    FoundAt(h + more, needle, i);
  }

  lemma NeedsFirstByte(h: seq<byte>, needle: seq<byte>)
    requires needle != [] && needle[0] !in h
    ensures FindBytes(h, needle).None?
  {
  }

  // ----- numbers, as `parse` and `from_str_radix` read them

  function DigitValue(b: byte): Option<nat> {
    if 48 <= b <= 57 then Some((b - 48) as nat)
    else if 97 <= b <= 102 then Some((b - 87) as nat)
    else if 65 <= b <= 70 then Some((b - 55) as nat)
    else None
  }

  function DigitsValue(text: seq<byte>, radix: nat): Option<nat> {
    if text == [] then Some(0)
    else
      var high, low := DigitsValue(text[..|text| - 1], radix), DigitValue(text[|text| - 1]);
      if high.Some? && low.Some? && low.value < radix then Some(high.value * radix + low.value) else None
  }

  /** A non-empty digit string with an optional leading plus sign, below the word size. */
  function ParseUsize(text: seq<byte>, radix: nat): Option<nat> {
    var digits := if |text| > 1 && text[0] == PLUS then text[1..] else text;
    var value := DigitsValue(digits, radix);
    if digits != [] && value.Some? && value.value <= USIZE_MAX then value else None
  }
}
