/** Bytes, optional values and outcomes shared by every other module. */
module Common {

  newtype byte = x: int | 0 <= x < 256

  datatype Option<+T> = None | Some(value: T)

  /** The outcome of a call that may fail without further detail. */
  datatype Result<+T> = Ok(value: T) | Err

  const LF: byte := 10
  const CR: byte := 13
  const CRLF: seq<byte> := [CR, LF]

  const USIZE_MAX: nat := 0xFFFF_FFFF_FFFF_FFFF

  /** A lower-case hexadecimal digit. */
  predicate HexChar(c: char) { '0' <= c <= '9' || 'a' <= c <= 'f' }

  /** The bytes a reader has handed over, in order, whatever the cuts were. */
  function Flatten<T>(segments: seq<seq<T>>): seq<T> {
    if segments == [] then [] else segments[0] + Flatten(segments[1..])
  }

  lemma {:induction false} FlattenSnoc<T>(segments: seq<seq<T>>, last: seq<T>)
    ensures Flatten(segments + [last]) == Flatten(segments) + last
  {
    if segments == [] {
      assert segments + [last] == [last];
    } else {
      assert (segments + [last])[1..] == segments[1..] + [last];
      FlattenSnoc(segments[1..], last);
    }
  }

  lemma {:induction false} FlattenSplit<T>(segments: seq<seq<T>>, k: nat)
    requires k <= |segments|
    ensures Flatten(segments) == Flatten(segments[..k]) + Flatten(segments[k..])
  {
    if k == 0 {
      assert segments[k..] == segments;
    } else {
      FlattenSplit(segments[1..], k - 1);
      assert segments[..k][1..] == segments[1..][..k - 1];
      assert segments[k..] == segments[1..][k - 1..];
    }
  }

  lemma FlattenStep<T>(segments: seq<seq<T>>, i: nat)
    requires i < |segments|
    ensures Flatten(segments[..i + 1]) == Flatten(segments[..i]) + segments[i]
  {
    assert segments[..i + 1] == segments[..i] + [segments[i]];
    FlattenSnoc(segments[..i], segments[i]);
  }

  function Min(a: nat, b: nat): nat {
    if a < b then a else b
  }

  predicate Distinct<T(==)>(s: seq<T>) {
    forall i, j :: 0 <= i < j < |s| ==> s[i] != s[j]
  }

  lemma {:induction false} DistinctSize<T>(s: seq<T>)
    requires Distinct(s)
    ensures |set x | x in s| == |s|
  {
    if s != [] {
      var front, last := s[..|s| - 1], s[|s| - 1];
      DistinctSize(front);
      assert (set x | x in s) == (set x | x in front) + {last};
      assert last !in front;
    }
  }

  lemma {:induction false} SubsetSize<T>(a: set<T>, b: set<T>)
    requires a <= b
    ensures |a| <= |b|
  {
    assert b == a + (b - a);
    assert |b| == |a| + |b - a|;
  }
}
