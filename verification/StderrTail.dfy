/** The bounded, redacted stderr tail kept for diagnostics. */
module StderrTail {
  import opened Common
  import opened ByteText
  import Utf8

  // ----- what one push leaves

  function Joined(text: seq<byte>, line: seq<byte>): seq<byte> {
    if text == [] then line else text + [LF] + line
  }

  /** The first character boundary at or after a position. */
  function NextBoundary(t: seq<byte>, from: nat): (i: nat)
    requires from <= |t|
    ensures from <= i <= |t| && Utf8.Boundary(t, i)
    ensures forall j :: from <= j < i ==> !Utf8.Boundary(t, j)
    decreases |t| - from
  {
    if Utf8.Boundary(t, from) then from else NextBoundary(t, from + 1)
  }

  /** Where an overlong text is cut: a boundary that leaves at most `max` bytes, then past the next newline. */
  function CutPoint(t: seq<byte>, max: nat): (i: nat)
    requires |t| > max
    ensures |t| - max <= i <= |t|
  {
    var start := NextBoundary(t, |t| - max);
    match FindBytes(t[start..], [LF])
    case Some(newline) => start + newline + 1
    case None => start
  }

  function Pushed(text: seq<byte>, line: seq<byte>, max: nat): seq<byte> {
    var t := Joined(text, line);
    if |t| <= max then t else t[CutPoint(t, max)..]
  }

  class BoundedText {
    var text: seq<byte>
    const maxBytes: nat

    ghost predicate Valid()
      reads this
    {
      Utf8.Valid(text) && |text| <= maxBytes
    }

    constructor (max: nat)
      ensures Valid() && text == [] && maxBytes == max
    {
      text, maxBytes := [], max;
    }

    /** The drain at the end is always at a character boundary, so it cannot panic. */
    method PushLine(line: seq<byte>)
      requires Valid() && Utf8.Valid(line)
      modifies this`text
      ensures Valid() && text == Pushed(old(text), line, maxBytes)
    {
      PushedIsValid(text, line, maxBytes);
      JoinedIsValid(text, line);
      var all := text;
      if all != [] {
        all := all + [LF];
      }
      all := all + line;
      assert all == Joined(text, line);
      hide Utf8.Valid, CutPoint;
      if |all| <= maxBytes {
        text := all;
      } else {
        var start := FindCut(all, maxBytes);
        CutIsBoundary(all, maxBytes);
        assert Utf8.Boundary(all, start);
        text := all[start..];
      }
    }
  }

  method FindCut(t: seq<byte>, max: nat) returns (start: nat)
    requires |t| > max
    ensures start == CutPoint(t, max)
  {
    start := |t| - max;
    hide FindBytes, Utf8.Boundary;
    while start < |t| && !Utf8.Boundary(t, start)
      invariant start <= |t| && NextBoundary(t, start) == NextBoundary(t, |t| - max)
    {
      start := start + 1;
    }
    EndIsBoundary(t);
    var newline := FindBytes(t[start..], [LF]);
    CutFrom(t, max, start);
    if newline.Some? {
      start := start + newline.value + 1;
    }
  }

  lemma EndIsBoundary(t: seq<byte>)
    ensures Utf8.Boundary(t, |t|)
  {
  }

  lemma CutFrom(t: seq<byte>, max: nat, start: nat)
    requires |t| > max && start == NextBoundary(t, |t| - max)
    ensures var newline := FindBytes(t[start..], [LF]);
            CutPoint(t, max) == if newline.Some? then start + newline.value + 1 else start
  {
  }

  lemma JoinedIsValid(text: seq<byte>, line: seq<byte>)
    requires Utf8.Valid(text) && Utf8.Valid(line)
    ensures Utf8.Valid(Joined(text, line))
  {
    Utf8.AsciiIsValid([LF]);
    Utf8.ValidConcat(text, [LF]);
    Utf8.ValidConcat(text + [LF], line);
  }

  lemma {:induction false} NewlineEndsChar(t: seq<byte>, p: nat)
    requires Utf8.Valid(t) && p < |t| && t[p] == LF
    ensures Utf8.Boundary(t, p + 1)
    decreases |t|
  {
    var n := Utf8.CharLength(t);
    var rest := t[n..];
    if p >= n {
      assert rest[p - n] == LF;
      NewlineEndsChar(rest, p - n);
    } else if p > 0 {
      Utf8.NoBoundaryInside(t, p);
    } else if rest != [] {
      ValidStartsChar(rest);
    }
  }

  lemma ValidStartsChar(s: seq<byte>)
    requires Utf8.Valid(s)
    ensures s == [] || !Utf8.Continuation(s[0])
  {
  }

  lemma CutIsBoundary(t: seq<byte>, max: nat)
    requires |t| > max && Utf8.Valid(t)
    ensures Utf8.Boundary(t, CutPoint(t, max))
  {
    var start := NextBoundary(t, |t| - max);
    var found := FindBytes(t[start..], [LF]);
    if found.Some? {
      FoundNewline(t, start);
      NewlineEndsChar(t, start + found.value);
    }
  }

  /** Every push keeps the tail within its bound and well formed. */
  lemma PushedIsValid(text: seq<byte>, line: seq<byte>, max: nat)
    requires Utf8.Valid(text) && Utf8.Valid(line)
    ensures Utf8.Valid(Pushed(text, line, max)) && |Pushed(text, line, max)| <= max
  {
    JoinedIsValid(text, line);
    var t := Joined(text, line);
    if |t| > max {
      CutIsBoundary(t, max);
      hide CutPoint;
      Utf8.ValidSplit(t, CutPoint(t, max));
    }
  }

  // ----- any number of pushes

  function TailOf(lines: seq<seq<byte>>, max: nat): seq<byte> {
    if lines == [] then [] else Pushed(TailOf(lines[..|lines| - 1], max), lines[|lines| - 1], max)
  }

  /** The log: the lines with newlines between them. */
  function Join(lines: seq<seq<byte>>): seq<byte> {
    if lines == [] then []
    else if |lines| == 1 then lines[0]
    else lines[0] + [LF] + Join(lines[1..])
  }

  ghost predicate AllValid(lines: seq<seq<byte>>) {
    forall i :: 0 <= i < |lines| ==> Utf8.Valid(lines[i])
  }

  ghost predicate Suffix(a: seq<byte>, b: seq<byte>) {
    |a| <= |b| && a == b[|b| - |a|..]
  }

  lemma {:induction false} JoinSnoc(lines: seq<seq<byte>>, line: seq<byte>)
    ensures Join(lines + [line]) == if lines == [] then line else Join(lines) + [LF] + line
  {
    if lines == [] {
      assert lines + [line] == [line];
    } else {
      assert (lines + [line])[1..] == lines[1..] + [line];
      JoinSnoc(lines[1..], line);
      if |lines| > 1 {
        assert lines[0] + [LF] + (Join(lines[1..]) + [LF] + line) == lines[0] + [LF] + Join(lines[1..]) + [LF] + line;
      }
    }
  }

  /** The tail is bounded, well-formed UTF-8 and the end of the log. */
  lemma {:induction false} TailIsBoundedSuffix(lines: seq<seq<byte>>, max: nat)
    requires AllValid(lines)
    ensures |TailOf(lines, max)| <= max && Utf8.Valid(TailOf(lines, max)) && Suffix(TailOf(lines, max), Join(lines))
  {
    if lines != [] {
      var front, line := lines[..|lines| - 1], lines[|lines| - 1];
      assert AllValid(front) && Utf8.Valid(line) && lines == front + [line];
      TailIsBoundedSuffix(front, max);
      var text := TailOf(front, max);
      assert TailOf(lines, max) == Pushed(text, line, max);
      JoinSnoc(front, line);
      assert front == [] ==> Join(front) == [];
      hide *;
      PushedIsValid(text, line, max);
      JoinedIsSuffix(text, Join(front), line, front == []);
      PushedIsSuffix(text, line, max, Join(lines));
    }
  }

  lemma PushedIsSuffix(text: seq<byte>, line: seq<byte>, max: nat, log: seq<byte>)
    requires Suffix(Joined(text, line), log)
    ensures Suffix(Pushed(text, line, max), log)
  {
    hide CutPoint;
  }

  lemma JoinedIsSuffix(text: seq<byte>, log: seq<byte>, line: seq<byte>, first: bool)
    requires Suffix(text, log) && (first ==> log == [])
    ensures Suffix(Joined(text, line), if first then line else log + [LF] + line)
  {
  }

  // ----- whole lines

  ghost predicate PlainLines(lines: seq<seq<byte>>, max: nat) {
    AllValid(lines) && forall i :: 0 <= i < |lines| ==> LF !in lines[i] && |lines[i]| <= max
  }

  lemma {:induction false} AfterNewline(lines: seq<seq<byte>>, p: nat) returns (m: nat)
    requires forall i :: 0 <= i < |lines| ==> LF !in lines[i]
    requires p < |Join(lines)| && Join(lines)[p] == LF
    ensures 1 <= m < |lines| && Join(lines)[p + 1..] == Join(lines[m..])
  {
    assert |lines| > 1;
    var rest := Join(lines[1..]);
    var head := lines[0] + [LF];
    assert Join(lines) == head + rest;
    assert p >= |lines[0]|;
    if p == |lines[0]| {
      m := 1;
    } else {
      m := AfterNewline(lines[1..], p - |head|);
      assert Join(lines)[p + 1..] == rest[p - |head| + 1..];
      assert lines[1..][m..] == lines[m + 1..];
      m := m + 1;
    }
  }

  /** The last lines of a log begin at its start or after a newline. */
  lemma {:induction false} LastLinesBegin(lines: seq<seq<byte>>, j: nat)
    requires j < |lines|
    ensures var begin := |Join(lines)| - |Join(lines[j..])|;
            begin >= 0 && (begin == 0 || Join(lines)[begin - 1] == LF)
    decreases j
  {
    if j == 0 {
      assert lines[0..] == lines;
    } else {
      LastLinesBegin(lines[1..], j - 1);
      assert lines[1..][j - 1..] == lines[j..];
      NextByte(lines[0] + [LF], Join(lines[1..]));
    }
  }

  lemma NextByte(head: seq<byte>, rest: seq<byte>)
    requires head != []
    ensures forall i :: 0 <= i < |rest| ==> (head + rest)[|head| + i] == rest[i]
    ensures (head + rest)[|head| - 1] == head[|head| - 1]
  {
  }

  /** The line that ends at a newline: how long the log is from its beginning on. */
  lemma LineBefore(lines: seq<seq<byte>>, p: nat, m: nat)
    requires 1 <= m < |lines| && p < |Join(lines)| && Join(lines)[p + 1..] == Join(lines[m..])
    ensures |Join(lines[m - 1..])| == |lines[m - 1]| + |Join(lines)| - p
  {
    assert lines[m - 1..][0] == lines[m - 1] && lines[m - 1..][1..] == lines[m..];
  }

  lemma FoundNewline(t: seq<byte>, start: nat)
    requires start <= |t|
    ensures var found := FindBytes(t[start..], [LF]);
            found.Some? ==> start + found.value < |t| && t[start + found.value] == LF
  {
    var found := FindBytes(t[start..], [LF]);
    if found.Some? {
      assert t[start..][found.value..found.value + 1][0] == t[start + found.value];
    }
  }

  /** Cutting a join of plain lines leaves a join of its last lines, and with one more line it would not be shorter. */
  lemma CutKeepsWholeLines(lines: seq<seq<byte>>, max: nat) returns (m: nat)
    requires lines != [] && PlainLines(lines, max) && |Join(lines)| > max
    ensures 0 < m < |lines| && Join(lines)[CutPoint(Join(lines), max)..] == Join(lines[m..])
    ensures |Join(lines[m - 1..])| >= max
  {
    var t := Join(lines);
    var start := NextBoundary(t, |t| - max);
    CutFrom(t, max, start);
    FoundNewline(t, start);
    assert forall i :: 0 <= i < |lines| ==> LF !in lines[i];
    var found := FindBytes(t[start..], [LF]);
    hide *;
    if found.Some? {
      m := AfterNewline(lines, start + found.value);
      LineBefore(lines, start + found.value, m);
      LastLinesBegin(lines, m - 1);
      NoNewlineBefore(t, max, |t| - |Join(lines[m - 1..])|, start + found.value);
    } else {
      m := |lines| - 1;
      CutAtLastLine(lines, max, start);
    }
  }

  lemma CutAtLastLine(lines: seq<seq<byte>>, max: nat, start: nat)
    requires lines != [] && PlainLines(lines, max) && |Join(lines)| > max
    requires start == NextBoundary(Join(lines), |Join(lines)| - max) && FindBytes(Join(lines)[start..], [LF]).None?
    ensures |lines| > 1 && Join(lines)[start..] == Join(lines[|lines| - 1..])
    ensures |Join(lines[|lines| - 2..])| >= max
  {
    var t, n := Join(lines), |lines| - 1;
    assert lines[..n] + [lines[n]] == lines;
    JoinSnoc(lines[..n], lines[n]);
    assert Utf8.Valid(lines[n]) && |lines[n]| <= max;
    assert n > 0;
    assert Join([lines[n]]) == lines[n] && lines[n..] == [lines[n]];
    LastTwo(lines, n);
    hide *;
    LastLineStart(t, lines[n], start, max);
  }

  lemma LastTwo(lines: seq<seq<byte>>, n: nat)
    requires 0 < n == |lines| - 1
    ensures |Join(lines[n - 1..])| >= |lines[n]|
  {
    assert lines[n - 1..] == [lines[n - 1], lines[n]];
    assert lines[n - 1..][1..] == [lines[n]];
  }

  /** A line that reaches over the cut begins at or before the first byte that could be kept. */
  lemma NoNewlineBefore(t: seq<byte>, max: nat, begin: nat, end: nat)
    requires |t| > max && begin <= end < |t| && (begin == 0 || t[begin - 1] == LF)
    requires NextBoundary(t, |t| - max) <= end
    requires FindBytes(t[NextBoundary(t, |t| - max)..], [LF]) == Some(end - NextBoundary(t, |t| - max))
    ensures begin <= |t| - max
  {
    var start := NextBoundary(t, |t| - max);
    if begin > 0 {
      assert Utf8.Boundary(t, begin - 1);
      assert start < begin ==> t[start..][begin - 1 - start..begin - start] == [LF];
      assert start < begin ==> MatchAt(t[start..], [LF], begin - 1 - start);
    }
  }

  /** With no newline after the cut, the cut is exactly where the last line begins. */
  lemma LastLineStart(t: seq<byte>, line: seq<byte>, start: nat, max: nat)
    requires |t| > max && |line| <= max && Utf8.Valid(line) && |line| < |t|
    requires t[|t| - |line|..] == line && t[|t| - |line| - 1] == LF
    requires start == NextBoundary(t, |t| - max) && FindBytes(t[start..], [LF]).None?
    ensures t[start..] == line && |line| >= max
  {
    var begin := |t| - |line|;
    assert Utf8.Boundary(t, begin - 1);
    ValidStartsChar(line);
    assert line != [] ==> t[begin] == line[0];
    assert Utf8.Boundary(t, begin);
    assert start < begin ==> t[start..][begin - 1 - start..begin - start] == [LF];
    assert start < begin ==> MatchAt(t[start..], [LF], begin - 1 - start);
  }

  lemma PlainParts(lines: seq<seq<byte>>, n: nat, max: nat)
    requires PlainLines(lines, max) && n <= |lines|
    ensures PlainLines(lines[..n], max) && PlainLines(lines[n..], max)
  {
    hide Utf8.Valid;
  }

  lemma TailOfNext(lines: seq<seq<byte>>, max: nat)
    ensures lines == [] ==> TailOf(lines, max) == [] == Join(lines)
    ensures lines != [] ==>
              TailOf(lines, max) == Pushed(TailOf(lines[..|lines| - 1], max), lines[|lines| - 1], max)
  {
  }

  predicate NoneEmpty(lines: seq<seq<byte>>) {
    forall i :: 0 <= i < |lines| ==> lines[i] != []
  }

  /** The last k lines with one more before them are not below the bound. */
  ghost predicate NoMoreFits(lines: seq<seq<byte>>, k: nat, max: nat) {
    NoneEmpty(lines) && k < |lines| ==> |Join(lines[|lines| - k - 1..])| >= max
  }

  /**
   If every pushed line is plain and fits the bound, the tail is the last few lines, whole; and if none is empty, it is
   as many as there are or so many that one more would reach the bound.
   */
  lemma {:induction false} TailIsWholeLines(lines: seq<seq<byte>>, max: nat) returns (k: nat)
    requires PlainLines(lines, max)
    ensures k <= |lines| && TailOf(lines, max) == Join(lines[|lines| - k..])
    ensures lines != [] ==> k > 0
    ensures NoMoreFits(lines, k, max)
    decreases |lines|
  {
    hide *;
    TailOfNext(lines, max);
    if lines == [] {
      k := 0;
      assert lines[|lines| - k..] == lines;
      AllAreKept(lines, k, max);
    } else {
      var n := |lines| - 1;
      PlainParts(lines, n, max);
      k := TailIsWholeLines(lines[..n], max);
      k := NextTailIsWhole(lines, TailOf(lines[..n], max), k, max);
    }
  }

  lemma NextTailIsWhole(lines: seq<seq<byte>>, text: seq<byte>, k: nat, max: nat) returns (next: nat)
    requires lines != [] && PlainLines(lines, max) && k < |lines|
    requires text == Join(lines[..|lines| - 1][|lines| - 1 - k..])
    requires NoMoreFits(lines[..|lines| - 1], k, max) && (|lines| > 1 ==> k > 0)
    ensures 0 < next <= |lines| && Pushed(text, lines[|lines| - 1], max) == Join(lines[|lines| - next..])
    ensures NoMoreFits(lines, next, max)
  {
    hide *;
    var n := |lines| - 1;
    var start := if text == [] then n else n - k;
    PlainParts(lines, start, max);
    WholeLinesJoined(lines, k, text, start);
    next := CutLinesFrom(lines, start, text, max);
    NextNoMore(lines, text, k, start, next, max);
  }

  lemma CutLinesFrom(lines: seq<seq<byte>>, start: nat, text: seq<byte>, max: nat) returns (next: nat)
    requires start < |lines| && PlainLines(lines[start..], max)
    requires Joined(text, lines[|lines| - 1]) == Join(lines[start..])
    ensures 0 < next <= |lines| - start && Pushed(text, lines[|lines| - 1], max) == Join(lines[|lines| - next..])
    ensures next < |lines| - start ==> |Join(lines[|lines| - next - 1..])| >= max
  {
    hide *;
    var kept := lines[start..];
    next := CutToWholeLines(text, lines[|lines| - 1], kept, max);
    TailOfSuffix(lines, start, next);
    OneMoreOfSuffix(lines, start, next);
  }

  lemma OneMoreOfSuffix(lines: seq<seq<byte>>, start: nat, k: nat)
    requires start <= |lines|
    ensures k < |lines| - start ==> lines[start..][|lines[start..]| - k - 1..] == lines[|lines| - k - 1..]
  {
  }

  lemma NextNoMore(lines: seq<seq<byte>>, text: seq<byte>, k: nat, start: nat, next: nat, max: nat)
    requires lines != [] && k < |lines| && text == Join(lines[..|lines| - 1][|lines| - 1 - k..])
    requires NoMoreFits(lines[..|lines| - 1], k, max) && (|lines| > 1 ==> k > 0)
    requires start == (if text == [] then |lines| - 1 else |lines| - 1 - k) && 0 < next <= |lines| - start
    requires next < |lines| - start ==> |Join(lines[|lines| - next - 1..])| >= max
    ensures NoMoreFits(lines, next, max)
  {
    hide *;
    if next < |lines| - start {
      CutSaysSo(lines, next, max);
    } else if next == |lines| {
      AllAreKept(lines, next, max);
    } else if text == [] {
      SomethingIsThere(lines, |lines| - 1, k);
      NotAllPlain(lines, next, max);
    } else {
      StillNoMore(lines, k, max);
    }
  }

  lemma AllAreKept(lines: seq<seq<byte>>, k: nat, max: nat)
    requires k == |lines|
    ensures NoMoreFits(lines, k, max)
  {
  }

  lemma CutSaysSo(lines: seq<seq<byte>>, k: nat, max: nat)
    requires k < |lines| && |Join(lines[|lines| - k - 1..])| >= max
    ensures NoMoreFits(lines, k, max)
  {
  }

  lemma NotAllPlain(lines: seq<seq<byte>>, k: nat, max: nat)
    requires !NoneEmpty(lines)
    ensures NoMoreFits(lines, k, max)
  {
  }

  /** Lines that are not empty do not join to nothing. */
  lemma SomethingIsThere(lines: seq<seq<byte>>, n: nat, k: nat)
    requires n == |lines| - 1 && 0 < k <= n && Join(lines[..n][n - k..]) == []
    ensures !NoneEmpty(lines)
  {
    assert lines[..n][n - k..][0] == lines[n - k];
  }

  lemma StillNoMore(lines: seq<seq<byte>>, k: nat, max: nat)
    requires lines != [] && k + 1 < |lines| && NoMoreFits(lines[..|lines| - 1], k, max)
    ensures NoMoreFits(lines, k + 1, max)
  {
    var n := |lines| - 1;
    if NoneEmpty(lines) {
      var front := lines[..n][n - k - 1..];
      assert NoneEmpty(lines[..n]);
      assert lines[|lines| - (k + 1) - 1..] == front + [lines[n]];
      JoinSnoc(front, lines[n]);
    }
  }

  lemma TailOfSuffix(lines: seq<seq<byte>>, start: nat, k: nat)
    requires start + k <= |lines|
    ensures lines[start..][|lines| - start - k..] == lines[|lines| - k..]
  {
  }

  lemma CutToWholeLines(text: seq<byte>, line: seq<byte>, kept: seq<seq<byte>>, max: nat) returns (k: nat)
    requires kept != [] && PlainLines(kept, max) && Joined(text, line) == Join(kept)
    ensures 0 < k <= |kept| && Pushed(text, line, max) == Join(kept[|kept| - k..])
    ensures k < |kept| ==> |Join(kept[|kept| - k - 1..])| >= max
  {
    k := |kept|;
    assert kept[0..] == kept;
    hide Join, CutPoint, PlainLines;
    if |Join(kept)| > max {
      var m := CutKeepsWholeLines(kept, max);
      k := k - m;
    }
  }

  lemma WholeLinesJoined(lines: seq<seq<byte>>, k: nat, text: seq<byte>, start: nat)
    requires lines != [] && k < |lines| && text == Join(lines[..|lines| - 1][|lines| - 1 - k..])
    requires start == if text == [] then |lines| - 1 else |lines| - 1 - k
    ensures Joined(text, lines[|lines| - 1]) == Join(lines[start..])
  {
    var n := |lines| - 1;
    if text == [] {
      assert lines[n..] == [lines[n]];
    } else {
      assert lines[n - k..] == lines[..n][n - k..] + [lines[n]];
      JoinSnoc(lines[..n][n - k..], lines[n]);
    }
  }
}
