/**
 Newline framing of a child's output, as done by the reader threads of the managed runtime
 supervisor, and the frame format written to a child's stdin.
 */
module Framer {
  import opened Common

  const READ_BUFFER_BYTES: nat := 8 * 1024
  const MAX_STDIN_FRAME_BYTES: nat := 256 * 1024

  datatype Event = Frame(bytes: seq<byte>) | Oversized

  /** How a stream ends: a read of zero bytes, or a failed read. */
  datatype ReadEnd = EndOfFile | ReadError

  // ----- what a line means

  ghost predicate NoNewline(s: seq<byte>) {
    LF !in s
  }

  function StripCarriageReturn(line: seq<byte>): seq<byte> {
    if line != [] && line[|line| - 1] == CR then line[..|line| - 1] else line
  }

  /** The one event a terminated line stands for; the bound is on the line with its carriage return. */
  function LineEvent(line: seq<byte>, max: nat): Event {
    if |line| > max then Oversized else Frame(StripCarriageReturn(line))
  }

  function LineEvents(lines: seq<seq<byte>>, max: nat): seq<Event> {
    seq(|lines|, i requires 0 <= i < |lines| => LineEvent(lines[i], max))
  }

  /** What an unterminated last line contributes: an overflow is reported at once, the bytes only at end of file. */
  function TailEvents(tail: seq<byte>, end: ReadEnd, max: nat): seq<Event> {
    if |tail| > max then [Oversized]
    else if tail != [] && end.EndOfFile? then [Frame(tail)]
    else []
  }

  /** Text made of newline-terminated lines. */
  function Unlines(lines: seq<seq<byte>>): seq<byte> {
    if lines == [] then [] else Unlines(lines[..|lines| - 1]) + lines[|lines| - 1] + [LF]
  }

  // ----- the running view: the part of the input seen so far

  function LastLine(s: seq<byte>): seq<byte> {
    if s == [] || s[|s| - 1] == LF then [] else LastLine(s[..|s| - 1]) + [s[|s| - 1]]
  }

  function ClosedEvents(s: seq<byte>, max: nat): seq<Event> {
    if s == [] then []
    else
      var before := s[..|s| - 1];
      if s[|s| - 1] == LF then ClosedEvents(before, max) + [LineEvent(LastLine(before), max)]
      else ClosedEvents(before, max)
  }

  /** Everything sent by the time the bytes of `s` have been consumed. */
  function SentSoFar(s: seq<byte>, max: nat): seq<Event> {
    ClosedEvents(s, max) + TailEvents(LastLine(s), ReadError, max)
  }

  /** Everything sent for a whole stream. */
  function AllEvents(s: seq<byte>, end: ReadEnd, max: nat): seq<Event> {
    ClosedEvents(s, max) + TailEvents(LastLine(s), end, max)
  }

  /** What one more byte adds. */
  lemma OneMoreByte(s: seq<byte>, b: byte, max: nat)
    ensures LastLine(s + [b]) == if b == LF then [] else LastLine(s) + [b]
    ensures SentSoFar(s + [b], max) ==
            if b == LF && |LastLine(s)| <= max then SentSoFar(s, max) + [Frame(StripCarriageReturn(LastLine(s)))]
            else if b != LF && |LastLine(s)| == max then SentSoFar(s, max) + [Oversized]
            else SentSoFar(s, max)
  {
    assert (s + [b])[..|s|] == s;
  }

  /** Consuming more input only ever appends events. */
  lemma {:induction false} SentGrows(s: seq<byte>, more: seq<byte>, end: ReadEnd, max: nat)
    ensures SentSoFar(s, max) <= AllEvents(s + more, end, max)
    decreases |more|
  {
    if more == [] {
      assert s + more == s;
    } else {
      OneMoreByte(s, more[0], max);
      assert s + [more[0]] + more[1..] == s + more;
      SentGrows(s + [more[0]], more[1..], end, max);
    }
  }

  /** The reader's registers after the bytes of `seen`. */
  datatype Registers = Registers(pending: seq<byte>, discarding: bool) {
    ghost predicate Track(seen: seq<byte>, max: nat) {
      && discarding == (|LastLine(seen)| > max)
      && pending == if discarding then [] else LastLine(seen)
    }
  }

  /** One pass over a read buffer; `open` says the receiver took every event so far. */
  method ConsumeBuffer(buffer: seq<byte>, start: Registers, max: nat, room: nat, ghost seen: seq<byte>)
    returns (regs: Registers, out: seq<Event>, open: bool)
    requires start.Track(seen, max)
    ensures |out| <= room && SentSoFar(seen, max) + out <= SentSoFar(seen + buffer, max)
    ensures open ==> regs.Track(seen + buffer, max) && SentSoFar(seen, max) + out == SentSoFar(seen + buffer, max)
    ensures !open ==> |out| == room
  {
    hide LastLine, ClosedEvents, SentSoFar, StripCarriageReturn;
    regs, out, open := start, [], true;
    ghost var now := seen;
    assert seen + buffer[..0] == seen;
    for j := 0 to |buffer|
      invariant now == seen + buffer[..j]
      invariant regs.Track(now, max) && |out| <= room
      invariant SentSoFar(seen, max) + out == SentSoFar(now, max)
    {
      var b := buffer[j];
      OneMoreByte(now, b, max);
      now := now + [b];
      assert now == seen + buffer[..j + 1];
      var event := None;
      if b == LF {
        if !regs.discarding {
          event := Some(Frame(StripCarriageReturn(regs.pending)));
        }
        regs := Registers([], false);
      } else if !regs.discarding {
        regs := Registers(regs.pending + [b], false);
        if |regs.pending| > max {
          regs := Registers([], true);
          event := Some(Oversized);
        }
      }
      if event.Some? {
        if |out| == room {
          SentStillGrows(now, buffer[j + 1..], max);
          assert now + buffer[j + 1..] == seen + buffer;
          return regs, out, false;
        }
        out := out + [event.value];
      }
    }
    assert seen + buffer[..|buffer|] == seen + buffer;
  }

  lemma FinalEvents(seen: seq<byte>, regs: Registers, end: ReadEnd, max: nat)
    requires regs.Track(seen, max)
    ensures AllEvents(seen, end, max) ==
            SentSoFar(seen, max) + if end.EndOfFile? && regs.pending != [] then [Frame(regs.pending)] else []
  {
  }

  function FirstEvents(all: seq<Event>, accepts: nat): seq<Event> {
    all[..Min(accepts, |all|)]
  }

  lemma StoppedShort(sent: seq<Event>, out: seq<Event>, after: seq<Event>, all: seq<Event>, accepts: nat)
    requires sent + out <= after <= all && |sent + out| == accepts
    ensures sent + out == FirstEvents(all, accepts)
  {
    assert sent + out == after[..accepts] == all[..accepts];
  }

  lemma AllTaken(before: seq<Event>, sent: seq<Event>, all: seq<Event>, accepts: nat)
    requires before <= all && |all| <= |before| + 1 && |before| <= accepts
    requires sent == if |before| < accepts then all else before
    ensures sent == FirstEvents(all, accepts)
  {
  }

  lemma SentStillGrows(s: seq<byte>, more: seq<byte>, max: nat)
    ensures SentSoFar(s, max) <= SentSoFar(s + more, max)
  {
    SentGrows(s, more, ReadError, max);
  }

  /**
   The reader thread: any cut of the stream into buffers, and a receiver that goes away after
   taking `accepts` events, give exactly the first `accepts` events of the whole stream.
   */
  method ReadBoundedFrames(segments: seq<seq<byte>>, end: ReadEnd, max: nat, accepts: nat)
    returns (sent: seq<Event>)
    requires forall k :: 0 <= k < |segments| ==> 0 < |segments[k]| <= READ_BUFFER_BYTES
    ensures sent == FirstEvents(AllEvents(Flatten(segments), end, max), accepts)
  {
    assert Flatten(segments[..0]) == [] && SentSoFar([], max) == [];
    hide LastLine, ClosedEvents, SentSoFar, AllEvents, TailEvents, Flatten, FirstEvents;
    ghost var seen: seq<byte> := [];
    var regs := Registers([], false);
    sent := [];
    var i := 0;
    while i < |segments|
      invariant 0 <= i <= |segments|
      invariant seen == Flatten(segments[..i])
      invariant sent == SentSoFar(seen, max) && |sent| <= accepts
      invariant regs.Track(seen, max)
    {
      var out, open;
      regs, out, open := ConsumeBuffer(segments[i], regs, max, accepts - |sent|, seen);
      FlattenStep(segments, i);
      seen := seen + segments[i];
      i := i + 1;
      if !open {
        FlattenSplit(segments, i);
        SentGrows(seen, Flatten(segments[i..]), end, max);
        StoppedShort(sent, out, SentSoFar(seen, max), AllEvents(Flatten(segments), end, max), accepts);
        return sent + out;
      }
      sent := sent + out;
    }
    assert segments[..i] == segments;
    FinalEvents(seen, regs, end, max);
    if end.EndOfFile? && regs.pending != [] && |sent| < accepts {
      sent := sent + [Frame(regs.pending)];
    }
    assert sent == FirstEvents(AllEvents(Flatten(segments), end, max), accepts) by {
      AllTaken(SentSoFar(seen, max), sent, AllEvents(seen, end, max), accepts);
    }
  }

  // ----- the meaning of a whole stream

  lemma {:induction false} LastLineOfAppend(s: seq<byte>, line: seq<byte>)
    requires NoNewline(line)
    requires LastLine(s) == []
    ensures LastLine(s + line) == line
  {
    if line == [] {
      assert s + line == s;
    } else {
      var t := s + line;
      assert t[..|t| - 1] == s + line[..|line| - 1];
      LastLineOfAppend(s, line[..|line| - 1]);
    }
  }

  lemma {:induction false} ClosedOfAppend(s: seq<byte>, line: seq<byte>, max: nat)
    requires NoNewline(line)
    ensures ClosedEvents(s + line, max) == ClosedEvents(s, max)
  {
    if line == [] {
      assert s + line == s;
    } else {
      var t := s + line;
      assert t[..|t| - 1] == s + line[..|line| - 1];
      ClosedOfAppend(s, line[..|line| - 1], max);
    }
  }

  lemma {:induction false} ClosedOfUnlines(lines: seq<seq<byte>>, max: nat)
    requires forall k :: 0 <= k < |lines| ==> NoNewline(lines[k])
    ensures ClosedEvents(Unlines(lines), max) == LineEvents(lines, max)
    ensures LastLine(Unlines(lines)) == []
  {
    if lines != [] {
      var front, last := lines[..|lines| - 1], lines[|lines| - 1];
      ClosedOfUnlines(front, max);
      var t := Unlines(lines);
      assert t[..|t| - 1] == Unlines(front) + last;
      LastLineOfAppend(Unlines(front), last);
      ClosedOfAppend(Unlines(front), last, max);
      assert LineEvents(lines, max) == LineEvents(front, max) + [LineEvent(last, max)];
    }
  }

  /** One event per terminated line, in order, then at most one for the rest. */
  lemma EventsOfLines(lines: seq<seq<byte>>, tail: seq<byte>, end: ReadEnd, max: nat)
    requires forall k :: 0 <= k < |lines| ==> NoNewline(lines[k])
    requires NoNewline(tail)
    ensures AllEvents(Unlines(lines) + tail, end, max) == LineEvents(lines, max) + TailEvents(tail, end, max)
  {
    ClosedOfUnlines(lines, max);
    LastLineOfAppend(Unlines(lines), tail);
    ClosedOfAppend(Unlines(lines), tail, max);
  }

  /** Every byte string is a list of terminated lines and a rest, so `EventsOfLines` speaks of every stream. */
  lemma {:induction false} EveryStreamIsLines(s: seq<byte>) returns (lines: seq<seq<byte>>, tail: seq<byte>)
    ensures s == Unlines(lines) + tail && NoNewline(tail)
    ensures forall k :: 0 <= k < |lines| ==> NoNewline(lines[k])
  {
    if s == [] {
      lines, tail := [], [];
    } else {
      var b := s[|s| - 1];
      lines, tail := EveryStreamIsLines(s[..|s| - 1]);
      assert s == s[..|s| - 1] + [b];
      if b == LF {
        assert (lines + [tail])[..|lines|] == lines;
        lines, tail := lines + [tail], [];
      } else {
        tail := tail + [b];
      }
    }
  }

  // ----- the frame writer

  /** What `write_stdin_frame` lets through to the child. */
  predicate WritableFrame(frame: seq<byte>) {
    0 < |frame| <= MAX_STDIN_FRAME_BYTES && 0 !in frame && CR !in frame && LF !in frame
  }

  /** Frames written one after another come back one event each, unchanged, for every bound they fit. */
  lemma WrittenFramesReadBack(frames: seq<seq<byte>>, end: ReadEnd, max: nat)
    requires forall k :: 0 <= k < |frames| ==> WritableFrame(frames[k]) && |frames[k]| <= max
    ensures AllEvents(Unlines(frames), end, max) == seq(|frames|, i requires 0 <= i < |frames| => Frame(frames[i]))
  {
    EventsOfLines(frames, [], end, max);
    assert Unlines(frames) + [] == Unlines(frames);
  }
}
