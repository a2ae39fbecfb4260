/**
 The health-check response reader: a header block, then a Content-Length or chunked body
 (section 6.3 of RFC 9112), read from a socket in arbitrary pieces.
 */
module HttpResponse {
  import opened Common
  import opened ByteText
  import opened ChunkedBody
  import Utf8

  const READ_BUFFER_BYTES: nat := 1024
  const MAX_RESPONSE_BYTES: nat := 8 * 1024
  const HEADER_END: seq<byte> := [CR, LF, CR, LF]
  const COLON: byte := 58

  // ----- the header block

  datatype Framing = ContentLength(length: nat) | Chunked

  /** Unicode white space at the start of valid UTF-8 text: the length of its first such character, or 0. */
  function LeadingSpace(s: seq<byte>): (n: nat)
    ensures n <= |s|
  {
    if s == [] then 0
    else if 9 <= s[0] <= 13 || s[0] == 32 then 1
    else if |s| >= 2 && s[0] == 0xC2 && s[1] in {0x85, 0xA0} then 2
    else if |s| >= 3 && s[..3] in WIDE_SPACES then 3
    else 0
  }

  function TrailingSpace(s: seq<byte>): (n: nat)
    ensures n <= |s|
  {
    if s == [] then 0
    else if 9 <= s[|s| - 1] <= 13 || s[|s| - 1] == 32 then 1
    else if |s| >= 2 && s[|s| - 2] == 0xC2 && s[|s| - 1] in {0x85, 0xA0} then 2
    else if |s| >= 3 && s[|s| - 3..] in WIDE_SPACES then 3
    else 0
  }

  /** U+1680, U+2000 to U+200A, U+2028, U+2029, U+202F, U+205F and U+3000. */
  const WIDE_SPACES: set<seq<byte>> :=
    {[0xE1, 0x9A, 0x80], [0xE2, 0x80, 0x80], [0xE2, 0x80, 0x81], [0xE2, 0x80, 0x82], [0xE2, 0x80, 0x83],
     [0xE2, 0x80, 0x84], [0xE2, 0x80, 0x85], [0xE2, 0x80, 0x86], [0xE2, 0x80, 0x87], [0xE2, 0x80, 0x88],
     [0xE2, 0x80, 0x89], [0xE2, 0x80, 0x8A], [0xE2, 0x80, 0xA8], [0xE2, 0x80, 0xA9], [0xE2, 0x80, 0xAF],
     [0xE2, 0x81, 0x9F], [0xE3, 0x80, 0x80]}

  function TrimStart(s: seq<byte>): seq<byte>
    decreases |s|
  {
    var n := LeadingSpace(s);
    if n == 0 then s else TrimStart(s[n..])
  }

  function TrimEnd(s: seq<byte>): seq<byte>
    decreases |s|
  {
    var n := TrailingSpace(s);
    if n == 0 then s else TrimEnd(s[..|s| - n])
  }

  function Trim(s: seq<byte>): seq<byte> {
    TrimEnd(TrimStart(s))
  }

  function Lower(b: byte): byte {
    if 65 <= b <= 90 then b + 32 else b
  }

  predicate EqualsIgnoreCase(a: seq<byte>, b: seq<byte>) {
    |a| == |b| && forall i :: 0 <= i < |a| ==> Lower(a[i]) == Lower(b[i])
  }

  function Text(s: string): seq<byte>
    requires forall i :: 0 <= i < |s| ==> s[i] < 128 as char
  {
    seq(|s|, i requires 0 <= i < |s| => s[i] as int as byte)
  }

  function SplitLines(s: seq<byte>): (lines: seq<seq<byte>>)
    ensures lines != []
    decreases |s|
  {
    match FindBytes(s, CRLF)
    case None => [s]
    case Some(i) => [s[..i]] + SplitLines(s[i + 2..])
  }

  predicate HasColon(line: seq<byte>) {
    FindBytes(line, [COLON]).Some?
  }

  function Name(line: seq<byte>): seq<byte>
    requires HasColon(line)
  {
    Trim(line[..FindBytes(line, [COLON]).value])
  }

  function Value(line: seq<byte>): seq<byte>
    requires HasColon(line)
  {
    Trim(line[FindBytes(line, [COLON]).value + 1..])
  }

  predicate SaysLength(line: seq<byte>) {
    HasColon(line) && EqualsIgnoreCase(Name(line), Text("content-length"))
  }

  predicate SaysEncoding(line: seq<byte>) {
    HasColon(line) && !SaysLength(line) && EqualsIgnoreCase(Name(line), Text("transfer-encoding"))
  }

  function LengthOf(line: seq<byte>): Option<nat>
    requires HasColon(line)
  {
    var n := ParseUsize(Value(line), 10);
    if n.Some? && n.value <= MAX_BODY_BYTES then n else None
  }

  /** A header line that does not by itself refuse the response. */
  predicate Acceptable(line: seq<byte>) {
    && HasColon(line)
    && (SaysLength(line) ==> LengthOf(line).Some?)
    && (SaysEncoding(line) ==> EqualsIgnoreCase(Value(line), Text("chunked")))
  }

  predicate OneLength(fields: seq<seq<byte>>) {
    forall i, j :: 0 <= i < j < |fields| ==> !SaysLength(fields[i]) || !SaysLength(fields[j])
  }

  predicate AllAcceptable(fields: seq<seq<byte>>) {
    forall i :: 0 <= i < |fields| ==> Acceptable(fields[i])
  }

  ghost predicate DeclaresLength(fields: seq<seq<byte>>, n: nat) {
    exists i :: 0 <= i < |fields| && SaysLength(fields[i]) && LengthOf(fields[i]) == Some(n)
  }

  predicate DeclaresChunked(fields: seq<seq<byte>>) {
    exists i :: 0 <= i < |fields| && SaysEncoding(fields[i])
  }

  /** Exactly one of a length and a chunked encoding, every field acceptable and no second length. */
  ghost function FieldsFraming(fields: seq<seq<byte>>): Option<Framing> {
    if !AllAcceptable(fields) || !OneLength(fields) then None
    else if exists n: nat :: DeclaresLength(fields, n) then
      var n: nat :| DeclaresLength(fields, n);
      if DeclaresChunked(fields) then None else Some(ContentLength(n))
    else if DeclaresChunked(fields) then Some(Chunked)
    else None
  }

  /** The framing of a response, or a refusal. */
  ghost function FramingOf(headers: seq<byte>): Option<Framing> {
    var lines := SplitLines(headers);
    if Utf8.Valid(headers) && lines[0] == Text("HTTP/1.1 200 OK") then FieldsFraming(lines[1..]) else None
  }

  /** What the field loop has learnt from the fields so far. */
  ghost predicate Learnt(fields: seq<seq<byte>>, length: Option<nat>, chunked: bool) {
    && AllAcceptable(fields) && OneLength(fields)
    && (chunked <==> DeclaresChunked(fields))
    && (length.Some? ==> DeclaresLength(fields, length.value))
    && (length.None? ==> forall i :: 0 <= i < |fields| ==> !SaysLength(fields[i]))
  }

  lemma LearnMore(fields: seq<seq<byte>>, line: seq<byte>, length: Option<nat>, chunked: bool)
    requires Learnt(fields, length, chunked) && Acceptable(line) && (SaysLength(line) ==> length.None?)
    ensures Learnt(fields + [line], if SaysLength(line) then LengthOf(line) else length, chunked || SaysEncoding(line))
  {
    hide HasColon, Name, Value, EqualsIgnoreCase, Text;
    var more := fields + [line];
    assert more[|fields|] == line;
    assert forall i :: 0 <= i < |fields| ==> more[i] == fields[i];
    if length.Some? {
      var i :| 0 <= i < |fields| && SaysLength(fields[i]) && LengthOf(fields[i]) == length;
      assert more[i] == fields[i];
    }
    if chunked {
      var i :| 0 <= i < |fields| && SaysEncoding(fields[i]);
      assert more[i] == fields[i];
    }
  }

  lemma RefusedByLine(fields: seq<seq<byte>>, k: nat, length: Option<nat>, chunked: bool)
    requires k < |fields| && Learnt(fields[..k], length, chunked)
    requires !Acceptable(fields[k]) || (SaysLength(fields[k]) && length.Some?)
    ensures FieldsFraming(fields).None?
  {
    hide HasColon, Name, Value, EqualsIgnoreCase, Text, Acceptable;
    if SaysLength(fields[k]) && length.Some? {
      var i :| 0 <= i < k && SaysLength(fields[..k][i]) && LengthOf(fields[..k][i]) == length;
      assert SaysLength(fields[i]);
    }
  }

  lemma Concluded(fields: seq<seq<byte>>, length: Option<nat>, chunked: bool)
    requires Learnt(fields, length, chunked)
    ensures FieldsFraming(fields) ==
            if length.Some? && !chunked then Some(ContentLength(length.value))
            else if length.None? && chunked then Some(Chunked)
            else None
  {
    hide HasColon, Name, Value, EqualsIgnoreCase, Text, Acceptable;
    forall n: nat | DeclaresLength(fields, n)
      ensures length == Some(n)
    {
      var i :| 0 <= i < |fields| && SaysLength(fields[i]) && LengthOf(fields[i]) == Some(n);
      var j :| 0 <= j < |fields| && SaysLength(fields[j]) && LengthOf(fields[j]) == length;
      assert i == j;
    }
  }

  /** The header loop, with its early refusals. */
  method ParseHttpHeaders(headers: seq<byte>) returns (r: Option<Framing>)
    ensures r == FramingOf(headers)
  {
    if !Utf8.Valid(headers) {
      return None;
    }
    var lines := SplitLines(headers);
    if lines[0] != Text("HTTP/1.1 200 OK") {
      return None;
    }
    var fields := lines[1..];
    var length: Option<nat>, chunked := None, false;
    hide FieldsFraming, Learnt, SplitLines;
    assert Learnt(fields[..0], None, false) by { NothingLearnt(); assert fields[..0] == []; }
    for k := 0 to |fields|
      invariant Learnt(fields[..k], length, chunked)
    {
      var line := fields[k];
      assert fields[..k + 1] == fields[..k] + [line];
      if !HasColon(line) {
        RefusedByLine(fields, k, length, chunked);
        return None;
      }
      if SaysLength(line) {
        var value := LengthOf(line);
        if length.Some? || value.None? {
          RefusedByLine(fields, k, length, chunked);
          return None;
        }
        LearnMore(fields[..k], line, length, chunked);
        length := value;
      } else if SaysEncoding(line) {
        if !EqualsIgnoreCase(Value(line), Text("chunked")) {
          RefusedByLine(fields, k, length, chunked);
          return None;
        }
        LearnMore(fields[..k], line, length, chunked);
        chunked := true;
      } else {
        LearnMore(fields[..k], line, length, chunked);
      }
    }
    assert fields[..|fields|] == fields;
    Concluded(fields, length, chunked);
    return if length.Some? && !chunked then Some(ContentLength(length.value))
           else if length.None? && chunked then Some(Chunked)
           else None;
  }

  lemma NothingLearnt()
    ensures Learnt([], None, false)
  {
  }

  // ----- the whole response

  /** The verdict on a body under a framing: enough bytes, a refusal, or not yet. */
  function BodyVerdict(framing: Framing, body: seq<byte>): Decoding {
    match framing
    case ContentLength(n) => if |body| >= n then Decoded(body[..n]) else Incomplete
    case Chunked => Decode(body, 0)
  }

  /** The verdict on the bytes of a response seen so far. */
  ghost function Verdict(s: seq<byte>): Decoding {
    match FindBytes(s, HEADER_END)
    case None => Incomplete
    case Some(e) =>
      match FramingOf(s[..e])
      case None => Malformed
      case Some(framing) => BodyVerdict(framing, s[e + 4..])
  }

  ghost function ResponseBody(s: seq<byte>): Result<seq<byte>> {
    var v := Verdict(s);
    if v.Decoded? then Ok(v.body) else Err
  }

  lemma BodyVerdictIsFinal(framing: Framing, body: seq<byte>, more: seq<byte>)
    requires BodyVerdict(framing, body) != Incomplete
    ensures BodyVerdict(framing, body + more) == BodyVerdict(framing, body)
  {
    if framing.Chunked? {
      VerdictIsFinal(body, more, 0);
    } else {
      assert (body + more)[..framing.length] == body[..framing.length];
    }
  }

  lemma SlicesExtend(s: seq<byte>, more: seq<byte>, e: nat)
    requires e + 4 <= |s|
    ensures (s + more)[..e] == s[..e] && (s + more)[e + 4..] == s[e + 4..] + more
  {
  }

  lemma ResponseVerdictIsFinal(s: seq<byte>, more: seq<byte>)
    requires Verdict(s) != Incomplete
    ensures Verdict(s + more) == Verdict(s)
  {
    hide FramingOf, BodyVerdict, Utf8.Valid;
    FindExtends(s, more, HEADER_END);
    var e := FindBytes(s, HEADER_END).value;
    hide FindBytes;
    SlicesExtend(s, more, e);
    if FramingOf(s[..e]).Some? {
      BodyVerdictIsFinal(FramingOf(s[..e]).value, s[e + 4..], more);
    }
  }

  /** How many of the leading reads fit the response bound. */
  function Fitting(segments: seq<seq<byte>>, room: nat): (k: nat)
    ensures k <= |segments|
  {
    if segments == [] || |segments[0]| > room then 0 else 1 + Fitting(segments[1..], room - |segments[0]|)
  }

  lemma {:induction false} FittingTotal(segments: seq<seq<byte>>, room: nat)
    ensures |Flatten(segments[..Fitting(segments, room)])| <= room
  {
    var k := Fitting(segments, room);
    if k > 0 {
      FittingTotal(segments[1..], room - |segments[0]|);
      assert segments[..k][1..] == segments[1..][..k - 1];
    }
  }

  lemma {:induction false} AllFit(segments: seq<seq<byte>>, room: nat)
    requires |Flatten(segments)| <= room
    ensures Fitting(segments, room) == |segments|
  {
    if segments != [] {
      AllFit(segments[1..], room - |segments[0]|);
    }
  }

  /** What a whole run of the reader returns. */
  ghost function ReadResult(segments: seq<seq<byte>>): Result<seq<byte>> {
    ResponseBody(Flatten(segments[..Fitting(segments, MAX_RESPONSE_BYTES)]))
  }

  /** Once the bytes read so far decide, the reads still to come change nothing. */
  lemma DecidedAt(segments: seq<seq<byte>>, i: nat)
    requires i <= Fitting(segments, MAX_RESPONSE_BYTES) && Verdict(Flatten(segments[..i])) != Incomplete
    ensures ReadResult(segments) == ResponseBody(Flatten(segments[..i]))
  {
    var taken := segments[..Fitting(segments, MAX_RESPONSE_BYTES)];
    FlattenSplit(taken, i);
    assert taken[..i] == segments[..i];
    ResponseVerdictIsFinal(Flatten(taken[..i]), Flatten(taken[i..]));
    hide Verdict, Flatten, Fitting;
  }

  /** What the reader knows about the header block of the bytes read so far. */
  ghost predicate Located(response: seq<byte>, framing: Option<Framing>, bodyStart: nat) {
    match framing
    case None => FindBytes(response, HEADER_END).None?
    case Some(f) =>
      4 <= bodyStart <= |response| && FindBytes(response, HEADER_END) == Some(bodyStart - 4)
      && FramingOf(response[..bodyStart - 4]) == framing
  }

  lemma LocatedVerdict(response: seq<byte>, framing: Option<Framing>, bodyStart: nat)
    requires Located(response, framing, bodyStart)
    ensures framing.None? ==> Verdict(response) == Incomplete
    ensures framing.Some? ==>
              bodyStart <= |response| && Verdict(response) == BodyVerdict(framing.value, response[bodyStart..])
  {
    hide FindBytes, FramingOf, BodyVerdict;
  }

  lemma LocatedExtends(response: seq<byte>, more: seq<byte>, framing: Option<Framing>, bodyStart: nat)
    requires Located(response, framing, bodyStart) && framing.Some?
    ensures Located(response + more, framing, bodyStart)
  {
    FindExtends(response, more, HEADER_END);
    assert (response + more)[..bodyStart - 4] == response[..bodyStart - 4];
    hide FindBytes, FramingOf;
  }

  method JudgeBody(framing: Framing, body: seq<byte>) returns (v: Decoding)
    requires |body| <= MAX_RESPONSE_BYTES
    ensures v == BodyVerdict(framing, body)
  {
    match framing
    case ContentLength(n) =>
      v := if |body| >= n then Decoded(body[..n]) else Incomplete;
    case Chunked =>
      v := DecodeCompleteChunkedBody(body);
  }

  /** Looks for the end of the header block in what has been read, and parses it when it is there. */
  method LocateHeaders(response: seq<byte>) returns (framing: Option<Framing>, bodyStart: nat, refused: bool)
    ensures refused ==> Verdict(response) == Malformed
    ensures !refused ==> Located(response, framing, bodyStart)
  {
    framing, bodyStart, refused := None, 0, false;
    var found := FindBytes(response, HEADER_END);
    hide FindBytes, FramingOf;
    if found.Some? {
      bodyStart := found.value + 4;
      framing := ParseHttpHeaders(response[..found.value]);
      refused := framing.None?;
    }
  }

  /** The reader has taken the first `i` reads, and they are `response`. */
  ghost predicate Taken(segments: seq<seq<byte>>, i: nat, response: seq<byte>) {
    && i <= |segments| && response == Flatten(segments[..i]) && |response| <= MAX_RESPONSE_BYTES
    && Fitting(segments, MAX_RESPONSE_BYTES) == i + Fitting(segments[i..], MAX_RESPONSE_BYTES - |response|)
  }

  lemma NothingTaken(segments: seq<seq<byte>>)
    ensures Taken(segments, 0, [])
  {
    assert segments[0..] == segments;
  }

  lemma TakeOne(segments: seq<seq<byte>>, i: nat, response: seq<byte>)
    requires Taken(segments, i, response) && i < |segments| && |response| + |segments[i]| <= MAX_RESPONSE_BYTES
    ensures Taken(segments, i + 1, response + segments[i])
  {
    FlattenStep(segments, i);
    assert segments[i..][1..] == segments[i + 1..];
    hide Flatten;
  }

  lemma NoMoreToTake(segments: seq<seq<byte>>, i: nat, response: seq<byte>)
    requires Taken(segments, i, response) && Verdict(response) == Incomplete
    requires i == |segments| || |response| + |segments[i]| > MAX_RESPONSE_BYTES
    ensures ReadResult(segments) == Err
  {
    hide Verdict, Flatten;
  }

  lemma DecidedNow(segments: seq<seq<byte>>, i: nat, response: seq<byte>)
    requires Taken(segments, i, response) && Verdict(response) != Incomplete
    ensures ReadResult(segments) == if Verdict(response).Decoded? then Ok(Verdict(response).body) else Err
  {
    DecidedAt(segments, i);
    hide Verdict, Flatten, Fitting;
  }

  /**
   The reader: `segments` are the successive reads, then the stream ends or fails. For every cut of the
   stream it returns what the reads that fit the bound say when taken together.
   */
  method ReadFramedHttpBody(segments: seq<seq<byte>>) returns (r: Result<seq<byte>>)
    requires forall k :: 0 <= k < |segments| ==> 0 < |segments[k]| <= READ_BUFFER_BYTES
    ensures r == ReadResult(segments)
  {
    var response: seq<byte> := [];
    var framing: Option<Framing>, bodyStart: nat := None, 0;
    var i := 0;
    NothingTaken(segments);
    NothingLocated();
    assert Taken(segments, i, response) ==> i <= |segments| && |response| <= MAX_RESPONSE_BYTES;
    hide *;
    while true
      invariant i <= |segments| && |response| <= MAX_RESPONSE_BYTES
      invariant Taken(segments, i, response) && Located(response, framing, bodyStart)
      decreases |segments| - i
    {
      LocatedVerdict(response, framing, bodyStart);
      if framing.Some? {
        var v := JudgeBody(framing.value, response[bodyStart..]);
        if v != Incomplete {
          DecidedNow(segments, i, response);
          return if v.Decoded? then Ok(v.body) else Err;
        }
      }
      if |response| >= MAX_RESPONSE_BYTES || i == |segments|
         || Min(|response| + |segments[i]|, USIZE_MAX) > MAX_RESPONSE_BYTES {
        MinIsPlain(|response| + if i < |segments| then |segments[i]| else 0);
        NoMoreToTake(segments, i, response);
        return Err;
      }
      MinIsPlain(|response| + |segments[i]|);
      TakeOne(segments, i, response);
      if framing.Some? {
        LocatedExtends(response, segments[i], framing, bodyStart);
      }
      response := response + segments[i];
      i := i + 1;
      if framing.None? {
        var refused;
        framing, bodyStart, refused := LocateHeaders(response);
        if refused {
          DecidedNow(segments, i, response);
          return Err;
        }
      }
    }
  }

  lemma MinIsPlain(n: nat)
    ensures Min(n, USIZE_MAX) > MAX_RESPONSE_BYTES <==> n > MAX_RESPONSE_BYTES
  {
  }

  lemma NothingLocated()
    ensures Located([], None, 0)
  {
  }

  // ----- what this means for callers

  /** A stream within the bound gives one answer, however it is cut into reads. */
  lemma CutsDoNotMatter(segments: seq<seq<byte>>)
    requires |Flatten(segments)| <= MAX_RESPONSE_BYTES
    ensures ReadResult(segments) == ResponseBody(Flatten(segments))
  {
    AllFit(segments, MAX_RESPONSE_BYTES);
    assert segments[..|segments|] == segments;
  }

  lemma PrefixOf(a: seq<byte>, b: seq<byte>, n: nat)
    requires n <= |a|
    ensures a == (a + b)[..n] + a[n..]
  {
  }

  /** A verdict on a prefix is the verdict on every longer one. */
  lemma PrefixDecides(s: seq<byte>, a: nat, b: nat)
    requires a <= b <= |s| && Verdict(s[..a]) != Incomplete
    ensures Verdict(s[..b]) == Verdict(s[..a])
  {
    hide Verdict;
    assert s[..b] == s[..a] + s[a..b];
    ResponseVerdictIsFinal(s[..a], s[a..b]);
  }

  /** A stream of any length whose early bytes decide gives that answer, however it is cut. */
  lemma EarlyDecisionIsFinal(segments: seq<seq<byte>>, n: nat)
    requires forall k :: 0 <= k < |segments| ==> |segments[k]| <= READ_BUFFER_BYTES
    requires n <= |Flatten(segments)| && n <= MAX_RESPONSE_BYTES - READ_BUFFER_BYTES + 1
    requires Verdict(Flatten(segments)[..n]) != Incomplete
    ensures ReadResult(segments) == ResponseBody(Flatten(segments)[..n])
  {
    hide Verdict, Flatten, Fitting;
    var k := Fitting(segments, MAX_RESPONSE_BYTES);
    FittingReaches(segments, MAX_RESPONSE_BYTES);
    var taken, rest := Flatten(segments[..k]), Flatten(segments[k..]);
    FlattenSplit(segments, k);
    NothingLeft(segments, k);
    PrefixOf(taken, rest, n);
    ResponseVerdictIsFinal(Flatten(segments)[..n], taken[n..]);
  }

  lemma NothingLeft(segments: seq<seq<byte>>, k: nat)
    requires k <= |segments|
    ensures k == |segments| ==> Flatten(segments[..k]) == Flatten(segments)
  {
    if k == |segments| {
      assert segments[..k] == segments;
    }
  }

  lemma {:induction false} FittingReaches(segments: seq<seq<byte>>, room: nat)
    requires forall k :: 0 <= k < |segments| ==> |segments[k]| <= READ_BUFFER_BYTES
    ensures var k := Fitting(segments, room);
            k == |segments| || |Flatten(segments[..k])| + READ_BUFFER_BYTES > room
  {
    var k := Fitting(segments, room);
    if k > 0 {
      FittingReaches(segments[1..], room - |segments[0]|);
      assert segments[..k][1..] == segments[1..][..k - 1];
    }
  }

  // ----- when the cut matters

  /** A way the stream may arrive. */
  ghost predicate LegalCut(segments: seq<seq<byte>>, s: seq<byte>) {
    Flatten(segments) == s && forall k :: 0 <= k < |segments| ==> 0 < |segments[k]| <= READ_BUFFER_BYTES
  }

  /** Past the bound, the reader has taken some prefix of 7169 to 8192 bytes when it gives up. */
  lemma CutTakesPrefix(segments: seq<seq<byte>>, s: seq<byte>) returns (n: nat)
    requires LegalCut(segments, s) && |s| > MAX_RESPONSE_BYTES
    ensures MAX_RESPONSE_BYTES - READ_BUFFER_BYTES + 1 <= n <= MAX_RESPONSE_BYTES
    ensures ReadResult(segments) == ResponseBody(s[..n])
  {
    hide ResponseBody, Flatten, Fitting;
    var k := Fitting(segments, MAX_RESPONSE_BYTES);
    FittingReaches(segments, MAX_RESPONSE_BYTES);
    FittingTotal(segments, MAX_RESPONSE_BYTES);
    FlattenSplit(segments, k);
    NothingLeft(segments, k);
    n := |Flatten(segments[..k])|;
    assert s[..n] == Flatten(segments[..k]);
  }

  function Singles(s: seq<byte>): (r: seq<seq<byte>>)
    ensures |r| == |s| && forall k :: 0 <= k < |r| ==> |r[k]| == 1
  {
    if s == [] then [] else [[s[0]]] + Singles(s[1..])
  }

  lemma {:induction false} SinglesFlatten(s: seq<byte>)
    ensures Flatten(Singles(s)) == s
  {
    if s != [] {
      SinglesFlatten(s[1..]);
      assert Singles(s)[1..] == Singles(s[1..]) && s == [s[0]] + s[1..];
    }
  }

  lemma {:induction false} FlattenConcat(a: seq<seq<byte>>, b: seq<seq<byte>>)
    ensures Flatten(a + b) == Flatten(a) + Flatten(b)
  {
    FlattenSplit(a + b, |a|);
    assert (a + b)[..|a|] == a && (a + b)[|a|..] == b;
  }

  /** Reads that fit, then one that does not. */
  lemma {:induction false} FittingStops(fits: seq<seq<byte>>, over: seq<seq<byte>>, room: nat)
    requires |Flatten(fits)| <= room && over != [] && |Flatten(fits)| + |over[0]| > room
    ensures Fitting(fits + over, room) == |fits|
  {
    if fits == [] {
      assert fits + over == over;
    } else {
      assert (fits + over)[1..] == fits[1..] + over;
      FittingStops(fits[1..], over, room - |fits[0]|);
    }
  }

  /** A cut that takes exactly the first `n` bytes and then meets a read of `size` bytes that does not fit. */
  lemma CutAt(s: seq<byte>, n: nat, size: nat) returns (segments: seq<seq<byte>>)
    requires n <= MAX_RESPONSE_BYTES < n + size <= |s| && 0 < size <= READ_BUFFER_BYTES
    ensures LegalCut(segments, s) && ReadResult(segments) == ResponseBody(s[..n])
  {
    hide ResponseBody, Fitting, Singles;
    var fits, over := Singles(s[..n]), [s[n..n + size]] + Singles(s[n + size..]);
    segments := fits + over;
    SinglesFlatten(s[..n]);
    SinglesFlatten(s[n + size..]);
    FlattenConcat(fits, over);
    assert over[1..] == Singles(s[n + size..]);
    assert s == s[..n] + (s[n..n + size] + s[n + size..]);
    FittingStops(fits, over, MAX_RESPONSE_BYTES);
    assert segments[..|fits|] == fits;
    hide Flatten;
    assert forall k :: 0 <= k < |segments| ==> 0 < |segments[k]| <= READ_BUFFER_BYTES;
  }

  /**
   The answer depends on how a stream is cut if and only if the stream is longer than 8192 bytes, its first 8192
   contain a whole body, and its first 7169 do not decide.
   */
  lemma CutsMatterExactly(s: seq<byte>)
    ensures (exists a, b :: LegalCut(a, s) && LegalCut(b, s) && ReadResult(a) != ReadResult(b))
       <==> && |s| > MAX_RESPONSE_BYTES && Verdict(s[..MAX_RESPONSE_BYTES]).Decoded?
            && Verdict(s[..MAX_RESPONSE_BYTES - READ_BUFFER_BYTES + 1]) == Incomplete
  {
    hide Verdict, LegalCut, ReadResult;
    var most, least := MAX_RESPONSE_BYTES, MAX_RESPONSE_BYTES - READ_BUFFER_BYTES + 1;
    if |s| > most && Verdict(s[..most]).Decoded? && Verdict(s[..least]) == Incomplete {
      var a := CutAt(s, most, 1);
      var b := CutAt(s, least, READ_BUFFER_BYTES);
      assert LegalCut(a, s) && LegalCut(b, s) && ReadResult(a) != ReadResult(b);
    }
    forall a, b | LegalCut(a, s) && LegalCut(b, s) && ReadResult(a) != ReadResult(b)
      ensures |s| > most && Verdict(s[..most]).Decoded? && Verdict(s[..least]) == Incomplete
    {
      if |s| <= most {
        ShortCut(a, s);
        ShortCut(b, s);
      } else {
        var m := CutTakesPrefix(a, s);
        var n := CutTakesPrefix(b, s);
        PrefixAnswers(s, m);
        PrefixAnswers(s, n);
      }
    }
  }

  lemma ShortCut(segments: seq<seq<byte>>, s: seq<byte>)
    requires LegalCut(segments, s) && |s| <= MAX_RESPONSE_BYTES
    ensures ReadResult(segments) == ResponseBody(s)
  {
    CutsDoNotMatter(segments);
  }

  /** What a prefix in the undecided range can answer. */
  lemma PrefixAnswers(s: seq<byte>, n: nat)
    requires MAX_RESPONSE_BYTES - READ_BUFFER_BYTES + 1 <= n <= MAX_RESPONSE_BYTES < |s|
    ensures var least := MAX_RESPONSE_BYTES - READ_BUFFER_BYTES + 1;
            && (Verdict(s[..least]) != Incomplete ==> ResponseBody(s[..n]) == ResponseBody(s[..least]))
            && (!Verdict(s[..MAX_RESPONSE_BYTES]).Decoded? ==> ResponseBody(s[..n]) == Err)
  {
    hide Verdict;
    var least := MAX_RESPONSE_BYTES - READ_BUFFER_BYTES + 1;
    if Verdict(s[..least]) != Incomplete {
      PrefixDecides(s, least, n);
    }
    if Verdict(s[..n]) != Incomplete {
      PrefixDecides(s, n, MAX_RESPONSE_BYTES);
    }
  }

  /** Such are all streams whose Content-Length body ends past byte 7169 and within 8192, with more bytes behind. */
  lemma LongHeadersMakeItMatter(headers: seq<byte>, body: seq<byte>, rest: seq<byte>)
    requires FindBytes(headers + HEADER_END, HEADER_END) == Some(|headers|)
    requires FramingOf(headers) == Some(ContentLength(|body|)) && body != []
    requires MAX_RESPONSE_BYTES - READ_BUFFER_BYTES + 1 < |headers| + 4 + |body| <= MAX_RESPONSE_BYTES
    requires |headers| + 4 + |body| + |rest| > MAX_RESPONSE_BYTES
    ensures var s := headers + HEADER_END + (body + rest);
            && Verdict(s[..MAX_RESPONSE_BYTES]).Decoded?
            && Verdict(s[..MAX_RESPONSE_BYTES - READ_BUFFER_BYTES + 1]) == Incomplete
  {
    var s := headers + HEADER_END + (body + rest);
    var most, least := MAX_RESPONSE_BYTES, MAX_RESPONSE_BYTES - READ_BUFFER_BYTES + 1;
    var end := |headers| + 4 + |body|;
    assert s[..end] == headers + HEADER_END + (body + []);
    ReadsLengthBody(headers, body, []);
    PrefixDecides(s, end, most);
    LengthBodyCut(headers, body, rest, end - 1);
    assert Verdict(s[..end - 1]) == Incomplete;
    hide Verdict;
    if Verdict(s[..least]) != Incomplete {
      PrefixDecides(s, least, end - 1);
    }
  }

  /** One byte short of a Content-Length body nothing is decided. */
  lemma LengthBodyCut(headers: seq<byte>, body: seq<byte>, rest: seq<byte>, n: nat)
    requires FindBytes(headers + HEADER_END, HEADER_END) == Some(|headers|)
    requires FramingOf(headers) == Some(ContentLength(|body|)) && body != [] && n == |headers| + 4 + |body| - 1
    ensures Verdict((headers + HEADER_END + (body + rest))[..n]) == Incomplete
  {
    var short := body[..|body| - 1];
    assert (headers + HEADER_END + (body + rest))[..n] == headers + HEADER_END + short;
    HeadersFound(headers, short);
    hide FindBytes, FramingOf;
  }

  /** A header block that ends where it should, followed by its body: Content-Length. */
  lemma ReadsLengthBody(headers: seq<byte>, body: seq<byte>, rest: seq<byte>)
    requires FindBytes(headers + HEADER_END, HEADER_END) == Some(|headers|)
    requires FramingOf(headers) == Some(ContentLength(|body|))
    ensures ResponseBody(headers + HEADER_END + (body + rest)) == Ok(body)
  {
    HeadersFound(headers, body + rest);
    assert (body + rest)[..|body|] == body;
    hide FindBytes, FramingOf;
  }

  /** The same for a chunked body. */
  lemma ReadsChunkedBody(headers: seq<byte>, chunks: seq<SizedChunk>, last: seq<byte>, rest: seq<byte>)
    requires FindBytes(headers + HEADER_END, HEADER_END) == Some(|headers|)
    requires FramingOf(headers) == Some(Chunked)
    requires Sendable(chunks) && SizeLine(last, 0) && |Payload(chunks)| <= MAX_BODY_BYTES
    ensures ResponseBody(headers + HEADER_END + (Wire(chunks, last) + rest)) == Ok(Payload(chunks))
  {
    HeadersFound(headers, Wire(chunks, last) + rest);
    DecodesWhatWasSent(chunks, last, rest, 0);
    hide FindBytes, FramingOf, SizeLine, Wire, Payload, Decode;
  }

  lemma HeadersFound(headers: seq<byte>, after: seq<byte>)
    requires FindBytes(headers + HEADER_END, HEADER_END) == Some(|headers|)
    ensures var s := headers + HEADER_END + after;
            && FindBytes(s, HEADER_END) == Some(|headers|)
            && s[..|headers|] == headers && s[|headers| + 4..] == after
  {
    FindExtends(headers + HEADER_END, after, HEADER_END);
  }
}
