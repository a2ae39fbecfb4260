/** The chunked transfer coding of the health check (section 7.1 of RFC 9112), without trailers. */
module ChunkedBody {
  import opened Common
  import opened ByteText
  import Utf8

  const MAX_BODY_BYTES: nat := 512
  const SEMICOLON: byte := 59

  datatype Decoding = Decoded(body: seq<byte>) | Incomplete | Malformed

  function BeforeSemicolon(line: seq<byte>): seq<byte> {
    match FindBytes(line, [SEMICOLON])
    case Some(i) => line[..i]
    case None => line
  }

  /** The size a chunk-size line announces, chunk extensions ignored. */
  function ChunkSize(line: seq<byte>): Option<nat> {
    if Utf8.Valid(line) then ParseUsize(BeforeSemicolon(line), 16) else None
  }

  function Prepend(head: seq<byte>, d: Decoding): Decoding {
    if d.Decoded? then Decoded(head + d.body) else d
  }

  /** One turn of the decoder: a final verdict, or a chunk and where the next one begins. */
  datatype Turn = Stop(verdict: Decoding) | Chunk(data: seq<byte>, next: nat)

  /** The turn at the start of `bytes`, `have` bytes being decoded already. */
  function FirstTurn(bytes: seq<byte>, have: nat): (t: Turn)
    ensures t.Chunk? ==> t.next <= |bytes| && 0 < |t.data| < t.next && have + |t.data| <= MAX_BODY_BYTES
  {
    match FindBytes(bytes, CRLF)
    case None => Stop(Incomplete)
    case Some(e) =>
      match ChunkSize(bytes[..e])
      case None => Stop(Malformed)
      case Some(size) => TurnOfSize(bytes, have, e + 2, size)
  }

  function TurnOfSize(bytes: seq<byte>, have: nat, data: nat, size: nat): (t: Turn)
    requires data <= |bytes|
    ensures t.Chunk? ==> t.next <= |bytes| && 0 < |t.data| < t.next && have + |t.data| <= MAX_BODY_BYTES
  {
    if size == 0 then
      if |bytes| < data + 2 then Stop(Incomplete)
      else if bytes[data..data + 2] == CRLF then Stop(Decoded([]))
      else Stop(Malformed)
    else if have + size > MAX_BODY_BYTES then Stop(Malformed)
    else if |bytes| < data + size + 2 then Stop(Incomplete)
    else if bytes[data + size..data + size + 2] != CRLF then Stop(Malformed)
    else Chunk(bytes[data..data + size], data + size + 2)
  }

  /** What a chunked body says, `have` bytes of it being decoded already. */
  function Decode(bytes: seq<byte>, have: nat): Decoding
    decreases |bytes|
  {
    match FirstTurn(bytes, have)
    case Stop(verdict) => verdict
    case Chunk(data, next) => Prepend(data, Decode(bytes[next..], have + |data|))
  }

  /** A turn taken in place, at a cursor; its slices stay in range and its sums below the word size. */
  method TakeTurn(bytes: seq<byte>, start: nat, have: nat) returns (t: Turn)
    requires start <= |bytes| <= USIZE_MAX / 2 && have <= MAX_BODY_BYTES
    ensures t == FirstTurn(bytes[start..], have)
  {
    hide ChunkSize, FindBytes, TurnOfSize;
    var found := FindBytes(bytes[start..], CRLF);
    if found.None? {
      return Stop(Incomplete);
    }
    var lineEnd := start + found.value;
    SliceOfSuffix(bytes, start, 0, found.value);
    var size := ChunkSize(bytes[start..lineEnd]);
    if size.None? {
      return Stop(Malformed);
    }
    t := TakeSizedTurn(bytes, start, have, lineEnd + 2, size.value);
  }

  method TakeSizedTurn(bytes: seq<byte>, start: nat, have: nat, cursor: nat, size: nat) returns (t: Turn)
    requires start <= cursor <= |bytes| <= USIZE_MAX / 2 && have <= MAX_BODY_BYTES
    ensures t == TurnOfSize(bytes[start..], have, cursor - start, size)
  {
    if size == 0 {
      if |bytes| < cursor + 2 {
        return Stop(Incomplete);
      }
      SliceOfSuffix(bytes, start, cursor - start, cursor - start + 2);
      return Stop(if bytes[cursor..cursor + 2] == CRLF then Decoded([]) else Malformed);
    }
    if Min(have + size, USIZE_MAX) > MAX_BODY_BYTES {
      return Stop(Malformed);
    }
    var chunkEnd := cursor + size;
    assert chunkEnd + 2 <= USIZE_MAX;
    if |bytes| < chunkEnd + 2 {
      return Stop(Incomplete);
    }
    SliceOfSuffix(bytes, start, chunkEnd - start, chunkEnd - start + 2);
    if bytes[chunkEnd..chunkEnd + 2] != CRLF {
      return Stop(Malformed);
    }
    SliceOfSuffix(bytes, start, cursor - start, chunkEnd - start);
    t := Chunk(bytes[cursor..chunkEnd], chunkEnd + 2 - start);
  }

  /** The decoding loop. */
  method DecodeCompleteChunkedBody(bytes: seq<byte>) returns (r: Decoding)
    requires |bytes| <= USIZE_MAX / 2
    ensures r == Decode(bytes, 0)
  {
    hide FirstTurn;
    var cursor := 0;
    var decoded: seq<byte> := [];
    assert bytes[0..] == bytes;
    while true
      invariant cursor <= |bytes| && |decoded| <= MAX_BODY_BYTES
      invariant Decode(bytes, 0) == Prepend(decoded, Decode(bytes[cursor..], |decoded|))
      decreases |bytes| - cursor
    {
      var turn := TakeTurn(bytes, cursor, |decoded|);
      if turn.Stop? {
        return if turn.verdict.Decoded? then Decoded(decoded + turn.verdict.body) else turn.verdict;
      }
      ghost var rest := Decode(bytes[cursor..][turn.next..], |decoded| + |turn.data|);
      assert bytes[cursor..][turn.next..] == bytes[cursor + turn.next..];
      assert Prepend(decoded, Prepend(turn.data, rest)) == Prepend(decoded + turn.data, rest) by {
        PrependTwice(decoded, turn.data, rest);
      }
      decoded := decoded + turn.data;
      cursor := cursor + turn.next;
    }
  }

  lemma PrependTwice(a: seq<byte>, b: seq<byte>, d: Decoding)
    ensures Prepend(a, Prepend(b, d)) == Prepend(a + b, d)
  {
    if d.Decoded? {
      assert a + (b + d.body) == (a + b) + d.body;
    }
  }

  lemma DecodeByTurn(bytes: seq<byte>, have: nat)
    ensures var t := FirstTurn(bytes, have);
            Decode(bytes, have) ==
            if t.Stop? then t.verdict else Prepend(t.data, Decode(bytes[t.next..], have + |t.data|))
  {
  }

  // ----- a verdict is final

  lemma TurnExtends(bytes: seq<byte>, more: seq<byte>, have: nat)
    requires FirstTurn(bytes, have) != Stop(Incomplete)
    ensures FirstTurn(bytes + more, have) == FirstTurn(bytes, have)
  {
    FindExtends(bytes, more, CRLF);
    var e := FindBytes(bytes, CRLF).value;
    assert (bytes + more)[..e] == bytes[..e];
    var size := ChunkSize(bytes[..e]);
    if size.Some? {
      hide ChunkSize, FindBytes;
      var n, data := size.value, e + 2;
      if |bytes| >= data + n + 2 {
        assert (bytes + more)[data + n..data + n + 2] == bytes[data + n..data + n + 2];
        assert (bytes + more)[data..data + n] == bytes[data..data + n];
      }
    }
  }

  /** No extension of the input changes a decoded body or a rejection. */
  lemma {:induction false} VerdictIsFinal(bytes: seq<byte>, more: seq<byte>, have: nat)
    requires Decode(bytes, have) != Incomplete
    ensures Decode(bytes + more, have) == Decode(bytes, have)
    decreases |bytes|
  {
    hide FirstTurn, Decode;
    DecodeByTurn(bytes, have);
    DecodeByTurn(bytes + more, have);
    var t := FirstTurn(bytes, have);
    TurnExtends(bytes, more, have);
    if t.Chunk? {
      assert (bytes + more)[t.next..] == bytes[t.next..] + more;
      VerdictIsFinal(bytes[t.next..], more, have + |t.data|);
    }
  }

  // ----- the wire format

  /** A chunk with the size line it is sent under: extensions, leading zeros and a plus sign included. */
  datatype SizedChunk = SizedChunk(line: seq<byte>, data: seq<byte>)

  predicate SizeLine(line: seq<byte>, size: nat) {
    FindBytes(line, CRLF).None? && ChunkSize(line) == Some(size)
  }

  predicate Sendable(chunks: seq<SizedChunk>) {
    forall i :: 0 <= i < |chunks| ==> chunks[i].data != [] && SizeLine(chunks[i].line, |chunks[i].data|)
  }

  function Payload(chunks: seq<SizedChunk>): seq<byte> {
    if chunks == [] then [] else chunks[0].data + Payload(chunks[1..])
  }

  function LastChunk(last: seq<byte>): seq<byte> {
    last + CRLF + CRLF
  }

  function Wire(chunks: seq<SizedChunk>, last: seq<byte>): seq<byte> {
    if chunks == [] then LastChunk(last)
    else chunks[0].line + CRLF + (chunks[0].data + CRLF) + Wire(chunks[1..], last)
  }

  lemma LineIsFound(line: seq<byte>, rest: seq<byte>)
    requires FindBytes(line, CRLF).None?
    ensures FindBytes(line + CRLF + rest, CRLF) == Some(|line|)
    ensures (line + CRLF + rest)[..|line|] == line
  {
    var t := line + CRLF + rest;
    assert t[|line|..|line| + 2] == CRLF;
    forall j | 0 <= j < |line|
      ensures !MatchAt(t, CRLF, j)
    {
      if j + 2 <= |line| {
        assert !MatchAt(line, CRLF, j);
        assert t[j..j + 2] == line[j..j + 2];
      } else {
        assert t[j..j + 2][1] == CR;
      }
    }
    FoundAt(t, CRLF, |line|);
  }

  lemma TurnOfChunk(c: SizedChunk, rest: seq<byte>, have: nat)
    requires c.data != [] && SizeLine(c.line, |c.data|) && have + |c.data| <= MAX_BODY_BYTES
    ensures var bytes := c.line + CRLF + (c.data + CRLF) + rest;
            var next := |c.line| + |c.data| + 4;
            FirstTurn(bytes, have) == Chunk(c.data, next) && bytes[next..] == rest
  {
    hide FindBytes, ChunkSize, TurnOfSize;
    LineIsFound(c.line, (c.data + CRLF) + rest);
    SizedChunkTurn(c.line + CRLF, c.data, rest, have);
    ChunkParts(c.line, c.data + CRLF, rest);
  }

  lemma ChunkParts(line: seq<byte>, body: seq<byte>, rest: seq<byte>)
    ensures line + CRLF + body + rest == line + CRLF + (body + rest)
    ensures (line + CRLF + body + rest)[|line| + 2 + |body|..] == rest
  {
  }

  lemma SizedChunkTurn(before: seq<byte>, data: seq<byte>, rest: seq<byte>, have: nat)
    requires data != [] && have + |data| <= MAX_BODY_BYTES
    ensures TurnOfSize(before + (data + CRLF) + rest, have, |before|, |data|) == Chunk(data, |before| + |data| + 2)
  {
    var bytes, start := before + (data + CRLF) + rest, |before|;
    assert bytes[start..start + |data|] == data;
    assert bytes[start + |data|..start + |data| + 2] == CRLF;
  }

  lemma TurnOfLast(last: seq<byte>, rest: seq<byte>, have: nat)
    requires SizeLine(last, 0)
    ensures FirstTurn(LastChunk(last) + rest, have) == Stop(Decoded([]))
  {
    var bytes := LastChunk(last) + rest;
    assert bytes == last + CRLF + (CRLF + rest);
    LineIsFound(last, CRLF + rest);
    hide FindBytes, ChunkSize;
    assert bytes[|last| + 2..|last| + 4] == CRLF;
  }

  /** Whatever was sent in chunks is what is decoded, and bytes after the last chunk do not matter. */
  lemma {:induction false} DecodesWhatWasSent(chunks: seq<SizedChunk>, last: seq<byte>, rest: seq<byte>, have: nat)
    requires Sendable(chunks) && SizeLine(last, 0) && have + |Payload(chunks)| <= MAX_BODY_BYTES
    ensures Decode(Wire(chunks, last) + rest, have) == Decoded(Payload(chunks))
    decreases |chunks|
  {
    hide FirstTurn, SizeLine, Decode;
    DecodeByTurn(Wire(chunks, last) + rest, have);
    if chunks == [] {
      TurnOfLast(last, rest, have);
    } else {
      var c, tail := chunks[0], Wire(chunks[1..], last) + rest;
      assert Wire(chunks, last) + rest == c.line + CRLF + (c.data + CRLF) + tail;
      TurnOfChunk(c, tail, have);
      DecodesWhatWasSent(chunks[1..], last, rest, have + |c.data|);
    }
  }

  /** Every proper prefix of what was sent is reported as incomplete, never accepted and never refused. */
  lemma {:induction false} PrefixesAreIncomplete(chunks: seq<SizedChunk>, last: seq<byte>, n: nat, have: nat)
    requires Sendable(chunks) && SizeLine(last, 0) && have + |Payload(chunks)| <= MAX_BODY_BYTES
    requires n < |Wire(chunks, last)|
    ensures Decode(Wire(chunks, last)[..n], have) == Incomplete
    decreases |chunks|
  {
    hide FirstTurn, SizeLine, Decode;
    var w := Wire(chunks, last);
    DecodeByTurn(w[..n], have);
    if chunks == [] {
      CutTurn(last, CRLF, n, have, 0);
    } else {
      var c, tail := chunks[0], Wire(chunks[1..], last);
      var next := |c.line| + |c.data| + 4;
      if n < next {
        assert w[..n] == (c.line + CRLF + (c.data + CRLF))[..n];
        CutTurn(c.line, c.data + CRLF, n, have, |c.data|);
      } else {
        assert w[..n] == c.line + CRLF + (c.data + CRLF) + tail[..n - next];
        TurnOfChunk(c, tail[..n - next], have);
        PrefixesAreIncomplete(chunks[1..], last, n - next, have + |c.data|);
      }
    }
  }

  /** A turn cut anywhere before its end. */
  lemma CutTurn(line: seq<byte>, after: seq<byte>, n: nat, have: nat, size: nat)
    requires SizeLine(line, size) && have + size <= MAX_BODY_BYTES
    requires |after| == size + 2 && n < |line| + 2 + |after|
    ensures Decode((line + CRLF + after)[..n], have) == Incomplete
  {
    var p := (line + CRLF + after)[..n];
    if n < |line| + 2 {
      LineIsFound(line, after);
      forall j | 0 <= j
        ensures !MatchAt(p, CRLF, j)
      {
        MatchOfPrefix(line + CRLF + after, n, CRLF, j);
      }
    } else {
      assert p == line + CRLF + after[..n - |line| - 2];
      LineIsFound(line, after[..n - |line| - 2]);
    }
  }

  /** Only what could have been sent is accepted. */
  lemma {:induction false} AcceptsOnlyWireFormat(bytes: seq<byte>, have: nat)
    returns (chunks: seq<SizedChunk>, last: seq<byte>, rest: seq<byte>)
    requires Decode(bytes, have).Decoded?
    ensures Sendable(chunks) && SizeLine(last, 0)
    ensures bytes == Wire(chunks, last) + rest && Decode(bytes, have).body == Payload(chunks)
    ensures chunks != [] ==> have + |Payload(chunks)| <= MAX_BODY_BYTES
    decreases |bytes|
  {
    hide FirstTurn, SizeLine, Decode;
    DecodeByTurn(bytes, have);
    var t := FirstTurn(bytes, have);
    var line, after := TurnShape(bytes, have);
    if t.Stop? {
      chunks, last, rest := [], line, after;
    } else {
      var tail;
      tail, last, rest := AcceptsOnlyWireFormat(bytes[t.next..], have + |t.data|);
      var c := SizedChunk(line, t.data);
      chunks := [c] + tail;
      assert chunks[1..] == tail;
      assert bytes == c.line + CRLF + (c.data + CRLF) + (Wire(tail, last) + rest);
    }
  }

  lemma TurnShape(bytes: seq<byte>, have: nat) returns (line: seq<byte>, after: seq<byte>)
    requires FirstTurn(bytes, have).Chunk? || FirstTurn(bytes, have).verdict.Decoded?
    ensures var t := FirstTurn(bytes, have);
            if t.Chunk? then
              SizeLine(line, |t.data|) && after == bytes[t.next..] && bytes == line + CRLF + (t.data + CRLF) + after
            else t.verdict == Decoded([]) && SizeLine(line, 0) && bytes == LastChunk(line) + after
  {
    var e := FindBytes(bytes, CRLF).value;
    line := bytes[..e];
    NothingBefore(bytes, e);
    assert bytes[e..e + 2] == CRLF;
    var size := ChunkSize(line).value;
    var t := TurnOfSize(bytes, have, e + 2, size);
    hide FindBytes, ChunkSize;
    after := SizedTurnShape(bytes, have, e, size);
    hide TurnOfSize;
  }

  lemma SizedTurnShape(bytes: seq<byte>, have: nat, e: nat, size: nat) returns (after: seq<byte>)
    requires e + 2 <= |bytes| && bytes[e..e + 2] == CRLF
    requires var t := TurnOfSize(bytes, have, e + 2, size); t.Chunk? || t.verdict.Decoded?
    ensures var t := TurnOfSize(bytes, have, e + 2, size);
            if t.Chunk? then
              |t.data| == size && after == bytes[t.next..] && bytes == bytes[..e] + CRLF + (t.data + CRLF) + after
            else t.verdict == Decoded([]) && size == 0 && bytes == LastChunk(bytes[..e]) + after
  {
    var t := TurnOfSize(bytes, have, e + 2, size);
    if t.Chunk? {
      after := bytes[t.next..];
    } else {
      after := bytes[e + 4..];
    }
  }

  lemma NothingBefore(bytes: seq<byte>, e: nat)
    requires FindBytes(bytes, CRLF) == Some(e)
    ensures FindBytes(bytes[..e], CRLF).None?
  {
    forall j | 0 <= j
      ensures !MatchAt(bytes[..e], CRLF, j)
    {
      MatchOfPrefix(bytes, e, CRLF, j);
    }
  }

  ghost predicate SentAs(bytes: seq<byte>, chunks: seq<SizedChunk>, last: seq<byte>, rest: seq<byte>) {
    Sendable(chunks) && SizeLine(last, 0) && |Payload(chunks)| <= MAX_BODY_BYTES && bytes == Wire(chunks, last) + rest
  }

  /** Exactly the byte strings that begin with a well-formed chunked body of at most 512 bytes are decoded. */
  lemma DecodedExactly(bytes: seq<byte>, body: seq<byte>)
    ensures Decode(bytes, 0) == Decoded(body) <==>
            exists chunks, last, rest :: SentAs(bytes, chunks, last, rest) && Payload(chunks) == body
  {
    hide Decode, SizeLine;
    if Decode(bytes, 0) == Decoded(body) {
      var chunks, last, rest := AcceptsOnlyWireFormat(bytes, 0);
      assert SentAs(bytes, chunks, last, rest);
    }
    forall chunks, last, rest | SentAs(bytes, chunks, last, rest)
      ensures Decode(bytes, 0) == Decoded(Payload(chunks))
    {
      DecodesWhatWasSent(chunks, last, rest, 0);
    }
  }

  // ----- plain hexadecimal size lines

  function HexDigit(d: nat): (b: byte)
    requires d < 16
    ensures DigitValue(b) == Some(d)
  {
    if d < 10 then 48 + d as byte else 87 + d as byte
  }

  function Hex(n: nat): seq<byte> {
    (if n < 16 then [] else Hex(n / 16)) + [HexDigit(n % 16)]
  }

  lemma {:induction false} HexReadsBack(n: nat)
    ensures DigitsValue(Hex(n), 16) == Some(n) && Hex(n) != []
    ensures forall i :: 0 <= i < |Hex(n)| ==> DigitValue(Hex(n)[i]).Some?
  {
    var h := Hex(n);
    var front := h[..|h| - 1];
    if n < 16 {
      assert front == [];
    } else {
      HexReadsBack(n / 16);
      assert front == Hex(n / 16);
    }
  }

  /** The size line every encoder writes is one the decoder reads as that size. */
  lemma HexIsASizeLine(n: nat)
    requires n <= USIZE_MAX
    ensures SizeLine(Hex(n), n)
  {
    HexReadsBack(n);
    var h := Hex(n);
    forall i | 0 <= i < |h|
      ensures h[i] <= 0x7F && h[i] != SEMICOLON && h[i] != CR && h[i] != PLUS
    {
      assert DigitValue(h[i]).Some?;
    }
    hide Hex, DigitValue, DigitsValue;
    Utf8.AsciiIsValid(h);
    NeedsFirstByte(h, CRLF);
    NeedsFirstByte(h, [SEMICOLON]);
    assert BeforeSemicolon(h) == h;
  }

  /** A chunk extension after the size makes no difference. */
  lemma ExtensionIsIgnored(n: nat, ext: seq<byte>)
    requires n <= USIZE_MAX && forall i :: 0 <= i < |ext| ==> ext[i] <= 0x7F && ext[i] != CR
    ensures SizeLine(Hex(n) + [SEMICOLON] + ext, n)
  {
    var h := Hex(n);
    HexIsASizeLine(n);
    HexIsPlain(n);
    ExtendedIsPlain(h, ext);
    SizeBeforeSemicolon(h, ext);
    SizeBeforeSemicolonOnly(h);
    hide Hex, FindBytes, BeforeSemicolon, Utf8.Valid, ParseUsize;
  }

  lemma HexIsPlain(n: nat)
    ensures forall i :: 0 <= i < |Hex(n)| ==> Hex(n)[i] <= 0x7F && Hex(n)[i] != SEMICOLON && Hex(n)[i] != CR
  {
    HexReadsBack(n);
    var h := Hex(n);
    hide Hex, DigitsValue;
    forall i | 0 <= i < |h|
      ensures h[i] <= 0x7F && h[i] != SEMICOLON && h[i] != CR
    {
      assert DigitValue(h[i]).Some?;
    }
  }

  lemma ExtendedIsPlain(h: seq<byte>, ext: seq<byte>)
    requires forall i :: 0 <= i < |h| ==> h[i] <= 0x7F && h[i] != CR
    requires forall i :: 0 <= i < |ext| ==> ext[i] <= 0x7F && ext[i] != CR
    ensures Utf8.Valid(h + [SEMICOLON] + ext) && FindBytes(h + [SEMICOLON] + ext, CRLF).None?
  {
    var line := h + [SEMICOLON] + ext;
    forall i | 0 <= i < |line|
      ensures line[i] <= 0x7F && line[i] != CR
    {
      assert i < |h| ==> line[i] == h[i];
      assert i > |h| ==> line[i] == ext[i - |h| - 1];
    }
    Utf8.AsciiIsValid(line);
    NeedsFirstByte(line, CRLF);
  }

  lemma SizeBeforeSemicolonOnly(h: seq<byte>)
    requires SEMICOLON !in h
    ensures BeforeSemicolon(h) == h
  {
    NeedsFirstByte(h, [SEMICOLON]);
  }

  lemma SizeBeforeSemicolon(h: seq<byte>, ext: seq<byte>)
    requires SEMICOLON !in h
    ensures BeforeSemicolon(h + [SEMICOLON] + ext) == h
  {
    var line := h + [SEMICOLON] + ext;
    assert line[|h|..|h| + 1] == [SEMICOLON];
    forall j | 0 <= j < |h|
      ensures !MatchAt(line, [SEMICOLON], j)
    {
      assert line[j..j + 1][0] == h[j] && h[j] in h;
    }
    FoundAt(line, [SEMICOLON], |h|);
  }
}
