/** Header blocks as a server writes them, and what the reader takes them to mean. */
module HttpHeaders {
  import opened Common
  import opened ByteText
  import opened ChunkedBody
  import opened HttpResponse
  import Utf8

  // ----- the text of a block

  predicate Visible(b: byte) { 33 <= b <= 126 }

  predicate Blank(b: byte) { b == 32 || b == 9 }

  /** A field as written: its name, and its value between optional blanks. */
  datatype Field = Field(name: seq<byte>, before: seq<byte>, value: seq<byte>, after: seq<byte>)

  predicate PlainName(name: seq<byte>) {
    name != [] && forall i :: 0 <= i < |name| ==> Visible(name[i]) && name[i] != COLON
  }

  predicate PlainValue(value: seq<byte>) {
    && (forall i :: 0 <= i < |value| ==> Visible(value[i]) || Blank(value[i]))
    && (value != [] ==> Visible(value[0]) && Visible(value[|value| - 1]))
  }

  predicate AllBlank(s: seq<byte>) {
    forall i :: 0 <= i < |s| ==> Blank(s[i])
  }

  predicate Plain(f: Field) {
    PlainName(f.name) && PlainValue(f.value) && AllBlank(f.before) && AllBlank(f.after)
  }

  predicate AllPlain(fields: seq<Field>) {
    forall i :: 0 <= i < |fields| ==> Plain(fields[i])
  }

  function Line(f: Field): seq<byte> {
    f.name + [COLON] + (f.before + f.value + f.after)
  }

  /** A first line and the fields after it, with a line break before each field. */
  function Block(first: seq<byte>, fields: seq<Field>): seq<byte> {
    if fields == [] then first else Block(first, fields[..|fields| - 1]) + CRLF + Line(fields[|fields| - 1])
  }

  function Lines(fields: seq<Field>): seq<seq<byte>> {
    seq(|fields|, i requires 0 <= i < |fields| => Line(fields[i]))
  }

  /** One of the 26 small letters, or the capital of the same. */
  predicate Letter(b: byte, small: byte) {
    b == small || (97 <= small <= 122 && b == small - 32)
  }

  /** A word in any mixture of small and capital letters. */
  predicate Spells(text: seq<byte>, word: string)
    requires forall i :: 0 <= i < |word| ==> word[i] < 128 as char
  {
    |text| == |word| && forall i :: 0 <= i < |word| ==> Letter(text[i], word[i] as int as byte)
  }

  const CONTENT_LENGTH := "content-length"
  const TRANSFER_ENCODING := "transfer-encoding"
  const CHUNKED := "chunked"
  const STATUS := "HTTP/1.1 200 OK"

  predicate IsLength(f: Field) { Spells(f.name, CONTENT_LENGTH) }

  predicate IsEncoding(f: Field) { Spells(f.name, TRANSFER_ENCODING) }

  function Decimal(n: nat): seq<byte> {
    (if n < 10 then [] else Decimal(n / 10)) + [48 + (n % 10) as byte]
  }

  // ----- reading one line

  /** Text with anything but decimal digits in it is no number, but for one plus sign in front. */
  lemma {:induction false} NoDigitNoNumber(text: seq<byte>, i: nat)
    requires i < |text| && !(48 <= text[i] <= 57)
    ensures DigitsValue(text, 10).None?
  {
    if i < |text| - 1 {
      NoDigitNoNumber(text[..|text| - 1], i);
    }
  }

  lemma NotANumber(text: seq<byte>, i: nat)
    requires i < |text| && !(48 <= text[i] <= 57) && (i == 0 ==> text[0] != PLUS)
    ensures ParseUsize(text, 10).None?
  {
    NoDigitNoNumber(text, i);
    if |text| > 1 && text[0] == PLUS {
      assert text[1..][i - 1] == text[i];
      NoDigitNoNumber(text[1..], i - 1);
    }
  }

  lemma {:induction false} DecimalReadsBack(n: nat)
    ensures DigitsValue(Decimal(n), 10) == Some(n) && Decimal(n) != []
    ensures forall i :: 0 <= i < |Decimal(n)| ==> 48 <= Decimal(n)[i] <= 57
  {
    var d := Decimal(n);
    var front := d[..|d| - 1];
    if n < 10 {
      assert front == [];
    } else {
      DecimalReadsBack(n / 10);
      assert front == Decimal(n / 10);
    }
  }

  lemma DecimalParses(n: nat)
    ensures ParseUsize(Decimal(n), 10) == if n <= USIZE_MAX then Some(n) else None
    ensures PlainValue(Decimal(n))
  {
    DecimalReadsBack(n);
    hide Decimal, DigitsValue;
    assert Decimal(n)[0] != PLUS;
  }

  lemma {:induction false} TrimStartBlank(blanks: seq<byte>, s: seq<byte>)
    requires AllBlank(blanks) && (s == [] || Visible(s[0]))
    ensures TrimStart(blanks + s) == s
    decreases |blanks|
  {
    if blanks == [] {
      assert blanks + s == s;
      assert LeadingSpace(s) == 0 by { NoWideSpace(s); }
    } else {
      assert (blanks + s)[1..] == blanks[1..] + s;
      TrimStartBlank(blanks[1..], s);
    }
  }

  lemma {:induction false} TrimEndBlank(s: seq<byte>, blanks: seq<byte>)
    requires AllBlank(blanks) && (s == [] || Visible(s[|s| - 1]))
    ensures TrimEnd(s + blanks) == s
    decreases |blanks|
  {
    var t := s + blanks;
    if blanks == [] {
      assert t == s;
      assert TrailingSpace(s) == 0 by { NoWideSpace(s); }
    } else {
      assert t[..|t| - 1] == s + blanks[..|blanks| - 1];
      TrimEndBlank(s, blanks[..|blanks| - 1]);
    }
  }

  /** No wide space begins or ends with a visible ASCII character. */
  lemma NoWideSpace(s: seq<byte>)
    ensures |s| >= 3 && Visible(s[0]) ==> s[..3] !in WIDE_SPACES
    ensures |s| >= 3 && Visible(s[|s| - 1]) ==> s[|s| - 3..] !in WIDE_SPACES
  {
    if |s| >= 3 {
      assert s[..3][0] == s[0] && s[|s| - 3..][2] == s[|s| - 1];
    }
  }

  lemma TrimPlain(before: seq<byte>, value: seq<byte>, after: seq<byte>)
    requires AllBlank(before) && AllBlank(after) && PlainValue(value)
    ensures Trim(before + value + after) == value
  {
    if value == [] {
      assert before + value + after == (before + after) + [];
      TrimStartBlank(before + after, []);
      TrimEndBlank([], []);
    } else {
      assert before + value + after == before + (value + after);
      TrimStartBlank(before, value + after);
      TrimEndBlank(value, after);
    }
  }

  lemma NameIsValue(name: seq<byte>)
    requires PlainName(name)
    ensures PlainValue(name) && COLON !in name
  {
  }

  lemma LineParts(f: Field)
    requires Plain(f)
    ensures HasColon(Line(f)) && Name(Line(f)) == f.name && Value(Line(f)) == f.value
  {
    var line, n := Line(f), |f.name|;
    NameIsValue(f.name);
    assert line[n..n + 1] == [COLON];
    forall j | 0 <= j < n
      ensures !MatchAt(line, [COLON], j)
    {
      assert line[j..j + 1][0] == f.name[j];
    }
    FoundAt(line, [COLON], n);
    assert line[..n] == f.name && line[n + 1..] == f.before + f.value + f.after;
    assert f.name == [] + f.name + [];
    TrimPlain([], f.name, []);
    TrimPlain(f.before, f.value, f.after);
    hide Trim, PlainName, PlainValue, AllBlank;
  }

  lemma SpellsIgnoresCase(text: seq<byte>, word: string)
    requires forall i :: 0 <= i < |word| ==> word[i] < 128 as char && !('A' <= word[i] <= 'Z')
    ensures Spells(text, word) <==> EqualsIgnoreCase(text, Text(word))
  {
    forall i | 0 <= i < |word| && |text| == |word|
      ensures Letter(text[i], word[i] as int as byte) <==> Lower(text[i]) == Lower(Text(word)[i])
    {
      LetterIsLower(text[i], word[i] as int as byte);
    }
  }

  lemma LetterIsLower(b: byte, small: byte)
    requires small < 128 && !(65 <= small <= 90)
    ensures Letter(b, small) <==> Lower(b) == Lower(small)
  {
  }

  /** What a plain field says, by its own name and value. */
  lemma PlainLineSays(f: Field)
    requires Plain(f)
    ensures HasColon(Line(f)) && (SaysLength(Line(f)) <==> IsLength(f)) && (SaysEncoding(Line(f)) <==> IsEncoding(f))
    ensures EqualsIgnoreCase(Value(Line(f)), Text(CHUNKED)) <==> Spells(f.value, CHUNKED)
    ensures !(IsLength(f) && IsEncoding(f))
    ensures forall n: nat :: f.value == Decimal(n) ==>
              LengthOf(Line(f)) == if n <= MAX_BODY_BYTES then Some(n) else None
  {
    LineParts(f);
    SpellsIgnoresCase(f.name, CONTENT_LENGTH);
    SpellsIgnoresCase(f.name, TRANSFER_ENCODING);
    SpellsIgnoresCase(f.value, CHUNKED);
    forall n: nat | f.value == Decimal(n)
      ensures ParseUsize(f.value, 10) == if n <= USIZE_MAX then Some(n) else None
    {
      DecimalParses(n);
    }
    hide Line, Plain, Name, Value, HasColon, EqualsIgnoreCase, Decimal, ParseUsize;
  }

  // ----- splitting a block

  /** Text without line breaks. */
  predicate OneLine(s: seq<byte>) {
    CR !in s && LF !in s
  }

  predicate Ascii(s: seq<byte>) {
    forall i :: 0 <= i < |s| ==> s[i] < 128
  }

  lemma LineIsOneLine(f: Field)
    requires Plain(f)
    ensures OneLine(Line(f)) && Ascii(Line(f)) && |Line(f)| > 0
  {
    var line := Line(f);
    forall i | 0 <= i < |line|
      ensures line[i] == COLON || Visible(line[i]) || Blank(line[i])
    {
      assert i < |f.name| ==> line[i] == f.name[i];
      var j := i - |f.name| - 1;
      assert 0 <= j < |f.before| ==> line[i] == f.before[j];
      assert |f.before| <= j < |f.before| + |f.value| ==> line[i] == f.value[j - |f.before|];
      assert |f.before| + |f.value| <= j ==> line[i] == f.after[j - |f.before| - |f.value|];
    }
  }

  lemma OneLineHasNoBreak(s: seq<byte>)
    requires OneLine(s)
    ensures FindBytes(s, CRLF).None?
  {
    NeedsFirstByte(s, CRLF);
  }

  /** A line, then the rest. */
  lemma SplitFirst(line: seq<byte>, rest: seq<byte>)
    requires OneLine(line)
    ensures SplitLines(line + CRLF + rest) == [line] + SplitLines(rest)
  {
    OneLineHasNoBreak(line);
    LineIsFound(line, rest);
    assert (line + CRLF + rest)[|line| + 2..] == rest;
  }

  lemma SplitOne(line: seq<byte>)
    requires OneLine(line)
    ensures SplitLines(line) == [line]
  {
    OneLineHasNoBreak(line);
  }

  /** Lines joined by breaks, from the front. */
  function Joined(lines: seq<seq<byte>>): seq<byte>
    requires lines != []
  {
    if |lines| == 1 then lines[0] else lines[0] + CRLF + Joined(lines[1..])
  }

  lemma {:induction false} SplitJoined(lines: seq<seq<byte>>)
    requires lines != [] && forall i :: 0 <= i < |lines| ==> OneLine(lines[i])
    ensures SplitLines(Joined(lines)) == lines
    decreases |lines|
  {
    hide SplitLines, OneLine;
    if |lines| == 1 {
      SplitOne(lines[0]);
      assert lines == [lines[0]];
    } else {
      SplitFirst(lines[0], Joined(lines[1..]));
      SplitJoined(lines[1..]);
      assert lines == [lines[0]] + lines[1..];
    }
  }

  lemma {:induction false} JoinedSnoc(lines: seq<seq<byte>>, last: seq<byte>)
    requires lines != []
    ensures Joined(lines + [last]) == Joined(lines) + CRLF + last
    decreases |lines|
  {
    var more := lines + [last];
    assert more[1..] == lines[1..] + [last];
    if |lines| == 1 {
      assert more[1..] == [last];
    } else {
      JoinedSnoc(lines[1..], last);
      assert lines[0] + CRLF + (Joined(lines[1..]) + CRLF + last) == lines[0] + CRLF + Joined(lines[1..]) + CRLF + last;
    }
  }

  lemma {:induction false} BlockIsJoined(first: seq<byte>, fields: seq<Field>)
    ensures Block(first, fields) == Joined([first] + Lines(fields))
  {
    if fields == [] {
      assert [first] + Lines(fields) == [first];
    } else {
      var front, last := fields[..|fields| - 1], fields[|fields| - 1];
      BlockIsJoined(first, front);
      assert Lines(fields) == Lines(front) + [Line(last)];
      assert [first] + Lines(fields) == ([first] + Lines(front)) + [Line(last)];
      hide Line;
      JoinedSnoc([first] + Lines(front), Line(last));
    }
  }

  lemma BlockSplits(first: seq<byte>, fields: seq<Field>)
    requires OneLine(first) && AllPlain(fields)
    ensures SplitLines(Block(first, fields)) == [first] + Lines(fields)
  {
    BlockIsJoined(first, fields);
    var lines := [first] + Lines(fields);
    forall i | 0 <= i < |lines|
      ensures OneLine(lines[i])
    {
      if i > 0 {
        LineIsOneLine(fields[i - 1]);
      }
    }
    hide OneLine, Line, SplitLines, Block;
    SplitJoined(lines);
  }

  lemma {:induction false} BlockIsAscii(first: seq<byte>, fields: seq<Field>)
    requires Ascii(first) && AllPlain(fields)
    ensures Ascii(Block(first, fields))
  {
    if fields != [] {
      var front, last := fields[..|fields| - 1], fields[|fields| - 1];
      BlockIsAscii(first, front);
      LineIsOneLine(last);
      hide Line, Plain;
    }
  }

  // ----- what a block means

  lemma StatusIsOneLine()
    ensures OneLine(Text(STATUS)) && Ascii(Text(STATUS)) && |Text(STATUS)| == 15
  {
  }

  /** A plain block means what its fields say. */
  lemma BlockFraming(fields: seq<Field>)
    requires AllPlain(fields)
    ensures FramingOf(Block(Text(STATUS), fields)) == FieldsFraming(Lines(fields))
  {
    StatusIsOneLine();
    BlockSplits(Text(STATUS), fields);
    BlockIsAscii(Text(STATUS), fields);
    var block := Block(Text(STATUS), fields);
    Utf8.AsciiIsValid(block);
    assert ([Text(STATUS)] + Lines(fields))[1..] == Lines(fields);
    hide Block, Lines, FieldsFraming, Text, Utf8.Valid, SplitLines;
  }

  /** Any other first line is refused, whatever follows. */
  lemma OtherStatusIsRefused(first: seq<byte>, rest: seq<byte>)
    requires OneLine(first) && first != Text(STATUS)
    ensures FramingOf(first).None? && FramingOf(first + CRLF + rest).None?
  {
    SplitOne(first);
    SplitFirst(first, rest);
    hide SplitLines, FieldsFraming, Text, Utf8.Valid;
  }

  /** The same on the line as a whole. */
  lemma PlainLineIs(f: Field)
    requires Plain(f)
    ensures (SaysLength(Line(f)) <==> IsLength(f)) && (SaysEncoding(Line(f)) <==> IsEncoding(f))
    ensures !IsLength(f) && !IsEncoding(f) ==> Acceptable(Line(f))
    ensures IsEncoding(f) ==> (Acceptable(Line(f)) <==> Spells(f.value, CHUNKED))
  {
    PlainLineSays(f);
    hide Line, Plain, HasColon, SaysLength, SaysEncoding, Value, EqualsIgnoreCase, LengthOf, Text, Spells;
  }

  lemma PlainLength(f: Field, n: nat)
    requires Plain(f) && IsLength(f) && f.value == Decimal(n)
    ensures SaysLength(Line(f)) && LengthOf(Line(f)) == (if n <= MAX_BODY_BYTES then Some(n) else None)
    ensures Acceptable(Line(f)) <==> n <= MAX_BODY_BYTES
  {
    PlainLineSays(f);
    hide Line, Plain, HasColon, SaysLength, SaysEncoding, Value, EqualsIgnoreCase, LengthOf, Text, Spells, Decimal;
  }

  lemma LineOf(fields: seq<Field>, i: nat)
    requires i < |fields|
    ensures |Lines(fields)| == |fields| && Lines(fields)[i] == Line(fields[i])
  {
  }

  lemma LinesFrameLength(lines: seq<seq<byte>>, k: nat, n: nat)
    requires k < |lines| && Acceptable(lines[k]) && SaysLength(lines[k]) && LengthOf(lines[k]) == Some(n)
    requires !SaysEncoding(lines[k])
    requires forall i :: 0 <= i < |lines| && i != k ==>
               Acceptable(lines[i]) && !SaysLength(lines[i]) && !SaysEncoding(lines[i])
    ensures FieldsFraming(lines) == Some(ContentLength(n))
  {
    hide Acceptable, SaysLength, SaysEncoding, LengthOf, HasColon;
    assert DeclaresLength(lines, n);
    assert !DeclaresChunked(lines);
  }

  lemma LinesFrameChunked(lines: seq<seq<byte>>, k: nat)
    requires k < |lines| && SaysEncoding(lines[k])
    requires forall i :: 0 <= i < |lines| ==> Acceptable(lines[i]) && !SaysLength(lines[i])
    ensures FieldsFraming(lines) == Some(Chunked)
  {
    hide Acceptable, SaysLength, SaysEncoding, LengthOf, HasColon;
    assert DeclaresChunked(lines);
  }

  lemma LinesRefused(lines: seq<seq<byte>>, i: nat, j: nat)
    requires i < |lines| && j < |lines|
    requires || !Acceptable(lines[i])
             || (i != j && SaysLength(lines[i]) && SaysLength(lines[j]))
             || (SaysLength(lines[i]) && SaysEncoding(lines[j]))
    ensures FieldsFraming(lines).None?
  {
    hide Acceptable, SaysLength, SaysEncoding, HasColon;
    if SaysEncoding(lines[j]) {
      assert DeclaresChunked(lines);
    }
    if AllAcceptable(lines) && SaysLength(lines[i]) {
      AcceptableLength(lines[i]);
      hide LengthOf;
      assert DeclaresLength(lines, LengthOf(lines[i]).value);
    }
  }

  lemma AcceptableLength(line: seq<byte>)
    requires Acceptable(line) && SaysLength(line)
    ensures HasColon(line) && LengthOf(line).Some?
  {
  }

  lemma NothingDeclared(lines: seq<seq<byte>>)
    requires forall i :: 0 <= i < |lines| ==> !SaysLength(lines[i]) && !SaysEncoding(lines[i])
    ensures FieldsFraming(lines).None?
  {
    hide Acceptable, SaysLength, SaysEncoding, LengthOf, HasColon;
  }

  /** Exactly one length, in plain decimal and within the bound, and no encoding: a body of that many bytes. */
  lemma FramesLength(fields: seq<Field>, k: nat, n: nat)
    requires AllPlain(fields) && k < |fields| && IsLength(fields[k]) && fields[k].value == Decimal(n)
    requires n <= MAX_BODY_BYTES
    requires forall i :: 0 <= i < |fields| && i != k ==> !IsLength(fields[i]) && !IsEncoding(fields[i])
    ensures FramingOf(Block(Text(STATUS), fields)) == Some(ContentLength(n))
  {
    BlockFraming(fields);
    hide FramingOf, FieldsFraming, Line, Lines, Block, Text, Plain, IsLength, IsEncoding, Decimal, Acceptable;
    hide SaysLength, SaysEncoding, LengthOf;
    forall i | 0 <= i < |fields| && i != k
      ensures var line := Lines(fields)[i]; Acceptable(line) && !SaysLength(line) && !SaysEncoding(line)
    {
      PlainLineIs(fields[i]);
      LineOf(fields, i);
    }
    LineOf(fields, k);
    PlainLength(fields[k], n);
    NotBoth(fields[k]);
    LinesFrameLength(Lines(fields), k, n);
  }

  lemma NotBoth(f: Field)
    requires Plain(f)
    ensures IsLength(f) ==> !IsEncoding(f) && !SaysEncoding(Line(f))
  {
    PlainLineIs(f);
    hide Line, Plain, SaysEncoding, SaysLength;
  }

  /** Some encoding, every one of them chunked, and no length: a chunked body. */
  lemma FramesChunked(fields: seq<Field>, k: nat)
    requires AllPlain(fields) && k < |fields| && IsEncoding(fields[k])
    requires forall i :: 0 <= i < |fields| ==>
               !IsLength(fields[i]) && (IsEncoding(fields[i]) ==> Spells(fields[i].value, CHUNKED))
    ensures FramingOf(Block(Text(STATUS), fields)) == Some(Chunked)
  {
    BlockFraming(fields);
    hide FramingOf, FieldsFraming, Line, Lines, Block, Text, Plain, IsLength, IsEncoding, Acceptable, Spells;
    hide SaysLength, SaysEncoding, LengthOf;
    forall i | 0 <= i < |fields|
      ensures |Lines(fields)| == |fields|
      ensures Acceptable(Lines(fields)[i]) && !SaysLength(Lines(fields)[i])
      ensures SaysEncoding(Lines(fields)[i]) <==> IsEncoding(fields[i])
    {
      PlainLineIs(fields[i]);
      LineOf(fields, i);
    }
    LineOf(fields, k);
    LinesFrameChunked(Lines(fields), k);
  }

  /** What can be wrong with plain fields, at two places that may be the same. */
  predicate Clash(f: Field, g: Field, same: bool) {
    || (!same && IsLength(f) && IsLength(g))
    || (IsLength(f) && IsEncoding(g))
    || (IsEncoding(f) && !Spells(f.value, CHUNKED))
  }

  /** Two lengths, a length beside an encoding, or another encoding than chunked. */
  lemma ClashIsRefused(fields: seq<Field>, i: nat, j: nat)
    requires AllPlain(fields) && i < |fields| && j < |fields| && Clash(fields[i], fields[j], i == j)
    ensures FramingOf(Block(Text(STATUS), fields)).None?
  {
    BlockFraming(fields);
    hide FramingOf, FieldsFraming, Line, Lines, Block, Text, Plain, IsLength, IsEncoding, Acceptable, Spells;
    hide SaysLength, SaysEncoding, LengthOf;
    PlainLineIs(fields[i]);
    PlainLineIs(fields[j]);
    LineOf(fields, i);
    LineOf(fields, j);
    LinesRefused(Lines(fields), i, j);
  }

  /** A length above the bound. */
  lemma LongLengthIsRefused(fields: seq<Field>, i: nat, n: nat)
    requires AllPlain(fields) && i < |fields| && IsLength(fields[i]) && fields[i].value == Decimal(n)
    requires n > MAX_BODY_BYTES
    ensures FramingOf(Block(Text(STATUS), fields)).None?
  {
    BlockFraming(fields);
    hide FramingOf, FieldsFraming, Line, Lines, Block, Text, Plain, IsLength, Acceptable, Decimal, SaysLength;
    hide SaysEncoding, LengthOf;
    PlainLength(fields[i], n);
    LineOf(fields, i);
    LinesRefused(Lines(fields), i, i);
  }

  /** A length that is no decimal number. */
  lemma WordyLengthIsRefused(fields: seq<Field>, i: nat, j: nat)
    requires AllPlain(fields) && i < |fields| && IsLength(fields[i]) && j < |fields[i].value|
    requires !(48 <= fields[i].value[j] <= 57) && (j == 0 ==> fields[i].value[0] != PLUS)
    ensures FramingOf(Block(Text(STATUS), fields)).None?
  {
    BlockFraming(fields);
    NotANumber(fields[i].value, j);
    LineParts(fields[i]);
    PlainLineIs(fields[i]);
    hide FramingOf, FieldsFraming, Line, Lines, Block, Text, Plain, IsLength, IsEncoding, Spells, HasColon, Value;
    hide SaysLength, SaysEncoding, ParseUsize, EqualsIgnoreCase;
    assert !Acceptable(Line(fields[i]));
    LineOf(fields, i);
    LinesRefused(Lines(fields), i, i);
  }

  /** Neither a length nor an encoding. */
  lemma UnframedIsRefused(fields: seq<Field>)
    requires AllPlain(fields) && forall i :: 0 <= i < |fields| ==> !IsLength(fields[i]) && !IsEncoding(fields[i])
    ensures FramingOf(Block(Text(STATUS), fields)).None?
  {
    BlockFraming(fields);
    hide FramingOf, FieldsFraming, Line, Lines, Block, Text, Plain, IsLength, IsEncoding, SaysLength, SaysEncoding;
    LinesSize(fields);
    forall i | 0 <= i < |fields|
      ensures |Lines(fields)| == |fields| && !SaysLength(Lines(fields)[i]) && !SaysEncoding(Lines(fields)[i])
    {
      PlainLineIs(fields[i]);
      LineOf(fields, i);
    }
    NothingDeclared(Lines(fields));
  }

  lemma LinesSize(fields: seq<Field>)
    ensures |Lines(fields)| == |fields|
  {
  }

  // ----- whole responses

  /** No end of headers begins inside the text when one follows it. */
  ghost predicate EndsWhereItShould(s: seq<byte>) {
    && s != [] && s[|s| - 1] != CR && s[|s| - 1] != LF
    && forall j :: 0 <= j < |s| ==> !MatchAt(s + HEADER_END, HEADER_END, j)
  }

  lemma HeaderEndNeedsCr(s: seq<byte>, j: nat)
    requires MatchAt(s, HEADER_END, j)
    ensures j + 4 <= |s| && s[j] == CR && s[j + 1] == LF && s[j + 2] == CR && s[j + 3] == LF
  {
    var t := s[j..j + 4];
    assert t[0] == s[j] && t[1] == s[j + 1] && t[2] == s[j + 2] && t[3] == s[j + 3];
  }

  lemma FirstLineEnds(s: seq<byte>)
    requires OneLine(s) && s != []
    ensures EndsWhereItShould(s)
  {
    assert s[|s| - 1] in s;
    forall j | 0 <= j < |s|
      ensures !MatchAt(s + HEADER_END, HEADER_END, j)
    {
      assert (s + HEADER_END)[j] == s[j] && s[j] in s;
      if MatchAt(s + HEADER_END, HEADER_END, j) {
        HeaderEndNeedsCr(s + HEADER_END, j);
      }
    }
  }

  lemma NextLineEnds(s: seq<byte>, line: seq<byte>)
    requires EndsWhereItShould(s) && OneLine(line) && line != []
    ensures EndsWhereItShould(s + CRLF + line)
  {
    var t := s + CRLF + line;
    assert t[|t| - 1] == line[|line| - 1] && line[|line| - 1] in line;
    var u := t + HEADER_END;
    forall j | 0 <= j < |t|
      ensures !MatchAt(u, HEADER_END, j)
    {
      NoEndInNext(s, line, j);
      if MatchAt(u, HEADER_END, j) {
        HeaderEndNeedsCr(u, j);
      }
    }
  }

  lemma NoEndInNext(s: seq<byte>, line: seq<byte>, j: nat)
    requires EndsWhereItShould(s) && OneLine(line) && line != [] && j < |s| + 2 + |line|
    ensures var u := s + CRLF + line + HEADER_END;
            !(u[j] == CR && u[j + 1] == LF && u[j + 2] == CR && u[j + 3] == LF)
  {
    var u := s + CRLF + line + HEADER_END;
    assert forall i :: 0 <= i < |s| ==> u[i] == s[i];
    assert u[|s|] == CR && u[|s| + 1] == LF && u[|s| + 2] == line[0] && line[0] in line;
    if j >= |s| + 2 {
      assert u[j] == line[j - |s| - 2] && line[j - |s| - 2] in line;
    } else if j + 4 <= |s| {
      var v := s + HEADER_END;
      assert v[j..j + 4] == [u[j], u[j + 1], u[j + 2], u[j + 3]];
      assert !MatchAt(v, HEADER_END, j);
    }
  }

  lemma {:induction false} BlockEnds(fields: seq<Field>)
    requires AllPlain(fields)
    ensures EndsWhereItShould(Block(Text(STATUS), fields))
  {
    hide EndsWhereItShould, Line, Text, Plain, OneLine;
    if fields == [] {
      StatusIsOneLine();
      FirstLineEnds(Text(STATUS));
    } else {
      var front, last := fields[..|fields| - 1], fields[|fields| - 1];
      BlockEnds(front);
      LineIsOneLine(last);
      NextLineEnds(Block(Text(STATUS), front), Line(last));
    }
  }

  lemma EndIsFound(s: seq<byte>)
    requires EndsWhereItShould(s)
    ensures FindBytes(s + HEADER_END, HEADER_END) == Some(|s|)
  {
    assert (s + HEADER_END)[|s|..|s| + 4] == HEADER_END;
    FoundAt(s + HEADER_END, HEADER_END, |s|);
  }

  lemma FramedLengthIsRead(block: seq<byte>, body: seq<byte>, rest: seq<byte>)
    requires EndsWhereItShould(block) && FramingOf(block) == Some(ContentLength(|body|))
    ensures ResponseBody(block + HEADER_END + (body + rest)) == Ok(body)
  {
    EndIsFound(block);
    hide *;
    ReadsLengthBody(block, body, rest);
  }

  lemma FramedChunksAreRead(block: seq<byte>, chunks: seq<SizedChunk>, last: seq<byte>, rest: seq<byte>)
    requires EndsWhereItShould(block) && FramingOf(block) == Some(Chunked)
    requires Sendable(chunks) && SizeLine(last, 0) && |Payload(chunks)| <= MAX_BODY_BYTES
    ensures ResponseBody(block + HEADER_END + (Wire(chunks, last) + rest)) == Ok(Payload(chunks))
  {
    EndIsFound(block);
    hide *;
    ReadsChunkedBody(block, chunks, last, rest);
  }

  /** A response written with one Content-Length in plain decimal is read as exactly that many bytes. */
  lemma ReadsPlainLengthResponse(fields: seq<Field>, k: nat, body: seq<byte>, rest: seq<byte>)
    requires AllPlain(fields) && k < |fields| && IsLength(fields[k]) && fields[k].value == Decimal(|body|)
    requires |body| <= MAX_BODY_BYTES
    requires forall i :: 0 <= i < |fields| && i != k ==> !IsLength(fields[i]) && !IsEncoding(fields[i])
    ensures ResponseBody(Block(Text(STATUS), fields) + HEADER_END + (body + rest)) == Ok(body)
  {
    var block := Block(Text(STATUS), fields);
    hide *;
    FramesLength(fields, k, |body|);
    BlockEnds(fields);
    FramedLengthIsRead(block, body, rest);
  }

  /** A response written as chunked is read as the concatenation of its chunks. */
  lemma ReadsPlainChunkedResponse(
    fields: seq<Field>, k: nat, chunks: seq<SizedChunk>, last: seq<byte>, rest: seq<byte>)
    requires AllPlain(fields) && k < |fields| && IsEncoding(fields[k])
    requires forall i :: 0 <= i < |fields| ==>
               !IsLength(fields[i]) && (IsEncoding(fields[i]) ==> Spells(fields[i].value, CHUNKED))
    requires Sendable(chunks) && SizeLine(last, 0) && |Payload(chunks)| <= MAX_BODY_BYTES
    ensures ResponseBody(Block(Text(STATUS), fields) + HEADER_END + (Wire(chunks, last) + rest)) == Ok(Payload(chunks))
  {
    var block := Block(Text(STATUS), fields);
    hide *;
    FramesChunked(fields, k);
    BlockEnds(fields);
    FramedChunksAreRead(block, chunks, last, rest);
  }
}
