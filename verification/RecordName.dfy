/** File names of profile records: a generation in twenty digits and a nonce in thirty-two hex digits. */
module RecordName {
  import opened Common

  const PREFIX := "profile-"
  const SUFFIX := ".json"
  const GENERATION_DIGITS: nat := 20
  const NONCE_DIGITS: nat := 32
  const U64_MAX: nat := 0xFFFF_FFFF_FFFF_FFFF

  predicate Digit(c: char) { '0' <= c <= '9' }

  predicate AllDigits(s: string) {
    forall i :: 0 <= i < |s| ==> Digit(s[i])
  }

  predicate Nonce(s: string) {
    |s| == NONCE_DIGITS && forall i :: 0 <= i < |s| ==> HexChar(s[i])
  }

  function Value(digits: string): nat
    requires AllDigits(digits)
  {
    if digits == [] then 0
    else Value(digits[..|digits| - 1]) * 10 + (digits[|digits| - 1] as int - '0' as int)
  }

  /** The last `width` decimal digits of a number, with leading zeros. */
  function Padded(n: nat, width: nat): (s: string)
    ensures |s| == width && AllDigits(s)
  {
    if width == 0 then [] else Padded(n / 10, width - 1) + ['0' + (n % 10) as char]
  }

  function Power10(n: nat): nat {
    if n == 0 then 1 else 10 * Power10(n - 1)
  }

  /** Twenty digits hold every generation. */
  lemma TwentyDigits()
    ensures U64_MAX < Power10(GENERATION_DIGITS)
  {
    assert Power10(2) == 100;
    assert Power10(4) == 10_000;
    assert Power10(6) == 1_000_000;
    assert Power10(8) == 100_000_000;
    assert Power10(10) == 10_000_000_000;
    assert Power10(12) == 1_000_000_000_000;
    assert Power10(14) == 100_000_000_000_000;
    assert Power10(16) == 10_000_000_000_000_000;
    assert Power10(18) == 1_000_000_000_000_000_000;
  }

  lemma {:induction false} PaddedReadsBack(n: nat, width: nat)
    requires n < Power10(width)
    ensures Value(Padded(n, width)) == n
  {
    if width > 0 {
      var s := Padded(n, width);
      assert s[..width - 1] == Padded(n / 10, width - 1);
      PaddedReadsBack(n / 10, width - 1);
    }
  }

  lemma {:induction false} ValuePadsBack(digits: string)
    requires AllDigits(digits)
    ensures Padded(Value(digits), |digits|) == digits && Value(digits) < Power10(|digits|)
  {
    if digits != [] {
      var front := digits[..|digits| - 1];
      ValuePadsBack(front);
      var d := digits[|digits| - 1] as int - '0' as int;
      assert Value(digits) / 10 == Value(front) && Value(digits) % 10 == d;
      assert '0' + d as char == digits[|digits| - 1];
    }
  }

  function RecordFileName(generation: nat, nonce: string): string {
    PREFIX + Padded(generation, GENERATION_DIGITS) + "-" + nonce + SUFFIX
  }

  predicate EndsWith(s: string, suffix: string) {
    |suffix| <= |s| && s[|s| - |suffix|..] == suffix
  }

  function IndexOf(s: string, c: char): (r: Option<nat>)
    ensures r.Some? ==> r.value < |s| && s[r.value] == c && c !in s[..r.value]
    ensures r.None? ==> c !in s
  {
    if s == [] then None
    else if s[0] == c then Some(0)
    else
      match IndexOf(s[1..], c)
      case None => None
      case Some(i) =>
        assert s[..i + 1] == [s[0]] + s[1..][..i];
        Some(i + 1)
  }

  /** The generation a file name carries, if it is the name of a record at all. */
  function RecordGeneration(name: string): Option<nat> {
    if !(PREFIX <= name) then None
    else
      var rest := name[|PREFIX|..];
      if !EndsWith(rest, SUFFIX) then None
      else
        var body := rest[..|rest| - |SUFFIX|];
        match IndexOf(body, '-')
        case None => None
        case Some(i) =>
          var generation, nonce := body[..i], body[i + 1..];
          if |generation| != GENERATION_DIGITS || !AllDigits(generation) || !Nonce(nonce) then None
          else if Value(generation) > U64_MAX then None
          else Some(Value(generation))
  }

  lemma DashFound(front: string, back: string)
    requires '-' !in front
    ensures IndexOf(front + "-" + back, '-') == Some(|front|)
  {
    var s := front + "-" + back;
    assert s[|front|] == '-';
  }

  lemma NoDashInDigits(s: string)
    requires AllDigits(s)
    ensures '-' !in s
  {
  }

  /** Formatting any generation and nonce, then parsing the name, gives that generation back. */
  lemma NameRoundTrip(generation: nat, nonce: string)
    requires generation <= U64_MAX && Nonce(nonce)
    ensures RecordGeneration(RecordFileName(generation, nonce)) == Some(generation)
  {
    var digits := Padded(generation, GENERATION_DIGITS);
    var name := RecordFileName(generation, nonce);
    var body := digits + "-" + nonce;
    assert name == PREFIX + (body + SUFFIX);
    assert name[|PREFIX|..] == body + SUFFIX;
    assert (body + SUFFIX)[..|body|] == body;
    NoDashInDigits(digits);
    DashFound(digits, nonce);
    assert body[..|digits|] == digits && body[|digits| + 1..] == nonce;
    TwentyDigits();
    PaddedReadsBack(generation, GENERATION_DIGITS);
    hide Padded, Value, IndexOf;
  }

  /** A name that parses is exactly what formatting its generation and its nonce gives. */
  lemma ParsedNamesAreFormatted(name: string)
    requires RecordGeneration(name).Some?
    ensures exists nonce :: Nonce(nonce) && name == RecordFileName(RecordGeneration(name).value, nonce)
    ensures RecordGeneration(name).value <= U64_MAX
  {
    var digits, nonce := NameParts(name);
    ValuePadsBack(digits);
    hide RecordGeneration, Padded, Value;
    assert name == RecordFileName(Value(digits), nonce);
  }

  lemma NameParts(name: string) returns (digits: string, nonce: string)
    requires RecordGeneration(name).Some?
    ensures AllDigits(digits) && |digits| == GENERATION_DIGITS && Nonce(nonce) && Value(digits) <= U64_MAX
    ensures RecordGeneration(name) == Some(Value(digits))
    ensures name == PREFIX + digits + "-" + nonce + SUFFIX
  {
    hide Value;
    var rest := name[|PREFIX|..];
    var body := rest[..|rest| - |SUFFIX|];
    var i := IndexOf(body, '-').value;
    digits, nonce := body[..i], body[i + 1..];
    assert rest == body + SUFFIX && body == digits + "-" + nonce;
  }
}
