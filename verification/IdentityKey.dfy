/** The bytes an account identity is hashed from: five fields, each after its length in eight bytes. */
module IdentityKey {
  import opened Common

  const LENGTH_BYTES: nat := 8

  type Text = seq<byte>

  datatype Identity = Identity(provider: Text, product: Text, harness: Text, account: Text, workspace: Option<Text>)

  function Power256(n: nat): nat {
    if n == 0 then 1 else 256 * Power256(n - 1)
  }

  /** The last `width` bytes of a number, most significant first. */
  function BigEndian(n: nat, width: nat): (s: seq<byte>)
    ensures |s| == width
  {
    if width == 0 then [] else BigEndian(n / 256, width - 1) + [(n % 256) as byte]
  }

  lemma {:induction false} BigEndianInjective(a: nat, b: nat, width: nat)
    requires a < Power256(width) && b < Power256(width) && BigEndian(a, width) == BigEndian(b, width)
    ensures a == b
  {
    if width > 0 {
      var s, t := BigEndian(a, width), BigEndian(b, width);
      assert s[..width - 1] == BigEndian(a / 256, width - 1) && t[..width - 1] == BigEndian(b / 256, width - 1);
      assert s[width - 1] == (a % 256) as byte && t[width - 1] == (b % 256) as byte;
      assert a % 256 == b % 256;
      BigEndianInjective(a / 256, b / 256, width - 1);
    }
  }

  function Field(value: Text): Text {
    BigEndian(|value|, LENGTH_BYTES) + value
  }

  /** The bytes fed to the hash, in the order of a loop over the fields. */
  method HashInput(values: seq<Text>) returns (bytes: Text)
    ensures bytes == Encoded(values)
  {
    bytes := [];
    for i := 0 to |values|
      invariant bytes == Encoded(values[..i])
    {
      EncodedStep(values, i);
      bytes := bytes + BigEndian(|values[i]|, LENGTH_BYTES);
      bytes := bytes + values[i];
    }
    assert values[..|values|] == values;
  }

  function Encoded(values: seq<Text>): Text {
    Flatten(seq(|values|, i requires 0 <= i < |values| => Field(values[i])))
  }

  lemma EncodedStep(values: seq<Text>, i: nat)
    requires i < |values|
    ensures Encoded(values[..i + 1]) == Encoded(values[..i]) + Field(values[i])
  {
    var front := seq(i, k requires 0 <= k < i => Field(values[k]));
    assert seq(i + 1, k requires 0 <= k < i + 1 => Field(values[..i + 1][k])) == front + [Field(values[i])];
    assert seq(i, k requires 0 <= k < i => Field(values[..i][k])) == front;
    FlattenSnoc(front, Field(values[i]));
  }

  predicate Fits(value: Text) {
    |value| < Power256(LENGTH_BYTES)
  }

  /** A length-prefixed field can be told from what follows it. */
  lemma FieldTellsApart(a: Text, b: Text, after: Text, behind: Text)
    requires Fits(a) && Fits(b) && Field(a) + after == Field(b) + behind
    ensures a == b && after == behind
  {
    var s, t := Field(a) + after, Field(b) + behind;
    assert s[..LENGTH_BYTES] == BigEndian(|a|, LENGTH_BYTES) && t[..LENGTH_BYTES] == BigEndian(|b|, LENGTH_BYTES);
    BigEndianInjective(|a|, |b|, LENGTH_BYTES);
    var n := LENGTH_BYTES + |a|;
    assert s[LENGTH_BYTES..n] == a && t[LENGTH_BYTES..n] == b;
    assert s[n..] == after && t[n..] == behind;
  }

  lemma EncodedFirst(values: seq<Text>)
    requires values != []
    ensures Encoded(values) == Field(values[0]) + Encoded(values[1..])
  {
    var all := seq(|values|, i requires 0 <= i < |values| => Field(values[i]));
    assert all[1..] == seq(|values| - 1, i requires 0 <= i < |values| - 1 => Field(values[1..][i]));
  }

  /** Equally long lists of fields encode to the same bytes only if they are the same. */
  lemma {:induction false} EncodingInjective(a: seq<Text>, b: seq<Text>)
    requires |a| == |b| && Encoded(a) == Encoded(b)
    requires (forall i :: 0 <= i < |a| ==> Fits(a[i])) && forall i :: 0 <= i < |b| ==> Fits(b[i])
    ensures a == b
  {
    if a != [] {
      hide Fits, Encoded;
      EncodedFirst(a);
      EncodedFirst(b);
      FieldTellsApart(a[0], b[0], Encoded(a[1..]), Encoded(b[1..]));
      EncodingInjective(a[1..], b[1..]);
      assert a == [a[0]] + a[1..] && b == [b[0]] + b[1..];
    }
  }

  function Workspace(workspace: Option<Text>): Text {
    match workspace
    case None => []
    case Some(value) => value
  }

  function Fields(x: Identity): seq<Text> {
    [x.provider, x.product, x.harness, x.account, Workspace(x.workspace)]
  }

  ghost predicate Bounded(x: Identity) {
    forall i :: 0 <= i < 5 ==> Fits(Fields(x)[i])
  }

  /** Two identities feed the hash the same bytes exactly if they agree, an absent workspace counting as empty. */
  lemma SameInputSameIdentity(x: Identity, y: Identity)
    requires Bounded(x) && Bounded(y)
    ensures Encoded(Fields(x)) == Encoded(Fields(y))
       <==> x == y || (x.(workspace := y.workspace) == y && {x.workspace, y.workspace} == {None, Some([])})
  {
    hide Encoded, Fits;
    if Encoded(Fields(x)) == Encoded(Fields(y)) {
      EncodingInjective(Fields(x), Fields(y));
      var a, b := Fields(x), Fields(y);
      assert a[0] == b[0] && a[1] == b[1] && a[2] == b[2] && a[3] == b[3] && a[4] == b[4];
    }
    if x.(workspace := y.workspace) == y && {x.workspace, y.workspace} == {None, Some([])} {
      assert x.workspace in {None, Some([])} && y.workspace in {None, Some([])};
      assert Fields(x) == Fields(y);
    }
  }
}
