/** Length-prefixed byte framing, as written by `writeField` and `binary.Write`,
    together with the parsers that undo it. */
module Framing {
  import opened Wrappers

  type byte = x: int | 0 <= x < 256
  type Bytes = seq<byte>

  /** 256 to the power `width`: the number of values `width` bytes can carry. */
  function Range(width: nat): (r: nat)
    ensures r > 0
  {
    if width == 0 then 1 else 256 * Range(width - 1)
  }

  /** The low `width` bytes of `n`, most significant first; higher bytes are cut
      off, as Go's conversion to a narrower unsigned integer does. */
  function BigEndian(n: nat, width: nat): (b: Bytes)
    ensures |b| == width
  {
    if width == 0 then [] else BigEndian(n / 256, width - 1) + [n % 256]
  }

  function FromBigEndian(b: Bytes): nat {
    if b == [] then 0 else FromBigEndian(b[..|b| - 1]) * 256 + b[|b| - 1]
  }

  lemma {:induction false} BigEndianRoundTrip(n: nat, width: nat)
    requires n < Range(width)
    ensures FromBigEndian(BigEndian(n, width)) == n
  {
    if width > 0 {
      BigEndianRoundTrip(n / 256, width - 1);
      assert BigEndian(n, width)[..width - 1] == BigEndian(n / 256, width - 1);
    }
  }

  lemma RangeOf4And8()
    ensures Range(4) == 0x1_0000_0000 && Range(8) == 0x1_0000_0000_0000_0000
  {
    assert Range(2) == 0x1_0000;
    assert Range(3) == 0x100_0000;
    assert Range(4) == 0x1_0000_0000;
    assert Range(5) == 0x100_0000_0000;
    assert Range(6) == 0x1_0000_0000_0000;
    assert Range(7) == 0x100_0000_0000_0000;
  }

  // --- Signed 64-bit numbers -------------------------------------------------

  const TWO_TO_64: nat := 0x1_0000_0000_0000_0000

  predicate FitsInt64(n: int) {
    -0x8000_0000_0000_0000 <= n < 0x8000_0000_0000_0000
  }

  /** Two's complement, big endian. */
  function Int64(n: int): (b: Bytes)
    ensures |b| == 8
  {
    BigEndian(n % TWO_TO_64, 8)
  }

  function ToInt64(b: Bytes): int {
    var u := FromBigEndian(b);
    if u < 0x8000_0000_0000_0000 then u else u - TWO_TO_64
  }

  lemma Int64RoundTrip(n: int)
    requires FitsInt64(n)
    ensures ToInt64(Int64(n)) == n
  {
    RangeOf4And8();
    BigEndianRoundTrip(n % TWO_TO_64, 8);
  }

  // --- Length-prefixed fields ------------------------------------------------

  const FIELD_LIMIT: nat := 0x1_0000_0000

  predicate Short(v: Bytes) { |v| < FIELD_LIMIT }

  /** One field: a four-byte length, then the value. */
  function Field(v: Bytes): (b: Bytes)
    ensures |b| == 4 + |v|
  {
    BigEndian(|v|, 4) + v
  }

  function Fields(vs: seq<Bytes>): Bytes {
    if vs == [] then [] else Field(vs[0]) + Fields(vs[1..])
  }

  /** The first field of `b` and what follows it. */
  function ReadField(b: Bytes): Option<(Bytes, Bytes)> {
    if |b| < 4 then None
    else
      var n := FromBigEndian(b[..4]);
      if |b| < 4 + n then None else Some((b[4..4 + n], b[4 + n..]))
  }

  function ReadFields(b: Bytes, count: nat): Option<(seq<Bytes>, Bytes)> {
    if count == 0 then Some(([], b))
    else match ReadField(b)
      case None => None
      case Some((v, rest)) =>
        match ReadFields(rest, count - 1)
        case None => None
        case Some((vs, tail)) => Some(([v] + vs, tail))
  }

  lemma ReadFieldRoundTrip(v: Bytes, rest: Bytes)
    requires Short(v)
    ensures ReadField(Field(v) + rest) == Some((v, rest))
  {
    RangeOf4And8();
    BigEndianRoundTrip(|v|, 4);
    var b := Field(v) + rest;
    assert b[..4] == BigEndian(|v|, 4);
    assert b[4..4 + |v|] == v && b[4 + |v|..] == rest;
  }

  lemma {:induction false} ReadFieldsRoundTrip(vs: seq<Bytes>, rest: Bytes)
    requires forall v :: v in vs ==> Short(v)
    ensures ReadFields(Fields(vs) + rest, |vs|) == Some((vs, rest))
  {
    if vs == [] {
      assert Fields(vs) + rest == rest;
    } else {
      var tail := Fields(vs[1..]) + rest;
      assert Fields(vs) + rest == Field(vs[0]) + tail;
      ReadFieldRoundTrip(vs[0], tail);
      ReadFieldsRoundTrip(vs[1..], rest);
      assert [vs[0]] + vs[1..] == vs;
    }
  }

  lemma {:induction false} FieldsAppend(vs: seq<Bytes>, v: Bytes)
    ensures Fields(vs + [v]) == Fields(vs) + Field(v)
  {
    if vs == [] {
      assert vs + [v] == [v];
      assert Fields([v]) == Field(v) + Fields([]) == Field(v);
    } else {
      assert (vs + [v])[1..] == vs[1..] + [v];
      FieldsAppend(vs[1..], v);
    }
  }

  /** A field is never longer than the frame that carries it. */
  lemma {:induction false} FieldsBound(vs: seq<Bytes>, i: nat)
    requires i < |vs|
    ensures |vs[i]| + 4 <= |Fields(vs)|
  {
    if i > 0 { FieldsBound(vs[1..], i - 1); }
  }

  /** The bytes of a literal made of ASCII characters. */
  function Ascii(s: string): (b: Bytes)
    ensures |b| == |s|
  {
    seq(|s|, i requires 0 <= i < |s| => s[i] as int % 256)
  }

  /** The buffer that the source fills field by field. */
  method WriteFields(vs: seq<Bytes>) returns (buffer: Bytes)
    ensures buffer == Fields(vs)
  {
    buffer := [];
    for i := 0 to |vs|
      invariant buffer == Fields(vs[..i])
    {
      FieldsAppend(vs[..i], vs[i]);
      assert vs[..i + 1] == vs[..i] + [vs[i]];
      buffer := buffer + Field(vs[i]);
    }
    assert vs[..|vs|] == vs;
  }

  /** Two different labels open frames that can never coincide, whatever follows them. */
  lemma LabelsSeparate(l1: Bytes, rest1: Bytes, l2: Bytes, rest2: Bytes)
    requires Short(l1) && Short(l2) && l1 != l2
    ensures Field(l1) + rest1 != Field(l2) + rest2
  {
    ReadFieldRoundTrip(l1, rest1);
    ReadFieldRoundTrip(l2, rest2);
  }
}
