/**
 The Protocol Buffers wire format, written by hand in the fixture generator, and a
 decoder that follows the format's rules ("Base 128 Varints" and "Length-Delimited
 Records" of the Protocol Buffers encoding). Decoding undoes encoding.
 */
module Wire {
  import opened Wrappers

  type Byte = n: nat | n < 256
  type Bytes = seq<Byte>

  predicate Smaller(a: Byte, b: Byte) { a < b }

  const U64: nat := 0x1_0000_0000_0000_0000

  // --- varints ---------------------------------------------------------------

  // Seven bits a byte, least significant first, the high bit set on all but the last.
  function Varint(n: nat): (r: Bytes)
    ensures r != []
  {
    if n < 128 then [n] else [n % 128 + 128] + Varint(n / 128)
  }

  method WriteVarint(n: nat) returns (out: Bytes)
    ensures out == Varint(n)
  {
    var m := n;
    out := [];
    while m >= 128
      invariant out + Varint(m) == Varint(n)
    {
      assert out + ([m % 128 + 128] + Varint(m / 128)) == (out + [m % 128 + 128]) + Varint(m / 128);
      out := out + [m % 128 + 128];
      m := m / 128;
    }
    out := out + [m];
  }

  // A value and the number of bytes it took.
  function ReadVarint(b: Bytes): (r: Option<(nat, nat)>)
    ensures r.Some? ==> 0 < r.value.1 <= |b|
  {
    if b == [] then None
    else if b[0] < 128 then Some((b[0], 1))
    else
      match ReadVarint(b[1..])
      case None => None
      case Some((v, k)) => Some((b[0] - 128 + 128 * v, k + 1))
  }

  // Every number is read back, whatever follows it.
  lemma {:induction false} VarintRoundTrip(n: nat, rest: Bytes)
    ensures ReadVarint(Varint(n) + rest) == Some((n, |Varint(n)|))
  {
    if n >= 128 {
      VarintRoundTrip(n / 128, rest);
      assert (Varint(n) + rest)[1..] == Varint(n / 128) + rest;
    }
  }

  // --- eight bytes, least significant first ----------------------------------

  function Fixed(n: nat, k: nat): (r: Bytes)
    ensures |r| == k
    decreases k
  {
    if k == 0 then [] else [n % 256] + Fixed(n / 256, k - 1)
  }

  function ReadFixed(b: Bytes): nat {
    if b == [] then 0 else b[0] + 256 * ReadFixed(b[1..])
  }

  function Pow256(k: nat): nat { if k == 0 then 1 else 256 * Pow256(k - 1) }

  lemma {:induction false} FixedRoundTrip(n: nat, k: nat)
    requires n < Pow256(k)
    ensures ReadFixed(Fixed(n, k)) == n
    decreases k
  {
    if k > 0 {
      assert n / 256 < Pow256(k - 1);
      FixedRoundTrip(n / 256, k - 1);
    }
  }

  lemma EightBytes()
    ensures Pow256(8) == U64
  {
    assert Pow256(2) == 0x1_0000;
    assert Pow256(4) == 256 * (256 * Pow256(2)) == 0x1_0000_0000;
    assert Pow256(6) == 256 * (256 * Pow256(4)) == 0x1_0000_0000_0000;
  }

  // --- fields ----------------------------------------------------------------

  datatype Field =
    | VarintField(num: nat, value: nat)
    | FixedField(num: nat, value: nat)
    | LenField(num: nat, payload: Bytes)

  function Tag(num: nat, wire: nat): Bytes { Varint(num * 8 + wire) }

  function EncodeField(f: Field): (r: Bytes)
    ensures r != []
  {
    match f
    case VarintField(num, value) => Tag(num, 0) + Varint(value)
    case FixedField(num, value) => Tag(num, 1) + Fixed(value, 8)
    case LenField(num, payload) => Tag(num, 2) + Varint(|payload|) + payload
  }

  function EncodeFields(fs: seq<Field>): Bytes {
    if fs == [] then [] else EncodeField(fs[0]) + EncodeFields(fs[1..])
  }

  // The first field and the number of bytes it took.
  function ReadField(b: Bytes): (r: Option<(Field, nat)>)
    ensures r.Some? ==> 0 < r.value.1 <= |b|
  {
    match ReadVarint(b)
    case None => None
    case Some((tag, k)) =>
      var num, wire := tag / 8, tag % 8;
      if wire == 0 then
        match ReadVarint(b[k..])
        case None => None
        case Some((v, j)) => Some((VarintField(num, v), k + j))
      else if wire == 1 then
        if k + 8 <= |b| then Some((FixedField(num, ReadFixed(b[k..k + 8])), k + 8)) else None
      else if wire == 2 then
        match ReadVarint(b[k..])
        case None => None
        case Some((n, j)) => if k + j + n <= |b| then Some((LenField(num, b[k + j..k + j + n]), k + j + n)) else None
      else None
  }

  function ReadFields(b: Bytes): Option<seq<Field>> {
    if b == [] then Some([])
    else
      match ReadField(b)
      case None => None
      case Some((f, k)) =>
        match ReadFields(b[k..])
        case None => None
        case Some(fs) => Some([f] + fs)
  }

  predicate InRange(f: Field) { f.FixedField? ==> f.value < U64 }

  lemma TagRoundTrip(num: nat, wire: nat, rest: Bytes)
    requires wire < 8
    ensures ReadVarint(Tag(num, wire) + rest) == Some((num * 8 + wire, |Tag(num, wire)|))
    ensures (num * 8 + wire) / 8 == num && (num * 8 + wire) % 8 == wire
  {
    VarintRoundTrip(num * 8 + wire, rest);
  }

  lemma FieldRoundTrip(f: Field, rest: Bytes)
    requires InRange(f)
    ensures ReadField(EncodeField(f) + rest) == Some((f, |EncodeField(f)|))
  {
    hide EncodeField, ReadField;
    match f {
      case VarintField(num, value) => VarintFieldRead(num, value, rest);
      case FixedField(num, value) => FixedFieldRead(num, value, rest);
      case LenField(num, payload) => LenFieldRead(num, payload, rest);
    }
  }

  lemma VarintFieldRead(num: nat, value: nat, rest: Bytes)
    ensures var f := VarintField(num, value); ReadField(EncodeField(f) + rest) == Some((f, |EncodeField(f)|))
  {
    hide Varint, ReadVarint, Fixed, ReadFixed, Tag;
    var b := EncodeField(VarintField(num, value)) + rest;
    assert b == Tag(num, 0) + (Varint(value) + rest);
    TagRoundTrip(num, 0, Varint(value) + rest);
    assert b[|Tag(num, 0)|..] == Varint(value) + rest;
    VarintRoundTrip(value, rest);
  }

  lemma FixedFieldRead(num: nat, value: nat, rest: Bytes)
    requires value < U64
    ensures var f := FixedField(num, value); ReadField(EncodeField(f) + rest) == Some((f, |EncodeField(f)|))
  {
    hide Varint, ReadVarint, Fixed, ReadFixed, Tag;
    var b := EncodeField(FixedField(num, value)) + rest;
    assert b == Tag(num, 1) + (Fixed(value, 8) + rest);
    TagRoundTrip(num, 1, Fixed(value, 8) + rest);
    var k := |Tag(num, 1)|;
    assert b[k..k + 8] == Fixed(value, 8);
    EightBytes();
    FixedRoundTrip(value, 8);
  }

  lemma LenFieldRead(num: nat, payload: Bytes, rest: Bytes)
    ensures var f := LenField(num, payload); ReadField(EncodeField(f) + rest) == Some((f, |EncodeField(f)|))
  {
    hide Varint, ReadVarint, Fixed, ReadFixed, Tag;
    var b := EncodeField(LenField(num, payload)) + rest;
    var n := Varint(|payload|);
    assert b == Tag(num, 2) + (n + (payload + rest));
    TagRoundTrip(num, 2, n + (payload + rest));
    var k := |Tag(num, 2)|;
    assert b[k..] == n + (payload + rest);
    VarintRoundTrip(|payload|, payload + rest);
    assert b[k + |n|..k + |n| + |payload|] == payload;
  }

  // Any message is read back field by field, nested messages included as payloads.
  lemma {:induction false} FieldsRoundTrip(fs: seq<Field>)
    requires forall i :: 0 <= i < |fs| ==> InRange(fs[i])
    ensures ReadFields(EncodeFields(fs)) == Some(fs)
  {
    hide EncodeField, ReadField;
    if fs != [] {
      var rest := EncodeFields(fs[1..]);
      FieldRoundTrip(fs[0], rest);
      FieldsRoundTrip(fs[1..]);
      assert EncodeFields(fs)[|EncodeField(fs[0])|..] == rest;
      assert [fs[0]] + fs[1..] == fs;
    }
  }
}
