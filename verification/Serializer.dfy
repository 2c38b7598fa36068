/**
 The serializer: arithmetic values as their object bytes (little-endian), strings as a 64-bit
 length and their characters, tied structs field by field.  The repository has no decoder; the
 one here is driven by the shape of the value and shows that nothing is lost.
 */
module Serializer {

  type Byte = b: nat | b < 256

  import opened Basics
  import opened RingMath

  /** The static type of a serialized object. */
  datatype Shape = Arithmetic(size: nat) | Text | Struct(fields: seq<Shape>)

  /** An object; an arithmetic value is given by the number its bytes spell. */
  datatype Value = Number(size: nat, bits: nat) | Characters(text: seq<Byte>) | Record(values: seq<Value>)

  const LENGTH_SIZE := 8

  function Power(n: nat): nat { if n == 0 then 1 else 256 * Power(n - 1) }

  /** The object representation of an unsigned number of `n` bytes. */
  function Bytes(x: nat, n: nat): (b: seq<Byte>)
    ensures |b| == n
  {
    if n == 0 then [] else [x % 256] + Bytes(x / 256, n - 1)
  }

  function FromBytes(b: seq<Byte>): nat {
    if b == [] then 0 else b[0] + 256 * FromBytes(b[1..])
  }

  ghost predicate HasShape(v: Value, s: Shape) {
    match v
    case Number(size, bits) => s == Arithmetic(size) && bits < Power(size)
    case Characters(text) => s == Text && |text| < Power(LENGTH_SIZE)
    case Record(values) =>
      s.Struct? && |values| == |s.fields| && forall i :: 0 <= i < |values| ==> HasShape(values[i], s.fields[i])
  }

  /** What `serialize` appends for a value. */
  function Encode(v: Value): seq<Byte> {
    match v
    case Number(size, bits) => Bytes(bits, size)
    case Characters(text) => Bytes(|text|, LENGTH_SIZE) + text
    case Record(values) => EncodeAll(values)
  }

  function EncodeAll(vs: seq<Value>): seq<Byte> {
    if vs == [] then [] else Encode(vs[0]) + EncodeAll(vs[1..])
  }

  /** Reads a value of the given shape off the front of `b`. */
  function Decode(s: Shape, b: seq<Byte>): Option<(Value, seq<Byte>)> {
    match s
    case Arithmetic(size) =>
      if |b| < size then None else Some((Number(size, FromBytes(b[..size])), b[size..]))
    case Text =>
      if |b| < LENGTH_SIZE then None else
      var n := FromBytes(b[..LENGTH_SIZE]);
      if |b| - LENGTH_SIZE < n then None
      else Some((Characters(b[LENGTH_SIZE..LENGTH_SIZE + n]), b[LENGTH_SIZE + n..]))
    case Struct(fields) =>
      match DecodeAll(fields, b)
      case None => None
      case Some((vs, rest)) => Some((Record(vs), rest))
  }

  function DecodeAll(ss: seq<Shape>, b: seq<Byte>): Option<(seq<Value>, seq<Byte>)> {
    if ss == [] then Some(([], b)) else
    match Decode(ss[0], b)
    case None => None
    case Some((v, rest)) =>
      match DecodeAll(ss[1..], rest)
      case None => None
      case Some((vs, rest')) => Some(([v] + vs, rest'))
  }

  /** `n` bytes keep a number modulo 256^n. */
  lemma {:induction false} BytesKeep(x: nat, n: nat)
    ensures Power(n) > 0 && FromBytes(Bytes(x, n)) == x % Power(n)
  {
    if n > 0 {
      BytesKeep(x / 256, n - 1);
      assert Bytes(x, n)[1..] == Bytes(x / 256, n - 1);
      KeepStep(x, Power(n - 1));
    }
  }

  lemma KeepStep(x: nat, p: nat)
    requires p > 0
    ensures x % 256 + 256 * (x / 256 % p) == x % (256 * p)
  {
    var q, r := x / 256 / p, x / 256 % p;
    assert x / 256 == p * q + r;
    assert x == 256 * p * q + (256 * r + x % 256) by { assert 256 * (p * q) == 256 * p * q; }
    RemainderIs(x, 256 * p, q, 256 * r + x % 256);
  }

  lemma BytesRoundTrip(x: nat, n: nat)
    requires x < Power(n)
    ensures FromBytes(Bytes(x, n)) == x
  {
    BytesKeep(x, n);
  }

  lemma FrontAndRest(a: seq<Byte>, b: seq<Byte>)
    ensures (a + b)[..|a|] == a && (a + b)[|a|..] == b
  {
  }

  /** Decoding recovers the value and leaves what follows untouched, for every nested shape. */
  lemma {:induction false} RoundTrip(v: Value, s: Shape, rest: seq<Byte>)
    requires HasShape(v, s)
    ensures Decode(s, Encode(v) + rest) == Some((v, rest))
    decreases v
  {
    match v
    case Number(size, bits) =>
      BytesRoundTrip(bits, size);
      FrontAndRest(Bytes(bits, size), rest);
    case Characters(text) =>
      var len := Bytes(|text|, LENGTH_SIZE);
      BytesRoundTrip(|text|, LENGTH_SIZE);
      assert Encode(v) + rest == len + (text + rest);
      FrontAndRest(len, text + rest);
      FrontAndRest(text, rest);
      var b := Encode(v) + rest;
      assert b[LENGTH_SIZE..][..|text|] == b[LENGTH_SIZE..LENGTH_SIZE + |text|];
      assert b[LENGTH_SIZE..][|text|..] == b[LENGTH_SIZE + |text|..];
    case Record(values) =>
      RoundTripAll(values, s.fields, rest);
  }

  lemma {:induction false} RoundTripAll(vs: seq<Value>, ss: seq<Shape>, rest: seq<Byte>)
    requires |vs| == |ss| && forall i :: 0 <= i < |vs| ==> HasShape(vs[i], ss[i])
    ensures DecodeAll(ss, EncodeAll(vs) + rest) == Some((vs, rest))
    decreases vs
  {
    if vs == [] {
      assert EncodeAll(vs) + rest == rest;
    } else {
      assert EncodeAll(vs) + rest == Encode(vs[0]) + (EncodeAll(vs[1..]) + rest);
      RoundTrip(vs[0], ss[0], EncodeAll(vs[1..]) + rest);
      RoundTripAll(vs[1..], ss[1..], rest);
      assert vs == [vs[0]] + vs[1..];
    }
  }

  /** No encoding is a proper prefix of another of the same shape, and equal encodings come from
      equal values. */
  lemma PrefixFree(v: Value, w: Value, s: Shape, rest: seq<Byte>)
    requires HasShape(v, s) && HasShape(w, s) && Encode(v) + rest == Encode(w)
    ensures v == w && rest == []
  {
    RoundTrip(v, s, rest);
    RoundTrip(w, s, []);
    assert Encode(w) + [] == Encode(w);
  }

  /** The output vector; `serialize` only ever appends to it. */
  class Buffer {
    var data: seq<Byte>

    constructor ()
      ensures data == []
    {
      data := [];
    }

    /** Appends `size` bytes from which the value can be read back, the lowest byte first. */
    method AppendBytes(bits: nat, size: nat)
      modifies this
      ensures |data| == |old(data)| + size && data[..|old(data)|] == old(data)
      ensures bits < Power(size) ==> FromBytes(data[|old(data)|..]) == bits
      ensures data[|old(data)|..] == Bytes(bits, size)
    {
      hide FromBytes, Power;
      var left := bits;
      for i := 0 to size
        invariant data + Bytes(left, size - i) == old(data) + Bytes(bits, size)
      {
        assert data + Bytes(left, size - i) == (data + [left % 256]) + Bytes(left / 256, size - i - 1);
        data := data + [left % 256];
        left := left / 256;
      }
      assert data == old(data) + Bytes(bits, size);
      if bits < Power(size) { BytesRoundTrip(bits, size); }
    }

    method Serialize(v: Value)
      modifies this
      ensures data == old(data) + Encode(v)
      decreases v
    {
      hide FromBytes, Power;
      match v
      case Number(size, bits) =>
        AppendBytes(bits, size);
        assert data == old(data) + data[|old(data)|..];
      case Characters(text) =>
        AppendBytes(|text|, LENGTH_SIZE);
        assert data == old(data) + data[|old(data)|..];
        data := data + text;
      case Record(values) =>
        var i := 0;
        EncodeSplit(values, 0);
        while i < |values|
          invariant i <= |values|
          invariant data == old(data) + EncodeAll(values[..i])
        {
          EncodeSplit(values, i);
          Serialize(values[i]);
          i := i + 1;
        }
        assert values[..i] == values;
    }
  }

  lemma {:induction false} EncodeSplit(vs: seq<Value>, i: nat)
    requires i <= |vs|
    ensures i < |vs| ==> EncodeAll(vs[..i + 1]) == EncodeAll(vs[..i]) + Encode(vs[i])
    decreases i
  {
    if i < |vs| {
      if i == 0 {
        assert vs[..1][1..] == [] && vs[..0] == [];
      } else {
        assert vs[..i + 1][1..] == vs[1..][..i] && vs[..i][1..] == vs[1..][..i - 1];
        EncodeSplit(vs[1..], i - 1);
        assert Encode(vs[0]) + (EncodeAll(vs[1..][..i - 1]) + Encode(vs[i]))
            == (Encode(vs[0]) + EncodeAll(vs[1..][..i - 1])) + Encode(vs[i]);
      }
    }
  }

  // --- The layout ---------------------------------------------------------------------------

  /** Byte `i` of a number is its `i`-th digit to the base 256: the lowest byte comes first. */
  lemma {:induction false} ByteAt(x: nat, n: nat, i: nat)
    requires i < n
    ensures Power(i) > 0 && Bytes(x, n)[i] == x / Power(i) % 256
  {
    if i > 0 {
      ByteAt(x / 256, n - 1, i - 1);
      DivideTwice(x, Power(i - 1));
    }
  }

  lemma DivideTwice(x: nat, p: nat)
    requires p > 0
    ensures x / (256 * p) == x / 256 / p
  {
    var q, r := x / 256 / p, x / 256 % p;
    assert x / 256 == p * q + r;
    assert x == 256 * p * q + (256 * r + x % 256) by { assert 256 * (p * q) == 256 * p * q; }
    RemainderIs(x, 256 * p, q, 256 * r + x % 256);
    var d := x / (256 * p);
    assert x == 256 * p * d + x % (256 * p);
    assert 256 * p * (d - q) == 0;
    SmallMultiple(256 * p, d - q);
  }

  /** A string is 8 bytes that spell its length and then its characters; a number of `size` bytes is just
      those; a struct is its fields in their order, with nothing before, between or after them. */
  lemma Layout(text: seq<Byte>, bits: nat, size: nat)
    requires |text| < 0x1_0000_0000_0000_0000
    ensures var b := Encode(Characters(text));
            |b| == 8 + |text| && FromBytes(b[..8]) == |text| && b[8..] == text
    ensures Encode(Number(size, bits)) == Bytes(bits, size)
    ensures Encode(Record([])) == []
    ensures forall v, vs :: Encode(Record([v] + vs)) == Encode(v) + Encode(Record(vs))
  {
    forall v, vs ensures Encode(Record([v] + vs)) == Encode(v) + Encode(Record(vs)) {
      assert ([v] + vs)[1..] == vs;
    }
    EightBytes();
    var len := Bytes(|text|, LENGTH_SIZE);
    FrontAndRest(len, text);
    BytesRoundTrip(|text|, LENGTH_SIZE);
  }

  lemma EightBytes()
    ensures Power(LENGTH_SIZE) == 0x1_0000_0000_0000_0000
  {
    assert Power(2) == 256 * Power(1);
    assert Power(4) == 256 * Power(3) && Power(3) == 256 * Power(2);
    assert Power(6) == 256 * Power(5) && Power(5) == 256 * Power(4);
    assert Power(8) == 256 * Power(7) && Power(7) == 256 * Power(6);
  }
}
