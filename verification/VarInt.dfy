/** Big-endian numbers and the variable-length integer of section 16 of RFC 9000. */
module VarInt {
  import opened Basics

  // ---------------------------------------------------------------- big-endian numbers

  function Pow256(k: nat): (r: nat)
    ensures r > 0
  {
    if k == 0 then 1 else 256 * Pow256(k - 1)
  }

  lemma Powers()
    ensures Pow256(0) == 1
    ensures Pow256(1) == 0x100
    ensures Pow256(2) == 0x1_0000
    ensures Pow256(3) == 0x100_0000
    ensures Pow256(4) == 0x1_0000_0000
    ensures Pow256(7) == 0x100_0000_0000_0000
    ensures Pow256(8) == 0x1_0000_0000_0000_0000
  {
    assert Pow256(3) == 256 * Pow256(2);
    assert Pow256(4) == 256 * Pow256(3);
    assert Pow256(5) == 256 * Pow256(4);
    assert Pow256(6) == 256 * Pow256(5);
    assert Pow256(7) == 256 * Pow256(6);
  }

  /** The `k` low bytes of `n`, most significant first (`to_be_bytes`). */
  function ToBE(n: nat, k: nat): (s: Bytes)
    ensures |s| == k
  {
    if k == 0 then [] else ToBE(n / 256, k - 1) + [n % 256]
  }

  /** The number a byte string spells, most significant byte first (`from_be_bytes`). */
  function FromBE(s: Bytes): nat {
    if s == [] then 0 else FromBE(s[..|s| - 1]) * 256 + s[|s| - 1]
  }

  lemma {:induction false} FromBEBound(s: Bytes)
    ensures FromBE(s) < Pow256(|s|)
  {
    if s != [] {
      FromBEBound(s[..|s| - 1]);
    }
  }

  lemma {:induction false} FromToBE(n: nat, k: nat)
    requires n < Pow256(k)
    ensures FromBE(ToBE(n, k)) == n
  {
    if k > 0 {
      FromToBE(n / 256, k - 1);
      assert ToBE(n, k)[..k - 1] == ToBE(n / 256, k - 1);
    }
  }

  lemma {:induction false} ToFromBE(s: Bytes)
    ensures ToBE(FromBE(s), |s|) == s
  {
    if s != [] {
      ToFromBE(s[..|s| - 1]);
      assert s == s[..|s| - 1] + [s[|s| - 1]];
    }
  }

  lemma Shift(d: nat, p: nat, x: nat, b: nat)
    ensures (d * p + x) * 256 + b == d * (256 * p) + (x * 256 + b)
  {
    assert (d * p) * 256 == d * (256 * p);
  }

  /** Splitting off the most significant byte. */
  lemma {:induction false} FromBEHead(s: Bytes)
    requires s != []
    ensures FromBE(s) == s[0] * Pow256(|s| - 1) + FromBE(s[1..])
  {
    var last, t := s[|s| - 1], s[..|s| - 1];
    if |s| > 1 {
      FromBEHead(t);
      Shift(t[0], Pow256(|s| - 2), FromBE(t[1..]), last);
      assert s[1..][..|s| - 2] == t[1..];
      assert FromBE(s[1..]) == FromBE(t[1..]) * 256 + last;
    } else {
      assert t == [] && s[1..] == [];
    }
  }

  /** Adding a multiple of the top weight changes the top byte only. */
  lemma {:induction false} ToBETop(d: nat, x: nat, k: nat)
    requires x < Pow256(k)
    requires d < 256
    ensures ToBE(d * Pow256(k) + x, k + 1) == [d] + ToBE(x, k)
  {
    var s: Bytes := [d] + ToBE(x, k);
    assert FromBE(s) == d * Pow256(k) + x by {
      assert s[1..] == ToBE(x, k);
      FromBEHead(s);
      FromToBE(x, k);
    }
    ToFromBE(s);
  }

  // ---------------------------------------------------------------- the codec

  const MAX := 0x4000_0000_0000_0000

  /** Bytes needed for a value below 2^62. */
  function Size(x: nat): (n: nat)
    requires x < MAX
  {
    if x < 0x40 then 1 else if x < 0x4000 then 2 else if x < 0x4000_0000 then 4 else 8
  }

  /** The two-bit length tag stored at the top of the first byte. */
  function Tag(size: nat): (t: nat)
    requires size in {1, 2, 4, 8}
  {
    if size == 1 then 0 else if size == 2 then 1 else if size == 4 then 2 else 3
  }

  function TagSize(tag: nat): (n: nat)
    requires tag < 4
  {
    if tag == 0 then 1 else if tag == 1 then 2 else if tag == 2 then 4 else 8
  }

  function EncodeVarInt(x: nat): (s: Bytes)
    requires x < MAX
  {
    var k := Size(x);
    ToBE(Tag(k) * 64 * Pow256(k - 1) + x, k)
  }

  /** The value and the number of bytes consumed, or nothing when the input ends early. */
  function DecodeVarInt(data: Bytes): (r: Option<(nat, nat)>)
    ensures r.Some? ==> 0 < r.value.1 <= |data|
  {
    if data == [] then None
    else
      var n := TagSize(data[0] / 64);
      if |data| < n then None
      else Some((FromBE([data[0] % 64] + data[1..n]), n))
  }

  /** The six bits of a value that share the first byte with the tag, and the rest. */
  function Split(x: nat): (nat, nat)
    requires x < MAX
  {
    if x < 0x40 then (x, 0)
    else if x < 0x4000 then (x / 0x100, x % 0x100)
    else if x < 0x4000_0000 then (x / 0x100_0000, x % 0x100_0000)
    else (x / 0x100_0000_0000_0000, x % 0x100_0000_0000_0000)
  }

  lemma SplitParts(x: nat)
    requires x < MAX
    ensures var (top, low), p := Split(x), Pow256(Size(x) - 1);
            top < 64 && low < p && x == top * p + low
  {
    Powers();
  }

  lemma TaggedTop(tag: nat, top: nat, p: nat, low: nat)
    ensures (tag * 64 + top) * p + low == tag * 64 * p + (top * p + low)
  {
  }

  /** The first byte carries tag and top six bits; the others carry the rest. */
  lemma EncodeShape(x: nat)
    requires x < MAX
    ensures |EncodeVarInt(x)| == Size(x)
    ensures EncodeVarInt(x) == [Tag(Size(x)) * 64 + Split(x).0] + ToBE(Split(x).1, Size(x) - 1)
  {
    SplitParts(x);
    var k := Size(x);
    var (top, low) := Split(x);
    TaggedTop(Tag(k), top, Pow256(k - 1), low);
    ToBETop(Tag(k) * 64 + top, low, k - 1);
  }

  /** Every value below 2^62 is read back, consuming exactly its own bytes. */
  lemma RoundTrip(x: nat, rest: Bytes)
    requires x < MAX
    ensures DecodeVarInt(EncodeVarInt(x) + rest) == Some((x, Size(x)))
  {
    EncodeShape(x);
    SplitParts(x);
    var k := Size(x);
    var (top, low) := Split(x);
    var data := EncodeVarInt(x) + rest;
    assert data[0] == Tag(k) * 64 + top;
    assert data[1..k] == ToBE(low, k - 1);
    var s: Bytes := [top] + ToBE(low, k - 1);
    assert FromBE(s) == x by {
      assert s[1..] == ToBE(low, k - 1);
      FromBEHead(s);
      FromToBE(low, k - 1);
    }
  }

  /** What a decoded value is made of. */
  lemma DecodeShape(data: Bytes)
    requires DecodeVarInt(data).Some?
    ensures var (x, n) := DecodeVarInt(data).value;
            && n == TagSize(data[0] / 64)
            && x == (data[0] % 64) * Pow256(n - 1) + FromBE(data[1..n])
            && FromBE(data[1..n]) < Pow256(n - 1)
            && ToBE(FromBE(data[1..n]), n - 1) == data[1..n]
  {
    var n := DecodeVarInt(data).value.1;
    var t := data[1..n];
    FromBEBound(t);
    ToFromBE(t);
    FromBEHead([data[0] % 64] + t);
    assert ([data[0] % 64] + t)[1..] == t;
  }

  lemma SplitUnique(x: nat, n: nat, top: nat, low: nat)
    requires n in {1, 2, 4, 8}
    requires top < 64 && low < Pow256(n - 1) && x == top * Pow256(n - 1) + low
    ensures x < MAX && Size(x) <= n
    ensures Size(x) == n ==> Split(x) == (top, low)
  {
    Powers();
    if n == 1 {
      assert x == top;
    } else if n == 2 {
      assert x == top * 0x100 + low;
    } else if n == 4 {
      assert x == top * 0x100_0000 + low;
    } else {
      assert x == top * 0x100_0000_0000_0000 + low;
    }
  }

  /** Whatever decodes is below 2^62, its length is the one the top two bits select,
      and it is never shorter than the canonical encoding. */
  lemma DecodedIsBounded(data: Bytes)
    requires DecodeVarInt(data).Some?
    ensures var (x, n) := DecodeVarInt(data).value;
            x < MAX && n == TagSize(data[0] / 64) && Size(x) <= n
  {
    DecodeShape(data);
    var (x, n) := DecodeVarInt(data).value;
    SplitUnique(x, n, data[0] % 64, FromBE(data[1..n]));
  }

  lemma TagTop(b: byte)
    ensures Tag(TagSize(b / 64)) * 64 + b % 64 == b
  {
  }

  /** What was read is the canonical encoding exactly when it is not longer than that. */
  lemma CanonicalIffShortest(data: Bytes)
    requires DecodeVarInt(data).Some?
    ensures var (x, n) := DecodeVarInt(data).value;
            && x < MAX
            && (Size(x) == n <==> EncodeVarInt(x) == data[..n])
  {
    var (x, n) := DecodeVarInt(data).value;
    DecodedIsBounded(data);
    EncodeShape(x);
    if Size(x) == n {
      var top, low := data[0] % 64, data[1..n];
      assert Split(x) == (top, FromBE(low)) && ToBE(FromBE(low), n - 1) == low by {
        DecodeShape(data);
        SplitUnique(x, n, top, FromBE(low));
      }
      TagTop(data[0]);
      assert data[..n] == [data[0]] + low;
    }
  }

  // ---------------------------------------------------------------- the code's own form

  /** A byte source that is consumed from the front (`bytes::Buf` over a slice). */
  class Reader {
    var rest: Bytes

    constructor (data: Bytes)
      ensures rest == data
    {
      rest := data;
    }

    method GetU8() returns (b: byte)
      requires rest != []
      modifies this
      ensures b == old(rest)[0] && rest == old(rest)[1..]
    {
      b := rest[0];
      rest := rest[1..];
    }

    method CopyToSlice(buf: array<byte>, lo: nat, hi: nat)
      requires lo <= hi <= buf.Length
      requires hi - lo <= |rest|
      modifies this, buf
      ensures buf[..] == old(buf[..lo]) + old(rest)[..hi - lo] + old(buf[hi..])
      ensures rest == old(rest)[hi - lo..]
    {
      forall i | lo <= i < hi {
        buf[i] := rest[i - lo];
      }
      rest := rest[hi - lo..];
    }
  }

  /** Reads one variable-length integer and leaves the reader after it. */
  method DecodeFrom(r: Reader) returns (x: Option<nat>)
    modifies r
    ensures var d := DecodeVarInt(old(r.rest));
            && x.Some? == d.Some?
            && (x.Some? ==> x.value == d.value.0 && r.rest == old(r.rest)[d.value.1..])
  {
    if r.rest == [] {
      return None;
    }
    ghost var data := r.rest;
    var buf := new byte[8](_ => 0);
    buf[0] := r.GetU8();
    var tag := buf[0] / 64;
    buf[0] := buf[0] % 64;
    if tag == 0 {
      assert [data[0] % 64] + data[1..1] == buf[..1];
      assert FromBE(buf[..1]) == buf[0] by { FromBEHead(buf[..1]); Powers(); assert buf[..1][1..] == []; }
      return Some(buf[0]);
    }
    var n := if tag == 1 then 2 else if tag == 2 then 4 else 8;
    if |r.rest| < n - 1 {
      return None;
    }
    r.CopyToSlice(buf, 1, n);
    assert buf[..n] == buf[..][..n] == [data[0] % 64] + data[1..n];
    return Some(FromBE(buf[..n]));
  }

  // ---------------------------------------------------------------- type keys

  type u16 = x: int | 0 <= x < 0x1_0000

  function TypeKey(key: u16): (s: Bytes) {
    EncodeVarInt(key)
  }

  function DecodeTypeKey(data: Bytes): (r: Result<(u16, nat), MessageError>)
    ensures r.Ok? ==> r.value.1 <= |data|
  {
    match DecodeVarInt(data)
    case None => Err(DecodeFailed)
    case Some((x, n)) => if x < 0x1_0000 then Ok((x, n)) else Err(InvalidMessageType)
  }

  lemma TypeKeyRoundTrip(key: u16, rest: Bytes)
    ensures DecodeTypeKey(TypeKey(key) + rest) == Ok((key, |TypeKey(key)|))
    ensures (TypeKey(key) + rest)[|TypeKey(key)|..] == rest
    ensures 0x40 <= key < 0x4000 ==> |TypeKey(key)| == 2
  {
    RoundTrip(key, rest);
    EncodeShape(key);
  }

  method EncodeTypeKey(key: u16, buf: ByteVec) returns (r: Result<(), MessageError>)
    requires buf.Valid()
    modifies buf
    ensures Appended(old(buf.items), TypeKey(key), buf.capacity, r.Ok?, buf.items)
    ensures r.Err? ==> r.error == BufferFull
  {
    var size := Size(key);
    EncodeShape(key);
    if |buf.items| + size > buf.capacity {
      return Err(BufferFull);
    }
    var temp := EncodeVarInt(key);
    var ok := buf.ExtendFromSlice(temp);
    r := if ok then Ok(()) else Err(BufferFull);
  }

  method DecodeTypeKeyFrom(data: Bytes) returns (r: Result<(u16, nat), MessageError>)
    ensures r == DecodeTypeKey(data)
  {
    var cursor := new Reader(data);
    var x := DecodeFrom(cursor);
    if x.None? {
      return Err(DecodeFailed);
    }
    var consumed := |data| - |cursor.rest|;
    if x.value < 0x1_0000 {
      r := Ok((x.value, consumed));
    } else {
      r := Err(InvalidMessageType);
    }
  }
}
