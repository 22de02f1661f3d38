/** The part of RFC 8949 the protocol uses: unsigned integers, byte strings, text
    strings, arrays and maps (major types 0, 2, 3, 4 and 5 of section 3.1). Encoding
    uses the preferred serialization of section 4.1; decoding accepts every width. */
module Cbor {
  import opened Basics
  import opened VarInt

  const UINT := 0
  const BYTES := 2
  const TEXT := 3
  const ARRAY := 4
  const MAP := 5

  const U64 := 0x1_0000_0000_0000_0000

  // ---------------------------------------------------------------- UTF-8 (RFC 3629)

  predicate Continuation(b: byte) {
    0x80 <= b < 0xC0
  }

  /** Length of the well-formed scalar value at the front of `s`, 0 when there is none. */
  function ScalarLength(s: Bytes): (n: nat)
    requires s != []
    ensures n <= |s|
  {
    var b := s[0];
    if b < 0x80 then 1
    else if 0xC2 <= b < 0xE0 then
      if |s| >= 2 && Continuation(s[1]) then 2 else 0
    else if 0xE0 <= b < 0xF0 then
      if |s| >= 3 && Continuation(s[1]) && Continuation(s[2])
         && (b == 0xE0 ==> s[1] >= 0xA0) && (b == 0xED ==> s[1] < 0xA0) then 3 else 0
    else if 0xF0 <= b < 0xF5 then
      if |s| >= 4 && Continuation(s[1]) && Continuation(s[2]) && Continuation(s[3])
         && (b == 0xF0 ==> s[1] >= 0x90) && (b == 0xF4 ==> s[1] < 0x90) then 4 else 0
    else 0
  }

  predicate ValidUtf8(s: Bytes) {
    s == [] || (ScalarLength(s) > 0 && ValidUtf8(s[ScalarLength(s)..]))
  }

  // ---------------------------------------------------------------- heads

  /** The head of a data item in its shortest form. */
  function EncodeHead(major: nat, n: nat): (s: Bytes)
    requires major < 8
    ensures |s| > 0
  {
    if n < 24 then [major * 32 + n]
    else if n < 0x100 then [major * 32 + 24, n]
    else if n < 0x1_0000 then [major * 32 + 25] + ToBE(n, 2)
    else if n < 0x1_0000_0000 then [major * 32 + 26] + ToBE(n, 4)
    else [major * 32 + 27] + ToBE(n, 8)
  }

  /** A parsed head; the argument is absent for the indefinite-length form. */
  datatype Head = Head(major: nat, arg: Option<nat>, rest: Bytes)

  /** How many bytes of argument follow the initial byte. */
  function ArgumentBytes(info: nat): (n: nat)
    requires 24 <= info < 28
    ensures n > 0
  {
    if info == 24 then 1 else if info == 25 then 2 else if info == 26 then 4 else 8
  }

  function ParseArgument(s: Bytes, major: nat, n: nat): (r: Option<Head>)
    requires n > 0
    ensures r.Some? ==> |r.value.rest| < |s|
  {
    if |s| < 1 + n then None
    else Some(Head(major, Some(FromBE(s[1..1 + n])), s[1 + n..]))
  }

  function ParseHead(s: Bytes): (r: Option<Head>)
    ensures r.Some? ==> |r.value.rest| < |s|
  {
    if s == [] then None
    else
      var major, info := s[0] / 32, s[0] % 32;
      if info < 24 then Some(Head(major, Some(info), s[1..]))
      else if info < 28 then ParseArgument(s, major, ArgumentBytes(info))
      else if info == 31 then Some(Head(major, None, s[1..]))
      else None
  }

  lemma Slices(b: byte, t: Bytes, rest: Bytes)
    ensures ([b] + t + rest)[0] == b
    ensures ([b] + t + rest)[1..1 + |t|] == t
    ensures ([b] + t + rest)[1 + |t|..] == rest
  {
  }

  lemma ArgumentRoundTrip(b: byte, t: Bytes, rest: Bytes, major: nat)
    requires t != []
    ensures ParseArgument([b] + t + rest, major, |t|) == Some(Head(major, Some(FromBE(t)), rest))
  {
    Slices(b, t, rest);
  }

  /** A head whose argument follows in one, two, four or eight bytes. */
  lemma WideHead(major: nat, info: nat, t: Bytes, rest: Bytes)
    requires major < 8 && 24 <= info < 28 && |t| == ArgumentBytes(info)
    ensures ParseHead([major * 32 + info] + t + rest) == Some(Head(major, Some(FromBE(t)), rest))
  {
    var b := major * 32 + info;
    assert b / 32 == major && b % 32 == info;
    ArgumentRoundTrip(b, t, rest, major);
    assert ([b] + t + rest)[0] == b;
  }

  lemma OneByte(n: byte)
    ensures FromBE([n]) == n
  {
    assert [n][..0] == [];
  }

  lemma HeadRoundTrip(major: nat, n: nat, rest: Bytes)
    requires major < 8 && n < U64
    ensures ParseHead(EncodeHead(major, n) + rest) == Some(Head(major, Some(n), rest))
  {
    if n < 24 {
      Slices(major * 32 + n, [], rest);
      assert [major * 32 + n] + [] + rest == EncodeHead(major, n) + rest;
    } else if n < 0x100 {
      assert [major * 32 + 24] + [n] == [major * 32 + 24, n];
      WideHead(major, 24, [n], rest);
      OneByte(n);
    } else {
      WideArgument(n);
      var k := if n < 0x1_0000 then 2 else if n < 0x1_0000_0000 then 4 else 8;
      WideHead(major, if k == 2 then 25 else if k == 4 then 26 else 27, ToBE(n, k), rest);
    }
  }

  lemma WideArgument(n: nat)
    ensures n < 0x1_0000 ==> FromBE(ToBE(n, 2)) == n
    ensures n < 0x1_0000_0000 ==> FromBE(ToBE(n, 4)) == n
    ensures n < U64 ==> FromBE(ToBE(n, 8)) == n
  {
    Powers();
    if n < 0x1_0000 { FromToBE(n, 2); }
    if n < 0x1_0000_0000 { FromToBE(n, 4); }
    if n < U64 { FromToBE(n, 8); }
  }

  lemma HeadLength(major: nat, n: nat)
    requires major < 8
    ensures |EncodeHead(major, n)| == if n < 24 then 1 else if n < 0x100 then 2
                                      else if n < 0x1_0000 then 3
                                      else if n < 0x1_0000_0000 then 5 else 9
  {
  }

  // ---------------------------------------------------------------- items

  type Parsed<T> = Option<(T, Bytes)>

  function ParseUint(s: Bytes, bound: nat): (r: Parsed<nat>)
    ensures r.Some? ==> |r.value.1| < |s| && r.value.0 < bound
  {
    match ParseHead(s)
    case Some(Head(0, Some(n), rest)) => if n < bound then Some((n, rest)) else None
    case _ => None
  }

  function ParseU8(s: Bytes): (r: Parsed<nat>)
    ensures r.Some? ==> |r.value.1| < |s| && r.value.0 < 0x100
  {
    ParseUint(s, 0x100)
  }

  function ParseLength(s: Bytes, major: nat): (r: Parsed<Option<nat>>)
    ensures r.Some? ==> |r.value.1| < |s|
  {
    match ParseHead(s)
    case Some(h) => if h.major == major then Some((h.arg, h.rest)) else None
    case None => None
  }

  function ParseMap(s: Bytes): (r: Parsed<Option<nat>>)
    ensures r.Some? ==> |r.value.1| < |s|
  {
    ParseLength(s, MAP)
  }

  function ParseArray(s: Bytes): (r: Parsed<Option<nat>>)
    ensures r.Some? ==> |r.value.1| < |s|
  {
    ParseLength(s, ARRAY)
  }

  function ParseString(s: Bytes, major: nat): (r: Parsed<Bytes>)
    ensures r.Some? ==> |r.value.1| < |s|
  {
    match ParseLength(s, major)
    case Some((Some(n), rest)) => if n <= |rest| then Some((rest[..n], rest[n..])) else None
    case _ => None
  }

  function ParseBytes(s: Bytes): (r: Parsed<Bytes>)
    ensures r.Some? ==> |r.value.1| < |s|
  {
    ParseString(s, BYTES)
  }

  function ParseStr(s: Bytes): (r: Parsed<Bytes>)
    ensures r.Some? ==> |r.value.1| < |s| && ValidUtf8(r.value.0)
  {
    match ParseString(s, TEXT)
    case Some((t, rest)) => if ValidUtf8(t) then Some((t, rest)) else None
    case None => None
  }

  function EncodeUint(n: nat): Bytes {
    EncodeHead(UINT, n)
  }

  function EncodeString(major: nat, s: Bytes): Bytes
    requires major < 8
  {
    EncodeHead(major, |s|) + s
  }

  function EncodeBytes(s: Bytes): Bytes {
    EncodeString(BYTES, s)
  }

  function EncodeStr(s: Bytes): Bytes {
    EncodeString(TEXT, s)
  }

  lemma UintRoundTrip(n: nat, bound: nat, rest: Bytes)
    requires n < bound && n < U64
    ensures ParseUint(EncodeUint(n) + rest, bound) == Some((n, rest))
  {
    HeadRoundTrip(UINT, n, rest);
  }

  lemma LengthRoundTrip(major: nat, n: nat, rest: Bytes)
    requires major < 8 && n < U64
    ensures ParseLength(EncodeHead(major, n) + rest, major) == Some((Some(n), rest))
  {
    HeadRoundTrip(major, n, rest);
  }

  lemma StringRoundTrip(major: nat, s: Bytes, rest: Bytes)
    requires major < 8 && |s| < U64
    ensures ParseString(EncodeString(major, s) + rest, major) == Some((s, rest))
  {
    LengthRoundTrip(major, |s|, s + rest);
    assert EncodeString(major, s) + rest == EncodeHead(major, |s|) + (s + rest);
    assert (s + rest)[..|s|] == s && (s + rest)[|s|..] == rest;
  }

  // ---------------------------------------------------------------- the code's own form

  /** A cursor over the input; every operation consumes what it reads. */
  class Decoder {
    var rest: Bytes

    constructor (data: Bytes)
      ensures rest == data
    {
      rest := data;
    }

    method Uint(bound: nat) returns (r: Option<nat>)
      modifies this
      ensures var p := ParseUint(old(rest), bound);
              && r.Some? == p.Some?
              && (r.Some? ==> (r.value, rest) == p.value)
    {
      var p := ParseUint(rest, bound);
      if p.None? {
        return None;
      }
      rest := p.value.1;
      return Some(p.value.0);
    }

    method Length(major: nat) returns (r: Option<Option<nat>>)
      modifies this
      ensures var p := ParseLength(old(rest), major);
              && r.Some? == p.Some?
              && (r.Some? ==> (r.value, rest) == p.value)
    {
      var p := ParseLength(rest, major);
      if p.None? {
        return None;
      }
      rest := p.value.1;
      return Some(p.value.0);
    }

    method String(major: nat) returns (r: Option<Bytes>)
      modifies this
      ensures var p := ParseString(old(rest), major);
              && r.Some? == p.Some?
              && (r.Some? ==> (r.value, rest) == p.value)
    {
      var n := Length(major);
      if n.None? || n.value.None? || |rest| < n.value.value {
        return None;
      }
      r := Some(rest[..n.value.value]);
      rest := rest[n.value.value..];
    }

    method Str() returns (r: Option<Bytes>)
      modifies this
      ensures var p := ParseStr(old(rest));
              && r.Some? == p.Some?
              && (r.Some? ==> (r.value, rest) == p.value)
    {
      r := String(TEXT);
      if r.Some? && !ValidUtf8(r.value) {
        r := None;
      }
    }
  }

  method PutHead(buf: ByteVec, major: nat, n: nat) returns (ok: bool)
    requires buf.Valid() && major < 8
    modifies buf
    ensures buf.Valid()
    ensures Appended(old(buf.items), EncodeHead(major, n), buf.capacity, ok, buf.items)
  {
    ok := buf.ExtendFromSlice(EncodeHead(major, n));
  }

  method PutString(buf: ByteVec, major: nat, s: Bytes) returns (ok: bool)
    requires buf.Valid() && major < 8
    modifies buf
    ensures buf.Valid()
    ensures Appended(old(buf.items), EncodeString(major, s), buf.capacity, ok, buf.items)
  {
    ok := PutHead(buf, major, |s|);
    if ok {
      ok := buf.ExtendFromSlice(s);
    }
  }
}
