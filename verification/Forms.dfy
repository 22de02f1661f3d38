/** The number, head and text formats byte by byte, with every constant written out: what the
    encoders of `VarInt` and `Cbor` emit, and exactly what their decoders accept. */
module Forms {
  import opened Basics
  import opened VarInt
  import opened Cbor

  // ---------------------------------------------------------------- big-endian numbers

  function At(s: Bytes, i: nat): nat
    requires i < |s|
  {
    s[i]
  }

  lemma OneByteNumber(s: Bytes)
    requires |s| == 1
    ensures FromBE(s) == s[0]
  {
    assert s[..0] == [];
  }

  lemma TwoByteNumber(s: Bytes)
    requires |s| == 2
    ensures FromBE(s) == At(s, 0) * 0x100 + s[1]
  {
    OneByteNumber(s[..1]);
  }

  lemma FourByteNumber(s: Bytes)
    requires |s| == 4
    ensures FromBE(s) == At(s, 0) * 0x100_0000 + At(s, 1) * 0x1_0000 + At(s, 2) * 0x100 + s[3]
  {
    TwoByteNumber(s[..2]);
    assert s[..3][..2] == s[..2];
  }

  lemma EightByteNumber(s: Bytes)
    requires |s| == 8
    ensures FromBE(s) == At(s, 0) * 0x100_0000_0000_0000 + At(s, 1) * 0x1_0000_0000_0000 + At(s, 2) * 0x100_0000_0000 + At(s, 3) * 0x1_0000_0000
                         + At(s, 4) * 0x100_0000 + At(s, 5) * 0x1_0000 + At(s, 6) * 0x100 + s[7]
  {
    FourByteNumber(s[..4]);
    assert s[..5][..4] == s[..4] && s[..6][..5] == s[..5] && s[..7][..6] == s[..6];
    assert FromBE(s[..5]) == FromBE(s[..4]) * 0x100 + s[4];
    assert FromBE(s[..6]) == FromBE(s[..5]) * 0x100 + s[5];
    assert FromBE(s[..7]) == FromBE(s[..6]) * 0x100 + s[6];
  }

  lemma TwoBytes(n: nat)
    requires n < 0x1_0000
    ensures ToBE(n, 2) == [n / 0x100, n % 0x100]
  {
    TwoByteNumber([n / 0x100, n % 0x100]);
    ToFromBE([n / 0x100, n % 0x100]);
  }

  lemma FourBytes(n: nat)
    requires n < 0x1_0000_0000
    ensures ToBE(n, 4) == [n / 0x100_0000, n / 0x1_0000 % 0x100, n / 0x100 % 0x100, n % 0x100]
  {
    var high := n / 0x1_0000;
    TwoBytes(high);
    assert n / 0x100 / 0x100 == high && high / 0x100 == n / 0x100_0000;
    assert ToBE(n / 0x100, 3) == ToBE(high, 2) + [n / 0x100 % 0x100];
  }

  // ---------------------------------------------------------------- variable-length integers

  /** The number of bytes that the first one announces. */
  function Announced(b: byte): nat {
    if b < 64 then 1 else if b < 128 then 2 else if b < 192 then 4 else 8
  }

  /** A variable-length integer decodes exactly if the bytes its first byte announces are
      there, to the number they spell without the two top bits. */
  lemma VarIntDecodesExactly(data: Bytes)
    ensures DecodeVarInt(data).Some? <==> data != [] && |data| >= Announced(data[0])
    ensures DecodeVarInt(data).Some? ==> DecodeVarInt(data).value.1 == Announced(data[0])
    ensures DecodeVarInt(data).Some? && Announced(data[0]) == 1 ==> DecodeVarInt(data).value.0 == data[0]
    ensures DecodeVarInt(data).Some? && Announced(data[0]) == 2 ==>
            DecodeVarInt(data).value.0 == (At(data, 0) - 64) * 0x100 + data[1]
    ensures DecodeVarInt(data).Some? && Announced(data[0]) == 4 ==>
            DecodeVarInt(data).value.0 == (At(data, 0) - 128) * 0x100_0000 + At(data, 1) * 0x1_0000 + At(data, 2) * 0x100 + data[3]
    ensures DecodeVarInt(data).Some? && Announced(data[0]) == 8 ==>
            DecodeVarInt(data).value.0 == (At(data, 0) - 192) * 0x100_0000_0000_0000 + At(data, 1) * 0x1_0000_0000_0000
              + At(data, 2) * 0x100_0000_0000 + At(data, 3) * 0x1_0000_0000 + At(data, 4) * 0x100_0000 + At(data, 5) * 0x1_0000
              + At(data, 6) * 0x100 + data[7]
  {
    if DecodeVarInt(data).Some? {
      var n := Announced(data[0]);
      var s := [data[0] % 64] + data[1..n];
      if n == 1 { OneByteNumber(s); }
      if n == 2 { TwoByteNumber(s); }
      if n == 4 { FourByteNumber(s); }
      if n == 8 { EightByteNumber(s); }
    }
  }

  /** The bytes of a type key, in one, two or four bytes. */
  lemma TypeKeyBytes(key: u16)
    ensures TypeKey(key) ==
            if key < 64 then [key]
            else if key < 0x4000 then [64 + key / 0x100, key % 0x100]
            else [128, 0, key / 0x100, key % 0x100]
  {
    Powers();
    EncodeShape(key);
    if 64 <= key < 0x4000 {
      OneByteNumber([key % 0x100]);
      ToFromBE([key % 0x100]);
    } else if key >= 0x4000 {
      var tail: Bytes := [0, key / 0x100, key % 0x100];
      assert tail[..2] == [0, key / 0x100];
      TwoByteNumber(tail[..2]);
      ToFromBE(tail);
    }
  }

  /** What a type key decoder accepts and how it fails. */
  lemma TypeKeyDecodesExactly(data: Bytes)
    ensures DecodeTypeKey(data) ==
            match DecodeVarInt(data)
            case None => Err(DecodeFailed)
            case Some((x, n)) => if x <= 65535 then Ok((x, n)) else Err(InvalidMessageType)
  {
  }

  // ---------------------------------------------------------------- heads

  /** The bytes of a head. */
  lemma HeadBytes(major: nat, n: nat)
    requires major < 8 && n < 0x1_0000_0000
    ensures EncodeHead(major, n) ==
            if n < 24 then [major * 32 + n]
            else if n < 0x100 then [major * 32 + 24, n]
            else if n < 0x1_0000 then [major * 32 + 25, n / 0x100, n % 0x100]
            else [major * 32 + 26, n / 0x100_0000, n / 0x1_0000 % 0x100, n / 0x100 % 0x100, n % 0x100]
  {
    if n < 0x1_0000 { TwoBytes(n); }
    FourBytes(n);
  }

  lemma LongHeadBytes(major: nat, n: nat)
    requires major < 8 && 0x1_0000_0000 <= n < 0x1_0000_0000_0000_0000
    ensures |EncodeHead(major, n)| == 9 && EncodeHead(major, n)[0] == major * 32 + 27
    ensures EncodeHead(major, n)[1..5] == ToBE(n / 0x1_0000_0000, 4) && EncodeHead(major, n)[5..] == ToBE(n % 0x1_0000_0000, 4)
  {
    Powers();
    var hi, lo := ToBE(n / 0x1_0000_0000, 4), ToBE(n % 0x1_0000_0000, 4);
    FromToBE(n / 0x1_0000_0000, 4);
    FromToBE(n % 0x1_0000_0000, 4);
    var s := hi + lo;
    assert s[..4] == hi && s[4..] == lo;
    EightByteNumber(s);
    FourByteNumber(hi);
    FourByteNumber(lo);
    ToFromBE(s);
  }

  /** Every width of argument is accepted, shortest or not, the reserved ones are not, and
      the indefinite-length form has no argument. */
  lemma HeadDecodesExactly(s: Bytes)
    requires s != []
    ensures var major, info := s[0] / 32, s[0] % 32;
            ParseHead(s) ==
            if info < 24 then Some(Head(major, Some(info), s[1..]))
            else if info == 24 then (if |s| < 2 then None else Some(Head(major, Some(s[1]), s[2..])))
            else if info == 25 then (if |s| < 3 then None else Some(Head(major, Some(At(s, 1) * 0x100 + s[2]), s[3..])))
            else if info == 26 then
              (if |s| < 5 then None
               else Some(Head(major, Some(At(s, 1) * 0x100_0000 + At(s, 2) * 0x1_0000 + At(s, 3) * 0x100 + s[4]), s[5..])))
            else if info == 27 then
              (if |s| < 9 then None
               else Some(Head(major, Some(At(s, 1) * 0x100_0000_0000_0000 + At(s, 2) * 0x1_0000_0000_0000 + At(s, 3) * 0x100_0000_0000
                                          + At(s, 4) * 0x1_0000_0000 + At(s, 5) * 0x100_0000 + At(s, 6) * 0x1_0000 + At(s, 7) * 0x100 + s[8]), s[9..])))
            else if info == 31 then Some(Head(major, None, s[1..]))
            else None
  {
    var info := s[0] % 32;
    if info == 24 && |s| >= 2 { OneByteNumber(s[1..2]); }
    if info == 25 && |s| >= 3 { TwoByteNumber(s[1..3]); }
    if info == 26 && |s| >= 5 { FourByteNumber(s[1..5]); }
    if info == 27 && |s| >= 9 { EightByteNumber(s[1..9]); }
  }

  /** Which items a head introduces: major type 0 is an unsigned integer, 2 a byte string,
      3 a text string, 4 an array and 5 a map. */
  lemma ItemsExact(s: Bytes, bound: nat)
    ensures match ParseHead(s)
            case None =>
              ParseUint(s, bound) == None && ParseBytes(s) == None && ParseStr(s) == None
              && ParseArray(s) == None && ParseMap(s) == None
            case Some(Head(major, arg, rest)) =>
              && ParseUint(s, bound) == (if major == 0 && arg.Some? && arg.value < bound then Some((arg.value, rest)) else None)
              && ParseBytes(s) == (if major == 2 && arg.Some? && arg.value <= |rest|
                                   then Some((rest[..arg.value], rest[arg.value..])) else None)
              && ParseStr(s) == (if major == 3 && arg.Some? && arg.value <= |rest| && ValidUtf8(rest[..arg.value])
                                 then Some((rest[..arg.value], rest[arg.value..])) else None)
              && ParseArray(s) == (if major == 4 then Some((arg, rest)) else None)
              && ParseMap(s) == (if major == 5 then Some((arg, rest)) else None)
  {
  }

  // ---------------------------------------------------------------- text

  /** A Unicode scalar value: any code point but the surrogates. */
  predicate Scalar(c: nat) {
    c < 0xD800 || 0xE000 <= c < 0x11_0000
  }

  /** Its bytes (section 3 of RFC 3629). */
  function ScalarBytes(c: nat): Bytes
    requires Scalar(c)
  {
    if c < 0x80 then [c]
    else if c < 0x800 then [0xC0 + c / 0x40, 0x80 + c % 0x40]
    else if c < 0x1_0000 then [0xE0 + c / 0x1000, 0x80 + c / 0x40 % 0x40, 0x80 + c % 0x40]
    else [0xF0 + c / 0x4_0000, 0x80 + c / 0x1000 % 0x40, 0x80 + c / 0x40 % 0x40, 0x80 + c % 0x40]
  }

  type Text = cs: seq<nat> | forall i :: 0 <= i < |cs| ==> Scalar(cs[i])

  function TextBytes(cs: Text): Bytes {
    if cs == [] then [] else ScalarBytes(cs[0]) + TextBytes(cs[1..])
  }

  lemma ScalarAccepted(c: nat, rest: Bytes)
    requires Scalar(c)
    ensures ScalarLength(ScalarBytes(c) + rest) == |ScalarBytes(c)|
  {
    var s := ScalarBytes(c) + rest;
    assert forall i :: 0 <= i < |ScalarBytes(c)| ==> s[i] == ScalarBytes(c)[i];
  }

  lemma SixBits(a: nat, b: nat, c: nat, d: nat)
    requires b < 0x40 && c < 0x40 && d < 0x40
    ensures (a * 0x40 + b) / 0x40 == a && (a * 0x40 + b) % 0x40 == b
    ensures var n := a * 0x1000 + b * 0x40 + c;
            n / 0x1000 == a && n / 0x40 % 0x40 == b && n % 0x40 == c
    ensures var n := a * 0x4_0000 + b * 0x1000 + c * 0x40 + d;
            n / 0x4_0000 == a && n / 0x1000 % 0x40 == b && n / 0x40 % 0x40 == c && n % 0x40 == d
  {
    var n := a * 0x4_0000 + b * 0x1000 + c * 0x40 + d;
    assert n / 0x40 == a * 0x1000 + b * 0x40 + c;
    assert n / 0x1000 == a * 0x40 + b;
  }

  lemma AcceptedTwo(s: Bytes) returns (c: nat)
    requires s != [] && ScalarLength(s) == 2
    ensures Scalar(c) && ScalarBytes(c) == s[..2]
  {
    c := (At(s, 0) - 0xC0) * 0x40 + (At(s, 1) - 0x80);
    SixBits(At(s, 0) - 0xC0, At(s, 1) - 0x80, 0, 0);
  }

  lemma AcceptedThree(s: Bytes) returns (c: nat)
    requires s != [] && ScalarLength(s) == 3
    ensures Scalar(c) && ScalarBytes(c) == s[..3]
  {
    c := (At(s, 0) - 0xE0) * 0x1000 + (At(s, 1) - 0x80) * 0x40 + (At(s, 2) - 0x80);
    SixBits(At(s, 0) - 0xE0, At(s, 1) - 0x80, At(s, 2) - 0x80, 0);
  }

  lemma AcceptedFour(s: Bytes) returns (c: nat)
    requires s != [] && ScalarLength(s) == 4
    ensures Scalar(c) && ScalarBytes(c) == s[..4]
  {
    c := (At(s, 0) - 0xF0) * 0x4_0000 + (At(s, 1) - 0x80) * 0x1000 + (At(s, 2) - 0x80) * 0x40 + (At(s, 3) - 0x80);
    SixBits(At(s, 0) - 0xF0, At(s, 1) - 0x80, At(s, 2) - 0x80, At(s, 3) - 0x80);
  }

  lemma AcceptedScalar(s: Bytes) returns (c: nat)
    requires s != [] && ScalarLength(s) > 0
    ensures Scalar(c) && ScalarBytes(c) == s[..ScalarLength(s)]
  {
    var n := ScalarLength(s);
    if n == 1 {
      c := s[0];
    } else if n == 2 {
      c := AcceptedTwo(s);
    } else if n == 3 {
      c := AcceptedThree(s);
    } else {
      c := AcceptedFour(s);
    }
  }

  lemma {:induction false} TextIsValid(cs: Text)
    ensures ValidUtf8(TextBytes(cs))
  {
    if cs != [] {
      var head, tail := ScalarBytes(cs[0]), TextBytes(cs[1..]);
      ScalarAccepted(cs[0], tail);
      TextIsValid(cs[1..]);
      assert (head + tail)[|head|..] == tail;
    }
  }

  lemma TextCons(c: nat, cs: Text) returns (more: Text)
    requires Scalar(c)
    ensures TextBytes(more) == ScalarBytes(c) + TextBytes(cs)
  {
    more := [c] + cs;
    assert more[1..] == cs;
  }

  lemma {:induction false} ValidIsText(s: Bytes) returns (cs: Text)
    requires ValidUtf8(s)
    ensures TextBytes(cs) == s
  {
    if s == [] {
      cs := [];
    } else {
      var n := ScalarLength(s);
      var c := AcceptedScalar(s);
      var rest := ValidIsText(s[n..]);
      cs := TextCons(c, rest);
      assert s == s[..n] + s[n..];
    }
  }

  /** A byte string is accepted as text if and only if it is the UTF-8 encoding of some
      sequence of scalar values. */
  lemma Utf8Exact(s: Bytes)
    ensures ValidUtf8(s) <==> exists cs: Text :: TextBytes(cs) == s
  {
    if ValidUtf8(s) {
      var cs := ValidIsText(s);
    }
    forall cs: Text | TextBytes(cs) == s ensures ValidUtf8(s) {
      TextIsValid(cs);
    }
  }
}
