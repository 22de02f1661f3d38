/** The four authentication messages byte by byte, every constant written out: what is sent,
    that it is read back, and what each entry of a map may be. */
module WireBytes {
  import opened Basics
  import opened VarInt
  import opened Cbor
  import opened Parsing
  import opened Messages
  import opened MessageTheorems
  import opened Forms

  // ---------------------------------------------------------------- items

  function Four(n: nat): Bytes
    requires n < 0x1_0000_0000
  {
    [n / 0x100_0000, n / 0x1_0000 % 0x100, n / 0x100 % 0x100, n % 0x100]
  }

  /** A length or a number under the first three bits `top`. */
  function Head(top: nat, n: nat): Bytes
    requires top in {0x00, 0x40, 0x60, 0x80, 0xA0} && n < 0x1_0000_0000_0000_0000
  {
    if n < 24 then [top + n]
    else if n < 0x100 then [top + 24, n]
    else if n < 0x1_0000 then [top + 25, n / 0x100, n % 0x100]
    else if n < 0x1_0000_0000 then [top + 26] + Four(n)
    else [top + 27] + Four(n / 0x1_0000_0000) + Four(n % 0x1_0000_0000)
  }

  lemma HeadIs(major: nat, top: nat, n: nat)
    requires major in {0, 2, 3, 4, 5} && top == major * 32 && n < 0x1_0000_0000_0000_0000
    ensures EncodeHead(major, n) == Head(top, n)
  {
    if n < 0x1_0000_0000 {
      HeadBytes(major, n);
    } else {
      LongHeadBytes(major, n);
      FourBytes(n / 0x1_0000_0000);
      FourBytes(n % 0x1_0000_0000);
      var s := EncodeHead(major, n);
      assert s == [s[0]] + s[1..5] + s[5..];
    }
  }

  function Number(n: nat): Bytes
    requires n < 0x1_0000_0000_0000_0000
  {
    Head(0x00, n)
  }

  function Blob(b: Bytes): Bytes
    requires |b| < 0x1_0000_0000_0000_0000
  {
    Head(0x40, |b|) + b
  }

  function Str(t: Bytes): Bytes
    requires |t| < 0x1_0000_0000_0000_0000
  {
    Head(0x60, |t|) + t
  }

  lemma ItemBytes(n: nat)
    requires n < 0x1_0000_0000_0000_0000
    ensures EncodeUint(n) == Number(n)
    ensures EncodeHead(ARRAY, n) == Head(0x80, n) && EncodeHead(MAP, n) == Head(0xA0, n)
  {
    HeadIs(0, 0x00, n);
    HeadIs(4, 0x80, n);
    HeadIs(5, 0xA0, n);
  }

  lemma StringBytes(s: Bytes)
    requires |s| < 0x1_0000_0000_0000_0000
    ensures EncodeBytes(s) == Blob(s) && EncodeStr(s) == Str(s)
  {
    HeadIs(2, 0x40, |s|);
    HeadIs(3, 0x60, |s|);
  }

  lemma KeyBytes()
    ensures TypeKey(CAPABILITIES_KEY) == [0x43, 0xE9] && TypeKey(CONFIRMATION_KEY) == [0x43, 0xEB]
    ensures TypeKey(STATUS_KEY) == [0x43, 0xEC] && TypeKey(HANDSHAKE_KEY) == [0x43, 0xED]
  {
    TypeKeyBytes(CAPABILITIES_KEY);
    TypeKeyBytes(CONFIRMATION_KEY);
    TypeKeyBytes(STATUS_KEY);
    TypeKeyBytes(HANDSHAKE_KEY);
  }

  // ---------------------------------------------------------------- codes

  predicate PskStatusCode(n: nat, p: PskStatus) {
    match p
    case PskNeedsPresentation => n == 0
    case PskShown => n == 1
    case PskInput => n == 2
  }

  predicate EaseCode(n: nat, e: PskInputEase) {
    match e
    case Unknown => n == 0
    case Simple => n == 1
    case Moderate => n == 2
    case Hard => n == 3
  }

  predicate MethodCode(n: nat, m: PskInputMethod) {
    match m
    case Numeric => n == 0
    case QrCode => n == 1
    case Nfc => n == 2
  }

  predicate ResultCode(n: nat, c: StatusCode) {
    match c
    case StatusOk => n == 0
    case AuthenticationFailed => n == 1
    case UnknownError => n == 2
    case Timeout => n == 3
    case SecretUnknown => n == 4
    case ProofInvalid => n == 5
  }

  /** The codes of the four enumerations, both ways; every other number is refused. */
  lemma CodesExact(n: nat)
    ensures forall p: PskStatus :: (p.Code() == n <==> PskStatusCode(n, p)) && (PskStatus.FromCode(n) == Ok(p) <==> PskStatusCode(n, p))
    ensures forall e: PskInputEase :: (e.Code() == n <==> EaseCode(n, e)) && (PskInputEase.FromCode(n) == Ok(e) <==> EaseCode(n, e))
    ensures forall m: PskInputMethod :: (m.Code() == n <==> MethodCode(n, m)) && (PskInputMethod.FromCode(n) == Ok(m) <==> MethodCode(n, m))
    ensures forall c: StatusCode :: (c.Code() == n <==> ResultCode(n, c)) && (StatusCode.FromCode(n) == Ok(c) <==> ResultCode(n, c))
  {
  }

  // ---------------------------------------------------------------- what is sent

  /** The entry of an optional token. */
  function TokenEntry(token: Option<Bytes>): Bytes
    requires token.Some? ==> |token.value| < 0x1_0000_0000_0000_0000
  {
    if token.None? then [0x00, 0xA0] else [0x00, 0xA1, 0x00] + Str(token.value)
  }

  lemma TokenEntryIs(token: Option<Bytes>)
    requires token.Some? ==> |token.value| < 0x1_0000_0000_0000_0000
    ensures FieldBytes(TokenField(token)) == TokenEntry(token)
  {
    ItemBytes(0);
    ItemBytes(1);
    if token.Some? {
      StringBytes(token.value);
      assert [0x00] + ([0xA1] + [0x00] + Str(token.value)) == [0x00, 0xA1, 0x00] + Str(token.value);
    }
  }

  lemma StatusEntryIs(p: PskStatus, n: byte)
    requires PskStatusCode(n, p)
    ensures FieldBytes(StatusField(p)) == [0x01, n]
  {
    ItemBytes(1);
    ItemBytes(n);
    assert EncodeUint(p.Code()) == [n] && EncodeUint(1) == [0x01];
  }

  lemma PublicEntryIs(b: Bytes)
    requires |b| < 0x1_0000_0000_0000_0000
    ensures FieldBytes(PublicField(b)) == [0x02] + Blob(b)
  {
    ItemBytes(2);
    StringBytes(b);
  }

  lemma HandshakeWhole(h: Handshake)
    ensures Encode(HandshakeMsg(h)) ==
            TypeKey(HANDSHAKE_KEY) + (EncodeHead(MAP, 3) + (FieldBytes(TokenField(h.token))
            + (FieldBytes(StatusField(h.status)) + FieldBytes(PublicField(h.publicValue)))))
  {
    Concat3(FieldBytes, TokenField(h.token), StatusField(h.status), PublicField(h.publicValue));
  }

  lemma Join(key: Bytes, head: Bytes, a: Bytes, b: Bytes, c: Bytes, d: Bytes)
    ensures key + (head + (a + (b + (c + d)))) == (key + head) + a + (b + c) + d
  {
  }

  lemma MapHeads()
    ensures EncodeHead(MAP, 1) == [0xA1] && EncodeHead(MAP, 2) == [0xA2] && EncodeHead(MAP, 3) == [0xA3]
    ensures EncodeUint(0) == [0x00] && EncodeUint(1) == [0x01] && EncodeUint(2) == [0x02]
  {
    ItemBytes(0);
    ItemBytes(1);
    ItemBytes(2);
    ItemBytes(3);
  }

  /** A handshake: type key 1005, three entries. */
  lemma HandshakeBytes(h: Handshake, n: byte)
    requires |h.publicValue| < 0x1_0000_0000_0000_0000 && (h.token.Some? ==> |h.token.value| < 0x1_0000_0000_0000_0000)
    requires PskStatusCode(n, h.status)
    ensures Encode(HandshakeMsg(h)) == ([0x43, 0xED] + [0xA3]) + TokenEntry(h.token) + ([0x01, n] + [0x02]) + Blob(h.publicValue)
  {
    KeyBytes();
    MapHeads();
    TokenEntryIs(h.token);
    StatusEntryIs(h.status, n);
    PublicEntryIs(h.publicValue);
    HandshakeWhole(h);
    Join([0x43, 0xED], [0xA3], TokenEntry(h.token), [0x01, n], [0x02], Blob(h.publicValue));
  }

  lemma ConfirmationWhole(v: Bytes)
    ensures Encode(ConfirmationMsg(v)) == TypeKey(CONFIRMATION_KEY) + (EncodeHead(MAP, 1) + (EncodeUint(0) + EncodeBytes(v)))
  {
  }

  lemma StatusWhole(c: StatusCode)
    ensures Encode(StatusMsg(c)) == TypeKey(STATUS_KEY) + (EncodeHead(MAP, 1) + (EncodeUint(0) + EncodeUint(c.Code())))
  {
  }

  lemma JoinShort(key: Bytes, k: byte, head: Bytes, zero: Bytes, tail: Bytes)
    requires key == [0x43, k] && head == [0xA1] && zero == [0x00]
    ensures key + (head + (zero + tail)) == [0x43, k, 0xA1, 0x00] + tail
  {
  }

  /** A confirmation: type key 1003, one entry. */
  lemma ConfirmationBytes(v: Bytes)
    requires |v| < 0x1_0000_0000_0000_0000
    ensures Encode(ConfirmationMsg(v)) == [0x43, 0xEB, 0xA1, 0x00] + Blob(v)
  {
    KeyBytes();
    MapHeads();
    StringBytes(v);
    JoinShort(TypeKey(CONFIRMATION_KEY), 0xEB, EncodeHead(MAP, 1), EncodeUint(0), Blob(v));
    ConfirmationWhole(v);
  }

  /** A status: type key 1004, one entry. */
  lemma StatusBytes(c: StatusCode, n: byte)
    requires ResultCode(n, c)
    ensures Encode(StatusMsg(c)) == [0x43, 0xEC, 0xA1, 0x00] + [n]
  {
    KeyBytes();
    MapHeads();
    ItemBytes(n);
    JoinShort(TypeKey(STATUS_KEY), 0xEC, EncodeHead(MAP, 1), EncodeUint(0), [n]);
    StatusWhole(c);
  }

  function MethodCodes(methods: seq<PskInputMethod>): (codes: Bytes)
    ensures |codes| == |methods|
  {
    if methods == [] then []
    else [match methods[0] case Numeric => 0 case QrCode => 1 case Nfc => 2] + MethodCodes(methods[1..])
  }

  lemma {:induction false} MethodBytesAre(methods: seq<PskInputMethod>)
    ensures MethodBytes(methods) == MethodCodes(methods)
  {
    if methods != [] {
      MethodBytesAre(methods[1..]);
      ItemBytes(methods[0].Code());
    }
  }

  lemma CapabilitiesWhole(c: Capabilities, head: Bytes, ease: Bytes, bits: Bytes)
    requires head == EncodeHead(MAP, if c.methods == [] then 2 else 3)
    requires ease == EncodeUint(c.ease.Code()) && bits == EncodeUint(c.minBits)
    ensures Encode(CapabilitiesMsg(c)) ==
            TypeKey(CAPABILITIES_KEY) + (head + ((EncodeUint(0) + ease) + (MethodsEntry(c.methods) + (EncodeUint(2) + bits))))
  {
  }

  lemma JoinMethods(one: Bytes, head: Bytes, k: byte, codes: Bytes)
    requires one == [0x01] && head == [k]
    ensures one + head + codes == [0x01, k] + codes
  {
  }

  lemma MethodsEntryIs(methods: seq<PskInputMethod>)
    requires 0 < |methods| <= 8
    ensures MethodsEntry(methods) == [0x01, 0x80 + |methods|] + MethodCodes(methods)
  {
    MapHeads();
    ItemBytes(|methods|);
    MethodBytesAre(methods);
    JoinMethods(EncodeUint(1), EncodeHead(ARRAY, |methods|), 0x80 + |methods|, MethodBytes(methods));
  }

  lemma JoinCapabilities(n: byte, k: byte, methods: Bytes, bits: Bytes)
    ensures [0x43, 0xE9] + ([0xA2] + (([0x00] + [n]) + ([] + ([0x02] + bits)))) == [0x43, 0xE9, 0xA2, 0x00, n, 0x02] + bits
    ensures [0x43, 0xE9] + ([0xA3] + (([0x00] + [n]) + (([0x01, k] + methods) + ([0x02] + bits))))
         == [0x43, 0xE9, 0xA3, 0x00, n, 0x01, k] + methods + [0x02] + bits
  {
  }

  /** Capabilities: type key 1001, the methods only if there are any. */
  lemma CapabilitiesBytes(c: Capabilities, n: byte)
    requires |c.methods| <= 8 && c.minBits < 0x1_0000_0000 && EaseCode(n, c.ease)
    ensures Encode(CapabilitiesMsg(c)) ==
            if c.methods == [] then [0x43, 0xE9, 0xA2, 0x00, n, 0x02] + Number(c.minBits)
            else [0x43, 0xE9, 0xA3, 0x00, n, 0x01, 0x80 + |c.methods|] + MethodCodes(c.methods) + [0x02] + Number(c.minBits)
  {
    KeyBytes();
    MapHeads();
    ItemBytes(n);
    ItemBytes(c.minBits);
    CapabilitiesWhole(c, if c.methods == [] then [0xA2] else [0xA3], [n], Number(c.minBits));
    JoinCapabilities(n, 0x80 + |c.methods|, MethodCodes(c.methods), Number(c.minBits));
    if c.methods != [] {
      MethodsEntryIs(c.methods);
    }
  }

  // ---------------------------------------------------------------- in full

  lemma Flat(n: byte, token: Bytes, public: Bytes)
    ensures ([0x43, 0xED] + [0xA3]) + [0x00, 0xA0] + ([0x01, n] + [0x02]) + ([0x58, 0x20] + public)
         == [0x43, 0xED, 0xA3, 0x00, 0xA0, 0x01, n, 0x02, 0x58, 0x20] + public
    ensures ([0x43, 0xED] + [0xA3]) + ([0x00, 0xA1, 0x00] + ([0x70] + token)) + ([0x01, n] + [0x02]) + ([0x58, 0x20] + public)
         == [0x43, 0xED, 0xA3, 0x00, 0xA1, 0x00, 0x70] + token + [0x01, n, 0x02, 0x58, 0x20] + public
  {
  }

  /** A handshake without a token and one with a token of 16 bytes; with a public value of 32
      bytes, it reads back whatever follows. */
  lemma HandshakeInFull(status: PskStatus, n: byte, public: Bytes, token: Bytes, rest: Bytes)
    requires |public| == 32 && |token| == 16 && ValidUtf8(token) && PskStatusCode(n, status)
    ensures var plain := [0x43, 0xED, 0xA3, 0x00, 0xA0, 0x01, n, 0x02, 0x58, 0x20] + public;
            && Encode(HandshakeMsg(Handshake(None, status, public))) == plain
            && Decode(plain + rest) == Got(HandshakeMsg(Handshake(None, status, public)))
    ensures var full := [0x43, 0xED, 0xA3, 0x00, 0xA1, 0x00, 0x70] + token + [0x01, n, 0x02, 0x58, 0x20] + public;
            && Encode(HandshakeMsg(Handshake(Some(token), status, public))) == full
            && Decode(full + rest) == Got(HandshakeMsg(Handshake(Some(token), status, public)))
  {
    var plain, full := Handshake(None, status, public), Handshake(Some(token), status, public);
    HandshakeBytes(plain, n);
    HandshakeBytes(full, n);
    Flat(n, token, public);
    MessageRoundTrip(HandshakeMsg(plain), rest);
    MessageRoundTrip(HandshakeMsg(full), rest);
  }

  /** A confirmation of 32 bytes, and each status. */
  lemma ShortInFull(v: Bytes, c: StatusCode, n: byte, rest: Bytes)
    requires |v| == 32 && ResultCode(n, c)
    ensures Encode(ConfirmationMsg(v)) == [0x43, 0xEB, 0xA1, 0x00] + ([0x58, 0x20] + v)
    ensures Decode(([0x43, 0xEB, 0xA1, 0x00] + ([0x58, 0x20] + v)) + rest) == Got(ConfirmationMsg(v))
    ensures Encode(StatusMsg(c)) == [0x43, 0xEC, 0xA1, 0x00] + [n]
    ensures Decode(([0x43, 0xEC, 0xA1, 0x00] + [n]) + rest) == Got(StatusMsg(c))
  {
    ConfirmationBytes(v);
    StatusBytes(c, n);
    MessageRoundTrip(ConfirmationMsg(v), rest);
    MessageRoundTrip(StatusMsg(c), rest);
  }

  /** The capabilities the program sends, with each ease. */
  lemma CapabilitiesInFull(ease: PskInputEase, n: byte, rest: Bytes)
    requires EaseCode(n, ease)
    ensures var bytes := [0x43, 0xE9, 0xA2, 0x00, n, 0x02] + [0x18, 0x40];
            && Encode(CapabilitiesMsg(Capabilities(ease, [], 64))) == bytes
            && Decode(bytes + rest) == Got(CapabilitiesMsg(Capabilities(ease, [], 64)))
  {
    CapabilitiesRead(Capabilities(ease, [], 64), n, [0x18, 0x40], [], rest);
  }

  /** Any capabilities are read back from those bytes, with each ease and each method. */
  lemma CapabilitiesRead(c: Capabilities, n: byte, bits: Bytes, methods: Bytes, rest: Bytes)
    requires |c.methods| <= 8 && c.minBits < 0x1_0000_0000 && EaseCode(n, c.ease)
    requires bits == Number(c.minBits) && methods == MethodCodes(c.methods)
    ensures var bytes := if c.methods == [] then [0x43, 0xE9, 0xA2, 0x00, n, 0x02] + bits
                         else [0x43, 0xE9, 0xA3, 0x00, n, 0x01, 0x80 + |c.methods|] + methods + [0x02] + bits;
            Encode(CapabilitiesMsg(c)) == bytes && Decode(bytes + rest) == Got(CapabilitiesMsg(c))
  {
    CapabilitiesBytes(c, n);
    MessageRoundTrip(CapabilitiesMsg(c), rest);
  }

  // ---------------------------------------------------------------- what is accepted

  /** One entry of a handshake: an empty token map or one text of at most 256 bytes, a status
      code, or a public value of at most 64 bytes; and nothing else. */
  lemma FieldExact(s: Bytes, f: Field, rest: Bytes)
    ensures ParseField(s) == Ok((f, rest)) <==> ParseU8(s).Some? && FieldIs(ParseU8(s).value.0, ParseU8(s).value.1, f, rest)
  {
    if ParseU8(s).Some? {
      var (key, s1) := ParseU8(s).value;
      if key == 1 && ParseU8(s1).Some? {
        CodesExact(ParseU8(s1).value.0);
      }
    }
  }

  predicate FieldIs(key: nat, s: Bytes, f: Field, rest: Bytes) {
    match f
    case TokenField(None) => key == 0 && ParseMap(s) == Some((Some(0), rest))
    case TokenField(Some(t)) =>
      key == 0 && ParseMap(s).Some? && ParseMap(s).value.0 == Some(1)
      && ParseU8(ParseMap(s).value.1).Some? && ParseU8(ParseMap(s).value.1).value.0 == 0
      && ParseStr(ParseU8(ParseMap(s).value.1).value.1) == Some((t, rest)) && |t| <= 256
    case StatusField(p) =>
      key == 1 && ParseU8(s).Some? && ParseU8(s).value.1 == rest && PskStatusCode(ParseU8(s).value.0, p)
    case PublicField(b) => key == 2 && ParseBytes(s) == Some((b, rest)) && |b| <= 64
  }

  /** The body of a status and of a confirmation: a map of one entry with key 0. */
  lemma ShortBodiesExact(s: Bytes, v: Bytes, c: StatusCode, rest: Bytes)
    ensures ParseConfirmationBody(s) == Ok((v, rest)) <==> OnlyEntry(s).Some? && ParseBytes(OnlyEntry(s).value) == Some((v, rest))
    ensures ParseStatusBody(s) == Ok((c, rest))
       <==> && OnlyEntry(s).Some? && ParseU8(OnlyEntry(s).value).Some?
            && ParseU8(OnlyEntry(s).value).value.1 == rest && ResultCode(ParseU8(OnlyEntry(s).value).value.0, c)
  {
    if OnlyEntry(s).Some? && ParseU8(OnlyEntry(s).value).Some? {
      CodesExact(ParseU8(OnlyEntry(s).value).value.0);
    }
  }

  /** What follows the key of the only entry. */
  function OnlyEntry(s: Bytes): Option<Bytes> {
    match ParseMap(s)
    case Some((Some(1), s1)) => (match ParseU8(s1) case Some((0, s2)) => Some(s2) case _ => None)
    case _ => None
  }

  /** The five type keys; any other is refused. */
  lemma KeysExact(key: u16, body: Bytes)
    ensures Decode(TypeKey(key) + body) ==
            if key == 1001 then (match ParseCapabilitiesBody(body) case Ok((c, _)) => Got(CapabilitiesMsg(c)) case Err(e) => Bad(e))
            else if key == 1002 then Unimplemented
            else if key == 1003 then (match ParseConfirmationBody(body) case Ok((v, _)) => Got(ConfirmationMsg(v)) case Err(e) => Bad(e))
            else if key == 1004 then (match ParseStatusBody(body) case Ok((c, _)) => Got(StatusMsg(c)) case Err(e) => Bad(e))
            else if key == 1005 then (match ParseHandshakeBody(body) case Ok((h, _)) => Got(HandshakeMsg(h)) case Err(e) => Bad(e))
            else Bad(InvalidMessageType)
  {
    TypeKeyRoundTrip(key, body);
  }

  // ---------------------------------------------------------------- limits

  lemma FirstFails(s: Bytes, n: nat, acc: Fields, e: MessageError)
    requires n > 0 && ParseField(s) == Err(e)
    ensures Repeat(FieldStep, s, n, acc) == Err(e)
  {
  }

  lemma LongTokenField(t: Bytes, rest: Bytes)
    requires 256 < |t| < U64 && ValidUtf8(t)
    ensures ParseField(FieldBytes(TokenField(Some(t))) + rest) == Err(FieldTooLong)
  {
    var s2 := EncodeStr(t) + rest;
    var s1 := EncodeUint(0) + s2;
    Regroup3(EncodeHead(MAP, 1), EncodeUint(0), EncodeStr(t), rest);
    Regroup2(EncodeUint(0), TokenBytes(Some(t)), rest);
    U8RoundTrip(0, TokenBytes(Some(t)) + rest);
    LengthRoundTrip(MAP, 1, s1);
    U8RoundTrip(0, s2);
    StrRoundTrip(t, rest);
  }

  lemma LongPublicField(b: Bytes, rest: Bytes)
    requires 64 < |b| < U64
    ensures ParseField(FieldBytes(PublicField(b)) + rest) == Err(FieldTooLong)
  {
    Regroup2(EncodeUint(2), EncodeBytes(b), rest);
    U8RoundTrip(2, EncodeBytes(b) + rest);
    StringRoundTrip(BYTES, b, rest);
  }

  lemma StoresField(f: Field, rest: Bytes, n: nat, acc: Fields)
    requires n > 0 && FieldWithinLimits(f)
    ensures Repeat(FieldStep, FieldBytes(f) + rest, n, acc) == Repeat(FieldStep, rest, n - 1, Put(acc, f))
  {
    FieldRoundTrip(f, rest);
    RepeatStep(FieldStep, FieldBytes(f) + rest, n, acc, rest, Put(acc, f));
  }

  lemma LongLoop(h: Handshake, n: nat)
    requires WellTyped(HandshakeMsg(h)) && n == 3
    requires (h.token.Some? && |h.token.value| > 256) || |h.publicValue| > 64
    ensures Repeat(FieldStep, FieldBytes(TokenField(h.token)) + (FieldBytes(StatusField(h.status)) + FieldBytes(PublicField(h.publicValue))),
                   n, NO_FIELDS) == Err(FieldTooLong)
  {
    var last := FieldBytes(PublicField(h.publicValue));
    var tail := FieldBytes(StatusField(h.status)) + last;
    if h.token.Some? && |h.token.value| > 256 {
      LongTokenField(h.token.value, tail);
      FirstFails(FieldBytes(TokenField(h.token)) + tail, n, NO_FIELDS, FieldTooLong);
    } else {
      StoresField(TokenField(h.token), tail, n, NO_FIELDS);
      var acc := Put(NO_FIELDS, TokenField(h.token));
      StoresField(StatusField(h.status), last, n - 1, acc);
      LongPublicField(h.publicValue, []);
      assert last + [] == last;
      FirstFails(last, n - 2, Put(acc, StatusField(h.status)), FieldTooLong);
    }
  }

  lemma LongBody(s: Bytes, s1: Bytes)
    requires ParseMap(s) == Some((Some(3), s1)) && Repeat(FieldStep, s1, 3, NO_FIELDS) == Err(FieldTooLong)
    ensures ParseHandshakeBody(s) == Err(FieldTooLong)
  {
  }

  /** A handshake is read back if and only if its token has at most 256 bytes and its public
      value at most 64; otherwise it is refused as too long. */
  lemma HandshakeLimits(h: Handshake)
    requires WellTyped(HandshakeMsg(h))
    ensures Decode(Encode(HandshakeMsg(h))) ==
            if (h.token.Some? ==> |h.token.value| <= 256) && |h.publicValue| <= 64 then Got(HandshakeMsg(h)) else Bad(FieldTooLong)
  {
    if (h.token.Some? ==> |h.token.value| <= 256) && |h.publicValue| <= 64 {
      MessageRoundTrip(HandshakeMsg(h), []);
      assert Encode(HandshakeMsg(h)) + [] == Encode(HandshakeMsg(h));
    } else {
      LongHandshake(h);
    }
  }

  lemma LongHandshake(h: Handshake)
    requires WellTyped(HandshakeMsg(h))
    requires (h.token.Some? && |h.token.value| > 256) || |h.publicValue| > 64
    ensures Decode(Encode(HandshakeMsg(h))) == Bad(FieldTooLong)
  {
    var fields := FieldBytes(TokenField(h.token)) + (FieldBytes(StatusField(h.status)) + FieldBytes(PublicField(h.publicValue)));
    LongLoop(h, 3);
    LengthRoundTrip(MAP, 3, fields);
    LongBody(EncodeHead(MAP, 3) + fields, fields);
    HandshakeWhole(h);
    LongDispatch(EncodeHead(MAP, 3) + fields);
  }

  lemma LongDispatch(body: Bytes)
    requires ParseHandshakeBody(body) == Err(FieldTooLong)
    ensures Decode(TypeKey(HANDSHAKE_KEY) + body) == Bad(FieldTooLong)
  {
    KeysExact(HANDSHAKE_KEY, body);
  }
}
