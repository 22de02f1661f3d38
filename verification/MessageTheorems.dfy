/** What the wire format of the authentication messages guarantees. */
module MessageTheorems {
  import opened Basics
  import opened VarInt
  import opened Cbor
  import opened Parsing
  import opened Messages

  // ---------------------------------------------------------------- concatenation

  lemma Regroup2(a: Bytes, b: Bytes, r: Bytes)
    ensures a + b + r == a + (b + r)
  {
  }

  lemma Regroup3(a: Bytes, b: Bytes, c: Bytes, r: Bytes)
    ensures a + b + c + r == a + (b + (c + r))
  {
  }

  lemma RegroupRight3(a: Bytes, b: Bytes, c: Bytes, r: Bytes)
    ensures a + (b + c) + r == a + (b + (c + r))
  {
  }

  // ---------------------------------------------------------------- single entries

  lemma U8RoundTrip(n: nat, rest: Bytes)
    requires n < 0x100
    ensures ParseU8(EncodeUint(n) + rest) == Some((n, rest))
  {
    UintRoundTrip(n, 0x100, rest);
  }

  lemma StrRoundTrip(s: Bytes, rest: Bytes)
    requires |s| < U64 && ValidUtf8(s)
    ensures ParseStr(EncodeStr(s) + rest) == Some((s, rest))
  {
    StringRoundTrip(TEXT, s, rest);
  }

  lemma TokenRoundTrip(token: Option<Bytes>, rest: Bytes)
    requires token.Some? ==> |token.value| <= MAX_STRING_LEN && ValidUtf8(token.value)
    ensures ParseToken(TokenBytes(token) + rest) == Ok((token, rest))
  {
    match token
    case None =>
      LengthRoundTrip(MAP, 0, rest);
    case Some(t) =>
      var s2 := EncodeStr(t) + rest;
      var s1 := EncodeUint(0) + s2;
      Regroup3(EncodeHead(MAP, 1), EncodeUint(0), EncodeStr(t), rest);
      LengthRoundTrip(MAP, 1, s1);
      U8RoundTrip(0, s2);
      StrRoundTrip(t, rest);
  }

  /** The field lengths the decoder accepts, entry by entry. */
  predicate FieldWithinLimits(f: Field) {
    match f
    case TokenField(Some(t)) => |t| <= MAX_STRING_LEN && ValidUtf8(t)
    case PublicField(p) => |p| <= MAX_BYTES_LEN
    case _ => true
  }

  lemma TokenFieldRoundTrip(t: Option<Bytes>, rest: Bytes)
    requires FieldWithinLimits(TokenField(t))
    ensures ParseField(FieldBytes(TokenField(t)) + rest) == Ok((TokenField(t), rest))
  {
    Regroup2(EncodeUint(0), TokenBytes(t), rest);
    U8RoundTrip(0, TokenBytes(t) + rest);
    TokenRoundTrip(t, rest);
  }

  lemma StatusFieldRoundTrip(s: PskStatus, rest: Bytes)
    ensures ParseField(FieldBytes(StatusField(s)) + rest) == Ok((StatusField(s), rest))
  {
    Regroup2(EncodeUint(1), EncodeUint(s.Code()), rest);
    U8RoundTrip(1, EncodeUint(s.Code()) + rest);
    U8RoundTrip(s.Code(), rest);
  }

  lemma PublicFieldRoundTrip(p: Bytes, rest: Bytes)
    requires |p| <= MAX_BYTES_LEN
    ensures ParseField(FieldBytes(PublicField(p)) + rest) == Ok((PublicField(p), rest))
  {
    Regroup2(EncodeUint(2), EncodeBytes(p), rest);
    U8RoundTrip(2, EncodeBytes(p) + rest);
    StringRoundTrip(BYTES, p, rest);
  }

  lemma FieldRoundTrip(f: Field, rest: Bytes)
    requires FieldWithinLimits(f)
    ensures ParseField(FieldBytes(f) + rest) == Ok((f, rest))
  {
    match f
    case TokenField(t) => TokenFieldRoundTrip(t, rest);
    case StatusField(s) => StatusFieldRoundTrip(s, rest);
    case PublicField(p) => PublicFieldRoundTrip(p, rest);
  }

  /** The entries read from a parse are within the limits: no decoded value escapes them. */
  lemma ParsedFieldWithinLimits(s: Bytes)
    requires ParseField(s).Ok?
    ensures FieldWithinLimits(ParseField(s).value.0)
  {
  }

  // ---------------------------------------------------------------- order of the map entries

  lemma FieldStepReads()
    ensures ReadsAndPuts(FieldStep, ParseField, Put)
  {
  }

  lemma SixOrders<F>(a: F, b: F, c: F, t: F, s: F, p: F)
    requires (a, b, c) in {(t, s, p), (t, p, s), (s, t, p), (s, p, t), (p, t, s), (p, s, t)}
    ensures multiset{a, b, c} == multiset{t, s, p}
  {
  }

  /** Three entries that fill all three variables are the entries of `h` in some order. */
  lemma ThreeDistinct(a: Field, b: Field, c: Field, h: Handshake)
    requires Complete(Put(Put(Put(NO_FIELDS, a), b), c)) == Ok(h)
    ensures multiset{a, b, c} == multiset(FieldsOf(h))
  {
    var t, s, p := TokenField(h.token), StatusField(h.status), PublicField(h.publicValue);
    assert FieldsOf(h) == [t, s, p];
    match a
    case TokenField(_) => assert (a, b, c) == (t, s, p) || (a, b, c) == (t, p, s);
    case StatusField(_) => assert (a, b, c) == (s, t, p) || (a, b, c) == (s, p, t);
    case PublicField(_) => assert (a, b, c) == (p, t, s) || (a, b, c) == (p, s, t);
    SixOrders(a, b, c, t, s, p);
  }

  lemma AnyOrderCompletes(a: Field, b: Field, c: Field, h: Handshake)
    requires multiset{a, b, c} == multiset(FieldsOf(h))
    ensures Complete(Put(Put(Put(NO_FIELDS, a), b), c)) == Ok(h)
  {
    var t, s, p := TokenField(h.token), StatusField(h.status), PublicField(h.publicValue);
    var all := multiset{a, b, c};
    assert FieldsOf(h) == [t, s, p];
    assert t in all && s in all && p in all;
  }

  /** Three entries fill all three variables only when each kind occurs once. */
  lemma Pigeonhole(fs: seq<Field>, h: Handshake)
    requires |fs| == 3
    ensures Complete(PutAll(Put, NO_FIELDS, fs)) == Ok(h) <==> multiset(fs) == multiset(FieldsOf(h))
  {
    var a, b, c := fs[0], fs[1], fs[2];
    assert fs == [a, b, c];
    PutAll3(Put, NO_FIELDS, a, b, c);
    if Complete(Put(Put(Put(NO_FIELDS, a), b), c)) == Ok(h) {
      ThreeDistinct(a, b, c, h);
    }
    if multiset(fs) == multiset(FieldsOf(h)) {
      AnyOrderCompletes(a, b, c, h);
    }
  }

  /** A handshake body decodes to `h` exactly when it holds the three entries of `h`,
      each once, in some order. */
  lemma HandshakeOrderExact(s: Bytes, h: Handshake, rest: Bytes)
    ensures ParseHandshakeBody(s) == Ok((h, rest))
       <==> && ParseMap(s).Some? && ParseMap(s).value.0 == Some(3)
            && exists fs :: |fs| == 3 && multiset(fs) == multiset(FieldsOf(h))
                            && Reads(ParseField, ParseMap(s).value.1, fs, rest)
  {
    FieldStepReads();
    if ParseMap(s).Some? && ParseMap(s).value.0 == Some(3) {
      var s1 := ParseMap(s).value.1;
      if ParseHandshakeBody(s) == Ok((h, rest)) {
        var fs := LoopHasRead(FieldStep, ParseField, Put, s1, 3, NO_FIELDS);
        Pigeonhole(fs, h);
      }
      forall fs | |fs| == 3 && multiset(fs) == multiset(FieldsOf(h)) && Reads(ParseField, s1, fs, rest)
        ensures ParseHandshakeBody(s) == Ok((h, rest))
      {
        LoopReads(FieldStep, ParseField, Put, s1, NO_FIELDS, fs, rest);
        Pigeonhole(fs, h);
      }
    }
  }

  /** Order independence: the entries of a handshake, sent in any order, decode to it. */
  lemma AnyOrderDecodes(h: Handshake, fs: seq<Field>, rest: Bytes)
    requires WellTyped(HandshakeMsg(h)) && WithinLimits(HandshakeMsg(h))
    requires multiset(fs) == multiset(FieldsOf(h))
    ensures ParseHandshakeBody(EncodeHead(MAP, 3) + (Concat(FieldBytes, fs) + rest)) == Ok((h, rest))
  {
    var body := Concat(FieldBytes, fs) + rest;
    LengthRoundTrip(MAP, 3, body);
    assert |fs| == |multiset(fs)| == |multiset(FieldsOf(h))| == 3;
    forall f, r | f in fs ensures ParseField(FieldBytes(f) + r) == Ok((f, r)) {
      assert f in multiset(fs);
      assert f in FieldsOf(h);
      FieldRoundTrip(f, r);
    }
    ConcatReads(ParseField, FieldBytes, fs, rest);
    HandshakeOrderExact(EncodeHead(MAP, 3) + body, h, rest);
  }

  // ---------------------------------------------------------------- round trips

  lemma {:induction false} MethodsRoundTrip(methods: seq<PskInputMethod>, before: seq<PskInputMethod>, rest: Bytes)
    requires |before| + |methods| <= MAX_METHODS
    ensures Repeat(MethodStep, MethodBytes(methods) + rest, |methods|, before) == Ok((before + methods, rest))
    decreases |methods|
  {
    if methods == [] {
      assert MethodBytes(methods) + rest == rest;
      assert before + methods == before;
    } else {
      var tail := MethodBytes(methods[1..]) + rest;
      assert MethodBytes(methods) + rest == EncodeUint(methods[0].Code()) + tail;
      U8RoundTrip(methods[0].Code(), tail);
      RepeatStep(MethodStep, MethodBytes(methods) + rest, |methods|, before, tail, before + [methods[0]]);
      MethodsRoundTrip(methods[1..], before + [methods[0]], rest);
      assert before + [methods[0]] + methods[1..] == before + methods;
    }
  }

  lemma EaseStep(ease: PskInputEase, rest: Bytes, acc: CapsFields)
    ensures CapsStep(EncodeUint(0) + (EncodeUint(ease.Code()) + rest), acc) == Ok((acc.(ease := Some(ease)), rest))
  {
    U8RoundTrip(0, EncodeUint(ease.Code()) + rest);
    U8RoundTrip(ease.Code(), rest);
  }

  lemma MethodsEntryStep(methods: seq<PskInputMethod>, rest: Bytes, acc: CapsFields)
    requires 0 < |methods| <= MAX_METHODS && acc.methods == []
    ensures CapsStep(MethodsEntry(methods) + rest, acc) == Ok((acc.(methods := methods), rest))
  {
    var body := MethodBytes(methods) + rest;
    var s := EncodeHead(ARRAY, |methods|) + body;
    Regroup3(EncodeUint(1), EncodeHead(ARRAY, |methods|), MethodBytes(methods), rest);
    U8RoundTrip(1, s);
    LengthRoundTrip(ARRAY, |methods|, body);
    MethodsRoundTrip(methods, [], rest);
    assert [] + methods == methods;
    assert acc.methods == [];
  }

  lemma MinBitsStep(minBits: nat, rest: Bytes, acc: CapsFields)
    requires minBits < U32
    ensures CapsStep(EncodeUint(2) + (EncodeUint(minBits) + rest), acc) == Ok((acc.(minBits := Some(minBits)), rest))
  {
    U8RoundTrip(2, EncodeUint(minBits) + rest);
    UintRoundTrip(minBits, U32, rest);
  }

  lemma CapabilitiesReadBack(c: Capabilities, rest: Bytes)
    requires WellTyped(CapabilitiesMsg(c))
    ensures ParseCapabilitiesBody(CapabilitiesBody(c) + rest) == Ok((c, rest))
  {
    var n := if c.methods == [] then 2 else 3;
    var s3 := EncodeUint(2) + (EncodeUint(c.minBits) + rest);
    var s2 := MethodsEntry(c.methods) + s3;
    var s1 := EncodeUint(0) + (EncodeUint(c.ease.Code()) + s2);
    Regroup6(EncodeHead(MAP, n), EncodeUint(0), EncodeUint(c.ease.Code()), MethodsEntry(c.methods), EncodeUint(2), EncodeUint(c.minBits), rest);
    LengthRoundTrip(MAP, n, s1);
    var acc0 := CapsFields(None, [], None);
    var acc1 := acc0.(ease := Some(c.ease));
    var acc2 := acc1.(methods := c.methods);
    var acc3 := acc2.(minBits := Some(c.minBits));
    EaseStep(c.ease, s2, acc0);
    RepeatStep(CapsStep, s1, n, acc0, s2, acc1);
    if c.methods != [] {
      MethodsEntryStep(c.methods, s3, acc1);
      RepeatStep(CapsStep, s2, n - 1, acc1, s3, acc2);
    } else {
      assert s2 == s3;
    }
    MinBitsStep(c.minBits, rest, acc2);
    RepeatStep(CapsStep, s3, 1, acc2, rest, acc3);
    RepeatZero(CapsStep, rest, acc3);
  }

  lemma Regroup6(a: Bytes, b: Bytes, c: Bytes, d: Bytes, e: Bytes, f: Bytes, r: Bytes)
    ensures (a + ((b + c) + (d + (e + f)))) + r == a + (b + (c + (d + (e + (f + r)))))
  {
  }

  lemma OnlyKeyRoundTrip(rest: Bytes)
    ensures ParseOnlyKey(EncodeHead(MAP, 1) + (EncodeUint(0) + rest)) == Ok(rest)
  {
    LengthRoundTrip(MAP, 1, EncodeUint(0) + rest);
    U8RoundTrip(0, rest);
  }

  lemma HandshakeReadBack(h: Handshake, rest: Bytes)
    requires WellTyped(HandshakeMsg(h)) && WithinLimits(HandshakeMsg(h))
    ensures ParseHandshakeBody(HandshakeBody(h) + rest) == Ok((h, rest))
  {
    Regroup2(EncodeHead(MAP, 3), Concat(FieldBytes, FieldsOf(h)), rest);
    AnyOrderDecodes(h, FieldsOf(h), rest);
  }

  lemma ConfirmationReadBack(v: Bytes, rest: Bytes)
    requires |v| < U64
    ensures ParseConfirmationBody(ConfirmationBody(v) + rest) == Ok((v, rest))
  {
    RegroupRight3(EncodeHead(MAP, 1), EncodeUint(0), EncodeBytes(v), rest);
    OnlyKeyRoundTrip(EncodeBytes(v) + rest);
    StringRoundTrip(BYTES, v, rest);
  }

  lemma StatusReadBack(c: StatusCode, rest: Bytes)
    ensures ParseStatusBody(StatusBody(c) + rest) == Ok((c, rest))
  {
    RegroupRight3(EncodeHead(MAP, 1), EncodeUint(0), EncodeUint(c.Code()), rest);
    OnlyKeyRoundTrip(EncodeUint(c.Code()) + rest);
    U8RoundTrip(c.Code(), rest);
  }

  lemma BodyRoundTrip(m: Message, rest: Bytes)
    requires WellTyped(m) && WithinLimits(m)
    ensures DecodeBody(KeyOf(m), BodyBytes(m) + rest) == Got(m)
  {
    match m
    case CapabilitiesMsg(c) => CapabilitiesReadBack(c, rest);
    case HandshakeMsg(h) => HandshakeReadBack(h, rest);
    case ConfirmationMsg(v) => ConfirmationReadBack(v, rest);
    case StatusMsg(c) => StatusReadBack(c, rest);
  }

  lemma BodyKey(key: u16, body: Bytes)
    ensures DecodeBody(key, body).Got? ==> KeyOf(DecodeBody(key, body).msg) == key
  {
  }

  /** Both decoders hand what follows the type key to the decoder the key selects. */
  lemma Dispatch(key: u16, body: Bytes, want: u16)
    requires |TypeKey(key)| == 2
    ensures DecodeTypeKey(TypeKey(key) + body) == Ok((key, 2))
    ensures Decode(TypeKey(key) + body) == DecodeBody(key, body)
    ensures DecodeOnly(want, TypeKey(key) + body) == if want == key then DecodeBody(key, body) else Bad(InvalidMessageType)
  {
    TypeKeyRoundTrip(key, body);
  }

  /** Every well-typed message within the decoder's limits is read back from its
      encoding, whatever follows it, by the dispatcher and by its own decoder. */
  lemma MessageRoundTrip(m: Message, rest: Bytes)
    requires WellTyped(m) && WithinLimits(m)
    ensures Decode(Encode(m) + rest) == Got(m)
    ensures DecodeOnly(KeyOf(m), Encode(m) + rest) == Got(m)
  {
    Regroup2(TypeKey(KeyOf(m)), BodyBytes(m), rest);
    TypeKeyRoundTrip(KeyOf(m), []);
    Dispatch(KeyOf(m), BodyBytes(m) + rest, KeyOf(m));
    BodyRoundTrip(m, rest);
  }

  /** No message is taken for one of another type, by either decoder, whether or not it
      is within the limits. */
  lemma KeySeparates(m: Message, rest: Bytes, want: u16)
    ensures DecodeTypeKey(Encode(m) + rest) == Ok((KeyOf(m), 2))
    ensures want != KeyOf(m) ==> DecodeOnly(want, Encode(m) + rest) == Bad(InvalidMessageType)
    ensures Decode(Encode(m) + rest).Got? ==> KeyOf(Decode(Encode(m) + rest).msg) == KeyOf(m)
  {
    Regroup2(TypeKey(KeyOf(m)), BodyBytes(m), rest);
    TypeKeyRoundTrip(KeyOf(m), []);
    Dispatch(KeyOf(m), BodyBytes(m) + rest, want);
    BodyKey(KeyOf(m), BodyBytes(m) + rest);
  }

  /** A decoded message carries the key it was dispatched on, and a decoded handshake is
      within the decoder's limits. */
  lemma DecodedMessage(data: Bytes)
    requires Decode(data).Got?
    ensures DecodeTypeKey(data).Ok? && DecodeTypeKey(data).value.0 == KeyOf(Decode(data).msg)
    ensures WithinLimits(Decode(data).msg)
    ensures Decode(data).msg.HandshakeMsg? && Decode(data).msg.handshake.token.Some?
            ==> ValidUtf8(Decode(data).msg.handshake.token.value)
  {
    var (key, n) := DecodeTypeKey(data).value;
    if key == HANDSHAKE_KEY {
      var (h, rest) := ParseHandshakeBody(data[n..]).value;
      HandshakeOrderExact(data[n..], h, rest);
      var s := ParseMap(data[n..]).value.1;
      var fs :| |fs| == 3 && multiset(fs) == multiset(FieldsOf(h)) && Reads(ParseField, s, fs, rest);
      forall x | ParseField(x).Ok? ensures FieldWithinLimits(ParseField(x).value.0) {
        ParsedFieldWithinLimits(x);
      }
      ReadsAll(ParseField, FieldWithinLimits, s, fs, rest);
      forall f | f in FieldsOf(h) ensures FieldWithinLimits(f) {
        assert f in multiset(fs);
      }
      assert FieldWithinLimits(FieldsOf(h)[0]) && FieldWithinLimits(FieldsOf(h)[2]);
    }
  }

  // ---------------------------------------------------------------- prefix-freeness

  lemma UintInjective(n1: nat, r1: Bytes, n2: nat, r2: Bytes)
    requires n1 < U64 && n2 < U64
    requires EncodeUint(n1) + r1 == EncodeUint(n2) + r2
    ensures n1 == n2 && r1 == r2
  {
    UintRoundTrip(n1, U64, r1);
    UintRoundTrip(n2, U64, r2);
  }

  lemma StringInjective(major: nat, s1: Bytes, r1: Bytes, s2: Bytes, r2: Bytes)
    requires major < 8 && |s1| < U64 && |s2| < U64
    requires EncodeString(major, s1) + r1 == EncodeString(major, s2) + r2
    ensures s1 == s2 && r1 == r2
  {
    StringRoundTrip(major, s1, r1);
    StringRoundTrip(major, s2, r2);
  }

  lemma LengthInjective(major: nat, n1: nat, r1: Bytes, n2: nat, r2: Bytes)
    requires major < 8 && n1 < U64 && n2 < U64
    requires EncodeHead(major, n1) + r1 == EncodeHead(major, n2) + r2
    ensures n1 == n2 && r1 == r2
  {
    LengthRoundTrip(major, n1, r1);
    LengthRoundTrip(major, n2, r2);
  }

  lemma TokenSplit(t: Option<Bytes>, r: Bytes)
    ensures TokenBytes(t) + r ==
            if t.None? then EncodeHead(MAP, 0) + r
            else EncodeHead(MAP, 1) + (EncodeUint(0) + (EncodeStr(t.value) + r))
  {
    if t.Some? {
      Regroup3(EncodeHead(MAP, 1), EncodeUint(0), EncodeStr(t.value), r);
    }
  }

  lemma TokenInjective(t1: Option<Bytes>, r1: Bytes, t2: Option<Bytes>, r2: Bytes)
    requires t1.Some? ==> |t1.value| < U64
    requires t2.Some? ==> |t2.value| < U64
    requires TokenBytes(t1) + r1 == TokenBytes(t2) + r2
    ensures t1 == t2 && r1 == r2
  {
    TokenSplit(t1, r1);
    TokenSplit(t2, r2);
    var e1 := if t1.None? then r1 else EncodeUint(0) + (EncodeStr(t1.value) + r1);
    var e2 := if t2.None? then r2 else EncodeUint(0) + (EncodeStr(t2.value) + r2);
    LengthInjective(MAP, if t1.None? then 0 else 1, e1, if t2.None? then 0 else 1, e2);
    if t1.Some? {
      UintInjective(0, EncodeStr(t1.value) + r1, 0, EncodeStr(t2.value) + r2);
      StringInjective(TEXT, t1.value, r1, t2.value, r2);
    }
  }

  /** The bytes of a handshake after its token, and all of them, regrouped from the left. */
  function AfterToken(h: Handshake, r: Bytes): Bytes {
    EncodeUint(1) + (EncodeUint(h.status.Code()) + (EncodeUint(2) + (EncodeBytes(h.publicValue) + r)))
  }

  lemma Regroup(h: Handshake, r: Bytes)
    ensures Encode(HandshakeMsg(h)) + r ==
            (TypeKey(HANDSHAKE_KEY) + EncodeHead(MAP, 3)) + (EncodeUint(0) + (TokenBytes(h.token) + AfterToken(h, r)))
  {
    Concat3(FieldBytes, TokenField(h.token), StatusField(h.status), PublicField(h.publicValue));
    Regroup8(TypeKey(HANDSHAKE_KEY), EncodeHead(MAP, 3), EncodeUint(0), TokenBytes(h.token), EncodeUint(1),
             EncodeUint(h.status.Code()), EncodeUint(2), EncodeBytes(h.publicValue), r);
  }

  lemma Regroup8(k: Bytes, a: Bytes, b: Bytes, c: Bytes, d: Bytes, e: Bytes, f: Bytes, g: Bytes, r: Bytes)
    ensures (k + (a + ((b + c) + ((d + e) + (f + g))))) + r == (k + a) + (b + (c + (d + (e + (f + (g + r))))))
  {
  }

  lemma StatusInjective(s1: PskStatus, s2: PskStatus)
    requires s1.Code() == s2.Code()
    ensures s1 == s2
  {
  }

  /** Encoded handshakes are prefix-free: no encoding, followed by anything, equals
      another handshake's encoding followed by anything. */
  lemma HandshakePrefixFree(h1: Handshake, r1: Bytes, h2: Handshake, r2: Bytes)
    requires WellTyped(HandshakeMsg(h1)) && WellTyped(HandshakeMsg(h2))
    requires Encode(HandshakeMsg(h1)) + r1 == Encode(HandshakeMsg(h2)) + r2
    ensures h1 == h2 && r1 == r2
  {
    Regroup(h1, r1);
    Regroup(h2, r2);
    var head := TypeKey(HANDSHAKE_KEY) + EncodeHead(MAP, 3);
    var x, y := EncodeUint(0) + (TokenBytes(h1.token) + AfterToken(h1, r1)), EncodeUint(0) + (TokenBytes(h2.token) + AfterToken(h2, r2));
    assert (head + x)[|head|..] == x && (head + y)[|head|..] == y;
    UintInjective(0, TokenBytes(h1.token) + AfterToken(h1, r1), 0, TokenBytes(h2.token) + AfterToken(h2, r2));
    TokenInjective(h1.token, AfterToken(h1, r1), h2.token, AfterToken(h2, r2));
    var p1, p2 := EncodeBytes(h1.publicValue) + r1, EncodeBytes(h2.publicValue) + r2;
    var c1, c2 := h1.status.Code(), h2.status.Code();
    UintInjective(1, EncodeUint(c1) + (EncodeUint(2) + p1), 1, EncodeUint(c2) + (EncodeUint(2) + p2));
    UintInjective(c1, EncodeUint(2) + p1, c2, EncodeUint(2) + p2);
    StatusInjective(h1.status, h2.status);
    UintInjective(2, p1, 2, p2);
    StringInjective(BYTES, h1.publicValue, r1, h2.publicValue, r2);
  }

  /** Two encoded handshakes in a row determine both: token, status and public value of
      each. A machine's transcript holds its peer's handshake as received; what that adds is
      in `Transcripts`. */
  lemma TranscriptInjective(a1: Handshake, b1: Handshake, a2: Handshake, b2: Handshake)
    requires WellTyped(HandshakeMsg(a1)) && WellTyped(HandshakeMsg(b1))
    requires WellTyped(HandshakeMsg(a2)) && WellTyped(HandshakeMsg(b2))
    requires Encode(HandshakeMsg(a1)) + Encode(HandshakeMsg(b1)) == Encode(HandshakeMsg(a2)) + Encode(HandshakeMsg(b2))
    ensures a1 == a2 && b1 == b2
  {
    HandshakePrefixFree(a1, Encode(HandshakeMsg(b1)), a2, Encode(HandshakeMsg(b2)));
    assert Encode(HandshakeMsg(b1)) + [] == Encode(HandshakeMsg(b2)) + [];
    HandshakePrefixFree(b1, [], b2, []);
  }

  // ---------------------------------------------------------------- lengths

  lemma HandshakeParts(h: Handshake)
    ensures |Encode(HandshakeMsg(h))| ==
            3 + |FieldBytes(TokenField(h.token))| + |FieldBytes(StatusField(h.status))| + |FieldBytes(PublicField(h.publicValue))|
  {
    TypeKeyRoundTrip(HANDSHAKE_KEY, []);
    HeadLength(MAP, 3);
    Concat3(FieldBytes, TokenField(h.token), StatusField(h.status), PublicField(h.publicValue));
  }

  lemma FieldLengths(h: Handshake)
    requires |h.publicValue| < 0x100
    requires h.token.Some? ==> |h.token.value| < 0x100
    ensures |FieldBytes(TokenField(h.token))| <= if h.token.None? then 2 else 5 + |h.token.value|
    ensures h.token.Some? && |h.token.value| >= 24 ==> |FieldBytes(TokenField(h.token))| == 5 + |h.token.value|
    ensures |FieldBytes(StatusField(h.status))| == 2
    ensures |FieldBytes(PublicField(h.publicValue))| <= 3 + |h.publicValue|
    ensures |h.publicValue| >= 24 ==> |FieldBytes(PublicField(h.publicValue))| == 3 + |h.publicValue|
  {
  }

  /** A machine's own handshake, with the token and public value its buffers can hold,
      is at most 141 bytes. */
  lemma HandshakeLength(h: Handshake)
    requires h.token.Some? ==> |h.token.value| <= 64
    requires |h.publicValue| <= 64
    ensures |Encode(HandshakeMsg(h))| <= 141
  {
    HandshakeParts(h);
    FieldLengths(h);
  }

  /** And 141 is reached: token and public value of 64 bytes each. */
  lemma HandshakeLengthTight(h: Handshake)
    requires h.token.Some? && |h.token.value| == 64 && |h.publicValue| == 64
    ensures |Encode(HandshakeMsg(h))| == 141
  {
    HandshakeParts(h);
    FieldLengths(h);
  }

  lemma SmallUint(n: nat)
    requires n < 0x100
    ensures |EncodeUint(n)| == if n < 24 then 1 else 2
  {
    HeadLength(UINT, n);
  }

  lemma StatusLength(c: StatusCode)
    ensures |StatusBody(c)| == 3
  {
    HeadLength(MAP, 1);
    SmallUint(0);
    SmallUint(c.Code());
  }

  lemma ConfirmationLength(v: Bytes)
    requires |v| <= 64
    ensures 3 <= |ConfirmationBody(v)| <= 68
  {
    HeadLength(MAP, 1);
    SmallUint(0);
    HeadLength(BYTES, |v|);
  }

  lemma PlainCapabilitiesLength(minBits: nat)
    requires minBits < 0x100
    ensures 5 <= |CapabilitiesBody(Capabilities(Simple, [], minBits))| <= 6
  {
    HeadLength(MAP, 2);
    SmallUint(0);
    SmallUint(Simple.Code());
    SmallUint(2);
    SmallUint(minBits);
  }

  lemma EncodedLength(m: Message)
    ensures |Encode(m)| == 2 + |BodyBytes(m)|
  {
    TypeKeyRoundTrip(KeyOf(m), []);
  }

  lemma ShortMessages(m: Message)
    requires m == CapabilitiesMsg(Capabilities(Simple, [], 64)) || m.StatusMsg?
             || (m.ConfirmationMsg? && |m.value| <= 64)
    ensures WellTyped(m) && WithinLimits(m) && 0 < |Encode(m)| <= 71
  {
    EncodedLength(m);
    if m.StatusMsg? {
      StatusLength(m.code);
    } else if m.ConfirmationMsg? {
      ConfirmationLength(m.value);
    } else {
      PlainCapabilitiesLength(64);
    }
  }

  // ---------------------------------------------------------------- the message without a decoder

  /** The type key of the message whose decoder aborts the program. */
  predicate IsNeed(data: Bytes) {
    DecodeTypeKey(data).Ok? && DecodeTypeKey(data).value.0 == 1002
  }

  /** The program aborts on exactly those bytes, whatever follows the key. */
  lemma UnimplementedExactly(data: Bytes)
    ensures Decode(data).Unimplemented? <==> IsNeed(data)
    ensures IsNeed(data) ==> data != []
  {
  }

  /** And such bytes exist: type key 1002 with any body, or none. */
  lemma NeedAborts(body: Bytes)
    ensures Decode(TypeKey(1002) + body).Unimplemented?
  {
    TypeKeyRoundTrip(NEED_KEY, body);
  }
}
