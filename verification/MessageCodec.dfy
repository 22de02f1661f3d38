/** The encoders and decoders in the form the code gives them: encoders append to a
    bounded buffer and stop at the first write that does not fit; decoders move a cursor
    and fill local variables in a loop. Each is proved against `Messages`. */
module MessageCodec {
  import opened Basics
  import opened VarInt
  import opened Cbor
  import opened Parsing
  import opened Messages

  // ---------------------------------------------------------------- encoders

  /** Two successive writes: the second is attempted only if the first fits. */
  lemma AppendedTwice(start: Bytes, a: Bytes, b: Bytes, capacity: nat, mid: Bytes, ok: bool, end: Bytes)
    requires Appended(start, a, capacity, true, mid) && Appended(mid, b, capacity, ok, end)
    ensures Appended(start, a + b, capacity, ok, end)
  {
    assert start + (a + b) == mid + b;
  }

  lemma StoppedAfter(start: Bytes, a: Bytes, b: Bytes, capacity: nat, end: Bytes)
    requires Appended(start, a, capacity, false, end)
    ensures Appended(start, a + b, capacity, false, end)
  {
  }

  method PutEntry(buf: ByteVec, key: nat, n: nat) returns (ok: bool)
    requires buf.Valid()
    modifies buf
    ensures buf.Valid()
    ensures Appended(old(buf.items), EncodeUint(key) + EncodeUint(n), buf.capacity, ok, buf.items)
  {
    ghost var s0 := buf.items;
    ok := PutHead(buf, UINT, key);
    if !ok { StoppedAfter(s0, EncodeUint(key), EncodeUint(n), buf.capacity, buf.items); return; }
    ghost var s1 := buf.items;
    ok := PutHead(buf, UINT, n);
    AppendedTwice(s0, EncodeUint(key), EncodeUint(n), buf.capacity, s1, ok, buf.items);
  }

  method PutMethods(buf: ByteVec, methods: seq<PskInputMethod>) returns (ok: bool)
    requires buf.Valid()
    modifies buf
    ensures buf.Valid()
    ensures Appended(old(buf.items), MethodBytes(methods), buf.capacity, ok, buf.items)
  {
    ghost var start := buf.items;
    ok := true;
    for i := 0 to |methods|
      invariant buf.Valid() && ok
      invariant buf.items + MethodBytes(methods[i..]) == start + MethodBytes(methods)
    {
      ok := PutHead(buf, UINT, methods[i].Code());
      assert methods[i..][1..] == methods[i + 1..];
      if !ok { return; }
    }
  }

  method PutMethodsEntry(buf: ByteVec, methods: seq<PskInputMethod>) returns (ok: bool)
    requires buf.Valid()
    modifies buf
    ensures buf.Valid()
    ensures Appended(old(buf.items), MethodsEntry(methods), buf.capacity, ok, buf.items)
  {
    ok := true;
    if methods != [] {
      ghost var s0 := buf.items;
      ghost var key, head, ms := EncodeUint(1), EncodeHead(ARRAY, |methods|), MethodBytes(methods);
      ok := PutHead(buf, UINT, 1);
      if !ok { StoppedAfter(s0, key, head, buf.capacity, buf.items); StoppedAfter(s0, key + head, ms, buf.capacity, buf.items); return; }
      ghost var s1 := buf.items;
      ok := PutHead(buf, ARRAY, |methods|);
      AppendedTwice(s0, key, head, buf.capacity, s1, ok, buf.items);
      if !ok { StoppedAfter(s0, key + head, ms, buf.capacity, buf.items); return; }
      ghost var s2 := buf.items;
      ok := PutMethods(buf, methods);
      AppendedTwice(s0, key + head, ms, buf.capacity, s2, ok, buf.items);
    }
  }

  method EncodeCapabilities(c: Capabilities, buf: ByteVec) returns (r: Result<(), MessageError>)
    requires buf.Valid()
    modifies buf
    ensures buf.Valid()
    ensures Appended(old(buf.items), Encode(CapabilitiesMsg(c)), buf.capacity, r.Ok?, buf.items)
  {
    ghost var s0 := buf.items;
    ghost var key, head := TypeKey(CAPABILITIES_KEY), EncodeHead(MAP, if c.methods == [] then 2 else 3);
    ghost var ease, bits := EncodeUint(0) + EncodeUint(c.ease.Code()), EncodeUint(2) + EncodeUint(c.minBits);
    ghost var ms := MethodsEntry(c.methods);
    Regroup(key, head, ease, ms, bits);
    r := EncodeTypeKey(CAPABILITIES_KEY, buf);
    if r.Err? { StoppedAfter(s0, key, head + (ease + (ms + bits)), buf.capacity, buf.items); return; }
    ghost var s1 := buf.items;
    var ok := PutHead(buf, MAP, if c.methods == [] then 2 else 3);
    AppendedTwice(s0, key, head, buf.capacity, s1, ok, buf.items);
    if !ok { StoppedAfter(s0, key + head, ease + (ms + bits), buf.capacity, buf.items); return Err(EncodeFailed); }
    ghost var s2 := buf.items;
    ok := PutEntry(buf, 0, c.ease.Code());
    AppendedTwice(s0, key + head, ease, buf.capacity, s2, ok, buf.items);
    if !ok { StoppedAfter(s0, key + head + ease, ms + bits, buf.capacity, buf.items); return Err(EncodeFailed); }
    ghost var s3 := buf.items;
    ok := PutMethodsEntry(buf, c.methods);
    AppendedTwice(s0, key + head + ease, ms, buf.capacity, s3, ok, buf.items);
    if !ok { StoppedAfter(s0, key + head + ease + ms, bits, buf.capacity, buf.items); return Err(EncodeFailed); }
    ghost var s4 := buf.items;
    ok := PutEntry(buf, 2, c.minBits);
    AppendedTwice(s0, key + head + ease + ms, bits, buf.capacity, s4, ok, buf.items);
    r := if ok then Ok(()) else Err(EncodeFailed);
  }

  lemma Regroup(a: Bytes, b: Bytes, c: Bytes, d: Bytes, e: Bytes)
    ensures a + (b + (c + (d + e))) == (a + b) + (c + (d + e)) == (a + b + c) + (d + e) == a + b + c + d + e
  {
  }

  method PutTokenMap(buf: ByteVec, token: Option<Bytes>) returns (ok: bool)
    requires buf.Valid()
    modifies buf
    ensures buf.Valid()
    ensures Appended(old(buf.items), TokenBytes(token), buf.capacity, ok, buf.items)
  {
    if token.Some? {
      ghost var s0 := buf.items;
      ghost var head, key, text := EncodeHead(MAP, 1), EncodeUint(0), EncodeStr(token.value);
      ok := PutHead(buf, MAP, 1);
      if !ok { StoppedAfter(s0, head, key, buf.capacity, buf.items); StoppedAfter(s0, head + key, text, buf.capacity, buf.items); return; }
      ghost var s1 := buf.items;
      ok := PutHead(buf, UINT, 0);
      AppendedTwice(s0, head, key, buf.capacity, s1, ok, buf.items);
      if !ok { StoppedAfter(s0, head + key, text, buf.capacity, buf.items); return; }
      ghost var s2 := buf.items;
      ok := PutString(buf, TEXT, token.value);
      AppendedTwice(s0, head + key, text, buf.capacity, s2, ok, buf.items);
    } else {
      ok := PutHead(buf, MAP, 0);
    }
  }

  method PutToken(buf: ByteVec, token: Option<Bytes>) returns (ok: bool)
    requires buf.Valid()
    modifies buf
    ensures buf.Valid()
    ensures Appended(old(buf.items), FieldBytes(TokenField(token)), buf.capacity, ok, buf.items)
  {
    ghost var s0 := buf.items;
    ok := PutHead(buf, UINT, 0);
    if !ok { StoppedAfter(s0, EncodeUint(0), TokenBytes(token), buf.capacity, buf.items); return; }
    ghost var s1 := buf.items;
    ok := PutTokenMap(buf, token);
    AppendedTwice(s0, EncodeUint(0), TokenBytes(token), buf.capacity, s1, ok, buf.items);
  }

  method PutStringEntry(buf: ByteVec, key: nat, s: Bytes) returns (ok: bool)
    requires buf.Valid()
    modifies buf
    ensures buf.Valid()
    ensures Appended(old(buf.items), EncodeUint(key) + EncodeBytes(s), buf.capacity, ok, buf.items)
  {
    ghost var s0 := buf.items;
    ok := PutHead(buf, UINT, key);
    if !ok { StoppedAfter(s0, EncodeUint(key), EncodeBytes(s), buf.capacity, buf.items); return; }
    ghost var s1 := buf.items;
    ok := PutString(buf, BYTES, s);
    AppendedTwice(s0, EncodeUint(key), EncodeBytes(s), buf.capacity, s1, ok, buf.items);
  }

  method EncodeHandshake(h: Handshake, buf: ByteVec) returns (r: Result<(), MessageError>)
    requires buf.Valid()
    modifies buf
    ensures buf.Valid()
    ensures Appended(old(buf.items), Encode(HandshakeMsg(h)), buf.capacity, r.Ok?, buf.items)
  {
    ghost var s0 := buf.items;
    ghost var key, head, token := TypeKey(HANDSHAKE_KEY), EncodeHead(MAP, 3), FieldBytes(TokenField(h.token));
    ghost var status, pub := FieldBytes(StatusField(h.status)), FieldBytes(PublicField(h.publicValue));
    Regroup(key, head, token, status, pub);
    Concat3(FieldBytes, TokenField(h.token), StatusField(h.status), PublicField(h.publicValue));
    r := EncodeTypeKey(HANDSHAKE_KEY, buf);
    if r.Err? { StoppedAfter(s0, key, head + (token + (status + pub)), buf.capacity, buf.items); return; }
    ghost var s1 := buf.items;
    var ok := PutHead(buf, MAP, 3);
    AppendedTwice(s0, key, head, buf.capacity, s1, ok, buf.items);
    if !ok { StoppedAfter(s0, key + head, token + (status + pub), buf.capacity, buf.items); return Err(EncodeFailed); }
    ghost var s2 := buf.items;
    ok := PutToken(buf, h.token);
    AppendedTwice(s0, key + head, token, buf.capacity, s2, ok, buf.items);
    if !ok { StoppedAfter(s0, key + head + token, status + pub, buf.capacity, buf.items); return Err(EncodeFailed); }
    ghost var s3 := buf.items;
    ok := PutEntry(buf, 1, h.status.Code());
    AppendedTwice(s0, key + head + token, status, buf.capacity, s3, ok, buf.items);
    if !ok { StoppedAfter(s0, key + head + token + status, pub, buf.capacity, buf.items); return Err(EncodeFailed); }
    ghost var s4 := buf.items;
    ok := PutStringEntry(buf, 2, h.publicValue);
    AppendedTwice(s0, key + head + token + status, pub, buf.capacity, s4, ok, buf.items);
    r := if ok then Ok(()) else Err(EncodeFailed);
  }

  method EncodeConfirmation(value: Bytes, buf: ByteVec) returns (r: Result<(), MessageError>)
    requires buf.Valid()
    modifies buf
    ensures buf.Valid()
    ensures Appended(old(buf.items), Encode(ConfirmationMsg(value)), buf.capacity, r.Ok?, buf.items)
  {
    ghost var s0 := buf.items;
    ghost var key, head, last := TypeKey(CONFIRMATION_KEY), EncodeHead(MAP, 1), EncodeUint(0) + EncodeBytes(value);
    assert key + (head + last) == key + head + last;
    r := EncodeTypeKey(CONFIRMATION_KEY, buf);
    if r.Err? { StoppedAfter(s0, key, head + last, buf.capacity, buf.items); return; }
    ghost var s1 := buf.items;
    var ok := PutHead(buf, MAP, 1);
    AppendedTwice(s0, key, head, buf.capacity, s1, ok, buf.items);
    if !ok { StoppedAfter(s0, key + head, last, buf.capacity, buf.items); return Err(EncodeFailed); }
    ghost var s2 := buf.items;
    ok := PutStringEntry(buf, 0, value);
    AppendedTwice(s0, key + head, last, buf.capacity, s2, ok, buf.items);
    r := if ok then Ok(()) else Err(EncodeFailed);
  }

  method EncodeStatus(code: StatusCode, buf: ByteVec) returns (r: Result<(), MessageError>)
    requires buf.Valid()
    modifies buf
    ensures buf.Valid()
    ensures Appended(old(buf.items), Encode(StatusMsg(code)), buf.capacity, r.Ok?, buf.items)
  {
    ghost var s0 := buf.items;
    ghost var key, head, last := TypeKey(STATUS_KEY), EncodeHead(MAP, 1), EncodeUint(0) + EncodeUint(code.Code());
    assert key + (head + last) == key + head + last;
    r := EncodeTypeKey(STATUS_KEY, buf);
    if r.Err? { StoppedAfter(s0, key, head + last, buf.capacity, buf.items); return; }
    ghost var s1 := buf.items;
    var ok := PutHead(buf, MAP, 1);
    AppendedTwice(s0, key, head, buf.capacity, s1, ok, buf.items);
    if !ok { StoppedAfter(s0, key + head, last, buf.capacity, buf.items); return Err(EncodeFailed); }
    ghost var s2 := buf.items;
    ok := PutEntry(buf, 0, code.Code());
    AppendedTwice(s0, key + head, last, buf.capacity, s2, ok, buf.items);
    r := if ok then Ok(()) else Err(EncodeFailed);
  }

  method EncodeMessage(m: Message, buf: ByteVec) returns (r: Result<(), MessageError>)
    requires buf.Valid()
    modifies buf
    ensures buf.Valid()
    ensures Appended(old(buf.items), Encode(m), buf.capacity, r.Ok?, buf.items)
  {
    match m
    case CapabilitiesMsg(c) => r := EncodeCapabilities(c, buf);
    case HandshakeMsg(h) => r := EncodeHandshake(h, buf);
    case ConfirmationMsg(v) => r := EncodeConfirmation(v, buf);
    case StatusMsg(c) => r := EncodeStatus(c, buf);
  }

  /** The transmitted copy of a message, encoded into its own 1024-byte buffer. */
  method EncodeNetworkMessage(m: Message) returns (r: Result<Bytes, MessageError>)
    ensures r.Ok? <==> |Encode(m)| <= 1024
    ensures r.Ok? ==> r.value == Encode(m)
  {
    var buf := new ByteVec(MAX_MESSAGE_SIZE);
    var e := EncodeMessage(m, buf);
    if e.Err? {
      return Err(e.error);
    }
    assert [] + Encode(m) == Encode(m);
    return Ok(buf.items);
  }

  // ---------------------------------------------------------------- decoders

  method ReadToken(d: Decoder) returns (r: Result<Option<Bytes>, MessageError>)
    modifies d
    ensures var p := ParseToken(old(d.rest));
            && r.Ok? == p.Ok?
            && (r.Ok? ==> (r.value, d.rest) == p.value)
            && (r.Err? ==> r.error == p.error)
  {
    var len := d.Length(MAP);
    if len.None? { return Err(DecodeFailed); }
    if len.value == Some(1) {
      var key := d.Uint(0x100);
      if key.None? { return Err(DecodeFailed); }
      if key.value != 0 { return Err(InvalidField); }
      var t := d.Str();
      if t.None? { return Err(DecodeFailed); }
      if |t.value| > MAX_STRING_LEN { return Err(FieldTooLong); }
      return Ok(Some(t.value));
    } else if len.value == Some(0) {
      return Ok(None);
    } else {
      return Err(InvalidField);
    }
  }

  method DecodeHandshakeBody(body: Bytes) returns (r: Result<Handshake, MessageError>)
    ensures var p := ParseHandshakeBody(body);
            && r.Ok? == p.Ok?
            && (r.Ok? ==> r.value == p.value.0)
            && (r.Err? ==> r.error == p.error)
  {
    var d := new Decoder(body);
    var len := d.Length(MAP);
    if len.None? { return Err(DecodeFailed); }
    if len.value != Some(3) { return Err(InvalidField); }
    ghost var s1 := d.rest;
    var token: Option<Option<Bytes>> := None;
    var status: Option<PskStatus> := None;
    var publicValue: Option<Bytes> := None;
    for i := 0 to 3
      invariant Repeat(FieldStep, d.rest, 3 - i, Fields(token, status, publicValue)) == Repeat(FieldStep, s1, 3, NO_FIELDS)
    {
      ghost var s, acc := d.rest, Fields(token, status, publicValue);
      var key := d.Uint(0x100);
      if key.None? { return Err(DecodeFailed); }
      match key.value {
        case 0 =>
          var t := ReadToken(d);
          if t.Err? { return Err(t.error); }
          token := Some(t.value);
        case 1 =>
          var n := d.Uint(0x100);
          if n.None? { return Err(DecodeFailed); }
          var code := PskStatus.FromCode(n.value);
          if code.Err? { return Err(code.error); }
          status := Some(code.value);
        case 2 =>
          var p := d.String(BYTES);
          if p.None? { return Err(DecodeFailed); }
          if |p.value| > MAX_BYTES_LEN { return Err(FieldTooLong); }
          publicValue := Some(p.value);
        case _ =>
          return Err(InvalidField);
      }
      RepeatStep(FieldStep, s, 3 - i, acc, d.rest, Fields(token, status, publicValue));
    }
    RepeatZero(FieldStep, d.rest, Fields(token, status, publicValue));
    if token.None? || status.None? || publicValue.None? {
      return Err(MissingField);
    }
    return Ok(Handshake(token.value, status.value, publicValue.value));
  }

  method ReadMethods(d: Decoder, n: nat, before: seq<PskInputMethod>) returns (r: Result<seq<PskInputMethod>, MessageError>)
    modifies d
    ensures var p := Repeat(MethodStep, old(d.rest), n, before);
            && r.Ok? == p.Ok?
            && (r.Ok? ==> (r.value, d.rest) == p.value)
            && (r.Err? ==> r.error == p.error)
  {
    var methods := before;
    for i := 0 to n
      invariant Repeat(MethodStep, d.rest, n - i, methods) == Repeat(MethodStep, old(d.rest), n, before)
    {
      ghost var s, acc := d.rest, methods;
      var code := d.Uint(0x100);
      if code.None? { return Err(DecodeFailed); }
      var m := PskInputMethod.FromCode(code.value);
      if m.Err? { return Err(m.error); }
      if |methods| >= MAX_METHODS { return Err(BufferFull); }
      methods := methods + [m.value];
      RepeatStep(MethodStep, s, n - i, acc, d.rest, methods);
    }
    RepeatZero(MethodStep, d.rest, methods);
    return Ok(methods);
  }

  method DecodeCapabilitiesBody(body: Bytes) returns (r: Result<Capabilities, MessageError>)
    ensures var p := ParseCapabilitiesBody(body);
            && r.Ok? == p.Ok?
            && (r.Ok? ==> r.value == p.value.0)
            && (r.Err? ==> r.error == p.error)
  {
    var d := new Decoder(body);
    var len := d.Length(MAP);
    if len.None? { return Err(DecodeFailed); }
    if len.value != Some(2) && len.value != Some(3) { return Err(InvalidField); }
    ghost var s1 := d.rest;
    var n := len.value.value;
    var ease: Option<PskInputEase> := None;
    var methods: seq<PskInputMethod> := [];
    var minBits: Option<nat> := None;
    for i := 0 to n
      invariant Repeat(CapsStep, d.rest, n - i, CapsFields(ease, methods, minBits)) == Repeat(CapsStep, s1, n, CapsFields(None, [], None))
    {
      ghost var s, acc := d.rest, CapsFields(ease, methods, minBits);
      var key := d.Uint(0x100);
      if key.None? { return Err(DecodeFailed); }
      match key.value {
        case 0 =>
          var code := d.Uint(0x100);
          if code.None? { return Err(DecodeFailed); }
          var e := PskInputEase.FromCode(code.value);
          if e.Err? { return Err(e.error); }
          ease := Some(e.value);
        case 1 =>
          var count := d.Length(ARRAY);
          if count.None? { return Err(DecodeFailed); }
          if count.value.Some? {
            var ms := ReadMethods(d, count.value.value, methods);
            if ms.Err? { return Err(ms.error); }
            methods := ms.value;
          }
        case 2 =>
          var bits := d.Uint(U32);
          if bits.None? { return Err(DecodeFailed); }
          minBits := Some(bits.value);
        case _ =>
          return Err(InvalidField);
      }
      RepeatStep(CapsStep, s, n - i, acc, d.rest, CapsFields(ease, methods, minBits));
    }
    RepeatZero(CapsStep, d.rest, CapsFields(ease, methods, minBits));
    if ease.None? || minBits.None? {
      return Err(MissingField);
    }
    return Ok(Capabilities(ease.value, methods, minBits.value));
  }

  method ReadOnlyKey(d: Decoder) returns (r: Result<(), MessageError>)
    modifies d
    ensures var p := ParseOnlyKey(old(d.rest));
            && r.Ok? == p.Ok?
            && (r.Ok? ==> d.rest == p.value)
            && (r.Err? ==> r.error == p.error)
  {
    var len := d.Length(MAP);
    if len.None? { return Err(DecodeFailed); }
    if len.value != Some(1) { return Err(InvalidField); }
    var key := d.Uint(0x100);
    if key.None? { return Err(DecodeFailed); }
    if key.value != 0 { return Err(InvalidField); }
    return Ok(());
  }

  method DecodeConfirmationBody(body: Bytes) returns (r: Result<Bytes, MessageError>)
    ensures var p := ParseConfirmationBody(body);
            && r.Ok? == p.Ok?
            && (r.Ok? ==> r.value == p.value.0)
            && (r.Err? ==> r.error == p.error)
  {
    var d := new Decoder(body);
    var k := ReadOnlyKey(d);
    if k.Err? { return Err(k.error); }
    var v := d.String(BYTES);
    if v.None? { return Err(DecodeFailed); }
    return Ok(v.value);
  }

  method DecodeStatusBody(body: Bytes) returns (r: Result<StatusCode, MessageError>)
    ensures var p := ParseStatusBody(body);
            && r.Ok? == p.Ok?
            && (r.Ok? ==> r.value == p.value.0)
            && (r.Err? ==> r.error == p.error)
  {
    var d := new Decoder(body);
    var k := ReadOnlyKey(d);
    if k.Err? { return Err(k.error); }
    var n := d.Uint(0x100);
    if n.None? { return Err(DecodeFailed); }
    return StatusCode.FromCode(n.value);
  }

  method DecodeMessageBody(key: u16, body: Bytes) returns (r: Decoded)
    ensures r == DecodeBody(key, body)
  {
    if key == CAPABILITIES_KEY {
      var c := DecodeCapabilitiesBody(body);
      r := if c.Ok? then Got(CapabilitiesMsg(c.value)) else Bad(c.error);
    } else if key == HANDSHAKE_KEY {
      var h := DecodeHandshakeBody(body);
      r := if h.Ok? then Got(HandshakeMsg(h.value)) else Bad(h.error);
    } else if key == CONFIRMATION_KEY {
      var v := DecodeConfirmationBody(body);
      r := if v.Ok? then Got(ConfirmationMsg(v.value)) else Bad(v.error);
    } else if key == STATUS_KEY {
      var c := DecodeStatusBody(body);
      r := if c.Ok? then Got(StatusMsg(c.value)) else Bad(c.error);
    } else if key == NEED_KEY {
      r := Unimplemented;
    } else {
      r := Bad(InvalidMessageType);
    }
  }

  method DecodeMessage(data: Bytes) returns (r: Decoded)
    ensures r == Decode(data)
  {
    var k := DecodeTypeKeyFrom(data);
    if k.Err? {
      return Bad(k.error);
    }
    r := DecodeMessageBody(k.value.0, data[k.value.1..]);
  }

  method DecodeMessageOnly(want: u16, data: Bytes) returns (r: Decoded)
    ensures r == DecodeOnly(want, data)
  {
    var k := DecodeTypeKeyFrom(data);
    if k.Err? {
      return Bad(k.error);
    }
    if k.value.0 != want {
      return Bad(InvalidMessageType);
    }
    r := DecodeMessageBody(k.value.0, data[k.value.1..]);
  }
}
