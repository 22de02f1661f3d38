/** The application encoders and decoders in the form the code gives them, each proved
    against `AppMessages`. */
module AppCodec {
  import opened Basics
  import opened VarInt
  import opened Cbor
  import opened Parsing
  import opened FlatMaps
  import opened AppMessages
  import MessageCodec

  // ---------------------------------------------------------------- writing entries

  lemma Concat4<F>(bytes: F -> Bytes, a: F, b: F, c: F, d: F)
    ensures Concat(bytes, [a, b, c, d]) == bytes(a) + (bytes(b) + (bytes(c) + bytes(d)))
  {
    assert [a, b, c, d][1..] == [b, c, d];
    Concat3(bytes, b, c, d);
  }

  lemma Concat5<F>(bytes: F -> Bytes, a: F, b: F, c: F, d: F, e: F)
    ensures Concat(bytes, [a, b, c, d, e]) == bytes(a) + (bytes(b) + (bytes(c) + (bytes(d) + bytes(e))))
  {
    assert [a, b, c, d, e][1..] == [b, c, d, e];
    Concat4(bytes, b, c, d, e);
  }

  method PutTextEntry(buf: ByteVec, key: nat, t: Bytes) returns (ok: bool)
    requires buf.Valid()
    modifies buf
    ensures buf.Valid()
    ensures Appended(old(buf.items), EncodeUint(key) + EncodeStr(t), buf.capacity, ok, buf.items)
  {
    ghost var s0, k, v := buf.items, EncodeUint(key), EncodeStr(t);
    ok := PutHead(buf, UINT, key);
    if !ok { MessageCodec.StoppedAfter(s0, k, v, buf.capacity, buf.items); return; }
    ghost var s1 := buf.items;
    ok := PutString(buf, TEXT, t);
    MessageCodec.AppendedTwice(s0, k, v, buf.capacity, s1, ok, buf.items);
  }

  method PutTexts(buf: ByteVec, ts: seq<Bytes>) returns (ok: bool)
    requires buf.Valid()
    modifies buf
    ensures buf.Valid()
    ensures Appended(old(buf.items), Concat(EncodeStr, ts), buf.capacity, ok, buf.items)
  {
    ghost var start := buf.items;
    ok := true;
    for i := 0 to |ts|
      invariant buf.Valid() && ok
      invariant buf.items + Concat(EncodeStr, ts[i..]) == start + Concat(EncodeStr, ts)
    {
      assert ts[i..][1..] == ts[i + 1..];
      ok := PutString(buf, TEXT, ts[i]);
      if !ok { return; }
    }
  }

  method PutCodes(buf: ByteVec, codes: seq<nat>) returns (ok: bool)
    requires buf.Valid()
    modifies buf
    ensures buf.Valid()
    ensures Appended(old(buf.items), Concat(EncodeUint, codes), buf.capacity, ok, buf.items)
  {
    ghost var start := buf.items;
    ok := true;
    for i := 0 to |codes|
      invariant buf.Valid() && ok
      invariant buf.items + Concat(EncodeUint, codes[i..]) == start + Concat(EncodeUint, codes)
    {
      assert codes[i..][1..] == codes[i + 1..];
      ok := PutHead(buf, UINT, codes[i]);
      if !ok { return; }
    }
  }

  method PutHeader(buf: ByteVec, h: Header, ghost bytes: Header -> Bytes) returns (ok: bool)
    requires buf.Valid() && Same(bytes, HeaderBytes)
    modifies buf
    ensures buf.Valid()
    ensures Appended(old(buf.items), bytes(h), buf.capacity, ok, buf.items)
  {
    assert Peek(0);
    ghost var s0, head, k, v := buf.items, EncodeHead(ARRAY, 2), EncodeStr(h.key), EncodeStr(h.value);
    ok := PutHead(buf, ARRAY, 2);
    if !ok { MessageCodec.StoppedAfter(s0, head, k + v, buf.capacity, buf.items); return; }
    ghost var s1 := buf.items;
    ok := PutString(buf, TEXT, h.key);
    if !ok {
      MessageCodec.StoppedAfter(s1, k, v, buf.capacity, buf.items);
      MessageCodec.AppendedTwice(s0, head, k + v, buf.capacity, s1, ok, buf.items);
      return;
    }
    ghost var s2 := buf.items;
    ok := PutString(buf, TEXT, h.value);
    MessageCodec.AppendedTwice(s1, k, v, buf.capacity, s2, ok, buf.items);
    MessageCodec.AppendedTwice(s0, head, k + v, buf.capacity, s1, ok, buf.items);
  }

  method PutHeaders(buf: ByteVec, hs: seq<Header>, ghost bytes: Header -> Bytes) returns (ok: bool)
    requires buf.Valid() && Same(bytes, HeaderBytes)
    modifies buf
    ensures buf.Valid()
    ensures Appended(old(buf.items), Concat(bytes, hs), buf.capacity, ok, buf.items)
  {
    ghost var start := buf.items;
    ok := true;
    for i := 0 to |hs|
      invariant buf.Valid() && ok
      invariant buf.items + Concat(bytes, hs[i..]) == start + Concat(bytes, hs)
    {
      assert hs[i..][1..] == hs[i + 1..];
      ok := PutHeader(buf, hs[i], bytes);
      if !ok { return; }
    }
  }

  /** The key of an entry and the head of its array. */
  method PutListHead(buf: ByteVec, key: nat, n: nat) returns (ok: bool)
    requires buf.Valid()
    modifies buf
    ensures buf.Valid()
    ensures Appended(old(buf.items), EncodeUint(key) + EncodeHead(ARRAY, n), buf.capacity, ok, buf.items)
  {
    ghost var s0, k, head := buf.items, EncodeUint(key), EncodeHead(ARRAY, n);
    ok := PutHead(buf, UINT, key);
    if !ok { MessageCodec.StoppedAfter(s0, k, head, buf.capacity, buf.items); return; }
    ghost var s1 := buf.items;
    ok := PutHead(buf, ARRAY, n);
    MessageCodec.AppendedTwice(s0, k, head, buf.capacity, s1, ok, buf.items);
  }

  lemma ListEntry<T>(key: nat, bytes: T -> Bytes, xs: seq<T>)
    ensures EncodeUint(key) + ListBytes(bytes, xs) == (EncodeUint(key) + EncodeHead(ARRAY, |xs|)) + Concat(bytes, xs)
  {
  }

  method PutTextsEntry(buf: ByteVec, key: nat, ts: seq<Bytes>) returns (ok: bool)
    requires buf.Valid()
    modifies buf
    ensures buf.Valid()
    ensures Appended(old(buf.items), EncodeUint(key) + ListBytes(EncodeStr, ts), buf.capacity, ok, buf.items)
  {
    ghost var s0, head, items := buf.items, EncodeUint(key) + EncodeHead(ARRAY, |ts|), Concat(EncodeStr, ts);
    ListEntry(key, EncodeStr, ts);
    ok := PutListHead(buf, key, |ts|);
    if !ok { MessageCodec.StoppedAfter(s0, head, items, buf.capacity, buf.items); return; }
    ghost var s1 := buf.items;
    ok := PutTexts(buf, ts);
    MessageCodec.AppendedTwice(s0, head, items, buf.capacity, s1, ok, buf.items);
  }

  method PutCodesEntry(buf: ByteVec, key: nat, codes: seq<nat>) returns (ok: bool)
    requires buf.Valid()
    modifies buf
    ensures buf.Valid()
    ensures Appended(old(buf.items), EncodeUint(key) + ListBytes(EncodeUint, codes), buf.capacity, ok, buf.items)
  {
    ghost var s0, head, items := buf.items, EncodeUint(key) + EncodeHead(ARRAY, |codes|), Concat(EncodeUint, codes);
    ListEntry(key, EncodeUint, codes);
    ok := PutListHead(buf, key, |codes|);
    if !ok { MessageCodec.StoppedAfter(s0, head, items, buf.capacity, buf.items); return; }
    ghost var s1 := buf.items;
    ok := PutCodes(buf, codes);
    MessageCodec.AppendedTwice(s0, head, items, buf.capacity, s1, ok, buf.items);
  }

  method PutHeadersEntry(buf: ByteVec, key: nat, hs: seq<Header>) returns (ok: bool)
    requires buf.Valid()
    modifies buf
    ensures buf.Valid()
    ensures Appended(old(buf.items), EncodeUint(key) + ListBytes(HeaderBytes, hs), buf.capacity, ok, buf.items)
  {
    ghost var s0, head, items := buf.items, EncodeUint(key) + EncodeHead(ARRAY, |hs|), Concat(HeaderBytes, hs);
    ListEntry(key, HeaderBytes, hs);
    ok := PutListHead(buf, key, |hs|);
    if !ok { MessageCodec.StoppedAfter(s0, head, items, buf.capacity, buf.items); return; }
    ghost var s1 := buf.items;
    ok := PutHeaders(buf, hs, HeaderBytes);
    MessageCodec.AppendedTwice(s0, head, items, buf.capacity, s1, ok, buf.items);
  }

  // ---------------------------------------------------------------- encoders

  /** `done` is written, `todo` is still to write; `total` is both. */
  ghost predicate Writing(s0: Bytes, done: Bytes, todo: Bytes, total: Bytes, capacity: nat, items: Bytes) {
    total == done + todo && Appended(s0, done, capacity, true, items)
  }

  lemma Begin(s0: Bytes, total: Bytes, capacity: nat)
    requires |s0| <= capacity
    ensures Writing(s0, [], total, total, capacity, s0)
  {
    assert [] + total == total && s0 + [] == s0;
  }

  /** One more piece written, or not: either way the contract of the whole is in reach. */
  lemma Wrote(s0: Bytes, done: Bytes, piece: Bytes, todo: Bytes, total: Bytes, capacity: nat, mid: Bytes, ok: bool, end: Bytes)
    requires Writing(s0, done, piece + todo, total, capacity, mid) && Appended(mid, piece, capacity, ok, end)
    ensures ok ==> Writing(s0, done + piece, todo, total, capacity, end)
    ensures !ok ==> Appended(s0, total, capacity, false, end)
  {
    assert done + (piece + todo) == (done + piece) + todo;
    assert s0 + (done + piece) == (s0 + done) + piece;
  }

  lemma WroteLast(s0: Bytes, done: Bytes, piece: Bytes, total: Bytes, capacity: nat, mid: Bytes, ok: bool, end: Bytes)
    requires Writing(s0, done, piece, total, capacity, mid) && Appended(mid, piece, capacity, ok, end)
    ensures Appended(s0, total, capacity, ok, end)
  {
    assert s0 + (done + piece) == (s0 + done) + piece;
  }

  method EncodeAgentInfoRequest(id: nat, buf: ByteVec) returns (r: Result<(), MessageError>)
    requires buf.Valid()
    modifies buf
    ensures buf.Valid()
    ensures Appended(old(buf.items), AppEncode(AgentInfoRequestMsg(id)), buf.capacity, r.Ok?, buf.items)
  {
    ghost var s0, total := buf.items, AppEncode(AgentInfoRequestMsg(id));
    ghost var key, head, entry := TypeKey(AGENT_INFO_REQUEST_KEY), EncodeHead(MAP, 1), EncodeUint(0) + EncodeUint(id);
    Begin(s0, total, buf.capacity);
    r := EncodeTypeKey(AGENT_INFO_REQUEST_KEY, buf);
    Wrote(s0, [], key, head + entry, total, buf.capacity, s0, r.Ok?, buf.items);
    if r.Err? { return; }
    ghost var s1 := buf.items;
    var ok := PutHead(buf, MAP, 1);
    Wrote(s0, [] + key, head, entry, total, buf.capacity, s1, ok, buf.items);
    if !ok { return Err(EncodeFailed); }
    ghost var s2 := buf.items;
    ok := MessageCodec.PutEntry(buf, 0, id);
    WroteLast(s0, [] + key + head, entry, total, buf.capacity, s2, ok, buf.items);
    r := if ok then Ok(()) else Err(EncodeFailed);
  }

  lemma StartParts(m: StartRequest)
    ensures AppEncode(StartRequestMsg(m)) == TypeKey(START_REQUEST_KEY) + (EncodeHead(MAP, 4)
            + (StartFieldBytes(RequestIdField(m.requestId)) + (StartFieldBytes(PresentationIdField(m.presentationId))
            + (StartFieldBytes(UrlField(m.url)) + StartFieldBytes(HeadersField(m.headers))))))
  {
    Concat4(StartFieldBytes, RequestIdField(m.requestId), PresentationIdField(m.presentationId), UrlField(m.url), HeadersField(m.headers));
  }

  method PutStartRequest(m: StartRequest, buf: ByteVec, ghost total: Bytes) returns (r: Result<(), MessageError>)
    requires buf.Valid()
    requires total == TypeKey(START_REQUEST_KEY) + (EncodeHead(MAP, 4)
             + (StartFieldBytes(RequestIdField(m.requestId)) + (StartFieldBytes(PresentationIdField(m.presentationId))
             + (StartFieldBytes(UrlField(m.url)) + StartFieldBytes(HeadersField(m.headers))))))
    modifies buf
    ensures buf.Valid()
    ensures Appended(old(buf.items), total, buf.capacity, r.Ok?, buf.items)
  {
    ghost var s0, cap := buf.items, buf.capacity;
    ghost var key, head := TypeKey(START_REQUEST_KEY), EncodeHead(MAP, 4);
    ghost var f0 := StartFieldBytes(RequestIdField(m.requestId));
    ghost var f1 := StartFieldBytes(PresentationIdField(m.presentationId));
    ghost var f2 := StartFieldBytes(UrlField(m.url));
    ghost var f3 := StartFieldBytes(HeadersField(m.headers));
    Begin(s0, total, cap);
    r := EncodeTypeKey(START_REQUEST_KEY, buf);
    Wrote(s0, [], key, head + (f0 + (f1 + (f2 + f3))), total, cap, s0, r.Ok?, buf.items);
    if r.Err? { return; }
    ghost var done, mid := [] + key, buf.items;
    var ok := PutHead(buf, MAP, 4);
    Wrote(s0, done, head, f0 + (f1 + (f2 + f3)), total, cap, mid, ok, buf.items);
    if !ok { return Err(EncodeFailed); }
    done, mid := done + head, buf.items;
    ok := MessageCodec.PutEntry(buf, 0, m.requestId);
    Wrote(s0, done, f0, f1 + (f2 + f3), total, cap, mid, ok, buf.items);
    if !ok { return Err(EncodeFailed); }
    done, mid := done + f0, buf.items;
    ok := PutTextEntry(buf, 1, m.presentationId);
    Wrote(s0, done, f1, f2 + f3, total, cap, mid, ok, buf.items);
    if !ok { return Err(EncodeFailed); }
    done, mid := done + f1, buf.items;
    ok := PutTextEntry(buf, 2, m.url);
    Wrote(s0, done, f2, f3, total, cap, mid, ok, buf.items);
    if !ok { return Err(EncodeFailed); }
    done, mid := done + f2, buf.items;
    ok := PutHeadersEntry(buf, 3, m.headers);
    WroteLast(s0, done, f3, total, cap, mid, ok, buf.items);
    r := if ok then Ok(()) else Err(EncodeFailed);
  }

  method EncodeStartRequest(m: StartRequest, buf: ByteVec) returns (r: Result<(), MessageError>)
    requires buf.Valid()
    modifies buf
    ensures buf.Valid()
    ensures Appended(old(buf.items), AppEncode(StartRequestMsg(m)), buf.capacity, r.Ok?, buf.items)
  {
    StartParts(m);
    r := PutStartRequest(m, buf, AppEncode(StartRequestMsg(m)));
  }

  lemma UrlParts(m: UrlRequest)
    ensures AppEncode(UrlRequestMsg(m)) == TypeKey(URL_AVAILABILITY_REQUEST_KEY) + (EncodeHead(MAP, 4)
            + (UrlFieldBytes(UrlIdField(m.requestId)) + (UrlFieldBytes(UrlsField(m.urls))
            + (UrlFieldBytes(DurationField(m.watchDuration)) + UrlFieldBytes(WatchField(m.watchId))))))
  {
    Concat4(UrlFieldBytes, UrlIdField(m.requestId), UrlsField(m.urls), DurationField(m.watchDuration), WatchField(m.watchId));
  }

  method PutUrlRequest(m: UrlRequest, buf: ByteVec, ghost total: Bytes) returns (r: Result<(), MessageError>)
    requires buf.Valid()
    requires total == TypeKey(URL_AVAILABILITY_REQUEST_KEY) + (EncodeHead(MAP, 4)
             + (UrlFieldBytes(UrlIdField(m.requestId)) + (UrlFieldBytes(UrlsField(m.urls))
             + (UrlFieldBytes(DurationField(m.watchDuration)) + UrlFieldBytes(WatchField(m.watchId))))))
    modifies buf
    ensures buf.Valid()
    ensures Appended(old(buf.items), total, buf.capacity, r.Ok?, buf.items)
  {
    ghost var s0, cap := buf.items, buf.capacity;
    ghost var key, head := TypeKey(URL_AVAILABILITY_REQUEST_KEY), EncodeHead(MAP, 4);
    ghost var f0 := UrlFieldBytes(UrlIdField(m.requestId));
    ghost var f1 := UrlFieldBytes(UrlsField(m.urls));
    ghost var f2 := UrlFieldBytes(DurationField(m.watchDuration));
    ghost var f3 := UrlFieldBytes(WatchField(m.watchId));
    Begin(s0, total, cap);
    r := EncodeTypeKey(URL_AVAILABILITY_REQUEST_KEY, buf);
    Wrote(s0, [], key, head + (f0 + (f1 + (f2 + f3))), total, cap, s0, r.Ok?, buf.items);
    if r.Err? { return; }
    ghost var done, mid := [] + key, buf.items;
    var ok := PutHead(buf, MAP, 4);
    Wrote(s0, done, head, f0 + (f1 + (f2 + f3)), total, cap, mid, ok, buf.items);
    if !ok { return Err(EncodeFailed); }
    done, mid := done + head, buf.items;
    ok := MessageCodec.PutEntry(buf, 0, m.requestId);
    Wrote(s0, done, f0, f1 + (f2 + f3), total, cap, mid, ok, buf.items);
    if !ok { return Err(EncodeFailed); }
    done, mid := done + f0, buf.items;
    ok := PutTextsEntry(buf, 1, m.urls);
    Wrote(s0, done, f1, f2 + f3, total, cap, mid, ok, buf.items);
    if !ok { return Err(EncodeFailed); }
    done, mid := done + f1, buf.items;
    ok := MessageCodec.PutEntry(buf, 2, m.watchDuration);
    Wrote(s0, done, f2, f3, total, cap, mid, ok, buf.items);
    if !ok { return Err(EncodeFailed); }
    done, mid := done + f2, buf.items;
    ok := MessageCodec.PutEntry(buf, 3, m.watchId);
    WroteLast(s0, done, f3, total, cap, mid, ok, buf.items);
    r := if ok then Ok(()) else Err(EncodeFailed);
  }

  method EncodeUrlRequest(m: UrlRequest, buf: ByteVec) returns (r: Result<(), MessageError>)
    requires buf.Valid()
    modifies buf
    ensures buf.Valid()
    ensures Appended(old(buf.items), AppEncode(UrlRequestMsg(m)), buf.capacity, r.Ok?, buf.items)
  {
    UrlParts(m);
    r := PutUrlRequest(m, buf, AppEncode(UrlRequestMsg(m)));
  }

  lemma OpenParts(m: OpenResponse)
    ensures AppEncode(OpenResponseMsg(m)) == TypeKey(OPEN_RESPONSE_KEY) + (EncodeHead(MAP, 4)
            + (OpenFieldBytes(OpenIdField(m.requestId)) + (OpenFieldBytes(ResultField(m.result))
            + (OpenFieldBytes(OpenConnectionField(m.connectionId)) + OpenFieldBytes(OpenCountField(m.connectionCount))))))
  {
    Concat4(OpenFieldBytes, OpenIdField(m.requestId), ResultField(m.result), OpenConnectionField(m.connectionId), OpenCountField(m.connectionCount));
  }

  method PutOpenResponse(m: OpenResponse, buf: ByteVec, ghost total: Bytes) returns (r: Result<(), MessageError>)
    requires buf.Valid()
    requires total == TypeKey(OPEN_RESPONSE_KEY) + (EncodeHead(MAP, 4)
             + (OpenFieldBytes(OpenIdField(m.requestId)) + (OpenFieldBytes(ResultField(m.result))
             + (OpenFieldBytes(OpenConnectionField(m.connectionId)) + OpenFieldBytes(OpenCountField(m.connectionCount))))))
    modifies buf
    ensures buf.Valid()
    ensures Appended(old(buf.items), total, buf.capacity, r.Ok?, buf.items)
  {
    ghost var s0, cap := buf.items, buf.capacity;
    ghost var key, head := TypeKey(OPEN_RESPONSE_KEY), EncodeHead(MAP, 4);
    ghost var f0 := OpenFieldBytes(OpenIdField(m.requestId));
    ghost var f1 := OpenFieldBytes(ResultField(m.result));
    ghost var f2 := OpenFieldBytes(OpenConnectionField(m.connectionId));
    ghost var f3 := OpenFieldBytes(OpenCountField(m.connectionCount));
    Begin(s0, total, cap);
    r := EncodeTypeKey(OPEN_RESPONSE_KEY, buf);
    Wrote(s0, [], key, head + (f0 + (f1 + (f2 + f3))), total, cap, s0, r.Ok?, buf.items);
    if r.Err? { return; }
    ghost var done, mid := [] + key, buf.items;
    var ok := PutHead(buf, MAP, 4);
    Wrote(s0, done, head, f0 + (f1 + (f2 + f3)), total, cap, mid, ok, buf.items);
    if !ok { return Err(EncodeFailed); }
    done, mid := done + head, buf.items;
    ok := MessageCodec.PutEntry(buf, 0, m.requestId);
    Wrote(s0, done, f0, f1 + (f2 + f3), total, cap, mid, ok, buf.items);
    if !ok { return Err(EncodeFailed); }
    done, mid := done + f0, buf.items;
    ok := MessageCodec.PutEntry(buf, 1, m.result);
    Wrote(s0, done, f1, f2 + f3, total, cap, mid, ok, buf.items);
    if !ok { return Err(EncodeFailed); }
    done, mid := done + f1, buf.items;
    ok := MessageCodec.PutEntry(buf, 2, m.connectionId);
    Wrote(s0, done, f2, f3, total, cap, mid, ok, buf.items);
    if !ok { return Err(EncodeFailed); }
    done, mid := done + f2, buf.items;
    ok := MessageCodec.PutEntry(buf, 3, m.connectionCount);
    WroteLast(s0, done, f3, total, cap, mid, ok, buf.items);
    r := if ok then Ok(()) else Err(EncodeFailed);
  }

  method EncodeOpenResponse(m: OpenResponse, buf: ByteVec) returns (r: Result<(), MessageError>)
    requires buf.Valid()
    modifies buf
    ensures buf.Valid()
    ensures Appended(old(buf.items), AppEncode(OpenResponseMsg(m)), buf.capacity, r.Ok?, buf.items)
  {
    OpenParts(m);
    r := PutOpenResponse(m, buf, AppEncode(OpenResponseMsg(m)));
  }

  /** The optional entry: its bytes, or none. */
  function ErrorBytes(text: Option<Bytes>): Bytes {
    match text
    case None => []
    case Some(t) => CloseFieldBytes(ErrorField(t))
  }

  lemma CloseConcat(m: CloseEvent)
    ensures Concat(CloseFieldBytes, CloseFields(m)) ==
            CloseFieldBytes(CloseConnectionField(m.connectionId)) + (CloseFieldBytes(ReasonField(m.reason))
            + (ErrorBytes(m.errorMessage) + CloseFieldBytes(CloseCountField(m.connectionCount))))
  {
    var a, b, d := CloseConnectionField(m.connectionId), ReasonField(m.reason), CloseCountField(m.connectionCount);
    if m.errorMessage.Some? {
      assert CloseFields(m) == [a, b, ErrorField(m.errorMessage.value), d];
      Concat4(CloseFieldBytes, a, b, ErrorField(m.errorMessage.value), d);
    } else {
      assert CloseFields(m) == [a, b, d];
      Concat3(CloseFieldBytes, a, b, d);
      assert [] + CloseFieldBytes(d) == CloseFieldBytes(d);
    }
  }

  lemma CloseWhole(m: CloseEvent)
    ensures AppEncode(CloseEventMsg(m)) == TypeKey(CLOSE_EVENT_KEY)
            + (EncodeHead(MAP, if m.errorMessage.Some? then 4 else 3) + Concat(CloseFieldBytes, CloseFields(m)))
  {
  }

  lemma CloseParts(m: CloseEvent)
    ensures AppEncode(CloseEventMsg(m)) == TypeKey(CLOSE_EVENT_KEY) + (EncodeHead(MAP, if m.errorMessage.Some? then 4 else 3)
            + (CloseFieldBytes(CloseConnectionField(m.connectionId)) + (CloseFieldBytes(ReasonField(m.reason))
            + (ErrorBytes(m.errorMessage) + CloseFieldBytes(CloseCountField(m.connectionCount))))))
  {
    CloseWhole(m);
    CloseConcat(m);
  }

  method PutError(buf: ByteVec, text: Option<Bytes>) returns (ok: bool)
    requires buf.Valid()
    modifies buf
    ensures buf.Valid()
    ensures Appended(old(buf.items), ErrorBytes(text), buf.capacity, ok, buf.items)
  {
    ok := true;
    if text.Some? {
      ok := PutTextEntry(buf, 2, text.value);
    } else {
      assert buf.items + [] == buf.items;
    }
  }

  method EncodeCloseEvent(m: CloseEvent, buf: ByteVec) returns (r: Result<(), MessageError>)
    requires buf.Valid()
    modifies buf
    ensures buf.Valid()
    ensures Appended(old(buf.items), AppEncode(CloseEventMsg(m)), buf.capacity, r.Ok?, buf.items)
  {
    ghost var s0, total, cap := buf.items, AppEncode(CloseEventMsg(m)), buf.capacity;
    ghost var key, head := TypeKey(CLOSE_EVENT_KEY), EncodeHead(MAP, if m.errorMessage.Some? then 4 else 3);
    ghost var f0 := CloseFieldBytes(CloseConnectionField(m.connectionId));
    ghost var f1 := CloseFieldBytes(ReasonField(m.reason));
    ghost var f2 := ErrorBytes(m.errorMessage);
    ghost var f3 := CloseFieldBytes(CloseCountField(m.connectionCount));
    CloseParts(m);
    Begin(s0, total, cap);
    r := EncodeTypeKey(CLOSE_EVENT_KEY, buf);
    Wrote(s0, [], key, head + (f0 + (f1 + (f2 + f3))), total, cap, s0, r.Ok?, buf.items);
    if r.Err? { return; }
    ghost var done, mid := [] + key, buf.items;
    var ok := PutHead(buf, MAP, if m.errorMessage.Some? then 4 else 3);
    Wrote(s0, done, head, f0 + (f1 + (f2 + f3)), total, cap, mid, ok, buf.items);
    if !ok { return Err(EncodeFailed); }
    done, mid := done + head, buf.items;
    ok := MessageCodec.PutEntry(buf, 0, m.connectionId);
    Wrote(s0, done, f0, f1 + (f2 + f3), total, cap, mid, ok, buf.items);
    if !ok { return Err(EncodeFailed); }
    done, mid := done + f0, buf.items;
    ok := MessageCodec.PutEntry(buf, 1, m.reason);
    Wrote(s0, done, f1, f2 + f3, total, cap, mid, ok, buf.items);
    if !ok { return Err(EncodeFailed); }
    done, mid := done + f1, buf.items;
    ok := PutError(buf, m.errorMessage);
    Wrote(s0, done, f2, f3, total, cap, mid, ok, buf.items);
    if !ok { return Err(EncodeFailed); }
    done, mid := done + f2, buf.items;
    ok := MessageCodec.PutEntry(buf, 3, m.connectionCount);
    WroteLast(s0, done, f3, total, cap, mid, ok, buf.items);
    r := if ok then Ok(()) else Err(EncodeFailed);
  }

  method PutAgent(buf: ByteVec, a: AgentInfo) returns (ok: bool)
    requires buf.Valid()
    modifies buf
    ensures buf.Valid()
    ensures Appended(old(buf.items), AgentBytes(a), buf.capacity, ok, buf.items)
  {
    ghost var s0, total, cap := buf.items, AgentBytes(a), buf.capacity;
    ghost var head, f0, f1 := EncodeHead(MAP, 5), AgentFieldBytes(NameField(a.displayName)), AgentFieldBytes(ModelField(a.modelName));
    ghost var f2, f3 := AgentFieldBytes(CapabilitiesField(a.capabilities)), AgentFieldBytes(StateTokenField(a.stateToken));
    ghost var f4 := AgentFieldBytes(LocalesField(a.locales));
    Concat5(AgentFieldBytes, NameField(a.displayName), ModelField(a.modelName), CapabilitiesField(a.capabilities),
            StateTokenField(a.stateToken), LocalesField(a.locales));
    Begin(s0, total, cap);
    ok := PutHead(buf, MAP, 5);
    Wrote(s0, [], head, f0 + (f1 + (f2 + (f3 + f4))), total, cap, s0, ok, buf.items);
    if !ok { return; }
    ghost var done, mid := [] + head, buf.items;
    ok := PutTextEntry(buf, 0, a.displayName);
    Wrote(s0, done, f0, f1 + (f2 + (f3 + f4)), total, cap, mid, ok, buf.items);
    if !ok { return; }
    done, mid := done + f0, buf.items;
    ok := PutTextEntry(buf, 1, a.modelName);
    Wrote(s0, done, f1, f2 + (f3 + f4), total, cap, mid, ok, buf.items);
    if !ok { return; }
    done, mid := done + f1, buf.items;
    ok := PutCodesEntry(buf, 2, a.capabilities);
    Wrote(s0, done, f2, f3 + f4, total, cap, mid, ok, buf.items);
    if !ok { return; }
    done, mid := done + f2, buf.items;
    ok := PutTextEntry(buf, 3, a.stateToken);
    Wrote(s0, done, f3, f4, total, cap, mid, ok, buf.items);
    if !ok { return; }
    done, mid := done + f3, buf.items;
    ok := PutTextsEntry(buf, 4, a.locales);
    WroteLast(s0, done, f4, total, cap, mid, ok, buf.items);
  }

  method EncodeAgentInfoResponse(m: AgentInfoResponse, buf: ByteVec) returns (r: Result<(), MessageError>)
    requires buf.Valid()
    modifies buf
    ensures buf.Valid()
    ensures Appended(old(buf.items), AppEncode(AgentInfoMsg(m)), buf.capacity, r.Ok?, buf.items)
  {
    ghost var s0, total, cap := buf.items, AppEncode(AgentInfoMsg(m)), buf.capacity;
    ghost var key, head, id := TypeKey(AGENT_INFO_RESPONSE_KEY), EncodeHead(MAP, 2), EncodeUint(0) + EncodeUint(m.requestId);
    ghost var one, agent := EncodeUint(1), AgentBytes(m.info);
    assert total == key + (head + (id + (one + agent))) by {
      RegroupResponse(head, EncodeUint(0), EncodeUint(m.requestId), one, agent);
    }
    Begin(s0, total, cap);
    r := EncodeTypeKey(AGENT_INFO_RESPONSE_KEY, buf);
    Wrote(s0, [], key, head + (id + (one + agent)), total, cap, s0, r.Ok?, buf.items);
    if r.Err? { return; }
    ghost var done, mid := [] + key, buf.items;
    var ok := PutHead(buf, MAP, 2);
    Wrote(s0, done, head, id + (one + agent), total, cap, mid, ok, buf.items);
    if !ok { return Err(EncodeFailed); }
    done, mid := done + head, buf.items;
    ok := MessageCodec.PutEntry(buf, 0, m.requestId);
    Wrote(s0, done, id, one + agent, total, cap, mid, ok, buf.items);
    if !ok { return Err(EncodeFailed); }
    done, mid := done + id, buf.items;
    ok := PutHead(buf, UINT, 1);
    Wrote(s0, done, one, agent, total, cap, mid, ok, buf.items);
    if !ok { return Err(EncodeFailed); }
    done, mid := done + one, buf.items;
    ok := PutAgent(buf, m.info);
    WroteLast(s0, done, agent, total, cap, mid, ok, buf.items);
    r := if ok then Ok(()) else Err(EncodeFailed);
  }

  lemma RegroupResponse(a: Bytes, b: Bytes, c: Bytes, d: Bytes, e: Bytes)
    ensures a + (b + (c + (d + e))) == a + ((b + c) + (d + e))
  {
  }

  // ---------------------------------------------------------------- flat maps: encoding

  method PutStatus(buf: ByteVec, t: Bytes) returns (ok: bool)
    requires buf.Valid()
    modifies buf
    ensures buf.Valid()
    ensures Appended(old(buf.items), StatusBytes(t), buf.capacity, ok, buf.items)
  {
    ghost var s0, total, cap := buf.items, StatusBytes(t), buf.capacity;
    ghost var head, key, text := EncodeHead(MAP, 1), EncodeUint(0), EncodeStr(t);
    Begin(s0, total, cap);
    ok := PutHead(buf, MAP, 1);
    Wrote(s0, [], head, key + text, total, cap, s0, ok, buf.items);
    if !ok { return; }
    ghost var done, mid := [] + head, buf.items;
    ok := PutHead(buf, UINT, 0);
    Wrote(s0, done, key, text, total, cap, mid, ok, buf.items);
    if !ok { return; }
    done, mid := done + key, buf.items;
    ok := PutString(buf, TEXT, t);
    WroteLast(s0, done, text, total, cap, mid, ok, buf.items);
  }

  method PutFlatValue(buf: ByteVec, v: Value) returns (ok: bool)
    requires buf.Valid()
    modifies buf
    ensures buf.Valid()
    ensures Appended(old(buf.items), ValueBytes(v), buf.capacity, ok, buf.items)
  {
    match v
    case Number(n) => ok := PutHead(buf, UINT, n);
    case Text(t) => ok := PutString(buf, TEXT, t);
    case Blob(b) => ok := PutString(buf, BYTES, b);
    case StatusText(t) => ok := PutStatus(buf, t);
  }

  method PutFlatEntry(buf: ByteVec, e: Entry, ghost bytes: Entry -> Bytes) returns (ok: bool)
    requires buf.Valid() && Same(bytes, EntryBytes)
    modifies buf
    ensures buf.Valid()
    ensures Appended(old(buf.items), bytes(e), buf.capacity, ok, buf.items)
  {
    assert Peek(0);
    ghost var s0, key, value := buf.items, EncodeUint(e.key), ValueBytes(e.value);
    ok := PutHead(buf, UINT, e.key);
    if !ok { MessageCodec.StoppedAfter(s0, key, value, buf.capacity, buf.items); return; }
    ghost var s1 := buf.items;
    ok := PutFlatValue(buf, e.value);
    MessageCodec.AppendedTwice(s0, key, value, buf.capacity, s1, ok, buf.items);
  }

  method PutFlatEntries(buf: ByteVec, es: seq<Entry>, ghost bytes: Entry -> Bytes) returns (ok: bool)
    requires buf.Valid() && Same(bytes, EntryBytes)
    modifies buf
    ensures buf.Valid()
    ensures Appended(old(buf.items), Concat(bytes, es), buf.capacity, ok, buf.items)
  {
    ghost var start := buf.items;
    ok := true;
    for i := 0 to |es|
      invariant buf.Valid() && ok
      invariant buf.items + Concat(bytes, es[i..]) == start + Concat(bytes, es)
    {
      assert es[i..][1..] == es[i + 1..];
      ok := PutFlatEntry(buf, es[i], bytes);
      if !ok { return; }
    }
  }

  /** Type key, map head, then the entries one after the other. */
  method EncodeFlat(m: AppMessage, buf: ByteVec) returns (r: Result<(), MessageError>)
    requires buf.Valid() && IsFlat(m)
    modifies buf
    ensures buf.Valid()
    ensures Appended(old(buf.items), AppEncode(m), buf.capacity, r.Ok?, buf.items)
  {
    var es := FlatEntries(m);
    ghost var s0, total, cap := buf.items, AppEncode(m), buf.capacity;
    ghost var key, head, entries := TypeKey(AppKeyOf(m)), EncodeHead(MAP, |es|), Concat(EntryBytes, es);
    FlatParts(m);
    Begin(s0, total, cap);
    r := EncodeTypeKey(AppKeyOf(m), buf);
    Wrote(s0, [], key, head + entries, total, cap, s0, r.Ok?, buf.items);
    if r.Err? { return; }
    ghost var done, mid := [] + key, buf.items;
    var ok := PutHead(buf, MAP, |es|);
    Wrote(s0, done, head, entries, total, cap, mid, ok, buf.items);
    if !ok { return Err(EncodeFailed); }
    done, mid := done + head, buf.items;
    ok := PutFlatEntries(buf, es, EntryBytes);
    WroteLast(s0, done, entries, total, cap, mid, ok, buf.items);
    r := if ok then Ok(()) else Err(EncodeFailed);
  }

  lemma FlatParts(m: AppMessage)
    requires IsFlat(m)
    ensures AppEncode(m) == TypeKey(AppKeyOf(m)) + (EncodeHead(MAP, |FlatEntries(m)|) + Concat(EntryBytes, FlatEntries(m)))
  {
  }

  // ---------------------------------------------------------------- reading items

  /** A method agrees with a parser: same success, same value, same error, same position. */
  ghost predicate Agrees<T>(p: Parse<T>, r: Result<T, MessageError>, rest: Bytes) {
    match p
    case Err(e) => r == Err(e)
    case Ok((x, after)) => r == Ok(x) && rest == after
  }

  method ReadNumber(d: Decoder) returns (r: Result<nat, MessageError>)
    modifies d
    ensures Agrees(ParseNumber(old(d.rest)), r, d.rest)
  {
    var n := d.Uint(U64);
    r := if n.None? then Err(DecodeFailed) else Ok(n.value);
  }

  method ReadAnyText(d: Decoder) returns (r: Result<Bytes, MessageError>)
    modifies d
    ensures Agrees(ParseAnyText(old(d.rest)), r, d.rest)
  {
    var t := d.Str();
    r := if t.None? then Err(DecodeFailed) else Ok(t.value);
  }

  method ReadText(d: Decoder) returns (r: Result<Bytes, MessageError>)
    modifies d
    ensures Agrees(ParseText(old(d.rest)), r, d.rest)
  {
    var t := d.Str();
    if t.None? { return Err(DecodeFailed); }
    if |t.value| > MAX_STRING_LEN { return Err(FieldTooLong); }
    return Ok(t.value);
  }

  method ReadCode(d: Decoder, valid: nat -> bool) returns (r: Result<nat, MessageError>)
    modifies d
    ensures Agrees(ParseCode(valid, old(d.rest)), r, d.rest)
  {
    var n := d.Uint(0x100);
    if n.None? { return Err(DecodeFailed); }
    if !valid(n.value) { return Err(InvalidField); }
    return Ok(n.value);
  }

  method ReadCapability(d: Decoder) returns (r: Result<nat, MessageError>)
    modifies d
    ensures Agrees(ParseCapability(old(d.rest)), r, d.rest)
  {
    var n := d.Uint(0x100);
    if n.None? { return Err(DecodeFailed); }
    if !CapabilityCode(n.value) { return Err(InvalidField); }
    return Ok(n.value);
  }

  method ReadHeader(d: Decoder) returns (r: Result<Header, MessageError>)
    modifies d
    ensures Agrees(ParseHeader(old(d.rest)), r, d.rest)
  {
    var len := d.Length(ARRAY);
    if len.None? { return Err(DecodeFailed); }
    if len.value != Some(2) { return Err(InvalidField); }
    var key := ReadText(d);
    if key.Err? { return Err(key.error); }
    var value := ReadText(d);
    if value.Err? { return Err(value.error); }
    return Ok(Header(key.value, value.value));
  }

  // ---------------------------------------------------------------- array loops

  method PushCapability(d: Decoder, before: seq<nat>, ghost step: (Bytes, seq<nat>) -> Parse<seq<nat>>) returns (r: Result<seq<nat>, MessageError>)
    requires Same(step, Push(ParseCapability, MAX_CAPABILITIES))
    modifies d
    ensures Agrees(step(old(d.rest), before), r, d.rest)
  {
    assert Peek(0);
    var x := ReadCapability(d);
    if x.Err? { return Err(x.error); }
    if |before| >= MAX_CAPABILITIES { return Err(BufferFull); }
    return Ok(before + [x.value]);
  }

  method ReadCapabilities(d: Decoder, n: nat, before: seq<nat>, ghost step: (Bytes, seq<nat>) -> Parse<seq<nat>>) returns (r: Result<seq<nat>, MessageError>)
    requires Same(step, Push(ParseCapability, MAX_CAPABILITIES))
    modifies d
    ensures Agrees(Repeat(step, old(d.rest), n, before), r, d.rest)
  {
    var items := before;
    for i := 0 to n
      invariant Repeat(step, d.rest, n - i, items) == Repeat(step, old(d.rest), n, before)
    {
      ghost var s, acc := d.rest, items;
      var pushed := PushCapability(d, items, step);
      if pushed.Err? { return Err(pushed.error); }
      items := pushed.value;
      RepeatStep(step, s, n - i, acc, d.rest, items);
    }
    RepeatZero(step, d.rest, items);
    return Ok(items);
  }

  method PushLocale(d: Decoder, before: seq<Bytes>, ghost step: (Bytes, seq<Bytes>) -> Parse<seq<Bytes>>) returns (r: Result<seq<Bytes>, MessageError>)
    requires Same(step, Push(ParseText, MAX_LOCALES))
    modifies d
    ensures Agrees(step(old(d.rest), before), r, d.rest)
  {
    assert Peek(0);
    var x := ReadText(d);
    if x.Err? { return Err(x.error); }
    if |before| >= MAX_LOCALES { return Err(BufferFull); }
    return Ok(before + [x.value]);
  }

  method ReadLocales(d: Decoder, n: nat, before: seq<Bytes>, ghost step: (Bytes, seq<Bytes>) -> Parse<seq<Bytes>>) returns (r: Result<seq<Bytes>, MessageError>)
    requires Same(step, Push(ParseText, MAX_LOCALES))
    modifies d
    ensures Agrees(Repeat(step, old(d.rest), n, before), r, d.rest)
  {
    var items := before;
    for i := 0 to n
      invariant Repeat(step, d.rest, n - i, items) == Repeat(step, old(d.rest), n, before)
    {
      ghost var s, acc := d.rest, items;
      var pushed := PushLocale(d, items, step);
      if pushed.Err? { return Err(pushed.error); }
      items := pushed.value;
      RepeatStep(step, s, n - i, acc, d.rest, items);
    }
    RepeatZero(step, d.rest, items);
    return Ok(items);
  }

  method PushHeader(d: Decoder, before: seq<Header>, ghost step: (Bytes, seq<Header>) -> Parse<seq<Header>>) returns (r: Result<seq<Header>, MessageError>)
    requires Same(step, Push(ParseHeader, MAX_HEADERS))
    modifies d
    ensures Agrees(step(old(d.rest), before), r, d.rest)
  {
    assert Peek(0);
    var x := ReadHeader(d);
    if x.Err? { return Err(x.error); }
    if |before| >= MAX_HEADERS { return Err(BufferFull); }
    return Ok(before + [x.value]);
  }

  method ReadHeaders(d: Decoder, n: nat, before: seq<Header>, ghost step: (Bytes, seq<Header>) -> Parse<seq<Header>>) returns (r: Result<seq<Header>, MessageError>)
    requires Same(step, Push(ParseHeader, MAX_HEADERS))
    modifies d
    ensures Agrees(Repeat(step, old(d.rest), n, before), r, d.rest)
  {
    var items := before;
    for i := 0 to n
      invariant Repeat(step, d.rest, n - i, items) == Repeat(step, old(d.rest), n, before)
    {
      ghost var s, acc := d.rest, items;
      var pushed := PushHeader(d, items, step);
      if pushed.Err? { return Err(pushed.error); }
      items := pushed.value;
      RepeatStep(step, s, n - i, acc, d.rest, items);
    }
    RepeatZero(step, d.rest, items);
    return Ok(items);
  }

  method PushUrl(d: Decoder, before: seq<Bytes>, ghost step: (Bytes, seq<Bytes>) -> Parse<seq<Bytes>>) returns (r: Result<seq<Bytes>, MessageError>)
    requires Same(step, Push(ParseAnyText, MAX_URLS))
    modifies d
    ensures Agrees(step(old(d.rest), before), r, d.rest)
  {
    assert Peek(0);
    var x := ReadAnyText(d);
    if x.Err? { return Err(x.error); }
    if |before| >= MAX_URLS { return Err(BufferFull); }
    return Ok(before + [x.value]);
  }

  method ReadUrls(d: Decoder, n: nat, before: seq<Bytes>, ghost step: (Bytes, seq<Bytes>) -> Parse<seq<Bytes>>) returns (r: Result<seq<Bytes>, MessageError>)
    requires Same(step, Push(ParseAnyText, MAX_URLS))
    modifies d
    ensures Agrees(Repeat(step, old(d.rest), n, before), r, d.rest)
  {
    var items := before;
    for i := 0 to n
      invariant Repeat(step, d.rest, n - i, items) == Repeat(step, old(d.rest), n, before)
    {
      ghost var s, acc := d.rest, items;
      var pushed := PushUrl(d, items, step);
      if pushed.Err? { return Err(pushed.error); }
      items := pushed.value;
      RepeatStep(step, s, n - i, acc, d.rest, items);
    }
    RepeatZero(step, d.rest, items);
    return Ok(items);
  }

  method AppendCapabilities(d: Decoder, before: seq<nat>) returns (r: Result<seq<nat>, MessageError>)
    modifies d
    ensures Agrees(ParseAppend(ParseCapability, MAX_CAPABILITIES, old(d.rest), before), r, d.rest)
  {
    var len := d.Length(ARRAY);
    if len.None? { return Err(DecodeFailed); }
    if len.value.None? { return Ok(before); }
    r := ReadCapabilities(d, len.value.value, before, Push(ParseCapability, MAX_CAPABILITIES));
  }

  method AppendLocales(d: Decoder, before: seq<Bytes>) returns (r: Result<seq<Bytes>, MessageError>)
    modifies d
    ensures Agrees(ParseAppend(ParseText, MAX_LOCALES, old(d.rest), before), r, d.rest)
  {
    var len := d.Length(ARRAY);
    if len.None? { return Err(DecodeFailed); }
    if len.value.None? { return Ok(before); }
    r := ReadLocales(d, len.value.value, before, Push(ParseText, MAX_LOCALES));
  }

  method AppendHeaders(d: Decoder, before: seq<Header>) returns (r: Result<seq<Header>, MessageError>)
    modifies d
    ensures Agrees(ParseAppend(ParseHeader, MAX_HEADERS, old(d.rest), before), r, d.rest)
  {
    var len := d.Length(ARRAY);
    if len.None? { return Err(DecodeFailed); }
    if len.value.None? { return Ok(before); }
    r := ReadHeaders(d, len.value.value, before, Push(ParseHeader, MAX_HEADERS));
  }

  method ReadUrlList(d: Decoder) returns (r: Result<seq<Bytes>, MessageError>)
    modifies d
    ensures Agrees(ParseList(ParseAnyText, MAX_URLS, old(d.rest)), r, d.rest)
  {
    var len := d.Length(ARRAY);
    if len.None? { return Err(DecodeFailed); }
    if len.value.None? { return Err(InvalidField); }
    r := ReadUrls(d, len.value.value, [], Push(ParseAnyText, MAX_URLS));
  }

  // ---------------------------------------------------------------- decoders

  /** The body of the loop: one entry, stored in the local variables. */
  method AgentEntry(d: Decoder, before: AgentLocals, ghost step: (Bytes, AgentLocals) -> Parse<AgentLocals>) returns (r: Result<AgentLocals, MessageError>)
    requires Same(step, AgentStep)
    modifies d
    ensures Agrees(step(old(d.rest), before), r, d.rest)
  {
    assert Peek(0);
    var locals := before;
    var key := d.Uint(0x100);
    if key.None? { return Err(DecodeFailed); }
    match key.value {
      case 0 =>
        var x := ReadText(d);
        if x.Err? { return Err(x.error); }
        locals := locals.(name := Some(x.value));
      case 1 =>
        var x := ReadText(d);
        if x.Err? { return Err(x.error); }
        locals := locals.(model := Some(x.value));
      case 2 =>
        var x := AppendCapabilities(d, locals.capabilities);
        if x.Err? { return Err(x.error); }
        locals := locals.(capabilities := x.value);
      case 3 =>
        var x := ReadText(d);
        if x.Err? { return Err(x.error); }
        locals := locals.(stateToken := Some(x.value));
      case 4 =>
        var x := AppendLocales(d, locals.locales);
        if x.Err? { return Err(x.error); }
        locals := locals.(locales := x.value);
      case _ =>
        return Err(InvalidField);
    }
    return Ok(locals);
  }

  method AgentEntries(d: Decoder, n: nat, ghost step: (Bytes, AgentLocals) -> Parse<AgentLocals>) returns (r: Result<AgentLocals, MessageError>)
    requires Same(step, AgentStep)
    modifies d
    ensures Agrees(Repeat(step, old(d.rest), n, NO_AGENT), r, d.rest)
  {
    var locals := NO_AGENT;
    for i := 0 to n
      invariant Repeat(step, d.rest, n - i, locals) == Repeat(step, old(d.rest), n, NO_AGENT)
    {
      ghost var s, acc := d.rest, locals;
      var entry := AgentEntry(d, locals, step);
      if entry.Err? { return Err(entry.error); }
      locals := entry.value;
      RepeatStep(step, s, n - i, acc, d.rest, locals);
    }
    RepeatZero(step, d.rest, locals);
    return Ok(locals);
  }

  method ReadAgent(d: Decoder) returns (r: Result<AgentInfo, MessageError>)
    modifies d
    ensures Agrees(ParseAgent(old(d.rest)), r, d.rest)
  {
    var len := d.Length(MAP);
    if len.None? { return Err(DecodeFailed); }
    if len.value != Some(5) { return Err(InvalidField); }
    var read := AgentEntries(d, 5, AgentStep);
    if read.Err? { return Err(read.error); }
    var locals := read.value;
    return AgentComplete(locals);
  }

  method ReadKey(d: Decoder, want: nat) returns (r: Result<(), MessageError>)
    modifies d
    ensures match ParseKey(old(d.rest), want)
            case Err(e) => r == Err(e)
            case Ok(rest) => r == Ok(()) && d.rest == rest
  {
    var key := d.Uint(0x100);
    if key.None? { return Err(DecodeFailed); }
    if key.value != want { return Err(InvalidField); }
    return Ok(());
  }

  method DecodeAgentInfoResponse(body: Bytes) returns (r: Result<AgentInfoResponse, MessageError>)
    ensures match ParseAgentInfoResponse(body)
            case Err(e) => r == Err(e)
            case Ok((m, _)) => r == Ok(m)
  {
    var d := new Decoder(body);
    var len := d.Length(MAP);
    if len.None? { return Err(DecodeFailed); }
    if len.value != Some(2) { return Err(InvalidField); }
    var k := ReadKey(d, 0);
    if k.Err? { return Err(k.error); }
    var id := ReadNumber(d);
    if id.Err? { return Err(id.error); }
    k := ReadKey(d, 1);
    if k.Err? { return Err(k.error); }
    var agent := ReadAgent(d);
    if agent.Err? { return Err(agent.error); }
    return Ok(AgentInfoResponse(id.value, agent.value));
  }

  method DecodeAgentInfoRequest(body: Bytes) returns (r: Result<nat, MessageError>)
    ensures match ParseInfoRequest(body)
            case Err(e) => r == Err(e)
            case Ok((id, _)) => r == Ok(id)
  {
    var d := new Decoder(body);
    var len := d.Length(MAP);
    if len.None? { return Err(DecodeFailed); }
    if len.value != Some(1) { return Err(InvalidField); }
    var k := ReadKey(d, 0);
    if k.Err? { return Err(k.error); }
    r := ReadNumber(d);
  }

  /** The body of the loop: one entry, stored in the local variables. */
  method StartRequestEntry(d: Decoder, before: StartLocals, ghost step: (Bytes, StartLocals) -> Parse<StartLocals>) returns (r: Result<StartLocals, MessageError>)
    requires Same(step, StartStep)
    modifies d
    ensures Agrees(step(old(d.rest), before), r, d.rest)
  {
    assert Peek(0);
    var locals := before;
    var key := d.Uint(0x100);
    if key.None? { return Err(DecodeFailed); }
    match key.value {
      case 0 =>
        var x := ReadNumber(d);
        if x.Err? { return Err(x.error); }
        locals := locals.(requestId := Some(x.value));
      case 1 =>
        var x := ReadText(d);
        if x.Err? { return Err(x.error); }
        locals := locals.(presentationId := Some(x.value));
      case 2 =>
        var x := ReadText(d);
        if x.Err? { return Err(x.error); }
        locals := locals.(url := Some(x.value));
      case 3 =>
        var x := AppendHeaders(d, locals.headers);
        if x.Err? { return Err(x.error); }
        locals := locals.(headers := x.value);
      case _ =>
        return Err(InvalidField);
    }
    return Ok(locals);
  }

  method StartRequestEntries(d: Decoder, n: nat, ghost step: (Bytes, StartLocals) -> Parse<StartLocals>) returns (r: Result<StartLocals, MessageError>)
    requires Same(step, StartStep)
    modifies d
    ensures Agrees(Repeat(step, old(d.rest), n, NO_START), r, d.rest)
  {
    var locals := NO_START;
    for i := 0 to n
      invariant Repeat(step, d.rest, n - i, locals) == Repeat(step, old(d.rest), n, NO_START)
    {
      ghost var s, acc := d.rest, locals;
      var entry := StartRequestEntry(d, locals, step);
      if entry.Err? { return Err(entry.error); }
      locals := entry.value;
      RepeatStep(step, s, n - i, acc, d.rest, locals);
    }
    RepeatZero(step, d.rest, locals);
    return Ok(locals);
  }

  method DecodeStartRequest(body: Bytes) returns (r: Result<StartRequest, MessageError>)
    ensures match ParseStartRequest(body)
            case Err(e) => r == Err(e)
            case Ok((m, _)) => r == Ok(m)
  {
    var d := new Decoder(body);
    var len := d.Length(MAP);
    if len.None? { return Err(DecodeFailed); }
    if len.value != Some(4) { return Err(InvalidField); }
    var read := StartRequestEntries(d, 4, StartStep);
    if read.Err? { return Err(read.error); }
    var locals := read.value;
    return StartComplete(locals);
  }

  /** The body of the loop: one entry, stored in the local variables. */
  method UrlRequestEntry(d: Decoder, before: UrlLocals, ghost step: (Bytes, UrlLocals) -> Parse<UrlLocals>) returns (r: Result<UrlLocals, MessageError>)
    requires Same(step, UrlStep)
    modifies d
    ensures Agrees(step(old(d.rest), before), r, d.rest)
  {
    assert Peek(0);
    var locals := before;
    var key := d.Uint(0x100);
    if key.None? { return Err(DecodeFailed); }
    match key.value {
      case 0 =>
        var x := ReadNumber(d);
        if x.Err? { return Err(x.error); }
        locals := locals.(requestId := Some(x.value));
      case 1 =>
        var x := ReadUrlList(d);
        if x.Err? { return Err(x.error); }
        locals := locals.(urls := Some(x.value));
      case 2 =>
        var x := ReadNumber(d);
        if x.Err? { return Err(x.error); }
        locals := locals.(watchDuration := Some(x.value));
      case 3 =>
        var x := ReadNumber(d);
        if x.Err? { return Err(x.error); }
        locals := locals.(watchId := Some(x.value));
      case _ =>
        return Err(InvalidField);
    }
    return Ok(locals);
  }

  method UrlRequestEntries(d: Decoder, n: nat, ghost step: (Bytes, UrlLocals) -> Parse<UrlLocals>) returns (r: Result<UrlLocals, MessageError>)
    requires Same(step, UrlStep)
    modifies d
    ensures Agrees(Repeat(step, old(d.rest), n, NO_URL), r, d.rest)
  {
    var locals := NO_URL;
    for i := 0 to n
      invariant Repeat(step, d.rest, n - i, locals) == Repeat(step, old(d.rest), n, NO_URL)
    {
      ghost var s, acc := d.rest, locals;
      var entry := UrlRequestEntry(d, locals, step);
      if entry.Err? { return Err(entry.error); }
      locals := entry.value;
      RepeatStep(step, s, n - i, acc, d.rest, locals);
    }
    RepeatZero(step, d.rest, locals);
    return Ok(locals);
  }

  method DecodeUrlRequest(body: Bytes) returns (r: Result<UrlRequest, MessageError>)
    ensures match ParseUrlRequest(body)
            case Err(e) => r == Err(e)
            case Ok((m, _)) => r == Ok(m)
  {
    var d := new Decoder(body);
    var len := d.Length(MAP);
    if len.None? { return Err(DecodeFailed); }
    if len.value != Some(4) { return Err(InvalidField); }
    var read := UrlRequestEntries(d, 4, UrlStep);
    if read.Err? { return Err(read.error); }
    var locals := read.value;
    return UrlComplete(locals);
  }

  /** The body of the loop: one entry, stored in the local variables. */
  method OpenResponseEntry(d: Decoder, before: OpenLocals, ghost step: (Bytes, OpenLocals) -> Parse<OpenLocals>) returns (r: Result<OpenLocals, MessageError>)
    requires Same(step, OpenStep)
    modifies d
    ensures Agrees(step(old(d.rest), before), r, d.rest)
  {
    assert Peek(0);
    var locals := before;
    var key := d.Uint(0x100);
    if key.None? { return Err(DecodeFailed); }
    match key.value {
      case 0 =>
        var x := ReadNumber(d);
        if x.Err? { return Err(x.error); }
        locals := locals.(requestId := Some(x.value));
      case 1 =>
        var x := ReadCode(d, ResultCode);
        if x.Err? { return Err(x.error); }
        locals := locals.(result := Some(x.value));
      case 2 =>
        var x := ReadNumber(d);
        if x.Err? { return Err(x.error); }
        locals := locals.(connectionId := Some(x.value));
      case 3 =>
        var x := ReadNumber(d);
        if x.Err? { return Err(x.error); }
        locals := locals.(connectionCount := Some(x.value));
      case _ =>
        return Err(InvalidField);
    }
    return Ok(locals);
  }

  method OpenResponseEntries(d: Decoder, n: nat, ghost step: (Bytes, OpenLocals) -> Parse<OpenLocals>) returns (r: Result<OpenLocals, MessageError>)
    requires Same(step, OpenStep)
    modifies d
    ensures Agrees(Repeat(step, old(d.rest), n, NO_OPEN), r, d.rest)
  {
    var locals := NO_OPEN;
    for i := 0 to n
      invariant Repeat(step, d.rest, n - i, locals) == Repeat(step, old(d.rest), n, NO_OPEN)
    {
      ghost var s, acc := d.rest, locals;
      var entry := OpenResponseEntry(d, locals, step);
      if entry.Err? { return Err(entry.error); }
      locals := entry.value;
      RepeatStep(step, s, n - i, acc, d.rest, locals);
    }
    RepeatZero(step, d.rest, locals);
    return Ok(locals);
  }

  method DecodeOpenResponse(body: Bytes) returns (r: Result<OpenResponse, MessageError>)
    ensures match ParseOpenResponse(body)
            case Err(e) => r == Err(e)
            case Ok((m, _)) => r == Ok(m)
  {
    var d := new Decoder(body);
    var len := d.Length(MAP);
    if len.None? { return Err(DecodeFailed); }
    if len.value != Some(4) { return Err(InvalidField); }
    var read := OpenResponseEntries(d, 4, OpenStep);
    if read.Err? { return Err(read.error); }
    var locals := read.value;
    return OpenComplete(locals);
  }

  /** The body of the loop: one entry, stored in the local variables. */
  method CloseEventEntry(d: Decoder, before: CloseLocals, ghost step: (Bytes, CloseLocals) -> Parse<CloseLocals>) returns (r: Result<CloseLocals, MessageError>)
    requires Same(step, CloseStep)
    modifies d
    ensures Agrees(step(old(d.rest), before), r, d.rest)
  {
    assert Peek(0);
    var locals := before;
    var key := d.Uint(0x100);
    if key.None? { return Err(DecodeFailed); }
    match key.value {
      case 0 =>
        var x := ReadNumber(d);
        if x.Err? { return Err(x.error); }
        locals := locals.(connectionId := Some(x.value));
      case 1 =>
        var x := ReadCode(d, ReasonCode);
        if x.Err? { return Err(x.error); }
        locals := locals.(reason := Some(x.value));
      case 2 =>
        var x := ReadAnyText(d);
        if x.Err? { return Err(x.error); }
        locals := locals.(errorMessage := Some(x.value));
      case 3 =>
        var x := ReadNumber(d);
        if x.Err? { return Err(x.error); }
        locals := locals.(connectionCount := Some(x.value));
      case _ =>
        return Err(InvalidField);
    }
    return Ok(locals);
  }

  method CloseEventEntries(d: Decoder, n: nat, ghost step: (Bytes, CloseLocals) -> Parse<CloseLocals>) returns (r: Result<CloseLocals, MessageError>)
    requires Same(step, CloseStep)
    modifies d
    ensures Agrees(Repeat(step, old(d.rest), n, NO_CLOSE), r, d.rest)
  {
    var locals := NO_CLOSE;
    for i := 0 to n
      invariant Repeat(step, d.rest, n - i, locals) == Repeat(step, old(d.rest), n, NO_CLOSE)
    {
      ghost var s, acc := d.rest, locals;
      var entry := CloseEventEntry(d, locals, step);
      if entry.Err? { return Err(entry.error); }
      locals := entry.value;
      RepeatStep(step, s, n - i, acc, d.rest, locals);
    }
    RepeatZero(step, d.rest, locals);
    return Ok(locals);
  }

  method DecodeCloseEvent(body: Bytes) returns (r: Result<CloseEvent, MessageError>)
    ensures match ParseCloseEvent(body)
            case Err(e) => r == Err(e)
            case Ok((m, _)) => r == Ok(m)
  {
    var d := new Decoder(body);
    var len := d.Length(MAP);
    if len.None? { return Err(DecodeFailed); }
    if len.value != Some(3) && len.value != Some(4) { return Err(InvalidField); }
    var read := CloseEventEntries(d, len.value.value, CloseStep);
    if read.Err? { return Err(read.error); }
    var locals := read.value;
    return CloseComplete(locals);
  }

  // ---------------------------------------------------------------- flat maps: decoding

  method ReadBelow(d: Decoder, bound: nat) returns (r: Result<nat, MessageError>)
    modifies d
    ensures Agrees(ParseBelow(bound, old(d.rest)), r, d.rest)
  {
    var n := d.Uint(bound);
    r := if n.None? then Err(DecodeFailed) else Ok(n.value);
  }

  method ReadBlob(d: Decoder) returns (r: Result<Bytes, MessageError>)
    modifies d
    ensures Agrees(ParseBlob(old(d.rest)), r, d.rest)
  {
    var b := d.String(BYTES);
    r := if b.None? then Err(DecodeFailed) else Ok(b.value);
  }

  method ReadStatus(d: Decoder) returns (r: Result<Bytes, MessageError>)
    modifies d
    ensures Agrees(ParseStatus(old(d.rest)), r, d.rest)
  {
    var len := d.Length(MAP);
    if len.None? || len.value != Some(1) { return Err(DecodeFailed); }
    var k := ReadKey(d, 0);
    if k.Err? { return Err(k.error); }
    r := ReadText(d);
  }

  method ReadValue(d: Decoder, shape: Shape) returns (r: Result<Value, MessageError>)
    modifies d
    ensures Agrees(ParseValue(shape, old(d.rest)), r, d.rest)
  {
    match shape {
      case IsNumber(bound) =>
        var n := ReadBelow(d, bound);
        r := if n.Ok? then Ok(Number(n.value)) else Err(n.error);
      case IsCode(valid) =>
        var n := ReadCode(d, valid);
        r := if n.Ok? then Ok(Number(n.value)) else Err(n.error);
      case IsText =>
        var t := ReadAnyText(d);
        r := if t.Ok? then Ok(Text(t.value)) else Err(t.error);
      case IsBlob =>
        var b := ReadBlob(d);
        r := if b.Ok? then Ok(Blob(b.value)) else Err(b.error);
      case IsStatus =>
        var t := ReadStatus(d);
        r := if t.Ok? then Ok(StatusText(t.value)) else Err(t.error);
    }
  }

  /** The body of the loop: one entry, by the table of keys. */
  method ReadFlatEntry(d: Decoder, table: Table, before: Locals, ghost step: (Bytes, Locals) -> Parse<Locals>)
    returns (r: Result<Locals, MessageError>)
    requires Same(step, FlatStep(table))
    modifies d
    ensures Agrees(step(old(d.rest), before), r, d.rest)
  {
    assert Peek(0);
    var key := d.Uint(0x100);
    if key.None? { return Err(DecodeFailed); }
    var shape := table(key.value);
    if shape.None? { return Err(InvalidField); }
    var v := ReadValue(d, shape.value);
    if v.Err? { return Err(v.error); }
    return Ok(before[key.value := v.value]);
  }

  method ReadFlatEntries(d: Decoder, table: Table, n: nat, ghost step: (Bytes, Locals) -> Parse<Locals>)
    returns (r: Result<Locals, MessageError>)
    requires Same(step, FlatStep(table))
    modifies d
    ensures Agrees(Repeat(step, old(d.rest), n, map[]), r, d.rest)
  {
    var locals: Locals := map[];
    for i := 0 to n
      invariant Repeat(step, d.rest, n - i, locals) == Repeat(step, old(d.rest), n, map[])
    {
      ghost var s, acc := d.rest, locals;
      var entry := ReadFlatEntry(d, table, locals, step);
      if entry.Err? { return Err(entry.error); }
      locals := entry.value;
      RepeatStep(step, s, n - i, acc, d.rest, locals);
    }
    RepeatZero(step, d.rest, locals);
    return Ok(locals);
  }

  method ReadFlat(body: Bytes, table: Table, lengths: set<nat>) returns (r: Result<Locals, MessageError>)
    ensures match ParseFlat(table, lengths, body)
            case Err(e) => r == Err(e)
            case Ok((locals, _)) => r == Ok(locals)
  {
    var d := new Decoder(body);
    var len := d.Length(MAP);
    if len.None? { return Err(DecodeFailed); }
    if len.value.None? || len.value.value !in lengths { return Err(InvalidField); }
    r := ReadFlatEntries(d, table, len.value.value, FlatStep(table));
  }

  method ReadStatusMap(body: Bytes) returns (r: Result<Locals, MessageError>)
    ensures match ParseStatusMap(body)
            case Err(e) => r == Err(e)
            case Ok((locals, _)) => r == Ok(locals)
  {
    var d := new Decoder(body);
    var len := d.Length(MAP);
    if len.None? || len.value.None? { return Err(DecodeFailed); }
    r := ReadFlatEntries(d, StatusTable, len.value.value, FlatStep(StatusTable));
  }

  method DecodeStatusRequest(body: Bytes) returns (r: Result<StatusRequest, MessageError>)
    ensures r == Completed(ParseStatusMap(body), StatusComplete)
  {
    var locals := ReadStatusMap(body);
    if locals.Err? { return Err(locals.error); }
    r := StatusComplete(locals.value);
  }

  method DecodeConnectionMessage(body: Bytes) returns (r: Result<ConnectionMessage, MessageError>)
    ensures r == Completed(ParseConnectionMap(body), ConnectionComplete)
  {
    var locals := ReadFlat(body, ConnectionTable, {2});
    if locals.Err? { return Err(locals.error); }
    r := ConnectionComplete(locals.value);
  }

  method DecodeStartResponse(body: Bytes) returns (r: Result<StartResponse, MessageError>)
    ensures r == Completed(ParseStartResponseMap(body), StartResponseComplete)
  {
    var locals := ReadFlat(body, StartResponseTable, {3, 4});
    if locals.Err? { return Err(locals.error); }
    r := StartResponseComplete(locals.value);
  }

  method DecodeTerminationRequest(body: Bytes) returns (r: Result<TerminationRequest, MessageError>)
    ensures r == Completed(ParseTerminationRequestMap(body), TerminationRequestComplete)
  {
    var locals := ReadFlat(body, TerminationRequestTable, {3});
    if locals.Err? { return Err(locals.error); }
    r := TerminationRequestComplete(locals.value);
  }

  method DecodeTerminationEvent(body: Bytes) returns (r: Result<TerminationEvent, MessageError>)
    ensures r == Completed(ParseTerminationEventMap(body), TerminationEventComplete)
  {
    var locals := ReadFlat(body, TerminationEventTable, {3});
    if locals.Err? { return Err(locals.error); }
    r := TerminationEventComplete(locals.value);
  }

  method DecodeOpenRequest(body: Bytes) returns (r: Result<OpenRequest, MessageError>)
    ensures r == Completed(ParseOpenRequestMap(body), OpenRequestComplete)
  {
    var locals := ReadFlat(body, OpenRequestTable, {3});
    if locals.Err? { return Err(locals.error); }
    r := OpenRequestComplete(locals.value);
  }

  method DecodeFlatMessage(other: OtherBodies, key: u16, body: Bytes) returns (r: Result<AppMessage, MessageError>)
    ensures r == DecodeFlatBody(FLAT, other, key, body)
  {
    if key == STATUS_REQUEST_KEY {
      var m := DecodeStatusRequest(body);
      r := if m.Ok? then Ok(StatusRequestMsg(m.value)) else Err(m.error);
    } else if key == CONNECTION_MESSAGE_KEY {
      var m := DecodeConnectionMessage(body);
      r := if m.Ok? then Ok(ConnectionMsg(m.value)) else Err(m.error);
    } else if key == START_RESPONSE_KEY {
      var m := DecodeStartResponse(body);
      r := if m.Ok? then Ok(StartResponseMsg(m.value)) else Err(m.error);
    } else if key == TERMINATION_REQUEST_KEY {
      var m := DecodeTerminationRequest(body);
      r := if m.Ok? then Ok(TerminationRequestMsg(m.value)) else Err(m.error);
    } else if key == TERMINATION_EVENT_KEY {
      var m := DecodeTerminationEvent(body);
      r := if m.Ok? then Ok(TerminationEventMsg(m.value)) else Err(m.error);
    } else if key == OPEN_REQUEST_KEY {
      var m := DecodeOpenRequest(body);
      r := if m.Ok? then Ok(OpenRequestMsg(m.value)) else Err(m.error);
    } else if !IsAppKey(key) {
      r := Err(InvalidMessageType);
    } else if other(key, body) {
      r := Ok(OtherMsg(key, body));
    } else {
      r := Err(DecodeFailed);
    }
  }

  method DecodeAppBody(other: OtherBodies, key: u16, body: Bytes) returns (r: Result<AppMessage, MessageError>)
    ensures r == AppDecodeBody(other, key, body)
  {
    if key == AGENT_INFO_REQUEST_KEY {
      var m := DecodeAgentInfoRequest(body);
      r := if m.Ok? then Ok(AgentInfoRequestMsg(m.value)) else Err(m.error);
    } else if key == AGENT_INFO_RESPONSE_KEY {
      var m := DecodeAgentInfoResponse(body);
      r := if m.Ok? then Ok(AgentInfoMsg(m.value)) else Err(m.error);
    } else if key == START_REQUEST_KEY {
      var m := DecodeStartRequest(body);
      r := if m.Ok? then Ok(StartRequestMsg(m.value)) else Err(m.error);
    } else if key == URL_AVAILABILITY_REQUEST_KEY {
      var m := DecodeUrlRequest(body);
      r := if m.Ok? then Ok(UrlRequestMsg(m.value)) else Err(m.error);
    } else if key == OPEN_RESPONSE_KEY {
      var m := DecodeOpenResponse(body);
      r := if m.Ok? then Ok(OpenResponseMsg(m.value)) else Err(m.error);
    } else if key == CLOSE_EVENT_KEY {
      var m := DecodeCloseEvent(body);
      r := if m.Ok? then Ok(CloseEventMsg(m.value)) else Err(m.error);
    } else {
      r := DecodeFlatMessage(other, key, body);
    }
  }

  method DecodeAppMessage(other: OtherBodies, data: Bytes) returns (r: Result<AppMessage, MessageError>)
    ensures r == AppDecode(other, data)
  {
    var k := DecodeTypeKeyFrom(data);
    if k.Err? { return Err(k.error); }
    r := DecodeAppBody(other, k.value.0, data[k.value.1..]);
  }
}
