/** What the application decoders read back of what the encoders send, as numbers: texts of at
    most 256 bytes, 16 capabilities, 8 locales, 8 headers, 16 URLs, and the codes of each
    enumeration. Everything else is refused. */
module AppLimits {
  import opened Basics
  import opened VarInt
  import opened Cbor
  import opened Parsing
  import opened FlatMaps
  import opened AppMessages
  import opened AppTheorems

  // ---------------------------------------------------------------- loops that decide

  /** The loop body stores an entry that is in order and refuses one that is not. */
  ghost predicate Decides<F(!new), A(!new)>(
      step: (Bytes, A) -> Parse<A>, bytes: F -> Bytes, put: (A, F) -> A, ok: (A, F) -> bool, f: F, acc: A) {
    forall r :: if ok(acc, f) then step(bytes(f) + r, acc) == Ok((put(acc, f), r)) else step(bytes(f) + r, acc).Err?
  }

  /** Then the loop fails on the encodings of entries that are not all in order. */
  lemma {:induction false} LoopRefuses<F(!new), A(!new)>(
      step: (Bytes, A) -> Parse<A>, bytes: F -> Bytes, put: (A, F) -> A, ok: (A, F) -> bool, fs: seq<F>, acc: A, rest: Bytes)
    requires forall f, a :: f in fs ==> Decides(step, bytes, put, ok, f, a)
    requires !FitAll(put, ok, acc, fs)
    ensures Repeat(step, Concat(bytes, fs) + rest, |fs|, acc).Err?
    decreases |fs|
  {
    var tail := Concat(bytes, fs[1..]) + rest;
    assert Concat(bytes, fs) + rest == bytes(fs[0]) + tail;
    assert fs[0] in fs && Decides(step, bytes, put, ok, fs[0], acc);
    if ok(acc, fs[0]) {
      assert step(bytes(fs[0]) + tail, acc) == Ok((put(acc, fs[0]), tail));
      LoopRefuses(step, bytes, put, ok, fs[1..], put(acc, fs[0]), rest);
    } else {
      assert step(bytes(fs[0]) + tail, acc).Err?;
    }
  }

  lemma FitFour<F, A>(put: (A, F) -> A, ok: (A, F) -> bool, acc: A, a: F, b: F, c: F, d: F)
    requires FitAll(put, ok, acc, [a, b, c, d])
    ensures ok(acc, a) && ok(put(acc, a), b) && ok(put(put(acc, a), b), c) && ok(put(put(put(acc, a), b), c), d)
  {
    assert [a, b, c, d][1..] == [b, c, d] && [b, c, d][1..] == [c, d] && [c, d][1..] == [d];
    assert FitAll(put, ok, put(acc, a), [b, c, d]);
    assert FitAll(put, ok, put(put(acc, a), b), [c, d]);
    assert FitAll(put, ok, put(put(put(acc, a), b), c), [d]);
  }

  /** An array is read if all its items are and the vector can hold them. */
  lemma {:induction false} ItemsDecide<T(!new)>(
      item: Bytes -> Parse<T>, bytes: T -> Bytes, good: T -> bool, capacity: nat, xs: seq<T>, before: seq<T>, rest: Bytes)
    requires forall x, r :: x in xs && good(x) ==> item(bytes(x) + r) == Ok((x, r))
    requires forall x, r :: x in xs && !good(x) ==> item(bytes(x) + r).Err?
    ensures var loop := Repeat(Push(item, capacity), Concat(bytes, xs) + rest, |xs|, before);
            if xs == [] || ((forall x :: x in xs ==> good(x)) && |before| + |xs| <= capacity)
            then loop == Ok((before + xs, rest)) else loop.Err?
    decreases |xs|
  {
    if xs == [] {
      assert Concat(bytes, xs) + rest == rest && before + xs == before;
    } else {
      var tail := Concat(bytes, xs[1..]) + rest;
      assert Concat(bytes, xs) + rest == bytes(xs[0]) + tail;
      assert xs[0] in xs && xs == [xs[0]] + xs[1..];
      if good(xs[0]) && |before| < capacity {
        assert item(bytes(xs[0]) + tail) == Ok((xs[0], tail));
        RepeatStep(Push(item, capacity), Concat(bytes, xs) + rest, |xs|, before, tail, before + [xs[0]]);
        ItemsDecide(item, bytes, good, capacity, xs[1..], before + [xs[0]], rest);
        assert before + [xs[0]] + xs[1..] == before + xs;
      } else {
        assert Push(item, capacity)(bytes(xs[0]) + tail, before).Err?;
      }
    }
  }

  lemma ArrayDecides<T(!new)>(
      item: Bytes -> Parse<T>, bytes: T -> Bytes, good: T -> bool, capacity: nat, xs: seq<T>, before: seq<T>, rest: Bytes)
    requires forall x, r :: x in xs && good(x) ==> item(bytes(x) + r) == Ok((x, r))
    requires forall x, r :: x in xs && !good(x) ==> item(bytes(x) + r).Err?
    requires |xs| < U64
    ensures var ok := xs == [] || ((forall x :: x in xs ==> good(x)) && |before| + |xs| <= capacity);
            var s := ListBytes(bytes, xs) + rest;
            && (if ok then ParseAppend(item, capacity, s, before) == Ok((before + xs, rest)) else ParseAppend(item, capacity, s, before).Err?)
            && (before == [] ==> if ok then ParseList(item, capacity, s) == Ok((xs, rest)) else ParseList(item, capacity, s).Err?)
  {
    var tail := Concat(bytes, xs) + rest;
    assert ListBytes(bytes, xs) + rest == EncodeHead(ARRAY, |xs|) + tail;
    LengthRoundTrip(ARRAY, |xs|, tail);
    ItemsDecide(item, bytes, good, capacity, xs, before, rest);
    assert before == [] ==> before + xs == xs;
  }

  // ---------------------------------------------------------------- items

  /** A text the receiver takes. */
  predicate Short(t: Bytes) {
    |t| <= 256
  }

  lemma TextDecides(t: Bytes, rest: Bytes)
    requires AnyText(t)
    ensures ParseText(EncodeStr(t) + rest) == if |t| <= 256 then Ok((t, rest)) else Err(FieldTooLong)
  {
    TextRoundTrip(t, rest);
  }

  predicate AnyHeader(h: Header) {
    AnyText(h.key) && AnyText(h.value)
  }

  predicate GoodHeader(h: Header) {
    |h.key| <= 256 && |h.value| <= 256
  }

  lemma HeaderDecides(h: Header, rest: Bytes)
    requires AnyHeader(h)
    ensures if GoodHeader(h) then ParseHeader(HeaderBytes(h) + rest) == Ok((h, rest)) else ParseHeader(HeaderBytes(h) + rest).Err?
  {
    var s2 := EncodeStr(h.value) + rest;
    var s1 := EncodeStr(h.key) + s2;
    assert HeaderBytes(h) + rest == EncodeHead(ARRAY, 2) + s1;
    LengthRoundTrip(ARRAY, 2, s1);
    TextDecides(h.key, s2);
    TextDecides(h.value, rest);
  }

  lemma CodeDecides(valid: nat -> bool, n: nat, rest: Bytes)
    requires n < U64
    ensures if n < 256 && valid(n) then ParseCode(valid, EncodeUint(n) + rest) == Ok((n, rest))
            else ParseCode(valid, EncodeUint(n) + rest).Err?
  {
    HeadRoundTrip(UINT, n, rest);
  }

  lemma ReadBackWhole(other: OtherBodies, m: AppMessage, bytes: Bytes)
    requires WellFormed(m) && bytes == AppEncode(m)
    ensures AppDecode(other, bytes) == Ok(m)
  {
    AppRoundTrip(other, m, []);
    assert bytes + [] == bytes;
  }

  lemma BodyRefused(other: OtherBodies, m: AppMessage, key: u16, body: Bytes)
    requires key == AppKeyOf(m) && body == AppBody(m) && AppDecodeBody(other, key, body).Err?
    ensures AppDecode(other, AppEncode(m)).Err?
  {
    AppDispatch(other, key, body);
  }

  /** What a text, a number, a header and a code are. */
  lemma ItemsExact(s: Bytes, valid: nat -> bool)
    ensures ParseText(s) == (match ParseStr(s)
                             case None => Err(DecodeFailed)
                             case Some((t, rest)) => if |t| <= 256 then Ok((t, rest)) else Err(FieldTooLong))
    ensures ParseNumber(s) == (match ParseUint(s, 0x1_0000_0000_0000_0000)
                               case None => Err(DecodeFailed)
                               case Some((n, rest)) => Ok((n, rest)))
    ensures ParseCode(valid, s) == (match ParseUint(s, 256)
                                    case None => Err(DecodeFailed)
                                    case Some((n, rest)) => if valid(n) then Ok((n, rest)) else Err(InvalidField))
    ensures ParseHeader(s).Ok? <==>
            && ParseArray(s).Some? && ParseArray(s).value.0 == Some(2) && ParseText(ParseArray(s).value.1).Ok?
            && ParseText(ParseText(ParseArray(s).value.1).value.1).Ok?
    ensures ParseHeader(s).Ok? ==>
            ParseHeader(s).value == (Header(ParseText(ParseArray(s).value.1).value.0,
                                            ParseText(ParseText(ParseArray(s).value.1).value.1).value.0),
                                     ParseText(ParseText(ParseArray(s).value.1).value.1).value.1)
  {
  }

  // ---------------------------------------------------------------- presentation-start-request

  /** What the types guarantee. */
  predicate AnyStart(m: StartRequest) {
    && m.requestId < U64 && AnyText(m.presentationId) && AnyText(m.url) && |m.headers| < U64
    && (forall h :: h in m.headers ==> AnyHeader(h))
  }

  predicate AnyStartField(f: StartField) {
    match f
    case RequestIdField(n) => n < U64
    case PresentationIdField(t) => AnyText(t)
    case UrlField(t) => AnyText(t)
    case HeadersField(hs) => |hs| < U64 && forall h :: h in hs ==> AnyHeader(h)
  }

  predicate StartOk(acc: StartLocals, f: StartField) {
    match f
    case RequestIdField(_) => true
    case PresentationIdField(t) => |t| <= 256
    case UrlField(t) => |t| <= 256
    case HeadersField(hs) => hs == [] || ((forall h :: h in hs ==> GoodHeader(h)) && |acc.headers| + |hs| <= 8)
  }

  lemma StartTextDecides(f: StartField, acc: StartLocals)
    requires AnyStartField(f) && (f.PresentationIdField? || f.UrlField?)
    ensures Decides(StartStep, StartFieldBytes, StartPut, StartOk, f, acc)
  {
    var t := if f.PresentationIdField? then f.presentationId else f.url;
    var key := if f.PresentationIdField? then 1 else 2;
    forall r ensures if StartOk(acc, f) then StartStep(StartFieldBytes(f) + r, acc) == Ok((StartPut(acc, f), r))
                     else StartStep(StartFieldBytes(f) + r, acc).Err?
    {
      Rebracket(EncodeUint(key), EncodeStr(t), r);
      KeyRoundTrip(key, EncodeStr(t) + r);
      TextDecides(t, r);
    }
  }

  lemma StartHeadersDecide(hs: seq<Header>, acc: StartLocals)
    requires AnyStartField(HeadersField(hs))
    ensures Decides(StartStep, StartFieldBytes, StartPut, StartOk, HeadersField(hs), acc)
  {
    var f := HeadersField(hs);
    forall r ensures if StartOk(acc, f) then StartStep(StartFieldBytes(f) + r, acc) == Ok((StartPut(acc, f), r))
                     else StartStep(StartFieldBytes(f) + r, acc).Err?
    {
      Rebracket(EncodeUint(3), ListBytes(HeaderBytes, hs), r);
      KeyRoundTrip(3, ListBytes(HeaderBytes, hs) + r);
      forall h, t | h in hs ensures GoodHeader(h) ==> ParseHeader(HeaderBytes(h) + t) == Ok((h, t)) {
        HeaderDecides(h, t);
      }
      forall h, t | h in hs && !GoodHeader(h) ensures ParseHeader(HeaderBytes(h) + t).Err? {
        HeaderDecides(h, t);
      }
      ArrayDecides(ParseHeader, HeaderBytes, GoodHeader, 8, hs, acc.headers, r);
    }
  }

  lemma StartFieldDecides(f: StartField, acc: StartLocals)
    requires AnyStartField(f)
    ensures Decides(StartStep, StartFieldBytes, StartPut, StartOk, f, acc)
  {
    match f
    case RequestIdField(n) => StartIdStores(n, acc);
    case HeadersField(hs) => StartHeadersDecide(hs, acc);
    case _ => StartTextDecides(f, acc);
  }

  /** The limits of a start request, as numbers. */
  predicate StartWithin(m: StartRequest) {
    |m.presentationId| <= 256 && |m.url| <= 256 && |m.headers| <= 8 && forall h :: h in m.headers ==> |h.key| <= 256 && |h.value| <= 256
  }

  lemma StartRefused(m: StartRequest)
    requires AnyStart(m) && !StartWithin(m)
    ensures ParseStartRequest(StartBody(m)).Err?
  {
    var fs := StartFields(m);
    var entries := Concat(StartFieldBytes, fs);
    forall f, a | f in fs ensures Decides(StartStep, StartFieldBytes, StartPut, StartOk, f, a) {
      StartFieldDecides(f, a);
    }
    if FitAll(StartPut, StartOk, NO_START, fs) {
      FitFour(StartPut, StartOk, NO_START, fs[0], fs[1], fs[2], fs[3]);
    } else {
      LoopRefuses(StartStep, StartFieldBytes, StartPut, StartOk, fs, NO_START, []);
      assert entries + [] == entries;
      StartBodyRefused(entries, |fs|);
    }
  }

  lemma StartBodyRefused(entries: Bytes, n: nat)
    requires n == 4 && Repeat(StartStep, entries, n, NO_START).Err?
    ensures ParseStartRequest(EncodeHead(MAP, n) + entries).Err?
  {
    LengthRoundTrip(MAP, n, entries);
  }

  /** A start request is read back if its texts have at most 256 bytes and it has at most 8
      headers; otherwise it is refused. */
  lemma StartLimits(other: OtherBodies, m: StartRequest)
    requires AnyStart(m)
    ensures var decoded := AppDecode(other, AppEncode(StartRequestMsg(m)));
            if StartWithin(m) then decoded == Ok(StartRequestMsg(m)) else decoded.Err?
  {
    if StartWithin(m) {
      ReadBackWhole(other, StartRequestMsg(m), AppEncode(StartRequestMsg(m)));
    } else {
      StartRefused(m);
      StartDispatch(other, StartBody(m));
      BodyRefused(other, StartRequestMsg(m), START_REQUEST_KEY, StartBody(m));
    }
  }

  // ---------------------------------------------------------------- agent-info-response

  lemma FitFive<F, A>(put: (A, F) -> A, ok: (A, F) -> bool, acc: A, a: F, b: F, c: F, d: F, e: F)
    requires FitAll(put, ok, acc, [a, b, c, d, e])
    ensures ok(acc, a) && ok(put(acc, a), b) && ok(put(put(acc, a), b), c) && ok(put(put(put(acc, a), b), c), d)
    ensures ok(put(put(put(put(acc, a), b), c), d), e)
  {
    assert [a, b, c, d, e][1..] == [b, c, d, e];
    FitFour(put, ok, put(acc, a), b, c, d, e);
  }

  predicate AnyAgent(a: AgentInfo) {
    && AnyText(a.displayName) && AnyText(a.modelName) && AnyText(a.stateToken)
    && |a.capabilities| < U64 && |a.locales| < U64
    && (forall c :: c in a.capabilities ==> c < U64) && (forall l :: l in a.locales ==> AnyText(l))
  }

  predicate AnyAgentField(f: AgentField) {
    match f
    case NameField(t) => AnyText(t)
    case ModelField(t) => AnyText(t)
    case CapabilitiesField(cs) => |cs| < U64 && forall c :: c in cs ==> c < U64
    case StateTokenField(t) => AnyText(t)
    case LocalesField(ls) => |ls| < U64 && forall l :: l in ls ==> AnyText(l)
  }

  predicate GoodCapability(c: nat) {
    1 <= c <= 8
  }

  predicate AgentOk(acc: AgentLocals, f: AgentField) {
    match f
    case NameField(t) => |t| <= 256
    case ModelField(t) => |t| <= 256
    case CapabilitiesField(cs) => cs == [] || ((forall c :: c in cs ==> GoodCapability(c)) && |acc.capabilities| + |cs| <= 16)
    case StateTokenField(t) => |t| <= 256
    case LocalesField(ls) => ls == [] || ((forall l :: l in ls ==> Short(l)) && |acc.locales| + |ls| <= 8)
  }

  lemma AgentTextDecides(f: AgentField, acc: AgentLocals)
    requires AnyAgentField(f) && (f.NameField? || f.ModelField? || f.StateTokenField?)
    ensures Decides(AgentStep, AgentFieldBytes, AgentPut, AgentOk, f, acc)
  {
    var t := if f.NameField? then f.name else if f.ModelField? then f.model else f.stateToken;
    var key := if f.NameField? then 0 else if f.ModelField? then 1 else 3;
    forall r ensures if AgentOk(acc, f) then AgentStep(AgentFieldBytes(f) + r, acc) == Ok((AgentPut(acc, f), r))
                     else AgentStep(AgentFieldBytes(f) + r, acc).Err?
    {
      Rebracket(EncodeUint(key), EncodeStr(t), r);
      KeyRoundTrip(key, EncodeStr(t) + r);
      TextDecides(t, r);
    }
  }

  lemma CapabilitiesDecide(cs: seq<nat>, acc: AgentLocals)
    requires AnyAgentField(CapabilitiesField(cs))
    ensures Decides(AgentStep, AgentFieldBytes, AgentPut, AgentOk, CapabilitiesField(cs), acc)
  {
    var f := CapabilitiesField(cs);
    forall r ensures if AgentOk(acc, f) then AgentStep(AgentFieldBytes(f) + r, acc) == Ok((AgentPut(acc, f), r))
                     else AgentStep(AgentFieldBytes(f) + r, acc).Err?
    {
      Rebracket(EncodeUint(2), ListBytes(EncodeUint, cs), r);
      KeyRoundTrip(2, ListBytes(EncodeUint, cs) + r);
      forall c, t | c in cs ensures GoodCapability(c) ==> ParseCapability(EncodeUint(c) + t) == Ok((c, t)) {
        CodeDecides(CapabilityCode, c, t);
      }
      forall c, t | c in cs && !GoodCapability(c) ensures ParseCapability(EncodeUint(c) + t).Err? {
        CodeDecides(CapabilityCode, c, t);
      }
      ArrayDecides(ParseCapability, EncodeUint, GoodCapability, 16, cs, acc.capabilities, r);
    }
  }

  lemma LocalesDecide(ls: seq<Bytes>, acc: AgentLocals)
    requires AnyAgentField(LocalesField(ls))
    ensures Decides(AgentStep, AgentFieldBytes, AgentPut, AgentOk, LocalesField(ls), acc)
  {
    var f := LocalesField(ls);
    forall r ensures if AgentOk(acc, f) then AgentStep(AgentFieldBytes(f) + r, acc) == Ok((AgentPut(acc, f), r))
                     else AgentStep(AgentFieldBytes(f) + r, acc).Err?
    {
      Rebracket(EncodeUint(4), ListBytes(EncodeStr, ls), r);
      KeyRoundTrip(4, ListBytes(EncodeStr, ls) + r);
      forall l, t | l in ls ensures Short(l) ==> ParseText(EncodeStr(l) + t) == Ok((l, t)) {
        TextDecides(l, t);
      }
      forall l, t | l in ls && !Short(l) ensures ParseText(EncodeStr(l) + t).Err? {
        TextDecides(l, t);
      }
      ArrayDecides(ParseText, EncodeStr, Short, 8, ls, acc.locales, r);
    }
  }

  lemma AgentFieldDecides(f: AgentField, acc: AgentLocals)
    requires AnyAgentField(f)
    ensures Decides(AgentStep, AgentFieldBytes, AgentPut, AgentOk, f, acc)
  {
    match f
    case CapabilitiesField(cs) => CapabilitiesDecide(cs, acc);
    case LocalesField(ls) => LocalesDecide(ls, acc);
    case _ => AgentTextDecides(f, acc);
  }

  /** The limits of an agent, as numbers. */
  predicate AgentWithin(a: AgentInfo) {
    && |a.displayName| <= 256 && |a.modelName| <= 256 && |a.stateToken| <= 256
    && |a.capabilities| <= 16 && (forall c :: c in a.capabilities ==> 1 <= c <= 8)
    && |a.locales| <= 8 && (forall l :: l in a.locales ==> |l| <= 256)
  }

  lemma AgentRefused(a: AgentInfo, rest: Bytes)
    requires AnyAgent(a) && !AgentWithin(a)
    ensures ParseAgent(AgentBytes(a) + rest).Err?
  {
    var fs := AgentFields(a);
    var entries := Concat(AgentFieldBytes, fs) + rest;
    forall f, acc | f in fs ensures Decides(AgentStep, AgentFieldBytes, AgentPut, AgentOk, f, acc) {
      AgentFieldDecides(f, acc);
    }
    if FitAll(AgentPut, AgentOk, NO_AGENT, fs) {
      FitFive(AgentPut, AgentOk, NO_AGENT, fs[0], fs[1], fs[2], fs[3], fs[4]);
    } else {
      LoopRefuses(AgentStep, AgentFieldBytes, AgentPut, AgentOk, fs, NO_AGENT, rest);
      Rebracket(EncodeHead(MAP, 5), Concat(AgentFieldBytes, fs), rest);
      AgentBodyRefused(entries, |fs|);
    }
  }

  lemma AgentBodyRefused(entries: Bytes, n: nat)
    requires n == 5 && Repeat(AgentStep, entries, n, NO_AGENT).Err?
    ensures ParseAgent(EncodeHead(MAP, n) + entries).Err?
  {
    LengthRoundTrip(MAP, n, entries);
  }

  lemma ResponseRefused(m: AgentInfoResponse)
    requires m.requestId < U64 && ParseAgent(AgentBytes(m.info)).Err?
    ensures ParseAgentInfoResponse(AgentInfoResponseBody(m)).Err?
  {
    var s4 := AgentBytes(m.info);
    var s3 := EncodeUint(1) + s4;
    var s2 := EncodeUint(m.requestId) + s3;
    LengthRoundTrip(MAP, 2, EncodeUint(0) + s2);
    KeyRoundTrip(0, s2);
    NumberRoundTrip(m.requestId, s3);
    KeyRoundTrip(1, s4);
  }

  lemma AgentDispatch(other: OtherBodies, body: Bytes)
    requires ParseAgentInfoResponse(body).Err?
    ensures AppDecodeBody(other, AGENT_INFO_RESPONSE_KEY, body).Err?
  {
  }

  /** An agent-info-response is read back if its texts have at most 256 bytes, it has at most
      16 capabilities, each between 1 and 8, and at most 8 locales; otherwise it is refused. */
  lemma AgentLimits(other: OtherBodies, m: AgentInfoResponse)
    requires m.requestId < U64 && AnyAgent(m.info)
    ensures var decoded := AppDecode(other, AppEncode(AgentInfoMsg(m)));
            if AgentWithin(m.info) then decoded == Ok(AgentInfoMsg(m)) else decoded.Err?
  {
    if AgentWithin(m.info) {
      ReadBackWhole(other, AgentInfoMsg(m), AppEncode(AgentInfoMsg(m)));
    } else {
      AgentRefused(m.info, []);
      assert AgentBytes(m.info) + [] == AgentBytes(m.info);
      ResponseRefused(m);
      AgentDispatch(other, AgentInfoResponseBody(m));
      BodyRefused(other, AgentInfoMsg(m), AGENT_INFO_RESPONSE_KEY, AgentInfoResponseBody(m));
    }
  }

  // ---------------------------------------------------------------- url-availability-request

  predicate AnyUrlField(f: UrlReqField) {
    match f
    case UrlIdField(n) => n < U64
    case UrlsField(us) => |us| < U64 && forall u :: u in us ==> AnyText(u)
    case DurationField(n) => n < U64
    case WatchField(n) => n < U64
  }

  predicate UrlOk(acc: UrlLocals, f: UrlReqField) {
    f.UrlsField? ==> |f.urls| <= 16
  }

  lemma UrlsDecide(us: seq<Bytes>, r: Bytes)
    requires AnyUrlField(UrlsField(us))
    ensures if |us| <= 16 then ParseUrlField(UrlFieldBytes(UrlsField(us)) + r) == Ok((UrlsField(us), r))
            else ParseUrlField(UrlFieldBytes(UrlsField(us)) + r).Err?
  {
    Rebracket(EncodeUint(1), ListBytes(EncodeStr, us), r);
    KeyRoundTrip(1, ListBytes(EncodeStr, us) + r);
    forall u, t | u in us ensures ParseAnyText(EncodeStr(u) + t) == Ok((u, t)) {
      TextRoundTrip(u, t);
    }
    ArrayDecides(ParseAnyText, EncodeStr, (u: Bytes) => true, 16, us, [], r);
  }

  lemma UrlFieldDecides(f: UrlReqField, acc: UrlLocals)
    requires AnyUrlField(f)
    ensures Decides(UrlStep, UrlFieldBytes, UrlPut, UrlOk, f, acc)
  {
    forall r ensures if UrlOk(acc, f) then UrlStep(UrlFieldBytes(f) + r, acc) == Ok((UrlPut(acc, f), r))
                     else UrlStep(UrlFieldBytes(f) + r, acc).Err?
    {
      if f.UrlsField? {
        UrlsDecide(f.urls, r);
      } else {
        UrlNumberRoundTrip(f, r);
      }
    }
  }

  lemma UrlRefused(m: UrlRequest)
    requires m.requestId < U64 && m.watchDuration < U64 && m.watchId < U64
    requires 16 < |m.urls| < U64 && forall u :: u in m.urls ==> AnyText(u)
    ensures ParseUrlRequest(UrlBody(m)).Err?
  {
    var fs := UrlFields(m);
    var entries := Concat(UrlFieldBytes, fs);
    forall f, a | f in fs ensures Decides(UrlStep, UrlFieldBytes, UrlPut, UrlOk, f, a) {
      UrlFieldDecides(f, a);
    }
    if FitAll(UrlPut, UrlOk, NO_URL, fs) {
      FitFour(UrlPut, UrlOk, NO_URL, fs[0], fs[1], fs[2], fs[3]);
    } else {
      LoopRefuses(UrlStep, UrlFieldBytes, UrlPut, UrlOk, fs, NO_URL, []);
      assert entries + [] == entries;
      UrlBodyRefused(entries, |fs|);
    }
  }

  lemma UrlBodyRefused(entries: Bytes, n: nat)
    requires n == 4 && Repeat(UrlStep, entries, n, NO_URL).Err?
    ensures ParseUrlRequest(EncodeHead(MAP, n) + entries).Err?
  {
    LengthRoundTrip(MAP, n, entries);
  }

  lemma UrlDispatch(other: OtherBodies, body: Bytes)
    requires ParseUrlRequest(body).Err?
    ensures AppDecodeBody(other, URL_AVAILABILITY_REQUEST_KEY, body).Err?
  {
  }

  /** A url-availability-request is read back if it has at most 16 URLs, of any length. */
  lemma UrlLimits(other: OtherBodies, m: UrlRequest)
    requires m.requestId < U64 && m.watchDuration < U64 && m.watchId < U64
    requires |m.urls| < U64 && forall u :: u in m.urls ==> AnyText(u)
    ensures var decoded := AppDecode(other, AppEncode(UrlRequestMsg(m)));
            if |m.urls| <= 16 then decoded == Ok(UrlRequestMsg(m)) else decoded.Err?
  {
    if |m.urls| <= 16 {
      ReadBackWhole(other, UrlRequestMsg(m), AppEncode(UrlRequestMsg(m)));
    } else {
      UrlRefused(m);
      UrlDispatch(other, UrlBody(m));
      BodyRefused(other, UrlRequestMsg(m), URL_AVAILABILITY_REQUEST_KEY, UrlBody(m));
    }
  }

  // ---------------------------------------------------------------- codes in maps of their own

  predicate OpenOk(acc: OpenLocals, f: OpenField) {
    f.ResultField? ==> f.result in {1, 10, 11, 100, 101}
  }

  lemma OpenFieldDecides(f: OpenField, acc: OpenLocals)
    requires match f
             case OpenIdField(n) => n < U64
             case ResultField(n) => n < U64
             case OpenConnectionField(n) => n < U64
             case OpenCountField(n) => n < U64
    ensures Decides(OpenStep, OpenFieldBytes, OpenPut, OpenOk, f, acc)
  {
    forall r ensures if OpenOk(acc, f) then OpenStep(OpenFieldBytes(f) + r, acc) == Ok((OpenPut(acc, f), r))
                     else OpenStep(OpenFieldBytes(f) + r, acc).Err?
    {
      if f.ResultField? {
        Rebracket(EncodeUint(1), EncodeUint(f.result), r);
        KeyRoundTrip(1, EncodeUint(f.result) + r);
        CodeDecides(ResultCode, f.result, r);
      } else {
        OpenFieldRoundTrip(f, r);
      }
    }
  }

  lemma OpenRefused(m: OpenResponse)
    requires m.requestId < U64 && m.connectionId < U64 && m.connectionCount < U64 && m.result < U64
    requires m.result !in {1, 10, 11, 100, 101}
    ensures ParseOpenResponse(OpenBody(m)).Err?
  {
    var fs := OpenFields(m);
    var entries := Concat(OpenFieldBytes, fs);
    forall f, a | f in fs ensures Decides(OpenStep, OpenFieldBytes, OpenPut, OpenOk, f, a) {
      OpenFieldDecides(f, a);
    }
    if FitAll(OpenPut, OpenOk, NO_OPEN, fs) {
      FitFour(OpenPut, OpenOk, NO_OPEN, fs[0], fs[1], fs[2], fs[3]);
    } else {
      LoopRefuses(OpenStep, OpenFieldBytes, OpenPut, OpenOk, fs, NO_OPEN, []);
      assert entries + [] == entries;
      OpenBodyRefused(entries, |fs|);
    }
  }

  lemma OpenBodyRefused(entries: Bytes, n: nat)
    requires n == 4 && Repeat(OpenStep, entries, n, NO_OPEN).Err?
    ensures ParseOpenResponse(EncodeHead(MAP, n) + entries).Err?
  {
    LengthRoundTrip(MAP, n, entries);
  }

  lemma OpenDispatch(other: OtherBodies, body: Bytes)
    requires ParseOpenResponse(body).Err?
    ensures AppDecodeBody(other, OPEN_RESPONSE_KEY, body).Err?
  {
  }

  /** A connection-open-response is read back if its result is one of the five. */
  lemma OpenLimits(other: OtherBodies, m: OpenResponse)
    requires m.requestId < U64 && m.connectionId < U64 && m.connectionCount < U64 && m.result < U64
    ensures var decoded := AppDecode(other, AppEncode(OpenResponseMsg(m)));
            if m.result in {1, 10, 11, 100, 101} then decoded == Ok(OpenResponseMsg(m)) else decoded.Err?
  {
    if m.result in {1, 10, 11, 100, 101} {
      ReadBackWhole(other, OpenResponseMsg(m), AppEncode(OpenResponseMsg(m)));
    } else {
      OpenRefused(m);
      OpenDispatch(other, OpenBody(m));
      BodyRefused(other, OpenResponseMsg(m), OPEN_RESPONSE_KEY, OpenBody(m));
    }
  }

  predicate CloseOk(acc: CloseLocals, f: CloseField) {
    f.ReasonField? ==> f.reason in {1, 10, 100}
  }

  lemma CloseFieldDecides(f: CloseField, acc: CloseLocals)
    requires match f
             case CloseConnectionField(n) => n < U64
             case ReasonField(n) => n < U64
             case ErrorField(t) => AnyText(t)
             case CloseCountField(n) => n < U64
    ensures Decides(CloseStep, CloseFieldBytes, ClosePut, CloseOk, f, acc)
  {
    if f.ReasonField? {
      forall r ensures if CloseOk(acc, f) then CloseStep(CloseFieldBytes(f) + r, acc) == Ok((ClosePut(acc, f), r))
                       else CloseStep(CloseFieldBytes(f) + r, acc).Err?
      {
        Rebracket(EncodeUint(1), EncodeUint(f.reason), r);
        KeyRoundTrip(1, EncodeUint(f.reason) + r);
        CodeDecides(ReasonCode, f.reason, r);
      }
    } else {
      CloseFieldStores(f, acc);
    }
  }

  lemma CloseRefused(m: CloseEvent)
    requires m.connectionId < U64 && m.connectionCount < U64 && m.reason < U64 && (m.errorMessage.Some? ==> AnyText(m.errorMessage.value))
    requires m.reason !in {1, 10, 100}
    ensures ParseCloseEvent(CloseBody(m)).Err?
  {
    var fs := CloseFields(m);
    var entries := Concat(CloseFieldBytes, fs);
    forall f, a | f in fs ensures Decides(CloseStep, CloseFieldBytes, ClosePut, CloseOk, f, a) {
      CloseFieldDecides(f, a);
    }
    if FitAll(ClosePut, CloseOk, NO_CLOSE, fs) {
      FitSecond(ClosePut, CloseOk, NO_CLOSE, fs);
    } else {
      LoopRefuses(CloseStep, CloseFieldBytes, ClosePut, CloseOk, fs, NO_CLOSE, []);
      assert entries + [] == entries;
      CloseBodyRefused(entries, |fs|);
    }
  }

  lemma FitSecond<F, A>(put: (A, F) -> A, ok: (A, F) -> bool, acc: A, fs: seq<F>)
    requires |fs| >= 2 && FitAll(put, ok, acc, fs)
    ensures ok(put(acc, fs[0]), fs[1])
  {
    assert fs[1..][0] == fs[1];
  }

  lemma CloseBodyRefused(entries: Bytes, n: nat)
    requires (n == 3 || n == 4) && Repeat(CloseStep, entries, n, NO_CLOSE).Err?
    ensures ParseCloseEvent(EncodeHead(MAP, n) + entries).Err?
  {
    LengthRoundTrip(MAP, n, entries);
  }

  lemma CloseDispatch(other: OtherBodies, body: Bytes)
    requires ParseCloseEvent(body).Err?
    ensures AppDecodeBody(other, CLOSE_EVENT_KEY, body).Err?
  {
  }

  /** A connection-close-event is read back if its reason is one of the three. */
  lemma CloseLimits(other: OtherBodies, m: CloseEvent)
    requires m.connectionId < U64 && m.connectionCount < U64 && m.reason < U64 && (m.errorMessage.Some? ==> AnyText(m.errorMessage.value))
    ensures var decoded := AppDecode(other, AppEncode(CloseEventMsg(m)));
            if m.reason in {1, 10, 100} then decoded == Ok(CloseEventMsg(m)) else decoded.Err?
  {
    if m.reason in {1, 10, 100} {
      ReadBackWhole(other, CloseEventMsg(m), AppEncode(CloseEventMsg(m)));
    } else {
      CloseRefused(m);
      CloseDispatch(other, CloseBody(m));
      BodyRefused(other, CloseEventMsg(m), CLOSE_EVENT_KEY, CloseBody(m));
    }
  }

  // ---------------------------------------------------------------- flat messages

  /** A value of the kind the table asks for, within its type. */
  predicate OfKind(shape: Shape, v: Value) {
    match shape
    case IsNumber(_) => v.Number? && v.n < U64
    case IsCode(_) => v.Number? && v.n < U64
    case IsText => v.Text? && AnyText(v.t)
    case IsBlob => v.Blob? && |v.b| < U64
    case IsStatus => v.StatusText? && AnyText(v.s)
  }

  lemma ValueDecides(shape: Shape, v: Value, rest: Bytes)
    requires OfKind(shape, v)
    ensures if Fits(shape, v) then ParseValue(shape, ValueBytes(v) + rest) == Ok((v, rest))
            else ParseValue(shape, ValueBytes(v) + rest).Err?
  {
    if Fits(shape, v) {
      ValueRoundTrip(shape, v, rest);
    } else {
      match shape
      case IsNumber(bound) => HeadRoundTrip(UINT, v.n, rest);
      case IsCode(valid) => CodeDecides(valid, v.n, rest);
      case IsStatus => StatusRoundTrip(v.s, rest);
    }
  }

  function EntryOk(table: Table): (Locals, Entry) -> bool {
    (locals: Locals, e: Entry) => FitsTable(table, e)
  }

  lemma EntryDecides(table: Table, e: Entry, locals: Locals)
    requires e.key < 0x100 && table(e.key).Some? && OfKind(table(e.key).value, e.value)
    ensures Decides(FlatStep(table), EntryBytes, PutValue, EntryOk(table), e, locals)
  {
    forall r ensures if FitsTable(table, e) then FlatStep(table)(EntryBytes(e) + r, locals) == Ok((PutValue(locals, e), r))
                     else FlatStep(table)(EntryBytes(e) + r, locals).Err?
    {
      Rebracket(EncodeUint(e.key), ValueBytes(e.value), r);
      KeyRoundTrip(e.key, ValueBytes(e.value) + r);
      ValueDecides(table(e.key).value, e.value, r);
    }
  }

  lemma {:induction false} MisfitShows(table: Table, es: seq<Entry>, locals: Locals, i: nat)
    requires i < |es| && !FitsTable(table, es[i])
    ensures !FitAll(PutValue, EntryOk(table), locals, es)
    decreases i
  {
    if i > 0 {
      MisfitShows(table, es[1..], PutValue(locals, es[0]), i - 1);
    }
  }

  /** A flat map one of whose values does not fit the table is refused. */
  lemma FlatRefused(table: Table, es: seq<Entry>, i: nat)
    requires i < |es| && !FitsTable(table, es[i])
    requires forall e :: e in es ==> e.key < 0x100 && table(e.key).Some? && OfKind(table(e.key).value, e.value)
    ensures ParseEntries(table, Concat(EntryBytes, es), |es|).Err?
  {
    forall e, l | e in es ensures Decides(FlatStep(table), EntryBytes, PutValue, EntryOk(table), e, l) {
      EntryDecides(table, e, l);
    }
    MisfitShows(table, es, map[], i);
    LoopRefuses(FlatStep(table), EntryBytes, PutValue, EntryOk(table), es, map[], []);
    assert Concat(EntryBytes, es) + [] == Concat(EntryBytes, es);
  }

  lemma FlatMapRefused(table: Table, lengths: set<nat>, es: seq<Entry>, i: nat)
    requires i < |es| < U64 && !FitsTable(table, es[i])
    requires forall e :: e in es ==> e.key < 0x100 && table(e.key).Some? && OfKind(table(e.key).value, e.value)
    ensures ParseFlat(table, lengths, FlatBody(es)).Err?
  {
    FlatRefused(table, es, i);
    LengthRoundTrip(MAP, |es|, Concat(EntryBytes, es));
  }

  /** A parser of the six that refuses a body makes the dispatcher refuse it. */
  ghost predicate Refuses(p: FlatParsers, m: AppMessage, body: Bytes)
    requires IsFlat(m)
  {
    match m
    case StatusRequestMsg(_) => p.status(body).Err?
    case ConnectionMsg(_) => p.connection(body).Err?
    case StartResponseMsg(_) => p.startResponse(body).Err?
    case TerminationRequestMsg(_) => p.terminationRequest(body).Err?
    case TerminationEventMsg(_) => p.terminationEvent(body).Err?
    case OpenRequestMsg(_) => p.openRequest(body).Err?
  }

  lemma RefusalDispatches(p: FlatParsers, other: OtherBodies, m: AppMessage, body: Bytes)
    requires IsFlat(m) && Refuses(p, m, body)
    ensures DecodeFlatBody(p, other, AppKeyOf(m), body).Err?
  {
  }

  lemma FlatMessageRefused(other: OtherBodies, m: AppMessage, key: u16, body: Bytes)
    requires IsFlat(m) && key == AppKeyOf(m) && body == AppBody(m) && Refuses(FLAT, m, body)
    ensures AppDecode(other, AppEncode(m)).Err?
  {
    RefusalDispatches(FLAT, other, m, body);
    FlatKeyDispatch(other, key, body);
    AppDispatch(other, key, body);
  }

  lemma StatusRefused(m: StatusRequest)
    requires m.requestId < U64 && m.status.Some? && AnyText(m.status.value) && |m.status.value| > 256
    ensures ParseStatusMap(FlatBody(StatusEntries(m))).Err?
  {
    LongStatusStops(m);
  }

  /** A status request is read back if its status text has at most 256 bytes. */
  lemma StatusLimits(other: OtherBodies, m: StatusRequest)
    requires m.requestId < U64 && (m.status.Some? ==> AnyText(m.status.value))
    ensures var decoded := AppDecode(other, AppEncode(StatusRequestMsg(m)));
            if m.status.Some? && |m.status.value| > 256 then decoded.Err? else decoded == Ok(StatusRequestMsg(m))
  {
    if m.status.Some? && |m.status.value| > 256 {
      StatusRefused(m);
      FlatMessageRefused(other, StatusRequestMsg(m), STATUS_REQUEST_KEY, FlatBody(StatusEntries(m)));
    } else {
      ReadBackWhole(other, StatusRequestMsg(m), AppEncode(StatusRequestMsg(m)));
    }
  }

  predicate StartResponseWithin(m: StartResponse) {
    m.result in {1, 10, 11, 100, 101} && (m.httpCode.Some? ==> m.httpCode.value <= 65535)
  }

  lemma StartResponseRefused(m: StartResponse)
    requires m.requestId < U64 && m.result < U64 && m.connectionId < U64 && (m.httpCode.Some? ==> m.httpCode.value < U64)
    requires !StartResponseWithin(m)
    ensures ParseStartResponseMap(FlatBody(StartResponseEntries(m))).Err?
  {
    var es := StartResponseEntries(m);
    var i := if m.result in {1, 10, 11, 100, 101} then 3 else 1;
    assert es[i] == if i == 1 then Entry(1, Number(m.result)) else Entry(3, Number(m.httpCode.value));
    FlatMapRefused(StartResponseTable, {3, 4}, es, i);
  }

  /** A start response is read back if its result is one of the five and its HTTP code, if it
      has one, takes 16 bits. */
  lemma StartResponseLimits(other: OtherBodies, m: StartResponse)
    requires m.requestId < U64 && m.result < U64 && m.connectionId < U64 && (m.httpCode.Some? ==> m.httpCode.value < U64)
    ensures var decoded := AppDecode(other, AppEncode(StartResponseMsg(m)));
            if StartResponseWithin(m) then decoded == Ok(StartResponseMsg(m)) else decoded.Err?
  {
    if StartResponseWithin(m) {
      ReadBackWhole(other, StartResponseMsg(m), AppEncode(StartResponseMsg(m)));
    } else {
      StartResponseRefused(m);
      FlatMessageRefused(other, StartResponseMsg(m), START_RESPONSE_KEY, FlatBody(StartResponseEntries(m)));
    }
  }

  /** The eight termination reasons. */
  predicate Reason(n: nat) {
    n in {1, 2, 20, 30, 31, 100, 101, 255}
  }

  lemma TerminationRequestRefused(m: TerminationRequest)
    requires m.requestId < U64 && AnyText(m.presentationId) && m.reason < U64 && !Reason(m.reason)
    ensures ParseTerminationRequestMap(FlatBody(TerminationRequestEntries(m))).Err?
  {
    FlatMapRefused(TerminationRequestTable, {3}, TerminationRequestEntries(m), 2);
  }

  /** A termination request is read back if its reason is one of the eight. */
  lemma TerminationRequestLimits(other: OtherBodies, m: TerminationRequest)
    requires m.requestId < U64 && AnyText(m.presentationId) && m.reason < U64
    ensures var decoded := AppDecode(other, AppEncode(TerminationRequestMsg(m)));
            if Reason(m.reason) then decoded == Ok(TerminationRequestMsg(m)) else decoded.Err?
  {
    if Reason(m.reason) {
      ReadBackWhole(other, TerminationRequestMsg(m), AppEncode(TerminationRequestMsg(m)));
    } else {
      TerminationRequestRefused(m);
      FlatMessageRefused(other, TerminationRequestMsg(m), TERMINATION_REQUEST_KEY, FlatBody(TerminationRequestEntries(m)));
    }
  }

  lemma TerminationEventRefused(m: TerminationEvent)
    requires AnyText(m.presentationId) && m.source < U64 && m.reason < U64
    requires !(Reason(m.reason) && m.source in {1, 2, 255})
    ensures ParseTerminationEventMap(FlatBody(TerminationEventEntries(m))).Err?
  {
    FlatMapRefused(TerminationEventTable, {3}, TerminationEventEntries(m), if m.source in {1, 2, 255} then 2 else 1);
  }

  /** A termination event is read back if its source is one of the three and its reason one
      of the eight. */
  lemma TerminationEventLimits(other: OtherBodies, m: TerminationEvent)
    requires AnyText(m.presentationId) && m.source < U64 && m.reason < U64
    ensures var decoded := AppDecode(other, AppEncode(TerminationEventMsg(m)));
            if Reason(m.reason) && m.source in {1, 2, 255} then decoded == Ok(TerminationEventMsg(m)) else decoded.Err?
  {
    if Reason(m.reason) && m.source in {1, 2, 255} {
      ReadBackWhole(other, TerminationEventMsg(m), AppEncode(TerminationEventMsg(m)));
    } else {
      TerminationEventRefused(m);
      FlatMessageRefused(other, TerminationEventMsg(m), TERMINATION_EVENT_KEY, FlatBody(TerminationEventEntries(m)));
    }
  }

  /** The numbers of entries a map may have, and the keys of the flat ones; anything else is
      refused. */
  lemma ShapesExact(n: nat, rest: Bytes, k: nat)
    requires n < U64
    ensures var s := EncodeHead(MAP, n) + rest;
            && (n != 4 ==> ParseStartRequest(s).Err? && ParseUrlRequest(s).Err? && ParseOpenResponse(s).Err?)
            && (n != 5 ==> ParseAgent(s).Err?)
            && (n !in {3, 4} ==> ParseCloseEvent(s).Err? && ParseStartResponseMap(s).Err?)
            && (n != 3 ==> ParseTerminationRequestMap(s).Err? && ParseTerminationEventMap(s).Err? && ParseOpenRequestMap(s).Err?)
            && (n != 2 ==> ParseConnectionMap(s).Err? && ParseAgentInfoResponse(s).Err?)
            && (n != 1 ==> ParseInfoRequest(s).Err?)
    ensures (StatusTable(k).Some? <==> k < 2) && (ConnectionTable(k).Some? <==> k < 2) && (StartResponseTable(k).Some? <==> k < 4)
    ensures (TerminationRequestTable(k).Some? <==> k < 3) && (TerminationEventTable(k).Some? <==> k < 3) && (OpenRequestTable(k).Some? <==> k < 3)
  {
    LengthRoundTrip(MAP, n, rest);
  }
}
