/** The application codecs: round trips through nested loops, and exactness of the
    all-mandatory maps. */
module AppTheorems {
  import opened Basics
  import opened VarInt
  import opened Cbor
  import opened Parsing
  import opened FlatMaps
  import opened AppMessages

  // ---------------------------------------------------------------- loops in general

  /** The loop body reads one entry from its bytes and stores it. */
  ghost predicate Stores<F(!new), A(!new)>(step: (Bytes, A) -> Parse<A>, bytes: F -> Bytes, put: (A, F) -> A, f: F, acc: A) {
    forall r :: step(bytes(f) + r, acc) == Ok((put(acc, f), r))
  }

  /** Every entry of `fs` is read and stored, one after the other. */
  ghost predicate StoresAll<F(!new), A(!new)>(step: (Bytes, A) -> Parse<A>, bytes: F -> Bytes, put: (A, F) -> A, fs: seq<F>, acc: A)
    decreases |fs|
  {
    fs == [] || (Stores(step, bytes, put, fs[0], acc) && StoresAll(step, bytes, put, fs[1..], put(acc, fs[0])))
  }

  /** Then the loop consumes exactly the bytes of those entries. */
  lemma {:induction false} LoopStores<F(!new), A(!new)>(
      step: (Bytes, A) -> Parse<A>, bytes: F -> Bytes, put: (A, F) -> A, fs: seq<F>, acc: A, rest: Bytes)
    requires StoresAll(step, bytes, put, fs, acc)
    ensures Repeat(step, Concat(bytes, fs) + rest, |fs|, acc) == Ok((PutAll(put, acc, fs), rest))
    decreases |fs|
  {
    if fs == [] {
      assert Concat(bytes, fs) + rest == rest;
    } else {
      var tail := Concat(bytes, fs[1..]) + rest;
      assert Concat(bytes, fs) + rest == bytes(fs[0]) + tail;
      assert step(bytes(fs[0]) + tail, acc) == Ok((put(acc, fs[0]), tail));
      LoopStores(step, bytes, put, fs[1..], put(acc, fs[0]), rest);
    }
  }

  lemma PutAllCons<F, A>(put: (A, F) -> A, acc: A, f: F, fs: seq<F>)
    ensures PutAll(put, acc, [f] + fs) == PutAll(put, put(acc, f), fs)
  {
    assert ([f] + fs)[1..] == fs;
  }

  lemma StoresAllCons<F(!new), A(!new)>(step: (Bytes, A) -> Parse<A>, bytes: F -> Bytes, put: (A, F) -> A, f: F, fs: seq<F>, acc: A)
    requires Stores(step, bytes, put, f, acc) && StoresAll(step, bytes, put, fs, put(acc, f))
    ensures StoresAll(step, bytes, put, [f] + fs, acc)
  {
    assert ([f] + fs)[1..] == fs;
  }

  /** The array loop reads back a list of items that fits its vector. */
  lemma {:induction false} ItemsRoundTrip<T(!new)>(item: Bytes -> Parse<T>, bytes: T -> Bytes, capacity: nat, xs: seq<T>, before: seq<T>, rest: Bytes)
    requires forall x, r :: x in xs ==> item(bytes(x) + r) == Ok((x, r))
    requires |before| + |xs| <= capacity
    ensures Repeat(Push(item, capacity), Concat(bytes, xs) + rest, |xs|, before) == Ok((before + xs, rest))
    decreases |xs|
  {
    if xs == [] {
      assert Concat(bytes, xs) + rest == rest;
      assert before + xs == before;
    } else {
      var tail := Concat(bytes, xs[1..]) + rest;
      assert Concat(bytes, xs) + rest == bytes(xs[0]) + tail;
      assert item(bytes(xs[0]) + tail) == Ok((xs[0], tail));
      RepeatStep(Push(item, capacity), Concat(bytes, xs) + rest, |xs|, before, tail, before + [xs[0]]);
      ItemsRoundTrip(item, bytes, capacity, xs[1..], before + [xs[0]], rest);
      assert before + [xs[0]] + xs[1..] == before + xs;
    }
  }

  lemma ArrayRoundTrip<T(!new)>(item: Bytes -> Parse<T>, bytes: T -> Bytes, capacity: nat, xs: seq<T>, before: seq<T>, rest: Bytes)
    requires forall x, r :: x in xs ==> item(bytes(x) + r) == Ok((x, r))
    requires |before| + |xs| <= capacity < U64
    ensures ParseAppend(item, capacity, ListBytes(bytes, xs) + rest, before) == Ok((before + xs, rest))
    ensures before == [] ==> ParseList(item, capacity, ListBytes(bytes, xs) + rest) == Ok((xs, rest))
  {
    var tail := Concat(bytes, xs) + rest;
    assert ListBytes(bytes, xs) + rest == EncodeHead(ARRAY, |xs|) + tail;
    LengthRoundTrip(ARRAY, |xs|, tail);
    ItemsRoundTrip(item, bytes, capacity, xs, before, rest);
    assert before == [] ==> before + xs == xs;
  }

  // ---------------------------------------------------------------- items

  predicate ShortText(t: Bytes) {
    ValidUtf8(t) && |t| <= MAX_STRING_LEN
  }

  predicate ShortHeader(h: Header) {
    ShortText(h.key) && ShortText(h.value)
  }

  lemma HeaderRoundTrip(h: Header, rest: Bytes)
    requires ShortHeader(h)
    ensures ParseHeader(HeaderBytes(h) + rest) == Ok((h, rest))
  {
    var s2 := EncodeStr(h.value) + rest;
    var s1 := EncodeStr(h.key) + s2;
    assert HeaderBytes(h) + rest == EncodeHead(ARRAY, 2) + s1;
    LengthRoundTrip(ARRAY, 2, s1);
    TextRoundTrip(h.key, s2);
    TextRoundTrip(h.value, rest);
  }

  // ---------------------------------------------------------------- agent-info-response

  predicate WellFormedAgent(a: AgentInfo) {
    && ShortText(a.displayName) && ShortText(a.modelName) && ShortText(a.stateToken)
    && |a.capabilities| <= MAX_CAPABILITIES && (forall c :: c in a.capabilities ==> CapabilityCode(c))
    && |a.locales| <= MAX_LOCALES && (forall l :: l in a.locales ==> ShortText(l))
  }

  lemma AgentTextStores(f: AgentField, acc: AgentLocals)
    requires (f.NameField? && ShortText(f.name)) || (f.ModelField? && ShortText(f.model))
             || (f.StateTokenField? && ShortText(f.stateToken))
    ensures Stores(AgentStep, AgentFieldBytes, AgentPut, f, acc)
  {
    var t := if f.NameField? then f.name else if f.ModelField? then f.model else f.stateToken;
    var key := if f.NameField? then 0 else if f.ModelField? then 1 else 3;
    forall r ensures AgentStep(AgentFieldBytes(f) + r, acc) == Ok((AgentPut(acc, f), r)) {
      Rebracket(EncodeUint(key), EncodeStr(t), r);
      KeyRoundTrip(key, EncodeStr(t) + r);
      TextRoundTrip(t, r);
    }
  }

  lemma AgentCapabilitiesStores(cs: seq<nat>, acc: AgentLocals)
    requires forall c :: c in cs ==> CapabilityCode(c)
    requires |acc.capabilities| + |cs| <= MAX_CAPABILITIES
    ensures Stores(AgentStep, AgentFieldBytes, AgentPut, CapabilitiesField(cs), acc)
  {
    var f := CapabilitiesField(cs);
    forall r ensures AgentStep(AgentFieldBytes(f) + r, acc) == Ok((AgentPut(acc, f), r)) {
      Rebracket(EncodeUint(2), ListBytes(EncodeUint, cs), r);
      KeyRoundTrip(2, ListBytes(EncodeUint, cs) + r);
      forall x, t | x in cs ensures ParseCapability(EncodeUint(x) + t) == Ok((x, t)) {
        CodeRoundTrip(CapabilityCode, x, t);
      }
      ArrayRoundTrip(ParseCapability, EncodeUint, MAX_CAPABILITIES, cs, acc.capabilities, r);
    }
  }

  lemma AgentLocalesStores(ls: seq<Bytes>, acc: AgentLocals)
    requires forall l :: l in ls ==> ShortText(l)
    requires |acc.locales| + |ls| <= MAX_LOCALES
    ensures Stores(AgentStep, AgentFieldBytes, AgentPut, LocalesField(ls), acc)
  {
    var f := LocalesField(ls);
    forall r ensures AgentStep(AgentFieldBytes(f) + r, acc) == Ok((AgentPut(acc, f), r)) {
      Rebracket(EncodeUint(4), ListBytes(EncodeStr, ls), r);
      KeyRoundTrip(4, ListBytes(EncodeStr, ls) + r);
      forall x, t | x in ls ensures ParseText(EncodeStr(x) + t) == Ok((x, t)) {
        TextRoundTrip(x, t);
      }
      ArrayRoundTrip(ParseText, EncodeStr, MAX_LOCALES, ls, acc.locales, r);
    }
  }

  lemma FiveStores<F(!new), A(!new)>(step: (Bytes, A) -> Parse<A>, bytes: F -> Bytes, put: (A, F) -> A, a: F, rest: seq<F>, b: F, c: F, d: F, e: F, acc: A)
    requires rest == [b, c, d, e] && Stores(step, bytes, put, a, acc) && StoresAll(step, bytes, put, rest, put(acc, a))
    requires PutAll(put, put(acc, a), rest) == put(put(put(put(put(acc, a), b), c), d), e)
    ensures StoresAll(step, bytes, put, [a, b, c, d, e], acc)
    ensures PutAll(put, acc, [a, b, c, d, e]) == put(put(put(put(put(acc, a), b), c), d), e)
  {
    StoresAllCons(step, bytes, put, a, rest, acc);
    PutAllCons(put, acc, a, rest);
    assert [a] + rest == [a, b, c, d, e];
  }

  /** The five entries complete to the agent. */
  lemma AgentStoresAll(a: AgentInfo)
    requires WellFormedAgent(a)
    ensures StoresAll(AgentStep, AgentFieldBytes, AgentPut, AgentFields(a), NO_AGENT)
    ensures AgentComplete(PutAll(AgentPut, NO_AGENT, AgentFields(a))) == Ok(a)
  {
    var f0, f1, f2 := NameField(a.displayName), ModelField(a.modelName), CapabilitiesField(a.capabilities);
    var f3, f4 := StateTokenField(a.stateToken), LocalesField(a.locales);
    var a1 := AgentPut(NO_AGENT, f0);
    var a2 := AgentPut(a1, f1);
    var a3 := AgentPut(a2, f2);
    var a4 := AgentPut(a3, f3);
    AgentTextStores(f0, NO_AGENT);
    AgentTextStores(f1, a1);
    AgentCapabilitiesStores(a.capabilities, a2);
    AgentTextStores(f3, a3);
    AgentLocalesStores(a.locales, a4);
    FourStores(AgentStep, AgentFieldBytes, AgentPut, f1, f2, f3, f4, a1);
    FiveStores(AgentStep, AgentFieldBytes, AgentPut, f0, [f1, f2, f3, f4], f1, f2, f3, f4, NO_AGENT);
    assert [] + a.capabilities == a.capabilities && [] + a.locales == a.locales;
  }

  lemma AgentRoundTrip(a: AgentInfo, rest: Bytes)
    requires WellFormedAgent(a)
    ensures ParseAgent(AgentBytes(a) + rest) == Ok((a, rest))
  {
    var tail := Concat(AgentFieldBytes, AgentFields(a)) + rest;
    Rebracket(EncodeHead(MAP, 5), Concat(AgentFieldBytes, AgentFields(a)), rest);
    LengthRoundTrip(MAP, 5, tail);
    AgentStoresAll(a);
    LoopStores(AgentStep, AgentFieldBytes, AgentPut, AgentFields(a), NO_AGENT, rest);
  }

  /** agent-info-response, with its nested map and two nested arrays. */
  lemma AgentInfoResponseRoundTrip(m: AgentInfoResponse, rest: Bytes)
    requires m.requestId < U64 && WellFormedAgent(m.info)
    ensures ParseAgentInfoResponse(AgentInfoResponseBody(m) + rest) == Ok((m, rest))
  {
    var s4 := AgentBytes(m.info) + rest;
    var s3 := EncodeUint(1) + s4;
    var s2 := EncodeUint(m.requestId) + s3;
    var s1 := EncodeUint(0) + s2;
    Regroup5(EncodeHead(MAP, 2), EncodeUint(0), EncodeUint(m.requestId), EncodeUint(1), AgentBytes(m.info), rest);
    LengthRoundTrip(MAP, 2, s1);
    KeyRoundTrip(0, s2);
    NumberRoundTrip(m.requestId, s3);
    KeyRoundTrip(1, s4);
    AgentRoundTrip(m.info, rest);
  }

  lemma Regroup5(a: Bytes, b: Bytes, c: Bytes, d: Bytes, e: Bytes, r: Bytes)
    ensures (a + (b + (c + (d + e)))) + r == a + (b + (c + (d + (e + r))))
  {
  }

  // ---------------------------------------------------------------- presentation-start-request

  predicate WellFormedStart(m: StartRequest) {
    && m.requestId < U64 && ShortText(m.presentationId) && ShortText(m.url)
    && |m.headers| <= MAX_HEADERS && (forall h :: h in m.headers ==> ShortHeader(h))
  }

  lemma StartIdStores(n: nat, acc: StartLocals)
    requires n < U64
    ensures Stores(StartStep, StartFieldBytes, StartPut, RequestIdField(n), acc)
  {
    var f := RequestIdField(n);
    forall r ensures StartStep(StartFieldBytes(f) + r, acc) == Ok((StartPut(acc, f), r)) {
      Rebracket(EncodeUint(0), EncodeUint(n), r);
      KeyRoundTrip(0, EncodeUint(n) + r);
      NumberRoundTrip(n, r);
    }
  }

  lemma StartTextStores(f: StartField, acc: StartLocals)
    requires (f.PresentationIdField? && ShortText(f.presentationId)) || (f.UrlField? && ShortText(f.url))
    ensures Stores(StartStep, StartFieldBytes, StartPut, f, acc)
  {
    var t := if f.PresentationIdField? then f.presentationId else f.url;
    var key := if f.PresentationIdField? then 1 else 2;
    forall r ensures StartStep(StartFieldBytes(f) + r, acc) == Ok((StartPut(acc, f), r)) {
      Rebracket(EncodeUint(key), EncodeStr(t), r);
      KeyRoundTrip(key, EncodeStr(t) + r);
      TextRoundTrip(t, r);
    }
  }

  lemma HeadersRoundTrip(hs: seq<Header>, before: seq<Header>, rest: Bytes)
    requires forall h :: h in hs ==> ShortHeader(h)
    requires |before| + |hs| <= MAX_HEADERS
    ensures ParseAppend(ParseHeader, MAX_HEADERS, ListBytes(HeaderBytes, hs) + rest, before) == Ok((before + hs, rest))
  {
    forall h, t | h in hs ensures ParseHeader(HeaderBytes(h) + t) == Ok((h, t)) {
      HeaderRoundTrip(h, t);
    }
    ArrayRoundTrip(ParseHeader, HeaderBytes, MAX_HEADERS, hs, before, rest);
  }

  lemma StartHeadersStores(hs: seq<Header>, acc: StartLocals)
    requires forall h :: h in hs ==> ShortHeader(h)
    requires |acc.headers| + |hs| <= MAX_HEADERS
    ensures Stores(StartStep, StartFieldBytes, StartPut, HeadersField(hs), acc)
  {
    var f := HeadersField(hs);
    forall r ensures StartStep(StartFieldBytes(f) + r, acc) == Ok((StartPut(acc, f), r)) {
      Rebracket(EncodeUint(3), ListBytes(HeaderBytes, hs), r);
      KeyRoundTrip(3, ListBytes(HeaderBytes, hs) + r);
      HeadersRoundTrip(hs, acc.headers, r);
    }
  }

  lemma StartStoresAll(m: StartRequest)
    requires WellFormedStart(m)
    ensures StoresAll(StartStep, StartFieldBytes, StartPut, StartFields(m), NO_START)
    ensures StartComplete(PutAll(StartPut, NO_START, StartFields(m))) == Ok(m)
  {
    var f0, f1, f2, f3 := RequestIdField(m.requestId), PresentationIdField(m.presentationId), UrlField(m.url), HeadersField(m.headers);
    var a1 := StartPut(NO_START, f0);
    var a2 := StartPut(a1, f1);
    var a3 := StartPut(a2, f2);
    StartIdStores(m.requestId, NO_START);
    StartTextStores(f1, a1);
    StartTextStores(f2, a2);
    StartHeadersStores(m.headers, a3);
    FourStores(StartStep, StartFieldBytes, StartPut, f0, f1, f2, f3, NO_START);
    assert StartFields(m) == [f0, f1, f2, f3];
    assert [] + m.headers == m.headers;
  }

  /** presentation-start-request, with its array of pairs. */
  lemma StartRequestRoundTrip(m: StartRequest, rest: Bytes)
    requires WellFormedStart(m)
    ensures ParseStartRequest(StartBody(m) + rest) == Ok((m, rest))
  {
    var tail := Concat(StartFieldBytes, StartFields(m)) + rest;
    Rebracket(EncodeHead(MAP, 4), Concat(StartFieldBytes, StartFields(m)), rest);
    LengthRoundTrip(MAP, 4, tail);
    StartStoresAll(m);
    LoopStores(StartStep, StartFieldBytes, StartPut, StartFields(m), NO_START, rest);
  }

  lemma FourStores<F(!new), A(!new)>(step: (Bytes, A) -> Parse<A>, bytes: F -> Bytes, put: (A, F) -> A, a: F, b: F, c: F, d: F, acc: A)
    requires Stores(step, bytes, put, a, acc) && Stores(step, bytes, put, b, put(acc, a))
    requires Stores(step, bytes, put, c, put(put(acc, a), b)) && Stores(step, bytes, put, d, put(put(put(acc, a), b), c))
    ensures StoresAll(step, bytes, put, [a, b, c, d], acc)
    ensures PutAll(put, acc, [a, b, c, d]) == put(put(put(put(acc, a), b), c), d)
  {
    var acc1 := put(acc, a);
    var acc2 := put(acc1, b);
    var acc3 := put(acc2, c);
    StoresAllCons(step, bytes, put, d, [], acc3);
    StoresAllCons(step, bytes, put, c, [d] + [], acc2);
    StoresAllCons(step, bytes, put, b, [c] + ([d] + []), acc1);
    StoresAllCons(step, bytes, put, a, [b] + ([c] + ([d] + [])), acc);
    PutAllCons(put, acc, a, [b] + ([c] + ([d] + [])));
    PutAllCons(put, acc1, b, [c] + ([d] + []));
    PutAllCons(put, acc2, c, [d] + []);
    PutAllCons(put, acc3, d, []);
    assert [a, b, c, d] == [a] + ([b] + ([c] + ([d] + [])));
  }

  // ---------------------------------------------------------------- connection-open-response

  predicate WellFormedOpen(m: OpenResponse) {
    m.requestId < U64 && ResultCode(m.result) && m.connectionId < U64 && m.connectionCount < U64
  }

  lemma OpenFieldRoundTrip(f: OpenField, rest: Bytes)
    requires match f
             case OpenIdField(n) => n < U64
             case ResultField(n) => ResultCode(n)
             case OpenConnectionField(n) => n < U64
             case OpenCountField(n) => n < U64
    ensures ParseOpenField(OpenFieldBytes(f) + rest) == Ok((f, rest))
  {
    match f
    case OpenIdField(n) =>
      Rebracket(EncodeUint(0), EncodeUint(n), rest);
      KeyRoundTrip(0, EncodeUint(n) + rest);
      NumberRoundTrip(n, rest);
    case ResultField(n) =>
      Rebracket(EncodeUint(1), EncodeUint(n), rest);
      KeyRoundTrip(1, EncodeUint(n) + rest);
      CodeRoundTrip(ResultCode, n, rest);
    case OpenConnectionField(n) =>
      Rebracket(EncodeUint(2), EncodeUint(n), rest);
      KeyRoundTrip(2, EncodeUint(n) + rest);
      NumberRoundTrip(n, rest);
    case OpenCountField(n) =>
      Rebracket(EncodeUint(3), EncodeUint(n), rest);
      KeyRoundTrip(3, EncodeUint(n) + rest);
      NumberRoundTrip(n, rest);
  }

  /** A filled variable holds a value that some entry stored. */
  lemma {:induction false} OpenSource(fs: seq<OpenField>, acc: OpenLocals)
    ensures var r := PutAll(OpenPut, acc, fs);
            && (r.requestId != acc.requestId ==> r.requestId.Some? && OpenIdField(r.requestId.value) in fs)
            && (r.result != acc.result ==> r.result.Some? && ResultField(r.result.value) in fs)
            && (r.connectionId != acc.connectionId ==> r.connectionId.Some? && OpenConnectionField(r.connectionId.value) in fs)
            && (r.connectionCount != acc.connectionCount ==> r.connectionCount.Some? && OpenCountField(r.connectionCount.value) in fs)
    decreases |fs|
  {
    if fs != [] {
      OpenSource(fs[1..], OpenPut(acc, fs[0]));
      assert fs == [fs[0]] + fs[1..];
    }
  }

  /** Entries that are all of one message store exactly its values. */
  lemma {:induction false} OpenTarget(fs: seq<OpenField>, acc: OpenLocals, m: OpenResponse)
    requires forall f :: f in fs ==> f in OpenFields(m)
    ensures var r := PutAll(OpenPut, acc, fs);
            && r.requestId == (if OpenIdField(m.requestId) in fs then Some(m.requestId) else acc.requestId)
            && r.result == (if ResultField(m.result) in fs then Some(m.result) else acc.result)
            && r.connectionId == (if OpenConnectionField(m.connectionId) in fs then Some(m.connectionId) else acc.connectionId)
            && r.connectionCount == (if OpenCountField(m.connectionCount) in fs then Some(m.connectionCount) else acc.connectionCount)
    decreases |fs|
  {
    if fs != [] {
      assert fs[0] in OpenFields(m);
      OpenTarget(fs[1..], OpenPut(acc, fs[0]), m);
      assert fs == [fs[0]] + fs[1..];
    }
  }

  lemma OpenPigeonhole(fs: seq<OpenField>, m: OpenResponse)
    requires |fs| == 4
    ensures OpenComplete(PutAll(OpenPut, NO_OPEN, fs)) == Ok(m) <==> multiset(fs) == multiset(OpenFields(m))
  {
    var vs := OpenFields(m);
    if OpenComplete(PutAll(OpenPut, NO_OPEN, fs)) == Ok(m) {
      OpenSource(fs, NO_OPEN);
      Covering(fs, vs);
    }
    if multiset(fs) == multiset(vs) {
      SameMembers(fs, vs);
      OpenTarget(fs, NO_OPEN, m);
      assert vs[0] in vs && vs[1] in vs && vs[2] in vs && vs[3] in vs;
    }
  }

  lemma SameMembers<F>(fs: seq<F>, vs: seq<F>)
    requires multiset(fs) == multiset(vs)
    ensures forall f :: f in fs <==> f in vs
  {
    forall f ensures f in fs <==> f in vs {
      assert f in fs <==> f in multiset(fs);
      assert f in vs <==> f in multiset(vs);
    }
  }

  lemma OpenStepReads()
    ensures ReadsAndPuts(OpenStep, ParseOpenField, OpenPut)
  {
  }

  /** A body decodes to `m` exactly when it holds the four entries of `m`, each once, in some
      order. */
  lemma OpenOrderExact(s: Bytes, m: OpenResponse, rest: Bytes)
    ensures ParseOpenResponse(s) == Ok((m, rest))
       <==> && ParseMap(s).Some? && ParseMap(s).value.0 == Some(4)
            && exists fs :: |fs| == 4 && multiset(fs) == multiset(OpenFields(m))
                            && Reads(ParseOpenField, ParseMap(s).value.1, fs, rest)
  {
    OpenStepReads();
    if ParseMap(s).Some? && ParseMap(s).value.0 == Some(4) {
      var s1 := ParseMap(s).value.1;
      if ParseOpenResponse(s) == Ok((m, rest)) {
        var fs := LoopHasRead(OpenStep, ParseOpenField, OpenPut, s1, 4, NO_OPEN);
        OpenPigeonhole(fs, m);
      }
      forall fs | |fs| == 4 && multiset(fs) == multiset(OpenFields(m)) && Reads(ParseOpenField, s1, fs, rest)
        ensures ParseOpenResponse(s) == Ok((m, rest))
      {
        LoopReads(OpenStep, ParseOpenField, OpenPut, s1, NO_OPEN, fs, rest);
        OpenPigeonhole(fs, m);
      }
    }
  }

  /** The entries of a response, sent in any order, decode to it. */
  lemma OpenAnyOrder(m: OpenResponse, fs: seq<OpenField>, rest: Bytes)
    requires WellFormedOpen(m) && multiset(fs) == multiset(OpenFields(m))
    ensures ParseOpenResponse(EncodeHead(MAP, 4) + (Concat(OpenFieldBytes, fs) + rest)) == Ok((m, rest))
  {
    var body := Concat(OpenFieldBytes, fs) + rest;
    LengthRoundTrip(MAP, 4, body);
    assert |fs| == |multiset(fs)| == |multiset(OpenFields(m))| == 4;
    SameMembers(fs, OpenFields(m));
    forall f, r | f in fs ensures ParseOpenField(OpenFieldBytes(f) + r) == Ok((f, r)) {
      assert f in OpenFields(m);
      OpenFieldRoundTrip(f, r);
    }
    ConcatReads(ParseOpenField, OpenFieldBytes, fs, rest);
    OpenOrderExact(EncodeHead(MAP, 4) + body, m, rest);
  }

  lemma OpenResponseRoundTrip(m: OpenResponse, rest: Bytes)
    requires WellFormedOpen(m)
    ensures ParseOpenResponse(OpenBody(m) + rest) == Ok((m, rest))
  {
    Rebracket(EncodeHead(MAP, 4), Concat(OpenFieldBytes, OpenFields(m)), rest);
    OpenAnyOrder(m, OpenFields(m), rest);
  }

  // ---------------------------------------------------------------- url-availability-request

  predicate WellFormedUrl(m: UrlRequest) {
    && m.requestId < U64 && m.watchDuration < U64 && m.watchId < U64
    && |m.urls| <= MAX_URLS && (forall u :: u in m.urls ==> ValidUtf8(u) && |u| < U64)
  }

  lemma UrlsRoundTrip(us: seq<Bytes>, rest: Bytes)
    requires |us| <= MAX_URLS && (forall u :: u in us ==> ValidUtf8(u) && |u| < U64)
    ensures ParseUrlField(UrlFieldBytes(UrlsField(us)) + rest) == Ok((UrlsField(us), rest))
  {
    Rebracket(EncodeUint(1), ListBytes(EncodeStr, us), rest);
    KeyRoundTrip(1, ListBytes(EncodeStr, us) + rest);
    forall x, t | x in us ensures ParseAnyText(EncodeStr(x) + t) == Ok((x, t)) {
      TextRoundTrip(x, t);
    }
    ArrayRoundTrip(ParseAnyText, EncodeStr, MAX_URLS, us, [], rest);
  }

  lemma UrlNumberRoundTrip(f: UrlReqField, rest: Bytes)
    requires match f
             case UrlIdField(n) => n < U64
             case UrlsField(_) => false
             case DurationField(n) => n < U64
             case WatchField(n) => n < U64
    ensures ParseUrlField(UrlFieldBytes(f) + rest) == Ok((f, rest))
  {
    var key := if f.UrlIdField? then 0 else if f.DurationField? then 2 else 3;
    var n := if f.UrlIdField? then f.id else if f.DurationField? then f.duration else f.watch;
    Rebracket(EncodeUint(key), EncodeUint(n), rest);
    KeyRoundTrip(key, EncodeUint(n) + rest);
    NumberRoundTrip(n, rest);
  }

  lemma {:induction false} UrlSource(fs: seq<UrlReqField>, acc: UrlLocals)
    ensures var r := PutAll(UrlPut, acc, fs);
            && (r.requestId != acc.requestId ==> r.requestId.Some? && UrlIdField(r.requestId.value) in fs)
            && (r.urls != acc.urls ==> r.urls.Some? && UrlsField(r.urls.value) in fs)
            && (r.watchDuration != acc.watchDuration ==> r.watchDuration.Some? && DurationField(r.watchDuration.value) in fs)
            && (r.watchId != acc.watchId ==> r.watchId.Some? && WatchField(r.watchId.value) in fs)
    decreases |fs|
  {
    if fs != [] {
      UrlSource(fs[1..], UrlPut(acc, fs[0]));
      assert fs == [fs[0]] + fs[1..];
    }
  }

  lemma {:induction false} UrlTarget(fs: seq<UrlReqField>, acc: UrlLocals, m: UrlRequest)
    requires forall f :: f in fs ==> f in UrlFields(m)
    ensures var r := PutAll(UrlPut, acc, fs);
            && r.requestId == (if UrlIdField(m.requestId) in fs then Some(m.requestId) else acc.requestId)
            && r.urls == (if UrlsField(m.urls) in fs then Some(m.urls) else acc.urls)
            && r.watchDuration == (if DurationField(m.watchDuration) in fs then Some(m.watchDuration) else acc.watchDuration)
            && r.watchId == (if WatchField(m.watchId) in fs then Some(m.watchId) else acc.watchId)
    decreases |fs|
  {
    if fs != [] {
      assert fs[0] in UrlFields(m);
      UrlTarget(fs[1..], UrlPut(acc, fs[0]), m);
      assert fs == [fs[0]] + fs[1..];
    }
  }

  lemma UrlPigeonhole(fs: seq<UrlReqField>, m: UrlRequest)
    requires |fs| == 4
    ensures UrlComplete(PutAll(UrlPut, NO_URL, fs)) == Ok(m) <==> multiset(fs) == multiset(UrlFields(m))
  {
    var vs := UrlFields(m);
    if UrlComplete(PutAll(UrlPut, NO_URL, fs)) == Ok(m) {
      UrlSource(fs, NO_URL);
      Covering(fs, vs);
    }
    if multiset(fs) == multiset(vs) {
      SameMembers(fs, vs);
      UrlTarget(fs, NO_URL, m);
      assert vs[0] in vs && vs[1] in vs && vs[2] in vs && vs[3] in vs;
    }
  }

  lemma UrlStepReads()
    ensures ReadsAndPuts(UrlStep, ParseUrlField, UrlPut)
  {
  }

  /** A body decodes to `m` exactly when it holds the four entries of `m`, each once, in some
      order. */
  lemma UrlOrderExact(s: Bytes, m: UrlRequest, rest: Bytes)
    ensures ParseUrlRequest(s) == Ok((m, rest))
       <==> && ParseMap(s).Some? && ParseMap(s).value.0 == Some(4)
            && exists fs :: |fs| == 4 && multiset(fs) == multiset(UrlFields(m))
                            && Reads(ParseUrlField, ParseMap(s).value.1, fs, rest)
  {
    UrlStepReads();
    if ParseMap(s).Some? && ParseMap(s).value.0 == Some(4) {
      var s1 := ParseMap(s).value.1;
      if ParseUrlRequest(s) == Ok((m, rest)) {
        var fs := LoopHasRead(UrlStep, ParseUrlField, UrlPut, s1, 4, NO_URL);
        UrlPigeonhole(fs, m);
      }
      forall fs | |fs| == 4 && multiset(fs) == multiset(UrlFields(m)) && Reads(ParseUrlField, s1, fs, rest)
        ensures ParseUrlRequest(s) == Ok((m, rest))
      {
        LoopReads(UrlStep, ParseUrlField, UrlPut, s1, NO_URL, fs, rest);
        UrlPigeonhole(fs, m);
      }
    }
  }

  /** The entries of a request, sent in any order, decode to it. */
  lemma UrlAnyOrder(m: UrlRequest, fs: seq<UrlReqField>, rest: Bytes)
    requires WellFormedUrl(m) && multiset(fs) == multiset(UrlFields(m))
    ensures ParseUrlRequest(EncodeHead(MAP, 4) + (Concat(UrlFieldBytes, fs) + rest)) == Ok((m, rest))
  {
    var body := Concat(UrlFieldBytes, fs) + rest;
    LengthRoundTrip(MAP, 4, body);
    assert |fs| == |multiset(fs)| == |multiset(UrlFields(m))| == 4;
    SameMembers(fs, UrlFields(m));
    forall f, r | f in fs ensures ParseUrlField(UrlFieldBytes(f) + r) == Ok((f, r)) {
      assert f in UrlFields(m);
      if f.UrlsField? {
        UrlsRoundTrip(m.urls, r);
      } else {
        UrlNumberRoundTrip(f, r);
      }
    }
    ConcatReads(ParseUrlField, UrlFieldBytes, fs, rest);
    UrlOrderExact(EncodeHead(MAP, 4) + body, m, rest);
  }

  /** presentation-url-availability-request, with its array of strings. */
  lemma UrlRequestRoundTrip(m: UrlRequest, rest: Bytes)
    requires WellFormedUrl(m)
    ensures ParseUrlRequest(UrlBody(m) + rest) == Ok((m, rest))
  {
    Rebracket(EncodeHead(MAP, 4), Concat(UrlFieldBytes, UrlFields(m)), rest);
    UrlAnyOrder(m, UrlFields(m), rest);
  }

  // ---------------------------------------------------------------- connection-close-event

  predicate WellFormedClose(m: CloseEvent) {
    && m.connectionId < U64 && ReasonCode(m.reason) && m.connectionCount < U64
    && (m.errorMessage.Some? ==> ValidUtf8(m.errorMessage.value) && |m.errorMessage.value| < U64)
  }

  lemma CloseFieldStores(f: CloseField, acc: CloseLocals)
    requires match f
             case CloseConnectionField(n) => n < U64
             case ReasonField(n) => ReasonCode(n)
             case ErrorField(t) => ValidUtf8(t) && |t| < U64
             case CloseCountField(n) => n < U64
    ensures Stores(CloseStep, CloseFieldBytes, ClosePut, f, acc)
  {
    forall r ensures CloseStep(CloseFieldBytes(f) + r, acc) == Ok((ClosePut(acc, f), r)) {
      match f
      case CloseConnectionField(n) =>
        Rebracket(EncodeUint(0), EncodeUint(n), r);
        KeyRoundTrip(0, EncodeUint(n) + r);
        NumberRoundTrip(n, r);
      case ReasonField(n) =>
        Rebracket(EncodeUint(1), EncodeUint(n), r);
        KeyRoundTrip(1, EncodeUint(n) + r);
        CodeRoundTrip(ReasonCode, n, r);
      case ErrorField(t) =>
        Rebracket(EncodeUint(2), EncodeStr(t), r);
        KeyRoundTrip(2, EncodeStr(t) + r);
        TextRoundTrip(t, r);
      case CloseCountField(n) =>
        Rebracket(EncodeUint(3), EncodeUint(n), r);
        KeyRoundTrip(3, EncodeUint(n) + r);
        NumberRoundTrip(n, r);
    }
  }

  lemma ThreeStores<F(!new), A(!new)>(step: (Bytes, A) -> Parse<A>, bytes: F -> Bytes, put: (A, F) -> A, a: F, b: F, c: F, acc: A)
    requires Stores(step, bytes, put, a, acc) && Stores(step, bytes, put, b, put(acc, a)) && Stores(step, bytes, put, c, put(put(acc, a), b))
    ensures StoresAll(step, bytes, put, [a, b, c], acc)
    ensures PutAll(put, acc, [a, b, c]) == put(put(put(acc, a), b), c)
  {
    var acc1 := put(acc, a);
    var acc2 := put(acc1, b);
    StoresAllCons(step, bytes, put, c, [], acc2);
    StoresAllCons(step, bytes, put, b, [c] + [], acc1);
    StoresAllCons(step, bytes, put, a, [b] + ([c] + []), acc);
    PutAll3(put, acc, a, b, c);
    assert [a, b, c] == [a] + ([b] + ([c] + []));
  }

  lemma CloseStoresAll(m: CloseEvent)
    requires WellFormedClose(m)
    ensures StoresAll(CloseStep, CloseFieldBytes, ClosePut, CloseFields(m), NO_CLOSE)
    ensures CloseComplete(PutAll(ClosePut, NO_CLOSE, CloseFields(m))) == Ok(m)
  {
    var f0, f1, f3 := CloseConnectionField(m.connectionId), ReasonField(m.reason), CloseCountField(m.connectionCount);
    var a1 := ClosePut(NO_CLOSE, f0);
    var a2 := ClosePut(a1, f1);
    CloseFieldStores(f0, NO_CLOSE);
    CloseFieldStores(f1, a1);
    if m.errorMessage.Some? {
      var f2 := ErrorField(m.errorMessage.value);
      CloseFieldStores(f2, a2);
      CloseFieldStores(f3, ClosePut(a2, f2));
      FourStores(CloseStep, CloseFieldBytes, ClosePut, f0, f1, f2, f3, NO_CLOSE);
      assert CloseFields(m) == [f0, f1, f2, f3];
    } else {
      CloseFieldStores(f3, a2);
      ThreeStores(CloseStep, CloseFieldBytes, ClosePut, f0, f1, f3, NO_CLOSE);
      assert CloseFields(m) == [f0, f1, f3];
    }
  }

  /** presentation-connection-close-event, with or without the entry in the middle. */
  lemma CloseEventRoundTrip(m: CloseEvent, rest: Bytes)
    requires WellFormedClose(m)
    ensures ParseCloseEvent(CloseBody(m) + rest) == Ok((m, rest))
  {
    var n := |CloseFields(m)|;
    var tail := Concat(CloseFieldBytes, CloseFields(m)) + rest;
    Rebracket(EncodeHead(MAP, n), Concat(CloseFieldBytes, CloseFields(m)), rest);
    LengthRoundTrip(MAP, n, tail);
    CloseStoresAll(m);
    LoopStores(CloseStep, CloseFieldBytes, ClosePut, CloseFields(m), NO_CLOSE, rest);
  }

  // ---------------------------------------------------------------- the dispatcher

  lemma InfoRequestRoundTrip(id: nat, rest: Bytes)
    requires id < U64
    ensures ParseInfoRequest(InfoRequestBody(id) + rest) == Ok((id, rest))
  {
    var s2 := EncodeUint(id) + rest;
    var s1 := EncodeUint(0) + s2;
    assert InfoRequestBody(id) + rest == EncodeHead(MAP, 1) + s1;
    LengthRoundTrip(MAP, 1, s1);
    KeyRoundTrip(0, s2);
    NumberRoundTrip(id, rest);
  }

  // ---------------------------------------------------------------- flat maps

  predicate AnyText(t: Bytes) {
    ValidUtf8(t) && |t| < U64
  }

  /** What the types of the original guarantee about the fields, and the limits of the
      decoder. */
  predicate WellFormedStatus(m: StatusRequest) {
    m.requestId < U64 && (m.status.Some? ==> ShortText(m.status.value))
  }

  predicate WellFormedConnection(m: ConnectionMessage) {
    m.connectionId < U64 && |m.message| < U64
  }

  predicate WellFormedStartResponse(m: StartResponse) {
    m.requestId < U64 && ResultCode(m.result) && m.connectionId < U64 && (m.httpCode.Some? ==> m.httpCode.value < U16)
  }

  predicate WellFormedTerminationRequest(m: TerminationRequest) {
    m.requestId < U64 && AnyText(m.presentationId) && TerminationCode(m.reason)
  }

  predicate WellFormedTerminationEvent(m: TerminationEvent) {
    AnyText(m.presentationId) && SourceCode(m.source) && TerminationCode(m.reason)
  }

  predicate WellFormedOpenRequest(m: OpenRequest) {
    m.requestId < U64 && AnyText(m.presentationId) && AnyText(m.url)
  }

  lemma TwoPut(a: Entry, b: Entry)
    ensures PutAll(PutValue, map[], [a, b]) == map[][a.key := a.value][b.key := b.value]
  {
    PutAllSnoc(PutValue, map[], [], a);
    PutAllSnoc(PutValue, map[], [a], b);
    assert [] + [a] == [a] && [a] + [b] == [a, b];
  }

  lemma ThreePut(a: Entry, b: Entry, c: Entry)
    ensures PutAll(PutValue, map[], [a, b, c]) == map[][a.key := a.value][b.key := b.value][c.key := c.value]
  {
    TwoPut(a, b);
    PutAllSnoc(PutValue, map[], [a, b], c);
    assert [a, b] + [c] == [a, b, c];
  }

  lemma StatusRequestFills(m: StatusRequest)
    ensures StatusComplete(PutAll(PutValue, map[], StatusEntries(m))) == Ok(m)
  {
    var es := StatusEntries(m);
    if m.status.Some? {
      assert es == [Entry(0, Number(m.requestId)), Entry(1, StatusText(m.status.value))];
      TwoPut(es[0], es[1]);
    } else {
      PutAllSnoc(PutValue, map[], [], es[0]);
      assert es == [] + [es[0]];
    }
  }

  lemma StatusRequestRoundTrip(m: StatusRequest, rest: Bytes)
    requires WellFormedStatus(m)
    ensures ParseStatusMap(FlatBody(StatusEntries(m)) + rest) == Ok((PutAll(PutValue, map[], StatusEntries(m)), rest))
  {
    var es := StatusEntries(m);
    Rebracket(EncodeHead(MAP, |es|), Concat(EntryBytes, es), rest);
    LengthRoundTrip(MAP, |es|, Concat(EntryBytes, es) + rest);
    EntriesRoundTrip(StatusTable, es, rest);
  }

  lemma ConnectionFills(m: ConnectionMessage)
    ensures ConnectionComplete(PutAll(PutValue, map[], ConnectionEntries(m))) == Ok(m)
  {
    var es := ConnectionEntries(m);
    TwoPut(es[0], es[1]);
  }

  lemma ConnectionRoundTrip(m: ConnectionMessage, rest: Bytes)
    requires WellFormedConnection(m)
    ensures ParseConnectionMap(FlatBody(ConnectionEntries(m)) + rest) == Ok((PutAll(PutValue, map[], ConnectionEntries(m)), rest))
  {
    FlatRoundTrip(ConnectionTable, {2}, ConnectionEntries(m), rest);
  }

  lemma StartResponseFills(m: StartResponse)
    ensures StartResponseComplete(PutAll(PutValue, map[], StartResponseEntries(m))) == Ok(m)
  {
    var es := StartResponseEntries(m);
    var three := [Entry(0, Number(m.requestId)), Entry(1, Number(m.result)), Entry(2, Number(m.connectionId))];
    ThreePut(three[0], three[1], three[2]);
    if m.httpCode.Some? {
      PutAllSnoc(PutValue, map[], three, Entry(3, Number(m.httpCode.value)));
    } else {
      assert es == three;
    }
  }

  lemma StartResponseRoundTrip(m: StartResponse, rest: Bytes)
    requires WellFormedStartResponse(m)
    ensures ParseStartResponseMap(FlatBody(StartResponseEntries(m)) + rest) == Ok((PutAll(PutValue, map[], StartResponseEntries(m)), rest))
  {
    FlatRoundTrip(StartResponseTable, {3, 4}, StartResponseEntries(m), rest);
  }

  lemma TerminationRequestFills(m: TerminationRequest)
    ensures TerminationRequestComplete(PutAll(PutValue, map[], TerminationRequestEntries(m))) == Ok(m)
  {
    var es := TerminationRequestEntries(m);
    ThreePut(es[0], es[1], es[2]);
  }

  lemma TerminationRequestRoundTrip(m: TerminationRequest, rest: Bytes)
    requires WellFormedTerminationRequest(m)
    ensures ParseTerminationRequestMap(FlatBody(TerminationRequestEntries(m)) + rest) == Ok((PutAll(PutValue, map[], TerminationRequestEntries(m)), rest))
  {
    FlatRoundTrip(TerminationRequestTable, {3}, TerminationRequestEntries(m), rest);
  }

  lemma TerminationEventFills(m: TerminationEvent)
    ensures TerminationEventComplete(PutAll(PutValue, map[], TerminationEventEntries(m))) == Ok(m)
  {
    var es := TerminationEventEntries(m);
    ThreePut(es[0], es[1], es[2]);
  }

  lemma TerminationEventRoundTrip(m: TerminationEvent, rest: Bytes)
    requires WellFormedTerminationEvent(m)
    ensures ParseTerminationEventMap(FlatBody(TerminationEventEntries(m)) + rest) == Ok((PutAll(PutValue, map[], TerminationEventEntries(m)), rest))
  {
    FlatRoundTrip(TerminationEventTable, {3}, TerminationEventEntries(m), rest);
  }

  lemma OpenRequestFills(m: OpenRequest)
    ensures OpenRequestComplete(PutAll(PutValue, map[], OpenRequestEntries(m))) == Ok(m)
  {
    var es := OpenRequestEntries(m);
    ThreePut(es[0], es[1], es[2]);
  }

  lemma OpenRequestRoundTrip(m: OpenRequest, rest: Bytes)
    requires WellFormedOpenRequest(m)
    ensures ParseOpenRequestMap(FlatBody(OpenRequestEntries(m)) + rest) == Ok((PutAll(PutValue, map[], OpenRequestEntries(m)), rest))
  {
    FlatRoundTrip(OpenRequestTable, {3}, OpenRequestEntries(m), rest);
  }

  /** What the parsers of the flat maps must do for one message to be read back. */
  ghost predicate ReadsBack(p: FlatParsers, m: AppMessage, body: Bytes, rest: Bytes)
    requires IsFlat(m)
  {
    match m
    case StatusRequestMsg(r) => p.status(body) == Ok((PutAll(PutValue, map[], StatusEntries(r)), rest))
    case ConnectionMsg(c) => p.connection(body) == Ok((PutAll(PutValue, map[], ConnectionEntries(c)), rest))
    case StartResponseMsg(r) => p.startResponse(body) == Ok((PutAll(PutValue, map[], StartResponseEntries(r)), rest))
    case TerminationRequestMsg(r) => p.terminationRequest(body) == Ok((PutAll(PutValue, map[], TerminationRequestEntries(r)), rest))
    case TerminationEventMsg(e) => p.terminationEvent(body) == Ok((PutAll(PutValue, map[], TerminationEventEntries(e)), rest))
    case OpenRequestMsg(r) => p.openRequest(body) == Ok((PutAll(PutValue, map[], OpenRequestEntries(r)), rest))
  }

  lemma FlatReadBack(m: AppMessage, rest: Bytes)
    requires WellFormed(m) && IsFlat(m)
    ensures ReadsBack(FLAT, m, AppBody(m) + rest, rest)
  {
    match m
    case StatusRequestMsg(r) => StatusRequestRoundTrip(r, rest);
    case ConnectionMsg(c) => ConnectionRoundTrip(c, rest);
    case StartResponseMsg(r) => StartResponseRoundTrip(r, rest);
    case TerminationRequestMsg(r) => TerminationRequestRoundTrip(r, rest);
    case TerminationEventMsg(e) => TerminationEventRoundTrip(e, rest);
    case OpenRequestMsg(r) => OpenRequestRoundTrip(r, rest);
  }

  lemma FlatCompletes(p: FlatParsers, other: OtherBodies, m: AppMessage, body: Bytes, rest: Bytes)
    requires IsFlat(m) && ReadsBack(p, m, body, rest)
    ensures DecodeFlatBody(p, other, AppKeyOf(m), body) == Ok(m)
  {
    match m
    case StatusRequestMsg(r) => StatusRequestFills(r);
    case ConnectionMsg(c) => ConnectionFills(c);
    case StartResponseMsg(r) => StartResponseFills(r);
    case TerminationRequestMsg(r) => TerminationRequestFills(r);
    case TerminationEventMsg(e) => TerminationEventFills(e);
    case OpenRequestMsg(r) => OpenRequestFills(r);
  }

  lemma FlatBodiesRoundTrip(other: OtherBodies, m: AppMessage, rest: Bytes)
    requires WellFormed(m) && IsFlat(m)
    ensures DecodeFlatBody(FLAT, other, AppKeyOf(m), AppBody(m) + rest) == Ok(m)
  {
    FlatReadBack(m, rest);
    FlatCompletes(FLAT, other, m, AppBody(m) + rest, rest);
  }

  predicate WellFormed(m: AppMessage) {
    match m
    case AgentInfoRequestMsg(id) => id < U64
    case AgentInfoMsg(a) => a.requestId < U64 && WellFormedAgent(a.info)
    case StartRequestMsg(r) => WellFormedStart(r)
    case UrlRequestMsg(r) => WellFormedUrl(r)
    case OpenResponseMsg(r) => WellFormedOpen(r)
    case CloseEventMsg(e) => WellFormedClose(e)
    case StatusRequestMsg(r) => WellFormedStatus(r)
    case ConnectionMsg(c) => WellFormedConnection(c)
    case StartResponseMsg(r) => WellFormedStartResponse(r)
    case TerminationRequestMsg(r) => WellFormedTerminationRequest(r)
    case TerminationEventMsg(e) => WellFormedTerminationEvent(e)
    case OpenRequestMsg(r) => WellFormedOpenRequest(r)
    case OtherMsg(_, _) => false
  }

  lemma InfoBodiesRoundTrip(other: OtherBodies, m: AppMessage, rest: Bytes)
    requires WellFormed(m) && (m.AgentInfoRequestMsg? || m.AgentInfoMsg? || m.StartRequestMsg?)
    ensures AppDecodeBody(other, AppKeyOf(m), AppBody(m) + rest) == Ok(m)
  {
    match m
    case AgentInfoRequestMsg(id) => InfoRequestRoundTrip(id, rest);
    case AgentInfoMsg(a) => AgentInfoResponseRoundTrip(a, rest);
    case StartRequestMsg(r) => StartRequestRoundTrip(r, rest);
  }

  lemma UrlBodyDecodes(other: OtherBodies, r: UrlRequest, rest: Bytes)
    requires WellFormedUrl(r)
    ensures AppDecodeBody(other, URL_AVAILABILITY_REQUEST_KEY, UrlBody(r) + rest) == Ok(UrlRequestMsg(r))
  {
    UrlRequestRoundTrip(r, rest);
  }

  lemma OpenBodyDecodes(other: OtherBodies, r: OpenResponse, rest: Bytes)
    requires WellFormedOpen(r)
    ensures AppDecodeBody(other, OPEN_RESPONSE_KEY, OpenBody(r) + rest) == Ok(OpenResponseMsg(r))
  {
    OpenResponseRoundTrip(r, rest);
  }

  lemma CloseBodyDecodes(other: OtherBodies, e: CloseEvent, rest: Bytes)
    requires WellFormedClose(e)
    ensures AppDecodeBody(other, CLOSE_EVENT_KEY, CloseBody(e) + rest) == Ok(CloseEventMsg(e))
  {
    CloseEventRoundTrip(e, rest);
  }

  lemma FlatKeyDispatch(other: OtherBodies, key: u16, body: Bytes)
    requires key == STATUS_REQUEST_KEY || key == CONNECTION_MESSAGE_KEY || key == START_RESPONSE_KEY
             || key == TERMINATION_REQUEST_KEY || key == TERMINATION_EVENT_KEY || key == OPEN_REQUEST_KEY
    ensures AppDecodeBody(other, key, body) == DecodeFlatBody(FLAT, other, key, body)
  {
  }

  lemma FlatMessageDecodes(other: OtherBodies, m: AppMessage, key: u16, body: Bytes, rest: Bytes)
    requires WellFormed(m) && IsFlat(m) && key == AppKeyOf(m) && body == AppBody(m) + rest
    ensures AppDecodeBody(other, key, body) == Ok(m)
  {
    FlatBodiesRoundTrip(other, m, rest);
    FlatKeyDispatch(other, key, body);
  }

  lemma AppBodyRoundTrip(other: OtherBodies, m: AppMessage, rest: Bytes)
    requires WellFormed(m)
    ensures AppDecodeBody(other, AppKeyOf(m), AppBody(m) + rest) == Ok(m)
  {
    if m.UrlRequestMsg? {
      UrlBodyDecodes(other, m.url, rest);
    } else if m.OpenResponseMsg? {
      OpenBodyDecodes(other, m.open, rest);
    } else if m.CloseEventMsg? {
      CloseBodyDecodes(other, m.close, rest);
    } else if IsFlat(m) {
      FlatMessageDecodes(other, m, AppKeyOf(m), AppBody(m) + rest, rest);
    } else {
      InfoBodiesRoundTrip(other, m, rest);
    }
  }

  lemma AppDispatch(other: OtherBodies, key: u16, body: Bytes)
    ensures AppDecode(other, TypeKey(key) + body) == AppDecodeBody(other, key, body)
  {
    TypeKeyRoundTrip(key, body);
  }

  /** Every modelled message, encoded and followed by any bytes, decodes to itself. */
  lemma AppRoundTrip(other: OtherBodies, m: AppMessage, rest: Bytes)
    requires WellFormed(m)
    ensures AppDecode(other, AppEncode(m) + rest) == Ok(m)
  {
    Rebracket(TypeKey(AppKeyOf(m)), AppBody(m), rest);
    AppDispatch(other, AppKeyOf(m), AppBody(m) + rest);
    AppBodyRoundTrip(other, m, rest);
  }

  // ---------------------------------------------------------------- beyond the limits

  /** A loop stops with the error of the first entry it cannot read. */
  lemma {:induction false} LoopStops<F(!new), A(!new)>(
      step: (Bytes, A) -> Parse<A>, bytes: F -> Bytes, put: (A, F) -> A, fs: seq<F>, acc: A, n: nat, tail: Bytes, e: MessageError)
    requires StoresAll(step, bytes, put, fs, acc) && |fs| < n && step(tail, PutAll(put, acc, fs)) == Err(e)
    ensures Repeat(step, Concat(bytes, fs) + tail, n, acc) == Err(e)
    decreases |fs|
  {
    if fs == [] {
      assert Concat(bytes, fs) + tail == tail;
    } else {
      var after := Concat(bytes, fs[1..]) + tail;
      assert Concat(bytes, fs) + tail == bytes(fs[0]) + after;
      assert step(bytes(fs[0]) + after, acc) == Ok((put(acc, fs[0]), after));
      LoopStops(step, bytes, put, fs[1..], put(acc, fs[0]), n - 1, tail, e);
    }
  }

  lemma LongTextStops(f: StartField, acc: StartLocals, rest: Bytes)
    requires (f.PresentationIdField? && AnyText(f.presentationId) && |f.presentationId| > MAX_STRING_LEN)
             || (f.UrlField? && AnyText(f.url) && |f.url| > MAX_STRING_LEN)
    ensures StartStep(StartFieldBytes(f) + rest, acc) == Err(FieldTooLong)
  {
    var t := if f.PresentationIdField? then f.presentationId else f.url;
    var key := if f.PresentationIdField? then 1 else 2;
    Rebracket(EncodeUint(key), EncodeStr(t), rest);
    KeyRoundTrip(key, EncodeStr(t) + rest);
    TextRoundTrip(t, rest);
  }

  lemma {:induction false} ConcatSplit<F>(bytes: F -> Bytes, fs: seq<F>, k: nat, rest: Bytes)
    requires k < |fs|
    ensures Concat(bytes, fs) + rest == Concat(bytes, fs[..k]) + (bytes(fs[k]) + (Concat(bytes, fs[k + 1..]) + rest))
    decreases k
  {
    var tail := bytes(fs[k]) + (Concat(bytes, fs[k + 1..]) + rest);
    if k == 0 {
      assert Concat(bytes, fs[..0]) + tail == tail;
    } else {
      ConcatSplit(bytes, fs[1..], k - 1, rest);
      assert fs[1..][..k - 1] == fs[..k][1..] && fs[1..][k - 1 + 1..] == fs[k + 1..] && fs[1..][k - 1] == fs[k];
      var before := Concat(bytes, fs[..k][1..]);
      assert Concat(bytes, fs[..k]) == bytes(fs[0]) + before;
      assert (bytes(fs[0]) + Concat(bytes, fs[1..])) + rest == bytes(fs[0]) + (Concat(bytes, fs[1..]) + rest);
      assert (bytes(fs[0]) + before) + tail == bytes(fs[0]) + (before + tail);
    }
  }

  /** Entry `k` is the first that cannot be read. */
  lemma StopsAt<F(!new), A(!new)>(
      step: (Bytes, A) -> Parse<A>, bytes: F -> Bytes, put: (A, F) -> A, fs: seq<F>, k: nat, acc: A, rest: Bytes, e: MessageError)
    requires k < |fs| && StoresAll(step, bytes, put, fs[..k], acc)
    requires forall tail :: step(bytes(fs[k]) + tail, PutAll(put, acc, fs[..k])) == Err(e)
    ensures Repeat(step, Concat(bytes, fs) + rest, |fs|, acc) == Err(e)
  {
    ConcatSplit(bytes, fs, k, rest);
    LoopStops(step, bytes, put, fs[..k], acc, |fs|, bytes(fs[k]) + (Concat(bytes, fs[k + 1..]) + rest), e);
  }

  lemma LongIdStops(m: StartRequest, rest: Bytes)
    requires m.requestId < U64 && AnyText(m.presentationId) && |m.presentationId| > MAX_STRING_LEN
    ensures Repeat(StartStep, Concat(StartFieldBytes, StartFields(m)) + rest, |StartFields(m)|, NO_START) == Err(FieldTooLong)
  {
    var fs := StartFields(m);
    StartIdStores(m.requestId, NO_START);
    assert fs[..1] == [fs[0]] + [];
    StoresAllCons(StartStep, StartFieldBytes, StartPut, fs[0], [], NO_START);
    PutAllCons(StartPut, NO_START, fs[0], []);
    forall tail ensures StartStep(StartFieldBytes(fs[1]) + tail, PutAll(StartPut, NO_START, fs[..1])) == Err(FieldTooLong) {
      LongTextStops(fs[1], PutAll(StartPut, NO_START, fs[..1]), tail);
    }
    StopsAt(StartStep, StartFieldBytes, StartPut, fs, 1, NO_START, rest, FieldTooLong);
  }

  lemma LongUrlStops(m: StartRequest, rest: Bytes)
    requires m.requestId < U64 && ShortText(m.presentationId) && AnyText(m.url) && |m.url| > MAX_STRING_LEN
    ensures Repeat(StartStep, Concat(StartFieldBytes, StartFields(m)) + rest, |StartFields(m)|, NO_START) == Err(FieldTooLong)
  {
    var fs := StartFields(m);
    var a1 := StartPut(NO_START, fs[0]);
    StartIdStores(m.requestId, NO_START);
    StartTextStores(fs[1], a1);
    assert fs[..2] == [fs[0]] + ([fs[1]] + []);
    StoresAllCons(StartStep, StartFieldBytes, StartPut, fs[1], [], a1);
    StoresAllCons(StartStep, StartFieldBytes, StartPut, fs[0], [fs[1]] + [], NO_START);
    forall tail ensures StartStep(StartFieldBytes(fs[2]) + tail, PutAll(StartPut, NO_START, fs[..2])) == Err(FieldTooLong) {
      LongTextStops(fs[2], PutAll(StartPut, NO_START, fs[..2]), tail);
    }
    StopsAt(StartStep, StartFieldBytes, StartPut, fs, 2, NO_START, rest, FieldTooLong);
  }

  lemma LongStartBody(m: StartRequest, entries: Bytes)
    requires entries == Concat(StartFieldBytes, StartFields(m))
    requires Repeat(StartStep, entries, |StartFields(m)|, NO_START) == Err(FieldTooLong)
    ensures ParseStartRequest(EncodeHead(MAP, 4) + entries) == Err(FieldTooLong)
  {
    LengthRoundTrip(MAP, 4, entries);
  }

  lemma LongStartParse(m: StartRequest)
    requires m.requestId < U64 && AnyText(m.presentationId) && AnyText(m.url)
    requires |m.presentationId| > MAX_STRING_LEN || |m.url| > MAX_STRING_LEN
    ensures ParseStartRequest(StartBody(m)) == Err(FieldTooLong)
  {
    var entries := Concat(StartFieldBytes, StartFields(m));
    assert entries + [] == entries;
    if |m.presentationId| > MAX_STRING_LEN {
      LongIdStops(m, []);
    } else {
      LongUrlStops(m, []);
    }
    LongStartBody(m, entries);
  }

  lemma StartDispatch(other: OtherBodies, body: Bytes)
    requires ParseStartRequest(body).Err?
    ensures AppDecodeBody(other, START_REQUEST_KEY, body) == Err(ParseStartRequest(body).error)
  {
  }

  /** The encoder has no limit on its texts; the decoder refuses what exceeds its own. */
  lemma LongStartRefused(other: OtherBodies, m: StartRequest)
    requires m.requestId < U64 && AnyText(m.presentationId) && AnyText(m.url)
    requires |m.presentationId| > MAX_STRING_LEN || |m.url| > MAX_STRING_LEN
    ensures AppDecode(other, AppEncode(StartRequestMsg(m))) == Err(FieldTooLong)
  {
    AppDispatch(other, START_REQUEST_KEY, StartBody(m));
    LongStartParse(m);
    StartDispatch(other, StartBody(m));
  }

  lemma LongStatusRefused(other: OtherBodies, m: StatusRequest)
    requires m.requestId < U64 && m.status.Some? && AnyText(m.status.value) && |m.status.value| > MAX_STRING_LEN
    ensures AppDecode(other, AppEncode(StatusRequestMsg(m))) == Err(FieldTooLong)
  {
    var body := FlatBody(StatusEntries(m));
    LongStatusStops(m);
    AppDispatch(other, STATUS_REQUEST_KEY, body);
    StatusDispatch(other, body);
  }

  lemma StatusRefusal(p: FlatParsers, other: OtherBodies, body: Bytes)
    requires p.status(body).Err?
    ensures DecodeFlatBody(p, other, STATUS_REQUEST_KEY, body) == Err(p.status(body).error)
  {
  }

  lemma StatusDispatch(other: OtherBodies, body: Bytes)
    requires ParseStatusMap(body).Err?
    ensures AppDecodeBody(other, STATUS_REQUEST_KEY, body) == Err(ParseStatusMap(body).error)
  {
    FlatKeyDispatch(other, STATUS_REQUEST_KEY, body);
    StatusRefusal(FLAT, other, body);
  }

  lemma EntryStops(table: Table, key: nat, shape: Shape, value: Bytes, tail: Bytes, locals: Locals, e: MessageError)
    requires key < 0x100 && table(key) == Some(shape) && ParseValue(shape, value + tail) == Err(e)
    ensures FlatStep(table)((EncodeUint(key) + value) + tail, locals) == Err(e)
  {
    Rebracket(EncodeUint(key), value, tail);
    KeyRoundTrip(key, value + tail);
  }

  lemma LongStatusEntry(t: Bytes, locals: Locals, tail: Bytes)
    requires AnyText(t) && |t| > MAX_STRING_LEN
    ensures FlatStep(StatusTable)(EntryBytes(Entry(1, StatusText(t))) + tail, locals) == Err(FieldTooLong)
  {
    StatusRoundTrip(t, tail);
    EntryStops(StatusTable, 1, IsStatus, StatusBytes(t), tail, locals, FieldTooLong);
  }

  lemma LongStatusLoop(step: (Bytes, Locals) -> Parse<Locals>, id: Entry, status: Entry, rest: Bytes)
    requires Stores(step, EntryBytes, PutValue, id, map[])
    requires forall tail, locals :: step(EntryBytes(status) + tail, locals) == Err(FieldTooLong)
    ensures Repeat(step, Concat(EntryBytes, [id, status]) + rest, 2, map[]) == Err(FieldTooLong)
  {
    var es := [id, status];
    assert es[..1] == [id] + [];
    StoresAllCons(step, EntryBytes, PutValue, id, [], map[]);
    StopsAt(step, EntryBytes, PutValue, es, 1, map[], rest, FieldTooLong);
  }

  lemma LongStatusStops(m: StatusRequest)
    requires m.requestId < U64 && m.status.Some? && AnyText(m.status.value) && |m.status.value| > MAX_STRING_LEN
    ensures ParseStatusMap(FlatBody(StatusEntries(m))) == Err(FieldTooLong)
  {
    var id, status := Entry(0, Number(m.requestId)), Entry(1, StatusText(m.status.value));
    var entries := Concat(EntryBytes, [id, status]);
    assert StatusEntries(m) == [id, status] && entries + [] == entries;
    LengthRoundTrip(MAP, 2, entries);
    forall tail ensures FlatStep(StatusTable)(EntryBytes(id) + tail, map[]) == Ok((PutValue(map[], id), tail)) {
      EntryRoundTrip(StatusTable, id, tail);
    }
    forall tail, locals ensures FlatStep(StatusTable)(EntryBytes(status) + tail, locals) == Err(FieldTooLong) {
      LongStatusEntry(m.status.value, locals, tail);
    }
    LongStatusLoop(FlatStep(StatusTable), id, status, []);
  }

  lemma FlatBodyKey(p: FlatParsers, other: OtherBodies, key: u16, body: Bytes)
    requires DecodeFlatBody(p, other, key, body).Ok?
    ensures IsAppKey(key) && AppKeyOf(DecodeFlatBody(p, other, key, body).value) == key
  {
  }

  lemma NestedBodyKey(other: OtherBodies, key: u16, body: Bytes)
    requires AppDecodeBody(other, key, body).Ok? && AppDecodeBody(other, key, body) != DecodeFlatBody(FLAT, other, key, body)
    ensures IsAppKey(key) && AppKeyOf(AppDecodeBody(other, key, body).value) == key
  {
  }

  /** What decodes carries the type key it was dispatched on, and that is one of the
      eighteen. */
  lemma DecodedKey(other: OtherBodies, data: Bytes)
    requires AppDecode(other, data).Ok?
    ensures DecodeTypeKey(data).Ok? && IsAppKey(DecodeTypeKey(data).value.0)
    ensures AppKeyOf(AppDecode(other, data).value) == DecodeTypeKey(data).value.0
  {
    var (key, n) := DecodeTypeKey(data).value;
    if AppDecodeBody(other, key, data[n..]) == DecodeFlatBody(FLAT, other, key, data[n..]) {
      FlatBodyKey(FLAT, other, key, data[n..]);
    } else {
      NestedBodyKey(other, key, data[n..]);
    }
  }
}
