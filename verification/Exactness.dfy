/** What decodes, exactly, for the maps with optional or accumulating entries: the last value
    of each key, the arrays of a repeated key one after the other, and no optional entry
    missed. */
module Exactness {
  import opened Basics
  import opened Cbor
  import opened Parsing
  import opened FlatMaps
  import opened AppMessages
  import M = Messages

  // ---------------------------------------------------------------- arrays that accumulate

  /** Appending to a vector that already holds `before` is appending to an empty one, as long
      as the whole fits. */
  lemma {:induction false} PushesExactly<T(!new)>(
      step: (Bytes, seq<T>) -> Parse<seq<T>>, item: Bytes -> Parse<T>, capacity: nat, s: Bytes, n: nat, before: seq<T>, xs: seq<T>)
    requires forall t, acc :: step(t, acc) == Push(item, capacity)(t, acc)
    ensures var whole, own := Repeat(step, s, n, before + xs), Repeat(step, s, n, xs);
            && (whole.Ok? <==> own.Ok? && (n == 0 || |before| + |xs| + n <= capacity))
            && (own.Ok? ==> |own.value.0| == |xs| + n)
            && (whole.Ok? ==> whole.value == (before + own.value.0, own.value.1))
    decreases n
  {
    if n > 0 && item(s).Ok? {
      var (x, s1) := item(s).value;
      assert (before + xs) + [x] == before + (xs + [x]);
      PushesExactly(step, item, capacity, s1, n - 1, before, xs + [x]);
    }
  }

  lemma AppendExactly<T(!new)>(item: Bytes -> Parse<T>, capacity: nat, s: Bytes, before: seq<T>)
    ensures var whole, own := ParseAppend(item, capacity, s, before), ParseAppend(item, capacity, s, []);
            && (whole.Ok? <==> own.Ok? && (own.value.0 == [] || |before| + |own.value.0| <= capacity))
            && (whole.Ok? ==> whole.value == (before + own.value.0, own.value.1))
  {
    match ParseArray(s)
    case Some((Some(n), s1)) =>
      PushesExactly(Push(item, capacity), item, capacity, s1, n, before, []);
      assert before + [] == before;
    case _ =>
      assert before + [] == before;
  }

  // ---------------------------------------------------------------- connection-close-event

  function ConnectionOf(f: CloseField): Option<nat> {
    if f.CloseConnectionField? then Some(f.connection) else None
  }

  function ReasonOf(f: CloseField): Option<nat> {
    if f.ReasonField? then Some(f.reason) else None
  }

  function ErrorOf(f: CloseField): Option<Bytes> {
    if f.ErrorField? then Some(f.text) else None
  }

  function CountOf(f: CloseField): Option<nat> {
    if f.CloseCountField? then Some(f.count) else None
  }

  /** Every field has the last value given for it, the optional one if any is given. */
  predicate CloseHolds(fs: seq<CloseField>, m: CloseEvent) {
    && LastOf(ConnectionOf, fs) == Some(m.connectionId) && LastOf(ReasonOf, fs) == Some(m.reason)
    && LastOf(ErrorOf, fs) == m.errorMessage && LastOf(CountOf, fs) == Some(m.connectionCount)
  }

  lemma CloseStepReads()
    ensures ReadsAndPuts(CloseStep, ParseCloseField, ClosePut)
  {
  }

  lemma CloseConnectionId(fs: seq<CloseField>)
    ensures PutAll(ClosePut, NO_CLOSE, fs).connectionId == LastOf(ConnectionOf, fs)
  {
    Overwrites(ClosePut, (a: CloseLocals) => a.connectionId, ConnectionOf, NO_CLOSE, fs);
  }

  lemma CloseReason(fs: seq<CloseField>)
    ensures PutAll(ClosePut, NO_CLOSE, fs).reason == LastOf(ReasonOf, fs)
  {
    Overwrites(ClosePut, (a: CloseLocals) => a.reason, ReasonOf, NO_CLOSE, fs);
  }

  lemma CloseErrorMessage(fs: seq<CloseField>)
    ensures PutAll(ClosePut, NO_CLOSE, fs).errorMessage == LastOf(ErrorOf, fs)
  {
    Overwrites(ClosePut, (a: CloseLocals) => a.errorMessage, ErrorOf, NO_CLOSE, fs);
  }

  lemma CloseConnectionCount(fs: seq<CloseField>)
    ensures PutAll(ClosePut, NO_CLOSE, fs).connectionCount == LastOf(CountOf, fs)
  {
    Overwrites(ClosePut, (a: CloseLocals) => a.connectionCount, CountOf, NO_CLOSE, fs);
  }

  lemma CloseHoldsExactly(fs: seq<CloseField>, m: CloseEvent)
    ensures CloseComplete(PutAll(ClosePut, NO_CLOSE, fs)) == Ok(m) <==> CloseHolds(fs, m)
  {
    CloseConnectionId(fs);
    CloseReason(fs);
    CloseErrorMessage(fs);
    CloseConnectionCount(fs);
  }

  /** A body decodes to `m` if and only if it is a map of three or four entries whose last
      values are those of `m`; the error text is there exactly if an entry gives one. */
  lemma CloseExact(s: Bytes, m: CloseEvent, rest: Bytes)
    ensures ParseCloseEvent(s) == Ok((m, rest))
       <==> && ParseMap(s).Some? && ParseMap(s).value.0 in {Some(3), Some(4)}
            && exists fs :: |fs| == ParseMap(s).value.0.value
                            && Reads(ParseCloseField, ParseMap(s).value.1, fs, rest) && CloseHolds(fs, m)
  {
    CloseStepReads();
    if ParseMap(s).Some? && ParseMap(s).value.0 in {Some(3), Some(4)} {
      var (len, s1) := ParseMap(s).value;
      if ParseCloseEvent(s) == Ok((m, rest)) {
        var fs := LoopHasRead(CloseStep, ParseCloseField, ClosePut, s1, len.value, NO_CLOSE);
        CloseHoldsExactly(fs, m);
      }
      forall fs | |fs| == len.value && Reads(ParseCloseField, s1, fs, rest) && CloseHolds(fs, m)
        ensures ParseCloseEvent(s) == Ok((m, rest))
      {
        LoopReads(CloseStep, ParseCloseField, ClosePut, s1, NO_CLOSE, fs, rest);
        CloseHoldsExactly(fs, m);
      }
    }
  }

  // ---------------------------------------------------------------- presentation-start-request

  /** One entry, with its array read on its own. */
  function ParseStartField(s: Bytes): Parse<StartField> {
    match ParseU8(s)
    case None => Err(DecodeFailed)
    case Some((0, s1)) => Store(ParseNumber(s1), n => RequestIdField(n))
    case Some((1, s1)) => Store(ParseText(s1), t => PresentationIdField(t))
    case Some((2, s1)) => Store(ParseText(s1), t => UrlField(t))
    case Some((3, s1)) => Store(ParseAppend(ParseHeader, 8, s1, []), hs => HeadersField(hs))
    case Some(_) => Err(InvalidField)
  }

  function RequestIdOf(f: StartField): Option<nat> {
    if f.RequestIdField? then Some(f.id) else None
  }

  function PresentationIdOf(f: StartField): Option<Bytes> {
    if f.PresentationIdField? then Some(f.presentationId) else None
  }

  function UrlOf(f: StartField): Option<Bytes> {
    if f.UrlField? then Some(f.url) else None
  }

  function HeadersOf(f: StartField): seq<Header> {
    if f.HeadersField? then f.headers else []
  }

  predicate HeadersFit(acc: StartLocals, f: StartField) {
    HeadersOf(f) == [] || |acc.headers| + |HeadersOf(f)| <= 8
  }

  /** Every single-valued field has the last value given for it; the headers are those of
      all header entries in order. */
  predicate StartHolds(fs: seq<StartField>, m: StartRequest) {
    && LastOf(RequestIdOf, fs) == Some(m.requestId) && LastOf(PresentationIdOf, fs) == Some(m.presentationId)
    && LastOf(UrlOf, fs) == Some(m.url) && Gather(HeadersOf, fs) == m.headers
  }

  lemma StartStepReads(s: Bytes, acc: StartLocals)
    ensures StartStep(s, acc).Ok? <==> ParseStartField(s).Ok? && HeadersFit(acc, ParseStartField(s).value.0)
    ensures StartStep(s, acc).Ok? ==>
            StartStep(s, acc).value == (StartPut(acc, ParseStartField(s).value.0), ParseStartField(s).value.1)
  {
    if ParseU8(s).Some? {
      AppendExactly(ParseHeader, 8, ParseU8(s).value.1, acc.headers);
    }
  }

  lemma StartRequestId(fs: seq<StartField>)
    ensures PutAll(StartPut, NO_START, fs).requestId == LastOf(RequestIdOf, fs)
  {
    Overwrites(StartPut, (a: StartLocals) => a.requestId, RequestIdOf, NO_START, fs);
  }

  lemma StartPresentationId(fs: seq<StartField>)
    ensures PutAll(StartPut, NO_START, fs).presentationId == LastOf(PresentationIdOf, fs)
  {
    Overwrites(StartPut, (a: StartLocals) => a.presentationId, PresentationIdOf, NO_START, fs);
  }

  lemma StartUrl(fs: seq<StartField>)
    ensures PutAll(StartPut, NO_START, fs).url == LastOf(UrlOf, fs)
  {
    Overwrites(StartPut, (a: StartLocals) => a.url, UrlOf, NO_START, fs);
  }

  lemma StartHeaders(fs: seq<StartField>)
    ensures PutAll(StartPut, NO_START, fs).headers == Gather(HeadersOf, fs)
    ensures FitAll(StartPut, HeadersFit, NO_START, fs) <==> |Gather(HeadersOf, fs)| <= 8
  {
    Extends(StartPut, (a: StartLocals) => a.headers, HeadersOf, NO_START, fs);
    FitExactly(StartPut, HeadersFit, (a: StartLocals) => a.headers, HeadersOf, 8, NO_START, fs);
    assert [] + Gather(HeadersOf, fs) == Gather(HeadersOf, fs);
  }

  /** The variables from which `m` is made. */
  function StartFilled(m: StartRequest): StartLocals {
    StartLocals(Some(m.requestId), Some(m.presentationId), Some(m.url), m.headers)
  }

  lemma StartHoldsExactly(fs: seq<StartField>, m: StartRequest)
    ensures FitAll(StartPut, HeadersFit, NO_START, fs) && PutAll(StartPut, NO_START, fs) == StartFilled(m)
       <==> StartHolds(fs, m) && |m.headers| <= 8
  {
    StartRequestId(fs);
    StartPresentationId(fs);
    StartUrl(fs);
    StartHeaders(fs);
  }

  lemma StartLoop()
    ensures PutsIfFits(StartStep, ParseStartField, StartPut, HeadersFit)
  {
    forall t, acc ensures StartStep(t, acc).Ok? <==> ParseStartField(t).Ok? && HeadersFit(acc, ParseStartField(t).value.0) {
      StartStepReads(t, acc);
    }
    forall t, acc | StartStep(t, acc).Ok?
      ensures StartStep(t, acc).value == (StartPut(acc, ParseStartField(t).value.0), ParseStartField(t).value.1)
    {
      StartStepReads(t, acc);
    }
  }

  lemma StartBody(s: Bytes, m: StartRequest, rest: Bytes, n: nat, s1: Bytes, loop: Parse<StartLocals>)
    requires ParseMap(s) == Some((Some(n), s1)) && n == 4
    requires loop == Repeat(StartStep, s1, n, NO_START)
    ensures ParseStartRequest(s) == Ok((m, rest)) <==> loop == Ok((StartFilled(m), rest))
  {
    if loop.Ok? {
      var (acc, tail) := loop.value;
      StartMade(acc, m);
      assert ParseStartRequest(s) == match StartComplete(acc)
                           case Err(e) => Err(e)
                           case Ok(done) => Ok((done, tail));
    } else {
      assert ParseStartRequest(s).Err?;
    }
  }

  lemma StartMade(acc: StartLocals, m: StartRequest)
    ensures acc == StartFilled(m) <==> StartComplete(acc) == Ok(m)
  {
  }

  /** A body decodes to `m` if and only if it is a map of four entries that say so: the
      header entries may be missing, repeated or split, up to eight headers in all. */
  lemma StartExact(s: Bytes, m: StartRequest, rest: Bytes)
    ensures ParseStartRequest(s) == Ok((m, rest))
       <==> && ParseMap(s).Some? && ParseMap(s).value.0 == Some(4) && |m.headers| <= 8
            && exists fs :: |fs| == 4 && Reads(ParseStartField, ParseMap(s).value.1, fs, rest) && StartHolds(fs, m)
  {
    StartLoop();
    if ParseMap(s).Some? && ParseMap(s).value.0 == Some(4) {
      var n, s1 := ParseMap(s).value.0.value, ParseMap(s).value.1;
      StartBody(s, m, rest, n, s1, Repeat(StartStep, s1, n, NO_START));
      LoopExactly(StartStep, ParseStartField, StartPut, HeadersFit, s1, n, NO_START, StartFilled(m), rest);
      forall fs ensures FitAll(StartPut, HeadersFit, NO_START, fs) && PutAll(StartPut, NO_START, fs) == StartFilled(m) <==> StartHolds(fs, m) && |m.headers| <= 8 {
        StartHoldsExactly(fs, m);
      }
    }
  }

  // ---------------------------------------------------------------- agent-info-response

  lemma {:induction false} FitBoth<F, A>(put: (A, F) -> A, one: (A, F) -> bool, two: (A, F) -> bool, both: (A, F) -> bool, acc: A, fs: seq<F>)
    requires forall a, f :: both(a, f) <==> one(a, f) && two(a, f)
    ensures FitAll(put, both, acc, fs) <==> FitAll(put, one, acc, fs) && FitAll(put, two, acc, fs)
    decreases |fs|
  {
    if fs != [] {
      FitBoth(put, one, two, both, put(acc, fs[0]), fs[1..]);
    }
  }

  function ParseAgentField(s: Bytes): Parse<AgentField> {
    match ParseU8(s)
    case None => Err(DecodeFailed)
    case Some((0, s1)) => Store(ParseText(s1), t => NameField(t))
    case Some((1, s1)) => Store(ParseText(s1), t => ModelField(t))
    case Some((2, s1)) => Store(ParseAppend(ParseCapability, 16, s1, []), cs => CapabilitiesField(cs))
    case Some((3, s1)) => Store(ParseText(s1), t => StateTokenField(t))
    case Some((4, s1)) => Store(ParseAppend(ParseText, 8, s1, []), ls => LocalesField(ls))
    case Some(_) => Err(InvalidField)
  }

  function NameOf(f: AgentField): Option<Bytes> {
    if f.NameField? then Some(f.name) else None
  }

  function ModelOf(f: AgentField): Option<Bytes> {
    if f.ModelField? then Some(f.model) else None
  }

  function StateTokenOf(f: AgentField): Option<Bytes> {
    if f.StateTokenField? then Some(f.stateToken) else None
  }

  function CapabilitiesOf(f: AgentField): seq<nat> {
    if f.CapabilitiesField? then f.capabilities else []
  }

  function LocalesOf(f: AgentField): seq<Bytes> {
    if f.LocalesField? then f.locales else []
  }

  predicate CapabilitiesFit(acc: AgentLocals, f: AgentField) {
    CapabilitiesOf(f) == [] || |acc.capabilities| + |CapabilitiesOf(f)| <= 16
  }

  predicate LocalesFit(acc: AgentLocals, f: AgentField) {
    LocalesOf(f) == [] || |acc.locales| + |LocalesOf(f)| <= 8
  }

  predicate AgentFit(acc: AgentLocals, f: AgentField) {
    CapabilitiesFit(acc, f) && LocalesFit(acc, f)
  }

  predicate AgentHolds(fs: seq<AgentField>, a: AgentInfo) {
    && LastOf(NameOf, fs) == Some(a.displayName) && LastOf(ModelOf, fs) == Some(a.modelName)
    && LastOf(StateTokenOf, fs) == Some(a.stateToken)
    && Gather(CapabilitiesOf, fs) == a.capabilities && Gather(LocalesOf, fs) == a.locales
  }

  lemma AgentStepReads(s: Bytes, acc: AgentLocals)
    ensures AgentStep(s, acc).Ok? <==> ParseAgentField(s).Ok? && AgentFit(acc, ParseAgentField(s).value.0)
    ensures AgentStep(s, acc).Ok? ==>
            AgentStep(s, acc).value == (AgentPut(acc, ParseAgentField(s).value.0), ParseAgentField(s).value.1)
  {
    if ParseU8(s).Some? {
      AppendExactly(ParseCapability, 16, ParseU8(s).value.1, acc.capabilities);
      AppendExactly(ParseText, 8, ParseU8(s).value.1, acc.locales);
    }
  }

  lemma AgentName(fs: seq<AgentField>)
    ensures PutAll(AgentPut, NO_AGENT, fs).name == LastOf(NameOf, fs)
  {
    Overwrites(AgentPut, (a: AgentLocals) => a.name, NameOf, NO_AGENT, fs);
  }

  lemma AgentModel(fs: seq<AgentField>)
    ensures PutAll(AgentPut, NO_AGENT, fs).model == LastOf(ModelOf, fs)
  {
    Overwrites(AgentPut, (a: AgentLocals) => a.model, ModelOf, NO_AGENT, fs);
  }

  lemma AgentStateToken(fs: seq<AgentField>)
    ensures PutAll(AgentPut, NO_AGENT, fs).stateToken == LastOf(StateTokenOf, fs)
  {
    Overwrites(AgentPut, (a: AgentLocals) => a.stateToken, StateTokenOf, NO_AGENT, fs);
  }

  lemma AgentCapabilities(fs: seq<AgentField>)
    ensures PutAll(AgentPut, NO_AGENT, fs).capabilities == Gather(CapabilitiesOf, fs)
    ensures FitAll(AgentPut, CapabilitiesFit, NO_AGENT, fs) <==> |Gather(CapabilitiesOf, fs)| <= 16
  {
    Extends(AgentPut, (a: AgentLocals) => a.capabilities, CapabilitiesOf, NO_AGENT, fs);
    FitExactly(AgentPut, CapabilitiesFit, (a: AgentLocals) => a.capabilities, CapabilitiesOf, 16, NO_AGENT, fs);
    assert [] + Gather(CapabilitiesOf, fs) == Gather(CapabilitiesOf, fs);
  }

  lemma AgentLocales(fs: seq<AgentField>)
    ensures PutAll(AgentPut, NO_AGENT, fs).locales == Gather(LocalesOf, fs)
    ensures FitAll(AgentPut, LocalesFit, NO_AGENT, fs) <==> |Gather(LocalesOf, fs)| <= 8
  {
    Extends(AgentPut, (a: AgentLocals) => a.locales, LocalesOf, NO_AGENT, fs);
    FitExactly(AgentPut, LocalesFit, (a: AgentLocals) => a.locales, LocalesOf, 8, NO_AGENT, fs);
    assert [] + Gather(LocalesOf, fs) == Gather(LocalesOf, fs);
  }

  function AgentFilled(a: AgentInfo): AgentLocals {
    AgentLocals(Some(a.displayName), Some(a.modelName), a.capabilities, Some(a.stateToken), a.locales)
  }

  /** The arrays are within their capacities. */
  predicate AgentSizes(a: AgentInfo) {
    |a.capabilities| <= 16 && |a.locales| <= 8
  }

  lemma AgentHoldsExactly(fs: seq<AgentField>, a: AgentInfo)
    ensures FitAll(AgentPut, AgentFit, NO_AGENT, fs) && PutAll(AgentPut, NO_AGENT, fs) == AgentFilled(a)
       <==> AgentHolds(fs, a) && AgentSizes(a)
  {
    AgentName(fs);
    AgentModel(fs);
    AgentStateToken(fs);
    AgentCapabilities(fs);
    AgentLocales(fs);
    FitBoth(AgentPut, CapabilitiesFit, LocalesFit, AgentFit, NO_AGENT, fs);
  }

  lemma AgentLoop()
    ensures PutsIfFits(AgentStep, ParseAgentField, AgentPut, AgentFit)
  {
    forall t, acc ensures AgentStep(t, acc).Ok? <==> ParseAgentField(t).Ok? && AgentFit(acc, ParseAgentField(t).value.0) {
      AgentStepReads(t, acc);
    }
    forall t, acc | AgentStep(t, acc).Ok?
      ensures AgentStep(t, acc).value == (AgentPut(acc, ParseAgentField(t).value.0), ParseAgentField(t).value.1)
    {
      AgentStepReads(t, acc);
    }
  }

  lemma AgentBody(s: Bytes, a: AgentInfo, rest: Bytes, n: nat, s1: Bytes, loop: Parse<AgentLocals>)
    requires ParseMap(s) == Some((Some(n), s1)) && n == 5
    requires loop == Repeat(AgentStep, s1, n, NO_AGENT)
    ensures ParseAgent(s) == Ok((a, rest)) <==> loop == Ok((AgentFilled(a), rest))
  {
    if loop.Ok? {
      var (acc, tail) := loop.value;
      AgentMade(acc, a);
      assert ParseAgent(s) == match AgentComplete(acc)
                           case Err(e) => Err(e)
                           case Ok(done) => Ok((done, tail));
    } else {
      assert ParseAgent(s).Err?;
    }
  }

  lemma AgentMade(acc: AgentLocals, a: AgentInfo)
    ensures acc == AgentFilled(a) <==> AgentComplete(acc) == Ok(a)
  {
  }

  /** The inner map decodes to `a` if and only if it has five entries that say so: two of the
      five may be missing, repeated or split between repeated entries. */
  lemma AgentExact(s: Bytes, a: AgentInfo, rest: Bytes)
    ensures ParseAgent(s) == Ok((a, rest))
       <==> && ParseMap(s).Some? && ParseMap(s).value.0 == Some(5) && AgentSizes(a)
            && exists fs :: |fs| == 5 && Reads(ParseAgentField, ParseMap(s).value.1, fs, rest) && AgentHolds(fs, a)
  {
    AgentLoop();
    if ParseMap(s).Some? && ParseMap(s).value.0 == Some(5) {
      var n, s1 := ParseMap(s).value.0.value, ParseMap(s).value.1;
      AgentBody(s, a, rest, n, s1, Repeat(AgentStep, s1, n, NO_AGENT));
      LoopExactly(AgentStep, ParseAgentField, AgentPut, AgentFit, s1, n, NO_AGENT, AgentFilled(a), rest);
      forall fs ensures FitAll(AgentPut, AgentFit, NO_AGENT, fs) && PutAll(AgentPut, NO_AGENT, fs) == AgentFilled(a) <==> AgentHolds(fs, a) && AgentSizes(a) {
        AgentHoldsExactly(fs, a);
      }
    }
  }

  // ---------------------------------------------------------------- auth-capabilities

  datatype CapsField = EaseField(ease: M.PskInputEase) | MethodsField(methods: seq<M.PskInputMethod>) | BitsField(bits: nat)

  const NO_CAPS := M.CapsFields(None, [], None)

  function ParseEase(s: Bytes): Parse<M.PskInputEase> {
    match ParseU8(s)
    case None => Err(DecodeFailed)
    case Some((n, rest)) =>
      match M.PskInputEase.FromCode(n)
      case Err(e) => Err(e)
      case Ok(ease) => Ok((ease, rest))
  }

  function ParseMethod(s: Bytes): Parse<M.PskInputMethod> {
    match ParseU8(s)
    case None => Err(DecodeFailed)
    case Some((n, rest)) =>
      match M.PskInputMethod.FromCode(n)
      case Err(e) => Err(e)
      case Ok(m) => Ok((m, rest))
  }

  function ParseCapsField(s: Bytes): Parse<CapsField> {
    match ParseU8(s)
    case None => Err(DecodeFailed)
    case Some((0, s1)) => Store(ParseEase(s1), e => EaseField(e))
    case Some((1, s1)) => Store(ParseAppend(ParseMethod, 8, s1, []), ms => MethodsField(ms))
    case Some((2, s1)) => Store(ParseBelow(0x1_0000_0000, s1), n => BitsField(n))
    case Some(_) => Err(InvalidField)
  }

  function CapsPut(acc: M.CapsFields, f: CapsField): M.CapsFields {
    match f
    case EaseField(e) => acc.(ease := Some(e))
    case MethodsField(ms) => acc.(methods := acc.methods + ms)
    case BitsField(n) => acc.(minBits := Some(n))
  }

  function EaseOf(f: CapsField): Option<M.PskInputEase> {
    if f.EaseField? then Some(f.ease) else None
  }

  function MethodsOf(f: CapsField): seq<M.PskInputMethod> {
    if f.MethodsField? then f.methods else []
  }

  function BitsOf(f: CapsField): Option<nat> {
    if f.BitsField? then Some(f.bits) else None
  }

  predicate MethodsFit(acc: M.CapsFields, f: CapsField) {
    MethodsOf(f) == [] || |acc.methods| + |MethodsOf(f)| <= 8
  }

  predicate CapsHolds(fs: seq<CapsField>, c: M.Capabilities) {
    LastOf(EaseOf, fs) == Some(c.ease) && LastOf(BitsOf, fs) == Some(c.minBits) && Gather(MethodsOf, fs) == c.methods
  }

  lemma PushIs<T>(item: Bytes -> Parse<T>, capacity: nat, t: Bytes, acc: seq<T>, read: Parse<T>)
    requires read == item(t)
    ensures Push(item, capacity)(t, acc) ==
            if read.Err? then Err(read.error)
            else if |acc| >= capacity then Err(BufferFull) else Ok((acc + [read.value.0], read.value.1))
  {
  }

  lemma MethodIsPush(t: Bytes, acc: seq<M.PskInputMethod>)
    ensures M.MethodStep(t, acc) == Push(ParseMethod, 8)(t, acc)
  {
    PushIs(ParseMethod, 8, t, acc, ParseMethod(t));
  }

  lemma MethodsAppend(s: Bytes, n: nat, before: seq<M.PskInputMethod>)
    ensures var whole, own := Repeat(M.MethodStep, s, n, before), Repeat(Push(ParseMethod, 8), s, n, []);
            && (whole.Ok? <==> own.Ok? && (own.value.0 == [] || |before| + |own.value.0| <= 8))
            && (whole.Ok? ==> whole.value == (before + own.value.0, own.value.1))
  {
    MethodsPush(s, n, []);
    forall t, acc ensures M.MethodStep(t, acc) == Push(ParseMethod, 8)(t, acc) {
      MethodIsPush(t, acc);
    }
    PushesExactly(M.MethodStep, ParseMethod, 8, s, n, before, []);
    assert before + [] == before;
  }

  lemma {:induction false} MethodsPush(s: Bytes, n: nat, xs: seq<M.PskInputMethod>)
    ensures Repeat(M.MethodStep, s, n, xs) == Repeat(Push(ParseMethod, 8), s, n, xs)
    decreases n
  {
    MethodIsPush(s, xs);
    if n > 0 && M.MethodStep(s, xs).Ok? {
      MethodsPush(M.MethodStep(s, xs).value.1, n - 1, M.MethodStep(s, xs).value.0);
    }
  }

  lemma CapsStepReads(s: Bytes, acc: M.CapsFields)
    ensures M.CapsStep(s, acc).Ok? <==> ParseCapsField(s).Ok? && MethodsFit(acc, ParseCapsField(s).value.0)
    ensures M.CapsStep(s, acc).Ok? ==>
            M.CapsStep(s, acc).value == (CapsPut(acc, ParseCapsField(s).value.0), ParseCapsField(s).value.1)
  {
    assert acc.methods + [] == acc.methods;
    if ParseU8(s).Some? && ParseArray(ParseU8(s).value.1).Some? {
      var (len, s2) := ParseArray(ParseU8(s).value.1).value;
      if len.Some? {
        MethodsAppend(s2, len.value, acc.methods);
      }
    }
  }

  lemma CapsEase(fs: seq<CapsField>)
    ensures PutAll(CapsPut, NO_CAPS, fs).ease == LastOf(EaseOf, fs)
  {
    Overwrites(CapsPut, (a: M.CapsFields) => a.ease, EaseOf, NO_CAPS, fs);
  }

  lemma CapsMinBits(fs: seq<CapsField>)
    ensures PutAll(CapsPut, NO_CAPS, fs).minBits == LastOf(BitsOf, fs)
  {
    Overwrites(CapsPut, (a: M.CapsFields) => a.minBits, BitsOf, NO_CAPS, fs);
  }

  lemma CapsMethods(fs: seq<CapsField>)
    ensures PutAll(CapsPut, NO_CAPS, fs).methods == Gather(MethodsOf, fs)
    ensures FitAll(CapsPut, MethodsFit, NO_CAPS, fs) <==> |Gather(MethodsOf, fs)| <= 8
  {
    Extends(CapsPut, (a: M.CapsFields) => a.methods, MethodsOf, NO_CAPS, fs);
    FitExactly(CapsPut, MethodsFit, (a: M.CapsFields) => a.methods, MethodsOf, 8, NO_CAPS, fs);
    assert [] + Gather(MethodsOf, fs) == Gather(MethodsOf, fs);
  }

  function CapsFilled(c: M.Capabilities): M.CapsFields {
    M.CapsFields(Some(c.ease), c.methods, Some(c.minBits))
  }

  lemma CapsHoldsExactly(fs: seq<CapsField>, c: M.Capabilities)
    ensures FitAll(CapsPut, MethodsFit, NO_CAPS, fs) && PutAll(CapsPut, NO_CAPS, fs) == CapsFilled(c)
       <==> CapsHolds(fs, c) && |c.methods| <= 8
  {
    CapsEase(fs);
    CapsMinBits(fs);
    CapsMethods(fs);
  }

  lemma CapsLoop()
    ensures PutsIfFits(M.CapsStep, ParseCapsField, CapsPut, MethodsFit)
  {
    forall t, acc ensures M.CapsStep(t, acc).Ok? <==> ParseCapsField(t).Ok? && MethodsFit(acc, ParseCapsField(t).value.0) {
      CapsStepReads(t, acc);
    }
    forall t, acc | M.CapsStep(t, acc).Ok?
      ensures M.CapsStep(t, acc).value == (CapsPut(acc, ParseCapsField(t).value.0), ParseCapsField(t).value.1)
    {
      CapsStepReads(t, acc);
    }
  }

  lemma CapsBody(s: Bytes, c: M.Capabilities, rest: Bytes, n: nat, s1: Bytes, loop: Parse<M.CapsFields>)
    requires ParseMap(s) == Some((Some(n), s1)) && (n == 2 || n == 3)
    requires loop == Repeat(M.CapsStep, s1, n, NO_CAPS)
    ensures M.ParseCapabilitiesBody(s) == Ok((c, rest)) <==> loop == Ok((CapsFilled(c), rest))
  {
    if loop.Ok? {
      var (acc, tail) := loop.value;
      CapsMade(acc, c);
      assert M.ParseCapabilitiesBody(s) ==
        if acc.ease.None? || acc.minBits.None? then Err(MissingField)
        else Ok((M.Capabilities(acc.ease.value, acc.methods, acc.minBits.value), tail));
    } else {
      assert M.ParseCapabilitiesBody(s).Err?;
    }
  }

  lemma CapsMade(acc: M.CapsFields, c: M.Capabilities)
    ensures acc == CapsFilled(c) <==>
            acc.ease.Some? && acc.minBits.Some? && M.Capabilities(acc.ease.value, acc.methods, acc.minBits.value) == c
  {
  }

  /** Capabilities decode from a map of two or three entries; the methods may be missing,
      repeated or split, up to their capacity in all. */
  lemma CapabilitiesExact(s: Bytes, c: M.Capabilities, rest: Bytes)
    ensures M.ParseCapabilitiesBody(s) == Ok((c, rest))
       <==> && ParseMap(s).Some? && ParseMap(s).value.0 in {Some(2), Some(3)} && |c.methods| <= 8
            && exists fs :: |fs| == ParseMap(s).value.0.value
                            && Reads(ParseCapsField, ParseMap(s).value.1, fs, rest) && CapsHolds(fs, c)
  {
    CapsLoop();
    if ParseMap(s).Some? && ParseMap(s).value.0 in {Some(2), Some(3)} {
      var n, s1 := ParseMap(s).value.0.value, ParseMap(s).value.1;
      CapsBody(s, c, rest, n, s1, Repeat(M.CapsStep, s1, n, NO_CAPS));
      LoopExactly(M.CapsStep, ParseCapsField, CapsPut, MethodsFit, s1, n, NO_CAPS, CapsFilled(c), rest);
      forall fs ensures FitAll(CapsPut, MethodsFit, NO_CAPS, fs) && PutAll(CapsPut, NO_CAPS, fs) == CapsFilled(c) <==> CapsHolds(fs, c) && |c.methods| <= 8 {
        CapsHoldsExactly(fs, c);
      }
    }
  }
}
