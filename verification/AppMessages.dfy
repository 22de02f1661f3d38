/** Application messages: their fields, the bytes they are encoded to, the parsers of their
    bodies, and the dispatcher over all eighteen type keys. */
module AppMessages {
  import opened Basics
  import opened VarInt
  import opened Cbor
  import opened Parsing
  import opened FlatMaps

  const MAX_MESSAGE_SIZE := 1024
  const MAX_CAPABILITIES := 16
  const MAX_LOCALES := 8
  const MAX_HEADERS := 8
  const MAX_URLS := 16

  const AGENT_INFO_REQUEST_KEY: u16 := 10
  const AGENT_INFO_RESPONSE_KEY: u16 := 11
  const URL_AVAILABILITY_REQUEST_KEY: u16 := 14
  const START_REQUEST_KEY: u16 := 104
  const OPEN_RESPONSE_KEY: u16 := 110
  const CLOSE_EVENT_KEY: u16 := 113
  const STATUS_REQUEST_KEY: u16 := 12
  const CONNECTION_MESSAGE_KEY: u16 := 16
  const START_RESPONSE_KEY: u16 := 105
  const TERMINATION_REQUEST_KEY: u16 := 106
  const TERMINATION_EVENT_KEY: u16 := 108
  const OPEN_REQUEST_KEY: u16 := 109

  /** The eighteen type keys of the application layer. */
  predicate IsAppKey(key: u16) {
    10 <= key <= 16 || 103 <= key <= 110 || key == 113 || key == 120 || key == 121
  }

  // ---------------------------------------------------------------- items

  predicate CapabilityCode(n: nat) {
    1 <= n <= 8
  }

  predicate ResultCode(n: nat) {
    n == 1 || n == 10 || n == 11 || n == 100 || n == 101
  }

  predicate ReasonCode(n: nat) {
    n == 1 || n == 10 || n == 100
  }

  function ParseCapability(s: Bytes): Parse<nat> {
    ParseCode(CapabilityCode, s)
  }

  datatype Header = Header(key: Bytes, value: Bytes)

  function HeaderBytes(h: Header): Bytes {
    EncodeHead(ARRAY, 2) + (EncodeStr(h.key) + EncodeStr(h.value))
  }

  function ParseHeader(s: Bytes): Parse<Header> {
    match ParseArray(s)
    case None => Err(DecodeFailed)
    case Some((len, s1)) =>
      if len != Some(2) then Err(InvalidField)
      else match ParseText(s1)
           case Err(e) => Err(e)
           case Ok((key, s2)) =>
             match ParseText(s2)
             case Err(e) => Err(e)
             case Ok((value, rest)) => Ok((Header(key, value), rest))
  }

  // ---------------------------------------------------------------- arrays

  /** The body of an array loop: read an item and push it onto a bounded vector. */
  function Push<T>(item: Bytes -> Parse<T>, capacity: nat): (Bytes, seq<T>) -> Parse<seq<T>> {
    (s: Bytes, acc: seq<T>) =>
      match item(s)
      case Err(e) => Err(e)
      case Ok((x, rest)) => if |acc| >= capacity then Err(BufferFull) else Ok((acc + [x], rest))
  }

  /** An array whose items are appended; one of indefinite length is not entered. */
  function ParseAppend<T>(item: Bytes -> Parse<T>, capacity: nat, s: Bytes, before: seq<T>): Parse<seq<T>> {
    match ParseArray(s)
    case None => Err(DecodeFailed)
    case Some((None, rest)) => Ok((before, rest))
    case Some((Some(n), s1)) => Repeat(Push(item, capacity), s1, n, before)
  }

  /** An array of definite length. */
  function ParseList<T>(item: Bytes -> Parse<T>, capacity: nat, s: Bytes): Parse<seq<T>> {
    match ParseArray(s)
    case None => Err(DecodeFailed)
    case Some((None, _)) => Err(InvalidField)
    case Some((Some(n), s1)) => Repeat(Push(item, capacity), s1, n, [])
  }

  function ListBytes<T>(bytes: T -> Bytes, xs: seq<T>): Bytes {
    EncodeHead(ARRAY, |xs|) + Concat(bytes, xs)
  }

  // ---------------------------------------------------------------- agent-info-response

  datatype AgentInfo = AgentInfo(
    displayName: Bytes, modelName: Bytes, capabilities: seq<nat>, stateToken: Bytes, locales: seq<Bytes>)

  datatype AgentField =
    | NameField(name: Bytes)
    | ModelField(model: Bytes)
    | CapabilitiesField(capabilities: seq<nat>)
    | StateTokenField(stateToken: Bytes)
    | LocalesField(locales: seq<Bytes>)

  function AgentFieldBytes(f: AgentField): Bytes {
    match f
    case NameField(t) => EncodeUint(0) + EncodeStr(t)
    case ModelField(t) => EncodeUint(1) + EncodeStr(t)
    case CapabilitiesField(cs) => EncodeUint(2) + ListBytes(EncodeUint, cs)
    case StateTokenField(t) => EncodeUint(3) + EncodeStr(t)
    case LocalesField(ls) => EncodeUint(4) + ListBytes(EncodeStr, ls)
  }

  function AgentFields(a: AgentInfo): (fs: seq<AgentField>)
    ensures |fs| == 5
  {
    [NameField(a.displayName), ModelField(a.modelName), CapabilitiesField(a.capabilities),
     StateTokenField(a.stateToken), LocalesField(a.locales)]
  }

  /** The local variables of the decoding loop; the two arrays accumulate. */
  datatype AgentLocals = AgentLocals(
    name: Option<Bytes>, model: Option<Bytes>, capabilities: seq<nat>, stateToken: Option<Bytes>, locales: seq<Bytes>)

  const NO_AGENT := AgentLocals(None, None, [], None, [])

  function AgentPut(acc: AgentLocals, f: AgentField): AgentLocals {
    match f
    case NameField(t) => acc.(name := Some(t))
    case ModelField(t) => acc.(model := Some(t))
    case CapabilitiesField(cs) => acc.(capabilities := acc.capabilities + cs)
    case StateTokenField(t) => acc.(stateToken := Some(t))
    case LocalesField(ls) => acc.(locales := acc.locales + ls)
  }

  function AgentStep(s: Bytes, acc: AgentLocals): Parse<AgentLocals> {
    match ParseU8(s)
    case None => Err(DecodeFailed)
    case Some((0, s1)) => Store(ParseText(s1), t => acc.(name := Some(t)))
    case Some((1, s1)) => Store(ParseText(s1), t => acc.(model := Some(t)))
    case Some((2, s1)) =>
      Store(ParseAppend(ParseCapability, MAX_CAPABILITIES, s1, acc.capabilities), cs => acc.(capabilities := cs))
    case Some((3, s1)) => Store(ParseText(s1), t => acc.(stateToken := Some(t)))
    case Some((4, s1)) => Store(ParseAppend(ParseText, MAX_LOCALES, s1, acc.locales), ls => acc.(locales := ls))
    case Some(_) => Err(InvalidField)
  }

  function AgentComplete(acc: AgentLocals): Result<AgentInfo, MessageError> {
    if acc.name.None? || acc.model.None? || acc.stateToken.None? then Err(MissingField)
    else Ok(AgentInfo(acc.name.value, acc.model.value, acc.capabilities, acc.stateToken.value, acc.locales))
  }

  function AgentBytes(a: AgentInfo): Bytes {
    EncodeHead(MAP, 5) + Concat(AgentFieldBytes, AgentFields(a))
  }

  function ParseAgent(s: Bytes): Parse<AgentInfo> {
    match ParseMap(s)
    case None => Err(DecodeFailed)
    case Some((len, s1)) =>
      if len != Some(5) then Err(InvalidField)
      else match Repeat(AgentStep, s1, 5, NO_AGENT)
           case Err(e) => Err(e)
           case Ok((acc, rest)) =>
             match AgentComplete(acc)
             case Err(e) => Err(e)
             case Ok(a) => Ok((a, rest))
  }

  datatype AgentInfoResponse = AgentInfoResponse(requestId: nat, info: AgentInfo)

  function AgentInfoResponseBody(m: AgentInfoResponse): Bytes {
    EncodeHead(MAP, 2) + (EncodeUint(0) + (EncodeUint(m.requestId) + (EncodeUint(1) + AgentBytes(m.info))))
  }

  /** The outer map has a fixed order, the inner one has none. */
  function ParseAgentInfoResponse(s: Bytes): Parse<AgentInfoResponse> {
    match ParseMap(s)
    case None => Err(DecodeFailed)
    case Some((len, s1)) =>
      if len != Some(2) then Err(InvalidField)
      else match ParseKey(s1, 0)
           case Err(e) => Err(e)
           case Ok(s2) =>
             match ParseNumber(s2)
             case Err(e) => Err(e)
             case Ok((id, s3)) =>
               match ParseKey(s3, 1)
               case Err(e) => Err(e)
               case Ok(s4) => Store(ParseAgent(s4), a => AgentInfoResponse(id, a))
  }

  // ---------------------------------------------------------------- presentation-start-request

  datatype StartRequest = StartRequest(requestId: nat, presentationId: Bytes, url: Bytes, headers: seq<Header>)

  datatype StartField =
    | RequestIdField(id: nat)
    | PresentationIdField(presentationId: Bytes)
    | UrlField(url: Bytes)
    | HeadersField(headers: seq<Header>)

  function StartFieldBytes(f: StartField): Bytes {
    match f
    case RequestIdField(n) => EncodeUint(0) + EncodeUint(n)
    case PresentationIdField(t) => EncodeUint(1) + EncodeStr(t)
    case UrlField(t) => EncodeUint(2) + EncodeStr(t)
    case HeadersField(hs) => EncodeUint(3) + ListBytes(HeaderBytes, hs)
  }

  function StartFields(m: StartRequest): (fs: seq<StartField>)
    ensures |fs| == 4
  {
    [RequestIdField(m.requestId), PresentationIdField(m.presentationId), UrlField(m.url), HeadersField(m.headers)]
  }

  datatype StartLocals = StartLocals(
    requestId: Option<nat>, presentationId: Option<Bytes>, url: Option<Bytes>, headers: seq<Header>)

  const NO_START := StartLocals(None, None, None, [])

  function StartPut(acc: StartLocals, f: StartField): StartLocals {
    match f
    case RequestIdField(n) => acc.(requestId := Some(n))
    case PresentationIdField(t) => acc.(presentationId := Some(t))
    case UrlField(t) => acc.(url := Some(t))
    case HeadersField(hs) => acc.(headers := acc.headers + hs)
  }

  function StartStep(s: Bytes, acc: StartLocals): Parse<StartLocals> {
    match ParseU8(s)
    case None => Err(DecodeFailed)
    case Some((0, s1)) => Store(ParseNumber(s1), n => acc.(requestId := Some(n)))
    case Some((1, s1)) => Store(ParseText(s1), t => acc.(presentationId := Some(t)))
    case Some((2, s1)) => Store(ParseText(s1), t => acc.(url := Some(t)))
    case Some((3, s1)) => Store(ParseAppend(ParseHeader, MAX_HEADERS, s1, acc.headers), hs => acc.(headers := hs))
    case Some(_) => Err(InvalidField)
  }

  function StartComplete(acc: StartLocals): Result<StartRequest, MessageError> {
    if acc.requestId.None? || acc.presentationId.None? || acc.url.None? then Err(MissingField)
    else Ok(StartRequest(acc.requestId.value, acc.presentationId.value, acc.url.value, acc.headers))
  }

  function StartBody(m: StartRequest): Bytes {
    EncodeHead(MAP, 4) + Concat(StartFieldBytes, StartFields(m))
  }

  function ParseStartRequest(s: Bytes): Parse<StartRequest> {
    match ParseMap(s)
    case None => Err(DecodeFailed)
    case Some((len, s1)) =>
      if len != Some(4) then Err(InvalidField)
      else match Repeat(StartStep, s1, 4, NO_START)
           case Err(e) => Err(e)
           case Ok((acc, rest)) =>
             match StartComplete(acc)
             case Err(e) => Err(e)
             case Ok(m) => Ok((m, rest))
  }

  // ---------------------------------------------------------------- url-availability-request

  datatype UrlRequest = UrlRequest(requestId: nat, urls: seq<Bytes>, watchDuration: nat, watchId: nat)

  datatype UrlReqField =
    | UrlIdField(id: nat)
    | UrlsField(urls: seq<Bytes>)
    | DurationField(duration: nat)
    | WatchField(watch: nat)

  function UrlFieldBytes(f: UrlReqField): Bytes {
    match f
    case UrlIdField(n) => EncodeUint(0) + EncodeUint(n)
    case UrlsField(us) => EncodeUint(1) + ListBytes(EncodeStr, us)
    case DurationField(n) => EncodeUint(2) + EncodeUint(n)
    case WatchField(n) => EncodeUint(3) + EncodeUint(n)
  }

  function UrlFields(m: UrlRequest): (fs: seq<UrlReqField>)
    ensures |fs| == 4
  {
    [UrlIdField(m.requestId), UrlsField(m.urls), DurationField(m.watchDuration), WatchField(m.watchId)]
  }

  datatype UrlLocals = UrlLocals(
    requestId: Option<nat>, urls: Option<seq<Bytes>>, watchDuration: Option<nat>, watchId: Option<nat>)

  const NO_URL := UrlLocals(None, None, None, None)

  function UrlPut(acc: UrlLocals, f: UrlReqField): UrlLocals {
    match f
    case UrlIdField(n) => acc.(requestId := Some(n))
    case UrlsField(us) => acc.(urls := Some(us))
    case DurationField(n) => acc.(watchDuration := Some(n))
    case WatchField(n) => acc.(watchId := Some(n))
  }

  function ParseUrlField(s: Bytes): Parse<UrlReqField> {
    match ParseU8(s)
    case None => Err(DecodeFailed)
    case Some((0, s1)) => Store(ParseNumber(s1), n => UrlIdField(n))
    case Some((1, s1)) => Store(ParseList(ParseAnyText, MAX_URLS, s1), us => UrlsField(us))
    case Some((2, s1)) => Store(ParseNumber(s1), n => DurationField(n))
    case Some((3, s1)) => Store(ParseNumber(s1), n => WatchField(n))
    case Some(_) => Err(InvalidField)
  }

  function UrlStep(s: Bytes, acc: UrlLocals): Parse<UrlLocals> {
    match ParseUrlField(s)
    case Err(e) => Err(e)
    case Ok((f, rest)) => Ok((UrlPut(acc, f), rest))
  }

  function UrlComplete(acc: UrlLocals): Result<UrlRequest, MessageError> {
    if acc.requestId.None? || acc.urls.None? || acc.watchDuration.None? || acc.watchId.None? then Err(MissingField)
    else Ok(UrlRequest(acc.requestId.value, acc.urls.value, acc.watchDuration.value, acc.watchId.value))
  }

  function UrlBody(m: UrlRequest): Bytes {
    EncodeHead(MAP, 4) + Concat(UrlFieldBytes, UrlFields(m))
  }

  function ParseUrlRequest(s: Bytes): Parse<UrlRequest> {
    match ParseMap(s)
    case None => Err(DecodeFailed)
    case Some((len, s1)) =>
      if len != Some(4) then Err(InvalidField)
      else match Repeat(UrlStep, s1, 4, NO_URL)
           case Err(e) => Err(e)
           case Ok((acc, rest)) =>
             match UrlComplete(acc)
             case Err(e) => Err(e)
             case Ok(m) => Ok((m, rest))
  }

  // ---------------------------------------------------------------- connection-open-response

  datatype OpenResponse = OpenResponse(requestId: nat, result: nat, connectionId: nat, connectionCount: nat)

  datatype OpenField =
    | OpenIdField(id: nat)
    | ResultField(result: nat)
    | OpenConnectionField(connection: nat)
    | OpenCountField(count: nat)

  function OpenFieldBytes(f: OpenField): Bytes {
    match f
    case OpenIdField(n) => EncodeUint(0) + EncodeUint(n)
    case ResultField(n) => EncodeUint(1) + EncodeUint(n)
    case OpenConnectionField(n) => EncodeUint(2) + EncodeUint(n)
    case OpenCountField(n) => EncodeUint(3) + EncodeUint(n)
  }

  function OpenFields(m: OpenResponse): (fs: seq<OpenField>)
    ensures |fs| == 4
  {
    [OpenIdField(m.requestId), ResultField(m.result), OpenConnectionField(m.connectionId), OpenCountField(m.connectionCount)]
  }

  datatype OpenLocals = OpenLocals(
    requestId: Option<nat>, result: Option<nat>, connectionId: Option<nat>, connectionCount: Option<nat>)

  const NO_OPEN := OpenLocals(None, None, None, None)

  function OpenPut(acc: OpenLocals, f: OpenField): OpenLocals {
    match f
    case OpenIdField(n) => acc.(requestId := Some(n))
    case ResultField(n) => acc.(result := Some(n))
    case OpenConnectionField(n) => acc.(connectionId := Some(n))
    case OpenCountField(n) => acc.(connectionCount := Some(n))
  }

  function ParseOpenField(s: Bytes): Parse<OpenField> {
    match ParseU8(s)
    case None => Err(DecodeFailed)
    case Some((0, s1)) => Store(ParseNumber(s1), n => OpenIdField(n))
    case Some((1, s1)) => Store(ParseCode(ResultCode, s1), n => ResultField(n))
    case Some((2, s1)) => Store(ParseNumber(s1), n => OpenConnectionField(n))
    case Some((3, s1)) => Store(ParseNumber(s1), n => OpenCountField(n))
    case Some(_) => Err(InvalidField)
  }

  function OpenStep(s: Bytes, acc: OpenLocals): Parse<OpenLocals> {
    match ParseOpenField(s)
    case Err(e) => Err(e)
    case Ok((f, rest)) => Ok((OpenPut(acc, f), rest))
  }

  function OpenComplete(acc: OpenLocals): Result<OpenResponse, MessageError> {
    if acc.requestId.None? || acc.result.None? || acc.connectionId.None? || acc.connectionCount.None? then Err(MissingField)
    else Ok(OpenResponse(acc.requestId.value, acc.result.value, acc.connectionId.value, acc.connectionCount.value))
  }

  function OpenBody(m: OpenResponse): Bytes {
    EncodeHead(MAP, 4) + Concat(OpenFieldBytes, OpenFields(m))
  }

  function ParseOpenResponse(s: Bytes): Parse<OpenResponse> {
    match ParseMap(s)
    case None => Err(DecodeFailed)
    case Some((len, s1)) =>
      if len != Some(4) then Err(InvalidField)
      else match Repeat(OpenStep, s1, 4, NO_OPEN)
           case Err(e) => Err(e)
           case Ok((acc, rest)) =>
             match OpenComplete(acc)
             case Err(e) => Err(e)
             case Ok(m) => Ok((m, rest))
  }

  // ---------------------------------------------------------------- connection-close-event

  datatype CloseEvent = CloseEvent(connectionId: nat, reason: nat, errorMessage: Option<Bytes>, connectionCount: nat)

  datatype CloseField =
    | CloseConnectionField(connection: nat)
    | ReasonField(reason: nat)
    | ErrorField(text: Bytes)
    | CloseCountField(count: nat)

  function CloseFieldBytes(f: CloseField): Bytes {
    match f
    case CloseConnectionField(n) => EncodeUint(0) + EncodeUint(n)
    case ReasonField(n) => EncodeUint(1) + EncodeUint(n)
    case ErrorField(t) => EncodeUint(2) + EncodeStr(t)
    case CloseCountField(n) => EncodeUint(3) + EncodeUint(n)
  }

  /** The error message is in the middle of the map, or absent. */
  function CloseFields(m: CloseEvent): (fs: seq<CloseField>)
    ensures |fs| == if m.errorMessage.Some? then 4 else 3
  {
    [CloseConnectionField(m.connectionId), ReasonField(m.reason)]
    + ((if m.errorMessage.Some? then [ErrorField(m.errorMessage.value)] else [])
    + [CloseCountField(m.connectionCount)])
  }

  datatype CloseLocals = CloseLocals(
    connectionId: Option<nat>, reason: Option<nat>, errorMessage: Option<Bytes>, connectionCount: Option<nat>)

  const NO_CLOSE := CloseLocals(None, None, None, None)

  function ClosePut(acc: CloseLocals, f: CloseField): CloseLocals {
    match f
    case CloseConnectionField(n) => acc.(connectionId := Some(n))
    case ReasonField(n) => acc.(reason := Some(n))
    case ErrorField(t) => acc.(errorMessage := Some(t))
    case CloseCountField(n) => acc.(connectionCount := Some(n))
  }

  function ParseCloseField(s: Bytes): Parse<CloseField> {
    match ParseU8(s)
    case None => Err(DecodeFailed)
    case Some((0, s1)) => Store(ParseNumber(s1), n => CloseConnectionField(n))
    case Some((1, s1)) => Store(ParseCode(ReasonCode, s1), n => ReasonField(n))
    case Some((2, s1)) => Store(ParseAnyText(s1), t => ErrorField(t))
    case Some((3, s1)) => Store(ParseNumber(s1), n => CloseCountField(n))
    case Some(_) => Err(InvalidField)
  }

  function CloseStep(s: Bytes, acc: CloseLocals): Parse<CloseLocals> {
    match ParseCloseField(s)
    case Err(e) => Err(e)
    case Ok((f, rest)) => Ok((ClosePut(acc, f), rest))
  }

  function CloseComplete(acc: CloseLocals): Result<CloseEvent, MessageError> {
    if acc.connectionId.None? || acc.reason.None? || acc.connectionCount.None? then Err(MissingField)
    else Ok(CloseEvent(acc.connectionId.value, acc.reason.value, acc.errorMessage, acc.connectionCount.value))
  }

  function CloseBody(m: CloseEvent): Bytes {
    EncodeHead(MAP, |CloseFields(m)|) + Concat(CloseFieldBytes, CloseFields(m))
  }

  function ParseCloseEvent(s: Bytes): Parse<CloseEvent> {
    match ParseMap(s)
    case None => Err(DecodeFailed)
    case Some((len, s1)) =>
      if len != Some(3) && len != Some(4) then Err(InvalidField)
      else match Repeat(CloseStep, s1, len.value, NO_CLOSE)
           case Err(e) => Err(e)
           case Ok((acc, rest)) =>
             match CloseComplete(acc)
             case Err(e) => Err(e)
             case Ok(m) => Ok((m, rest))
  }

  // ---------------------------------------------------------------- flat maps

  predicate SourceCode(n: nat) {
    n == 1 || n == 2 || n == 255
  }

  predicate TerminationCode(n: nat) {
    n == 1 || n == 2 || n == 20 || n == 30 || n == 31 || n == 100 || n == 101 || n == 255
  }

  datatype StatusRequest = StatusRequest(requestId: nat, status: Option<Bytes>)

  datatype ConnectionMessage = ConnectionMessage(connectionId: nat, message: Bytes)

  datatype StartResponse = StartResponse(requestId: nat, result: nat, connectionId: nat, httpCode: Option<nat>)

  datatype TerminationRequest = TerminationRequest(requestId: nat, presentationId: Bytes, reason: nat)

  datatype TerminationEvent = TerminationEvent(presentationId: Bytes, source: nat, reason: nat)

  datatype OpenRequest = OpenRequest(requestId: nat, presentationId: Bytes, url: Bytes)

  const U16 := 0x1_0000

  function StatusTable(key: nat): Option<Shape> {
    match key
    case 0 => Some(IsNumber(U64))
    case 1 => Some(IsStatus)
    case _ => None
  }

  function ConnectionTable(key: nat): Option<Shape> {
    match key
    case 0 => Some(IsNumber(U64))
    case 1 => Some(IsBlob)
    case _ => None
  }

  function StartResponseTable(key: nat): Option<Shape> {
    match key
    case 0 => Some(IsNumber(U64))
    case 1 => Some(IsCode(ResultCode))
    case 2 => Some(IsNumber(U64))
    case 3 => Some(IsNumber(U16))
    case _ => None
  }

  function TerminationRequestTable(key: nat): Option<Shape> {
    match key
    case 0 => Some(IsNumber(U64))
    case 1 => Some(IsText)
    case 2 => Some(IsCode(TerminationCode))
    case _ => None
  }

  function TerminationEventTable(key: nat): Option<Shape> {
    match key
    case 0 => Some(IsText)
    case 1 => Some(IsCode(SourceCode))
    case 2 => Some(IsCode(TerminationCode))
    case _ => None
  }

  function OpenRequestTable(key: nat): Option<Shape> {
    match key
    case 0 => Some(IsNumber(U64))
    case 1 => Some(IsText)
    case 2 => Some(IsText)
    case _ => None
  }

  function StatusEntries(m: StatusRequest): seq<Entry> {
    [Entry(0, Number(m.requestId))] + if m.status.Some? then [Entry(1, StatusText(m.status.value))] else []
  }

  function ConnectionEntries(m: ConnectionMessage): seq<Entry> {
    [Entry(0, Number(m.connectionId)), Entry(1, Blob(m.message))]
  }

  function StartResponseEntries(m: StartResponse): seq<Entry> {
    [Entry(0, Number(m.requestId)), Entry(1, Number(m.result)), Entry(2, Number(m.connectionId))]
    + if m.httpCode.Some? then [Entry(3, Number(m.httpCode.value))] else []
  }

  function TerminationRequestEntries(m: TerminationRequest): seq<Entry> {
    [Entry(0, Number(m.requestId)), Entry(1, Text(m.presentationId)), Entry(2, Number(m.reason))]
  }

  function TerminationEventEntries(m: TerminationEvent): seq<Entry> {
    [Entry(0, Text(m.presentationId)), Entry(1, Number(m.source)), Entry(2, Number(m.reason))]
  }

  function OpenRequestEntries(m: OpenRequest): seq<Entry> {
    [Entry(0, Number(m.requestId)), Entry(1, Text(m.presentationId)), Entry(2, Text(m.url))]
  }

  function StatusComplete(l: Locals): Result<StatusRequest, MessageError> {
    if NumberAt(l, 0).None? then Err(MissingField) else Ok(StatusRequest(NumberAt(l, 0).value, StatusAt(l, 1)))
  }

  function ConnectionComplete(l: Locals): Result<ConnectionMessage, MessageError> {
    if NumberAt(l, 0).None? || BlobAt(l, 1).None? then Err(MissingField)
    else Ok(ConnectionMessage(NumberAt(l, 0).value, BlobAt(l, 1).value))
  }

  function StartResponseComplete(l: Locals): Result<StartResponse, MessageError> {
    if NumberAt(l, 0).None? || NumberAt(l, 1).None? || NumberAt(l, 2).None? then Err(MissingField)
    else Ok(StartResponse(NumberAt(l, 0).value, NumberAt(l, 1).value, NumberAt(l, 2).value, NumberAt(l, 3)))
  }

  function TerminationRequestComplete(l: Locals): Result<TerminationRequest, MessageError> {
    if NumberAt(l, 0).None? || TextAt(l, 1).None? || NumberAt(l, 2).None? then Err(MissingField)
    else Ok(TerminationRequest(NumberAt(l, 0).value, TextAt(l, 1).value, NumberAt(l, 2).value))
  }

  function TerminationEventComplete(l: Locals): Result<TerminationEvent, MessageError> {
    if TextAt(l, 0).None? || NumberAt(l, 1).None? || NumberAt(l, 2).None? then Err(MissingField)
    else Ok(TerminationEvent(TextAt(l, 0).value, NumberAt(l, 1).value, NumberAt(l, 2).value))
  }

  function OpenRequestComplete(l: Locals): Result<OpenRequest, MessageError> {
    if NumberAt(l, 0).None? || TextAt(l, 1).None? || TextAt(l, 2).None? then Err(MissingField)
    else Ok(OpenRequest(NumberAt(l, 0).value, TextAt(l, 1).value, TextAt(l, 2).value))
  }

  /** The status request takes a map of any definite length. */
  function ParseStatusMap(s: Bytes): Parse<Locals> {
    match ParseMap(s)
    case None => Err(DecodeFailed)
    case Some((None, _)) => Err(DecodeFailed)
    case Some((Some(n), s1)) => ParseEntries(StatusTable, s1, n)
  }

  function ParseConnectionMap(s: Bytes): Parse<Locals> {
    ParseFlat(ConnectionTable, {2}, s)
  }

  function ParseStartResponseMap(s: Bytes): Parse<Locals> {
    ParseFlat(StartResponseTable, {3, 4}, s)
  }

  function ParseTerminationRequestMap(s: Bytes): Parse<Locals> {
    ParseFlat(TerminationRequestTable, {3}, s)
  }

  function ParseTerminationEventMap(s: Bytes): Parse<Locals> {
    ParseFlat(TerminationEventTable, {3}, s)
  }

  function ParseOpenRequestMap(s: Bytes): Parse<Locals> {
    ParseFlat(OpenRequestTable, {3}, s)
  }

  /** Completes a message from the variables its map filled. */
  function Completed<M>(p: Parse<Locals>, complete: Locals -> Result<M, MessageError>): Result<M, MessageError> {
    match p
    case Err(e) => Err(e)
    case Ok((locals, _)) => complete(locals)
  }

  /** The parsers of the flat maps, as the dispatcher sees them. */
  datatype FlatParsers = FlatParsers(
    status: Bytes -> Parse<Locals>,
    connection: Bytes -> Parse<Locals>,
    startResponse: Bytes -> Parse<Locals>,
    terminationRequest: Bytes -> Parse<Locals>,
    terminationEvent: Bytes -> Parse<Locals>,
    openRequest: Bytes -> Parse<Locals>)

  const FLAT := FlatParsers(
    ParseStatusMap, ParseConnectionMap, ParseStartResponseMap,
    ParseTerminationRequestMap, ParseTerminationEventMap, ParseOpenRequestMap)

  // ---------------------------------------------------------------- dispatch

  /** A message of the layer; the six types that only raise an event are known by their key
      and body. */
  datatype AppMessage =
    | AgentInfoRequestMsg(requestId: nat)
    | AgentInfoMsg(agent: AgentInfoResponse)
    | StartRequestMsg(start: StartRequest)
    | UrlRequestMsg(url: UrlRequest)
    | OpenResponseMsg(open: OpenResponse)
    | CloseEventMsg(close: CloseEvent)
    | StatusRequestMsg(statusRequest: StatusRequest)
    | ConnectionMsg(connection: ConnectionMessage)
    | StartResponseMsg(startResponse: StartResponse)
    | TerminationRequestMsg(terminationRequest: TerminationRequest)
    | TerminationEventMsg(termination: TerminationEvent)
    | OpenRequestMsg(openRequest: OpenRequest)
    | OtherMsg(key: u16, body: Bytes)

  function InfoRequestBody(id: nat): Bytes {
    EncodeHead(MAP, 1) + (EncodeUint(0) + EncodeUint(id))
  }

  function ParseInfoRequest(s: Bytes): Parse<nat> {
    match ParseMap(s)
    case None => Err(DecodeFailed)
    case Some((len, s1)) =>
      if len != Some(1) then Err(InvalidField)
      else match ParseKey(s1, 0)
           case Err(e) => Err(e)
           case Ok(s2) => ParseNumber(s2)
  }

  function AppKeyOf(m: AppMessage): u16 {
    match m
    case AgentInfoRequestMsg(_) => AGENT_INFO_REQUEST_KEY
    case AgentInfoMsg(_) => AGENT_INFO_RESPONSE_KEY
    case StartRequestMsg(_) => START_REQUEST_KEY
    case UrlRequestMsg(_) => URL_AVAILABILITY_REQUEST_KEY
    case OpenResponseMsg(_) => OPEN_RESPONSE_KEY
    case CloseEventMsg(_) => CLOSE_EVENT_KEY
    case StatusRequestMsg(_) => STATUS_REQUEST_KEY
    case ConnectionMsg(_) => CONNECTION_MESSAGE_KEY
    case StartResponseMsg(_) => START_RESPONSE_KEY
    case TerminationRequestMsg(_) => TERMINATION_REQUEST_KEY
    case TerminationEventMsg(_) => TERMINATION_EVENT_KEY
    case OpenRequestMsg(_) => OPEN_REQUEST_KEY
    case OtherMsg(key, _) => key
  }

  predicate IsFlat(m: AppMessage) {
    m.StatusRequestMsg? || m.ConnectionMsg? || m.StartResponseMsg? || m.TerminationRequestMsg?
    || m.TerminationEventMsg? || m.OpenRequestMsg?
  }

  /** The entries of a flat message. */
  function FlatEntries(m: AppMessage): seq<Entry>
    requires IsFlat(m)
  {
    match m
    case StatusRequestMsg(r) => StatusEntries(r)
    case ConnectionMsg(c) => ConnectionEntries(c)
    case StartResponseMsg(r) => StartResponseEntries(r)
    case TerminationRequestMsg(r) => TerminationRequestEntries(r)
    case TerminationEventMsg(e) => TerminationEventEntries(e)
    case OpenRequestMsg(r) => OpenRequestEntries(r)
  }

  function AppBody(m: AppMessage): Bytes {
    match m
    case AgentInfoRequestMsg(id) => InfoRequestBody(id)
    case AgentInfoMsg(a) => AgentInfoResponseBody(a)
    case StartRequestMsg(r) => StartBody(r)
    case UrlRequestMsg(r) => UrlBody(r)
    case OpenResponseMsg(r) => OpenBody(r)
    case CloseEventMsg(e) => CloseBody(e)
    case StatusRequestMsg(r) => FlatBody(StatusEntries(r))
    case ConnectionMsg(c) => FlatBody(ConnectionEntries(c))
    case StartResponseMsg(r) => FlatBody(StartResponseEntries(r))
    case TerminationRequestMsg(r) => FlatBody(TerminationRequestEntries(r))
    case TerminationEventMsg(e) => FlatBody(TerminationEventEntries(e))
    case OpenRequestMsg(r) => FlatBody(OpenRequestEntries(r))
    case OtherMsg(_, body) => body
  }

  function AppEncode(m: AppMessage): Bytes {
    TypeKey(AppKeyOf(m)) + AppBody(m)
  }

  /** Which bodies the decoders of the other types accept. */
  type OtherBodies = (u16, Bytes) -> bool

  /** The bodies that are flat maps, and those not modelled. */
  function DecodeFlatBody(p: FlatParsers, other: OtherBodies, key: u16, body: Bytes): Result<AppMessage, MessageError> {
    if key == STATUS_REQUEST_KEY then
      match Completed(p.status(body), StatusComplete)
      case Err(e) => Err(e)
      case Ok(m) => Ok(StatusRequestMsg(m))
    else if key == CONNECTION_MESSAGE_KEY then
      match Completed(p.connection(body), ConnectionComplete)
      case Err(e) => Err(e)
      case Ok(m) => Ok(ConnectionMsg(m))
    else if key == START_RESPONSE_KEY then
      match Completed(p.startResponse(body), StartResponseComplete)
      case Err(e) => Err(e)
      case Ok(m) => Ok(StartResponseMsg(m))
    else if key == TERMINATION_REQUEST_KEY then
      match Completed(p.terminationRequest(body), TerminationRequestComplete)
      case Err(e) => Err(e)
      case Ok(m) => Ok(TerminationRequestMsg(m))
    else if key == TERMINATION_EVENT_KEY then
      match Completed(p.terminationEvent(body), TerminationEventComplete)
      case Err(e) => Err(e)
      case Ok(m) => Ok(TerminationEventMsg(m))
    else if key == OPEN_REQUEST_KEY then
      match Completed(p.openRequest(body), OpenRequestComplete)
      case Err(e) => Err(e)
      case Ok(m) => Ok(OpenRequestMsg(m))
    else if !IsAppKey(key) then Err(InvalidMessageType)
    else if other(key, body) then Ok(OtherMsg(key, body))
    else Err(DecodeFailed)
  }

  function AppDecodeBody(other: OtherBodies, key: u16, body: Bytes): Result<AppMessage, MessageError> {
    if key == AGENT_INFO_REQUEST_KEY then
      match ParseInfoRequest(body)
      case Err(e) => Err(e)
      case Ok((id, _)) => Ok(AgentInfoRequestMsg(id))
    else if key == AGENT_INFO_RESPONSE_KEY then
      match ParseAgentInfoResponse(body)
      case Err(e) => Err(e)
      case Ok((m, _)) => Ok(AgentInfoMsg(m))
    else if key == START_REQUEST_KEY then
      match ParseStartRequest(body)
      case Err(e) => Err(e)
      case Ok((m, _)) => Ok(StartRequestMsg(m))
    else if key == URL_AVAILABILITY_REQUEST_KEY then
      match ParseUrlRequest(body)
      case Err(e) => Err(e)
      case Ok((m, _)) => Ok(UrlRequestMsg(m))
    else if key == OPEN_RESPONSE_KEY then
      match ParseOpenResponse(body)
      case Err(e) => Err(e)
      case Ok((m, _)) => Ok(OpenResponseMsg(m))
    else if key == CLOSE_EVENT_KEY then
      match ParseCloseEvent(body)
      case Err(e) => Err(e)
      case Ok((m, _)) => Ok(CloseEventMsg(m))
    else DecodeFlatBody(FLAT, other, key, body)
  }

  function AppDecode(other: OtherBodies, data: Bytes): Result<AppMessage, MessageError> {
    match DecodeTypeKey(data)
    case Err(e) => Err(e)
    case Ok((key, n)) => AppDecodeBody(other, key, data[n..])
  }
}
