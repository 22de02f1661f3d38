/** Routing between the two layers, and what holds in every run of the application layer. */
module ApplicationTheorems {
  import opened Basics
  import opened VarInt
  import opened Cbor
  import opened Parsing
  import opened FlatMaps
  import opened Machine
  import M = Messages
  import MT = MessageTheorems
  import opened AppMessages
  import AT = AppTheorems
  import opened Application

  // ---------------------------------------------------------------- routing

  predicate IsNetworkKey(key: u16) {
    1001 <= key <= 1005
  }

  lemma KeysAreDisjoint(key: u16)
    ensures !(IsAppKey(key) && IsNetworkKey(key))
  {
  }

  lemma NetworkKey(data: Bytes)
    requires !M.Decode(data).Bad?
    ensures DecodeTypeKey(data).Ok? && IsNetworkKey(DecodeTypeKey(data).value.0)
  {
  }

  /** No byte string is a message of both layers. */
  lemma LayersAreDisjoint(other: OtherBodies, data: Bytes)
    requires AppDecode(other, data).Ok?
    ensures M.Decode(data).Bad?
  {
    AT.DecodedKey(other, data);
    if !M.Decode(data).Bad? {
      NetworkKey(data);
      KeysAreDisjoint(DecodeTypeKey(data).value.0);
    }
  }

  /** A decodable application message never reaches the network machine. */
  lemma AppMessagesStay(other: OtherBodies, a: App, stream: nat, data: Bytes)
    requires AppDecode(other, data).Ok?
    ensures var step := InputStep(other, a, Transport(DataReceived(stream, data)));
            step.next.net == a.net && step.next.data == a.data && step.next.nextId == a.nextId && !step.Aborts?
  {
  }

  /** Every encoded network message, whatever follows it, is handed to the network machine
      unchanged. */
  lemma NetworkMessagesPass(other: OtherBodies, a: App, stream: nat, m: M.Message, rest: Bytes)
    ensures InputStep(other, a, Transport(DataReceived(stream, M.Encode(m) + rest)))
         == NetworkStep(a, DataReceived(stream, M.Encode(m) + rest))
  {
    var data := M.Encode(m) + rest;
    MT.KeySeparates(m, rest, 0);
    if AppDecode(other, data).Ok? {
      AT.DecodedKey(other, data);
    }
  }

  // ---------------------------------------------------------------- runs

  function AppRun(other: OtherBodies, a: App, inputs: seq<AppInput>): App
    decreases |inputs|
  {
    if inputs == [] then a else AppRun(other, InputStep(other, a, inputs[0]).next, inputs[1..])
  }

  /** Authenticated below implies authenticated above. */
  predicate Layered(a: App) {
    a.net == Authenticated ==> a.app != Unauthenticated
  }

  /** The machine becomes Authenticated only with its announcement. */
  lemma AuthenticationIsAnnounced(s: State, d: Data, input: Input)
    ensures var step := HandleStep(WIRE, s, d, input, MAX_OUTPUTS);
            step.Next? && step.state == Authenticated && s != Authenticated ==> Announces(step.outputs)
  {
    var step := HandleStep(WIRE, s, d, input, MAX_OUTPUTS);
    if step.Next? && step.state == Authenticated && s != Authenticated {
      assert step.outputs[0] == Event(AuthenticatedEvent);
    }
  }

  lemma InputKeepsLayered(other: OtherBodies, a: App, input: AppInput)
    requires Layered(a)
    ensures Layered(InputStep(other, a, input).next)
  {
    if input.Transport? {
      AuthenticationIsAnnounced(a.net, a.data, input.input);
      if input.input.DataReceived? && AppDecode(other, input.input.bytes).Ok? {
        AppMessagesStay(other, a, input.input.stream, input.input.bytes);
      } else {
        NetworkKeepsLayered(a, input.input);
      }
    }
  }

  lemma NetworkKeepsLayered(a: App, input: Input)
    requires Layered(a)
    ensures Layered(NetworkStep(a, input).next)
  {
    AuthenticationIsAnnounced(a.net, a.data, input);
  }

  /** In every run, once the network machine is authenticated the application state is
      authenticated or presenting. */
  lemma {:induction false} RunKeepsLayered(other: OtherBodies, a: App, inputs: seq<AppInput>)
    requires Layered(a)
    ensures Layered(AppRun(other, a, inputs))
    decreases |inputs|
  {
    if inputs != [] {
      InputKeepsLayered(other, a, inputs[0]);
      RunKeepsLayered(other, InputStep(other, a, inputs[0]).next, inputs[1..]);
    }
  }

  // ---------------------------------------------------------------- the converse

  /** Authenticated above implies authenticated below. */
  predicate Sound(a: App) {
    a.app != Unauthenticated ==> a.net == Authenticated
  }

  predicate AlwaysSound(other: OtherBodies, a: App, inputs: seq<AppInput>)
    decreases |inputs|
  {
    Sound(a) && (inputs == [] || AlwaysSound(other, InputStep(other, a, inputs[0]).next, inputs[1..]))
  }

  /** A start response that reports success: request 1, result 1, connection 0. */
  const ACCEPTED: Bytes := [0x40, 0x69, 0xA3, 0x00, 0x01, 0x01, 0x01, 0x02, 0x00]

  lemma AcceptedEntries()
    ensures Concat(EntryBytes, StartResponseEntries(StartResponse(1, 1, 0, None))) == [0x00, 0x01, 0x01, 0x01, 0x02, 0x00]
  {
    var es := StartResponseEntries(StartResponse(1, 1, 0, None));
    var a, b, c := Entry(0, Number(1)), Entry(1, Number(1)), Entry(2, Number(0));
    assert es == [a, b, c];
    Concat3(EntryBytes, a, b, c);
    assert EntryBytes(a) == [0x00, 0x01] && EntryBytes(b) == [0x01, 0x01] && EntryBytes(c) == [0x02, 0x00];
  }

  lemma AcceptedHead()
    ensures TypeKey(START_RESPONSE_KEY) == [0x40, 0x69] && EncodeHead(MAP, 3) == [0xA3]
  {
  }

  lemma EncodedFlat(m: AppMessage, n: nat, entries: Bytes)
    requires m.StartResponseMsg? && entries == Concat(EntryBytes, StartResponseEntries(m.startResponse))
    requires n == |StartResponseEntries(m.startResponse)|
    ensures AppEncode(m) == TypeKey(START_RESPONSE_KEY) + (EncodeHead(MAP, n) + entries)
  {
  }

  lemma AcceptedEncodes(r: StartResponse, entries: Bytes)
    requires r.httpCode.None? && entries == Concat(EntryBytes, StartResponseEntries(r))
    requires entries == [0x00, 0x01, 0x01, 0x01, 0x02, 0x00]
    ensures AppEncode(StartResponseMsg(r)) == ACCEPTED
  {
    AcceptedHead();
    EncodedFlat(StartResponseMsg(r), 3, entries);
  }

  lemma AcceptedResponse() returns (r: StartResponse)
    ensures r.httpCode.None? && AT.WellFormedStartResponse(r) && r.result == 1
    ensures Concat(EntryBytes, StartResponseEntries(r)) == [0x00, 0x01, 0x01, 0x01, 0x02, 0x00]
  {
    AcceptedEntries();
    r := StartResponse(1, 1, 0, None);
  }

  lemma DecodesAs(other: OtherBodies, m: AppMessage, bytes: Bytes)
    requires AT.WellFormed(m) && bytes == AppEncode(m)
    ensures AppDecode(other, bytes) == Ok(m)
  {
    AT.AppRoundTrip(other, m, []);
    assert bytes + [] == bytes;
  }

  lemma AcceptedDecodes(other: OtherBodies) returns (m: AppMessage, bytes: Bytes)
    ensures bytes == ACCEPTED && Accepts(m) && AppDecode(other, bytes) == Ok(m)
  {
    var r := AcceptedResponse();
    m := StartResponseMsg(r);
    bytes := AppEncode(m);
    AcceptedEncodes(r, Concat(EntryBytes, StartResponseEntries(r)));
    DecodesAs(other, m, bytes);
  }

  /** It fails of the code: these nine bytes, arriving first on a fresh connection, make the
      layer present while the network machine is idle. */
  lemma PresentingUnauthenticated(other: OtherBodies, config: Config)
    ensures var a := AppRun(other, Fresh(config), [Transport(DataReceived(0, ACCEPTED))]);
            a.app == Presenting && a.net == State.Idle
  {
    var m, bytes := AcceptedDecodes(other);
    var input := Transport(DataReceived(0, bytes));
    assert [input][1..] == [];
  }

  /** Bytes that decode as a termination event or as a start response that reports success. */
  predicate Lifts(other: OtherBodies, bytes: Bytes) {
    var m := AppDecode(other, bytes);
    m.Ok? && (m.value.TerminationEventMsg? || Accepts(m.value))
  }

  /** Such bytes arrive before the network machine is authenticated. */
  predicate Premature(other: OtherBodies, a: App, input: AppInput) {
    a.net != Authenticated && input.Transport? && input.input.DataReceived? && Lifts(other, input.input.bytes)
  }

  predicate NeverPremature(other: OtherBodies, a: App, inputs: seq<AppInput>)
    decreases |inputs|
  {
    inputs == [] || (!Premature(other, a, inputs[0]) && NeverPremature(other, InputStep(other, a, inputs[0]).next, inputs[1..]))
  }

  /** The announcement is made only on becoming Authenticated, which is final. */
  lemma AnnouncedIsAuthenticated(s: State, d: Data, input: Input)
    ensures var step := HandleStep(WIRE, s, d, input, MAX_OUTPUTS);
            (step.Next? && (Announces(step.outputs) || s == Authenticated) ==> step.state == Authenticated)
            && (s == Authenticated ==> step.Next?)
  {
  }

  lemma NetworkStaysSound(a: App, input: Input)
    requires Sound(a)
    ensures Sound(NetworkStep(a, input).next)
  {
    AnnouncedIsAuthenticated(a.net, a.data, input);
  }

  lemma MessageSoundExact(a: App, m: AppMessage)
    requires Sound(a)
    ensures Sound(MessageStep(a, m).next) <==> a.net == Authenticated || !(m.TerminationEventMsg? || Accepts(m))
  {
  }

  lemma SoundStepExact(other: OtherBodies, a: App, input: AppInput)
    requires Sound(a)
    ensures Sound(InputStep(other, a, input).next) <==> !Premature(other, a, input)
  {
    if input.Transport? {
      if input.input.DataReceived? && AppDecode(other, input.input.bytes).Ok? {
        MessageSoundExact(a, AppDecode(other, input.input.bytes).value);
      } else {
        NetworkStaysSound(a, input.input);
      }
    }
  }

  /** Exactly when it holds: the layer is never ahead of the network machine in a run if and
      only if no termination event and no successful start response arrives before the
      network machine is authenticated. */
  lemma {:induction false} SoundExactly(other: OtherBodies, a: App, inputs: seq<AppInput>)
    requires Sound(a)
    ensures AlwaysSound(other, a, inputs) <==> NeverPremature(other, a, inputs)
    decreases |inputs|
  {
    if inputs != [] {
      var next := InputStep(other, a, inputs[0]).next;
      SoundStepExact(other, a, inputs[0]);
      if Sound(next) {
        SoundExactly(other, next, inputs[1..]);
      }
    }
  }

  // ---------------------------------------------------------------- request ids

  /** The id in a request. */
  function RequestId(m: AppMessage): seq<nat> {
    match m
    case AgentInfoRequestMsg(id) => [id]
    case StartRequestMsg(r) => [r.requestId]
    case UrlRequestMsg(r) => [r.requestId]
    case StatusRequestMsg(r) => [r.requestId]
    case TerminationRequestMsg(r) => [r.requestId]
    case OpenRequestMsg(r) => [r.requestId]
    case _ => []
  }

  /** The id that the receiver of some bytes reads in them. */
  function IdIn(other: OtherBodies, bytes: Bytes): seq<nat> {
    match AppDecode(other, bytes)
    case Ok(m) => RequestId(m)
    case Err(_) => []
  }

  /** The request ids that the receiver reads in what was sent. */
  function IdsIn(other: OtherBodies, outs: seq<AppOutput>): seq<nat> {
    if outs == [] then []
    else (if outs[0].SendAppData? then IdIn(other, outs[0].data) else []) + IdsIn(other, outs[1..])
  }

  /** The request ids that an input makes the receiver read. */
  function SentIds(other: OtherBodies, a: App, input: AppInput): seq<nat> {
    match InputStep(other, a, input)
    case Did(_, Ok(outs)) => IdsIn(other, outs)
    case _ => []
  }

  /** The same over a run, in order. */
  function Ids(other: OtherBodies, a: App, inputs: seq<AppInput>): seq<nat>
    decreases |inputs|
  {
    if inputs == [] then []
    else SentIds(other, a, inputs[0]) + Ids(other, InputStep(other, a, inputs[0]).next, inputs[1..])
  }

  /** What the argument types of the original guarantee. */
  predicate Typed(input: AppInput) {
    match input
    case StartPresentation(url, id) => AT.AnyText(url) && AT.AnyText(id)
    case TerminatePresentation(id, reason) => AT.AnyText(id) && TerminationCode(reason)
    case CheckUrlAvailability(urls, duration) => duration < U64 && forall u :: u in urls ==> AT.AnyText(u)
    case OpenConnection(id, url) => AT.AnyText(id) && AT.AnyText(url)
    case RequestStatus(status) => status.Some? ==> AT.AnyText(status.value)
    case _ => true
  }

  /** The texts that the receiving decoder limits. */
  predicate WithinLimits(input: AppInput) {
    match input
    case StartPresentation(url, id) => |url| <= MAX_STRING_LEN && |id| <= MAX_STRING_LEN
    case RequestStatus(status) => status.Some? ==> |status.value| <= MAX_STRING_LEN
    case _ => true
  }

  lemma RequestReadBack(other: OtherBodies, input: AppInput, id: nat)
    requires id < U64 && IsRequest(input) && Typed(input)
    requires input.CheckUrlAvailability? ==> |input.urls| <= MAX_URLS
    ensures AppDecode(other, AppEncode(CommandMessage(input, id))) ==
            if WithinLimits(input) then Ok(CommandMessage(input, id)) else Err(FieldTooLong)
  {
    var m := CommandMessage(input, id);
    if WithinLimits(input) {
      AT.AppRoundTrip(other, m, []);
      assert AppEncode(m) + [] == AppEncode(m);
    } else if input.StartPresentation? {
      AT.LongStartRefused(other, m.start);
    } else {
      AT.LongStatusRefused(other, m.statusRequest);
    }
  }

  /** What a successful request command sends decodes to a request with the command's
      arguments and the next id if and only if its texts are within the receiver's limits;
      beyond them the receiver refuses it. */
  lemma SentRequestCarriesId(other: OtherBodies, a: App, input: AppInput)
    requires a.nextId < U64 && IsRequest(input) && Typed(input)
    ensures var step := InputStep(other, a, input);
            step.Did? && (step.result.Ok? ==>
              && |step.result.value| == 1 && step.result.value[0].SendAppData?
              && AppDecode(other, step.result.value[0].data) ==
                 if WithinLimits(input) then Ok(CommandMessage(input, a.nextId)) else Err(FieldTooLong))
  {
    if InputStep(other, a, input).result.Ok? {
      RequestReadBack(other, input, a.nextId);
    }
  }

  lemma OneOutputIds(other: OtherBodies, o: AppOutput)
    ensures IdsIn(other, [o]) == if o.SendAppData? then IdIn(other, o.data) else []
  {
    assert [o][1..] == [];
  }

  lemma NotARequest(m: AppMessage)
    requires AppKeyOf(m) == CONNECTION_MESSAGE_KEY || AppKeyOf(m) == CLOSE_EVENT_KEY
    ensures RequestId(m) == []
  {
  }

  lemma KeyTells(other: OtherBodies, key: u16, body: Bytes, data: Bytes)
    requires data == TypeKey(key) + body && (key == CONNECTION_MESSAGE_KEY || key == CLOSE_EVENT_KEY)
    ensures IdIn(other, data) == []
  {
    TypeKeyRoundTrip(key, body);
    if AppDecode(other, data).Ok? {
      AT.DecodedKey(other, data);
      NotARequest(AppDecode(other, data).value);
    }
  }

  /** The bytes of a command that is no request hold no request id. */
  lemma OtherCommandIds(other: OtherBodies, input: AppInput, id: nat)
    requires input.SendMessageOn? || input.ClosePresentation?
    ensures IdIn(other, AppEncode(CommandMessage(input, id))) == []
  {
    var m := CommandMessage(input, id);
    KeyTells(other, AppKeyOf(m), AppBody(m), AppEncode(m));
  }

  /** What the network machine asks for holds none either. */
  lemma {:induction false} NetworkIds(other: OtherBodies, outs: seq<Output>)
    ensures IdsIn(other, Convert(outs)) == []
  {
    if outs != [] {
      NetworkIds(other, outs[1..]);
      var head := match outs[0]
                  case OpenUniStream => [OpenBiStream]
                  case SendMessage(_) => []
                  case SendData(_) => []
                  case CloseStream(s) => [AppCloseStream(s)]
                  case CloseConnection => [AppCloseConnection]
                  case RequestCrypto(r) => [AppRequestCrypto(r)]
                  case NeedsPoll => [AppNeedsPoll]
                  case Event(AuthenticatedEvent) => [NetworkAuthenticated]
                  case Event(AuthenticationFailedEvent(_)) => [NetworkFailed];
      assert Convert(outs) == head + Convert(outs[1..]);
      if head == [] {
        assert Convert(outs) == Convert(outs[1..]);
      } else {
        assert Convert(outs)[0] == head[0] && Convert(outs)[1..] == Convert(outs[1..]);
      }
    }
  }

  function Requests(inputs: seq<AppInput>): nat
    decreases |inputs|
  {
    if inputs == [] then 0 else (if IsRequest(inputs[0]) then 1 else 0) + Requests(inputs[1..])
  }

  lemma CommandIds(other: OtherBodies, a: App, input: AppInput)
    requires a.nextId < U64 && IsCommand(input) && Typed(input)
    ensures SentIds(other, a, input) == [] || (IsRequest(input) && SentIds(other, a, input) == [a.nextId])
    ensures SentIds(other, a, input) != [] ==> CommandStep(a, input).Did? && CommandStep(a, input).result.Ok?
  {
    var step := CommandStep(a, input);
    if step.result.Ok? {
      OneOutputIds(other, step.result.value[0]);
      if IsRequest(input) {
        RequestReadBack(other, input, a.nextId);
        CommandCarriesId(input, a.nextId);
      } else {
        OtherCommandIds(other, input, a.nextId);
      }
    }
  }

  lemma CommandCarriesId(input: AppInput, id: nat)
    requires IsRequest(input)
    ensures RequestId(CommandMessage(input, id)) == [id]
  {
  }

  lemma ArrivalIds(other: OtherBodies, a: App, input: Input)
    ensures SentIds(other, a, Transport(input)) == []
  {
    if input.DataReceived? && AppDecode(other, input.bytes).Ok? {
      MessageArrivalIds(other, a, AppDecode(other, input.bytes).value);
    } else {
      NetworkArrivalIds(other, a, input);
    }
  }

  lemma MessageArrivalIds(other: OtherBodies, a: App, m: AppMessage)
    ensures match MessageStep(a, m)
            case Did(_, Ok(outs)) => IdsIn(other, outs) == []
            case _ => true
  {
    OneOutputIds(other, Received(m));
  }

  lemma NetworkArrivalIds(other: OtherBodies, a: App, input: Input)
    ensures match NetworkStep(a, input)
            case Did(_, Ok(outs)) => IdsIn(other, outs) == []
            case _ => true
  {
    var net := HandleStep(WIRE, a.net, a.data, input, MAX_OUTPUTS);
    if net.Next? {
      NetworkIds(other, net.outputs);
    }
  }

  /** An input uses the id `low`, or leaves it unused; its receiver reads that id or none. */
  predicate Advances(low: nat, sent: seq<nat>, request: bool, next: nat) {
    && low < U64 && next < U64 && (sent == [] || sent == [low])
    && ((next == low && sent == []) || (request && next == if low + 1 < U64 then low + 1 else 0))
  }

  lemma CommandAdvances(a: App, input: AppInput, next: App, sends: bool)
    requires IsCommand(input) && next == CommandStep(a, input).next
    requires sends ==> IsRequest(input) && CommandStep(a, input).Did? && CommandStep(a, input).result.Ok?
    ensures (next.nextId == a.nextId && !sends) || (IsRequest(input) && next.nextId == (a.nextId + 1) % U64)
  {
  }

  lemma NextId(id: nat)
    requires id < U64
    ensures (id + 1) % U64 == if id + 1 < U64 then id + 1 else 0
  {
  }

  lemma ArrivalAdvances(other: OtherBodies, a: App, input: Input)
    ensures InputStep(other, a, Transport(input)).next.nextId == a.nextId
  {
  }

  lemma CommandIsStep(other: OtherBodies, a: App, input: AppInput)
    requires IsCommand(input)
    ensures InputStep(other, a, input) == CommandStep(a, input)
  {
  }

  lemma CommandIdAdvances(other: OtherBodies, a: App, input: AppInput, next: App, sent: seq<nat>)
    requires a.nextId < U64 && IsCommand(input) && Typed(input)
    requires next == CommandStep(a, input).next && sent == SentIds(other, a, input)
    ensures Advances(a.nextId, sent, IsRequest(input), next.nextId)
  {
    CommandIds(other, a, input);
    CommandAdvances(a, input, next, sent != []);
    NextId(a.nextId);
  }

  lemma IdAdvances(other: OtherBodies, a: App, input: AppInput) returns (next: App, sent: seq<nat>)
    requires a.nextId < U64 && Typed(input)
    ensures next == InputStep(other, a, input).next && sent == SentIds(other, a, input)
    ensures Advances(a.nextId, sent, IsRequest(input), next.nextId)
  {
    next, sent := InputStep(other, a, input).next, SentIds(other, a, input);
    if IsCommand(input) {
      CommandIsStep(other, a, input);
      CommandIdAdvances(other, a, input, next, sent);
    } else {
      ArrivalIds(other, a, input.input);
      ArrivalAdvances(other, a, input.input);
    }
  }

  lemma Unroll(other: OtherBodies, a: App, inputs: seq<AppInput>) returns (next: App, sent: seq<nat>)
    requires inputs != [] && a.nextId < U64 && Typed(inputs[0])
    ensures Ids(other, a, inputs) == sent + Ids(other, next, inputs[1..])
    ensures Advances(a.nextId, sent, IsRequest(inputs[0]), next.nextId)
  {
    next, sent := IdAdvances(other, a, inputs[0]);
  }

  ghost predicate Increasing(ids: seq<nat>) {
    forall i, j :: 0 <= i < j < |ids| ==> ids[i] < ids[j]
  }

  /** All of `ids` at least `low`, and increasing. */
  ghost predicate IncreasingFrom(low: nat, ids: seq<nat>)
    decreases |ids|
  {
    ids == [] || (low <= ids[0] && IncreasingFrom(ids[0] + 1, ids[1..]))
  }

  lemma OneMoreId(low: nat, ids: seq<nat>)
    requires IncreasingFrom(low + 1, ids)
    ensures IncreasingFrom(low, [low] + ids) && IncreasingFrom(low, [] + ids)
  {
    assert ([low] + ids)[1..] == ids;
    assert [] + ids == ids;
  }

  lemma {:induction false} FromIsPairwise(low: nat, ids: seq<nat>)
    requires IncreasingFrom(low, ids)
    ensures Increasing(ids) && forall i :: 0 <= i < |ids| ==> low <= ids[i]
    decreases |ids|
  {
    if ids != [] {
      FromIsPairwise(ids[0] + 1, ids[1..]);
      forall i, j | 0 <= i < j < |ids| ensures ids[i] < ids[j] {
        assert ids[j] == ids[1..][j - 1];
        if i > 0 {
          assert ids[i] == ids[1..][i - 1];
        }
      }
      forall i | 0 <= i < |ids| ensures low <= ids[i] {
        if i > 0 {
          assert ids[i] == ids[1..][i - 1];
        }
      }
    }
  }

  /** Adding the id of one input to those of the rest. */
  lemma IdsStep(low: nat, next: nat, first: seq<nat>, rest: seq<nat>)
    requires IncreasingFrom(next, rest)
    requires (next == low && first == []) || (next == low + 1 && (first == [] || first == [low]))
    ensures IncreasingFrom(low, first + rest)
  {
    if next == low + 1 {
      OneMoreId(low, rest);
    } else {
      assert first + rest == rest;
    }
  }

  lemma SentThen(low: nat, sent: seq<nat>, request: bool, next: nat, rest: seq<nat>)
    requires Advances(low, sent, request, next)
    requires rest == [] || ((request ==> low + 1 < U64) && IncreasingFrom(next, rest))
    ensures IncreasingFrom(low, sent + rest)
  {
    if rest == [] {
      IdsStep(low, low + 1, sent, []);
    } else {
      IdsStep(low, next, sent, rest);
    }
  }

  /** With at most `left` more requests, the ids do not run out. */
  lemma IdsSuffice(low: nat, sent: seq<nat>, request: bool, next: nat, left: nat)
    requires Advances(low, sent, request, next)
    requires left > 0 && low + (if request then 1 else 0) + left <= U64
    ensures next + left <= U64 && (request ==> low + 1 < U64)
  {
  }

  lemma {:induction false} IdsIncrease(other: OtherBodies, a: App, inputs: seq<AppInput>)
    requires a.nextId < U64 && (Requests(inputs) == 0 || a.nextId + Requests(inputs) <= U64)
    requires forall i :: 0 <= i < |inputs| ==> Typed(inputs[i])
    ensures IncreasingFrom(a.nextId, Ids(other, a, inputs))
    decreases |inputs|
  {
    if inputs != [] {
      var next, sent := Unroll(other, a, inputs);
      if Requests(inputs[1..]) == 0 {
        NoRequestsNoIds(other, next, inputs[1..]);
      } else {
        IdsSuffice(a.nextId, sent, IsRequest(inputs[0]), next.nextId, Requests(inputs[1..]));
        IdsIncrease(other, next, inputs[1..]);
      }
      SentThen(a.nextId, sent, IsRequest(inputs[0]), next.nextId, Ids(other, next, inputs[1..]));
    }
  }

  lemma {:induction false} NoRequestsNoIds(other: OtherBodies, a: App, inputs: seq<AppInput>)
    requires a.nextId < U64 && Requests(inputs) == 0
    requires forall i :: 0 <= i < |inputs| ==> Typed(inputs[i])
    ensures Ids(other, a, inputs) == []
    decreases |inputs|
  {
    if inputs != [] {
      var next, sent := Unroll(other, a, inputs);
      NoRequestsNoIds(other, next, inputs[1..]);
    }
  }

  /** Over any run from a fresh layer with at most 2^64 - 1 request commands, the request ids
      that the receiver reads are strictly increasing. */
  lemma RequestIdsIncrease(other: OtherBodies, config: Config, inputs: seq<AppInput>)
    requires Requests(inputs) < U64
    requires forall i :: 0 <= i < |inputs| ==> Typed(inputs[i])
    ensures Increasing(Ids(other, Fresh(config), inputs))
  {
    IdsIncrease(other, Fresh(config), inputs);
    FromIsPairwise(1, Ids(other, Fresh(config), inputs));
  }
}
