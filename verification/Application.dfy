/** The application layer: it decodes what arrives as an application message first, hands
    anything else to the network machine, and numbers the requests it sends. */
module Application {
  import opened Basics
  import opened VarInt
  import opened Cbor
  import opened Machine
  import opened StateMachine
  import M = Messages
  import opened AppMessages
  import AppCodec

  datatype AppState = Unauthenticated | Ready | Presenting

  datatype AppInput =
    | StartPresentation(url: Bytes, presentationId: Bytes)
    | TerminatePresentation(presentationId: Bytes, reason: nat)
    | CheckUrlAvailability(urls: seq<Bytes>, watchDuration: nat)
    | OpenConnection(presentationId: Bytes, url: Bytes)
    | SendMessageOn(connectionId: nat, message: Bytes)
    | ClosePresentation(connectionId: nat, reason: nat)
    | RequestStatus(status: Option<Bytes>)
    | RequestInfo
    | Transport(input: Input)

  datatype AppError = NotAuthenticated | AppEncodeFailed | AppBufferFull | FromNetwork(error: NetworkError)

  datatype AppOutput =
    | OpenBiStream
    | SendAppData(data: Bytes)
    | AppCloseStream(stream: nat)
    | AppCloseConnection
    | AppRequestCrypto(request: CryptoRequest)
    | AppNeedsPoll
    | NetworkAuthenticated
    | NetworkFailed
    | Received(msg: AppMessage) // the event of an application message

  /** The longest message an event can carry. */
  const MAX_EVENT_MESSAGE := 1024

  datatype App = App(net: State, data: Data, app: AppState, nextId: nat)

  datatype AppStep = Did(next: App, result: Result<seq<AppOutput>, AppError>) | Aborts(next: App)

  function Fresh(config: Config): App {
    App(State.Idle, FreshData(config), Unauthenticated, 1)
  }

  // ---------------------------------------------------------------- commands

  /** The commands that carry a request id. */
  predicate IsRequest(input: AppInput) {
    input.StartPresentation? || input.TerminatePresentation? || input.CheckUrlAvailability?
    || input.OpenConnection? || input.RequestStatus? || input.RequestInfo?
  }

  predicate IsCommand(input: AppInput) {
    !input.Transport?
  }

  /** The message a command sends. */
  function CommandMessage(input: AppInput, id: nat): AppMessage
    requires IsCommand(input)
  {
    match input
    case StartPresentation(url, presentationId) => StartRequestMsg(StartRequest(id, presentationId, url, []))
    case TerminatePresentation(presentationId, reason) =>
      TerminationRequestMsg(TerminationRequest(id, presentationId, reason))
    case CheckUrlAvailability(urls, duration) => UrlRequestMsg(UrlRequest(id, urls, duration, 0))
    case OpenConnection(presentationId, url) => OpenRequestMsg(OpenRequest(id, presentationId, url))
    case SendMessageOn(connectionId, message) => ConnectionMsg(ConnectionMessage(connectionId, message))
    case ClosePresentation(connectionId, reason) => CloseEventMsg(CloseEvent(connectionId, reason, None, 0))
    case RequestStatus(status) => StatusRequestMsg(StatusRequest(id, status))
    case RequestInfo => AgentInfoRequestMsg(id)
  }

  /** A request consumes its id before anything else can fail. */
  function CommandStep(a: App, input: AppInput): AppStep
    requires IsCommand(input)
  {
    if a.net != Authenticated then Did(a, Err(NotAuthenticated))
    else
      var a1 := if IsRequest(input) then a.(nextId := (a.nextId + 1) % U64) else a;
      var bytes := AppEncode(CommandMessage(input, a.nextId));
      if input.CheckUrlAvailability? && |input.urls| > MAX_URLS then Did(a1, Err(AppBufferFull))
      else if |bytes| > MAX_MESSAGE_SIZE then Did(a1, Err(AppEncodeFailed))
      else Did(a1, Ok([SendAppData(bytes)]))
  }

  // ---------------------------------------------------------------- arrivals

  /** Messages that raise no event. */
  predicate Silent(m: AppMessage) {
    match m
    case OpenResponseMsg(r) => r.result != 1
    case OtherMsg(key, _) => key == 15 || key == 103 || key == 107
    case _ => m.AgentInfoRequestMsg? || m.StartRequestMsg? || m.UrlRequestMsg? || m.StatusRequestMsg?
              || m.TerminationRequestMsg? || m.OpenRequestMsg?
  }

  /** A start response that reports success. */
  predicate Accepts(m: AppMessage) {
    m.StartResponseMsg? && m.startResponse.result == 1
  }

  function StateAfter(app: AppState, m: AppMessage): AppState {
    if Accepts(m) then Presenting else if m.TerminationEventMsg? then Ready else app
  }

  function MessageStep(a: App, m: AppMessage): AppStep {
    var a1 := a.(app := StateAfter(a.app, m));
    if m.ConnectionMsg? && |m.connection.message| > MAX_EVENT_MESSAGE then Did(a1, Err(AppBufferFull))
    else Did(a1, Ok(if Silent(m) then [] else [Received(m)]))
  }

  /** Network outputs, as the layer above passes them on: messages and raw data are left to
      the transport. */
  function Convert(outs: seq<Output>): (r: seq<AppOutput>)
    ensures |r| <= |outs|
  {
    if outs == [] then []
    else
      (match outs[0]
       case OpenUniStream => [OpenBiStream]
       case SendMessage(_) => []
       case SendData(_) => []
       case CloseStream(s) => [AppCloseStream(s)]
       case CloseConnection => [AppCloseConnection]
       case RequestCrypto(r) => [AppRequestCrypto(r)]
       case NeedsPoll => [AppNeedsPoll]
       case Event(AuthenticatedEvent) => [NetworkAuthenticated]
       case Event(AuthenticationFailedEvent(_)) => [NetworkFailed])
      + Convert(outs[1..])
  }

  predicate Announces(outs: seq<Output>) {
    exists i :: 0 <= i < |outs| && outs[i] == Event(AuthenticatedEvent)
  }

  function NetworkStep(a: App, input: Input): AppStep {
    match HandleStep(WIRE, a.net, a.data, input, MAX_OUTPUTS)
    case Next(s, d, outs) =>
      Did(App(s, d, if Announces(outs) then Ready else a.app, a.nextId), Ok(Convert(outs)))
    case Fail(e) => Did(a.(net := Poisoned), Err(FromNetwork(e)))
    case Panic => Aborts(a.(net := Poisoned))
  }

  function InputStep(other: OtherBodies, a: App, input: AppInput): AppStep {
    match input
    case Transport(DataReceived(stream, bytes)) =>
      (match AppDecode(other, bytes)
       case Ok(m) => MessageStep(a, m)
       case Err(_) => NetworkStep(a, DataReceived(stream, bytes)))
    case Transport(i) => NetworkStep(a, i)
    case _ => CommandStep(a, input)
  }

  // ---------------------------------------------------------------- the code's own form

  class AppQueue {
    var items: seq<AppOutput>

    ghost predicate Valid()
      reads this
    {
      |items| <= MAX_OUTPUTS
    }

    constructor ()
      ensures items == []
    {
      items := [];
    }

    method Clear()
      modifies this
      ensures items == []
    {
      items := [];
    }

    method Push(o: AppOutput) returns (ok: bool)
      requires Valid()
      modifies this
      ensures Valid() && ok == (|old(items)| < MAX_OUTPUTS)
      ensures items == if ok then old(items) + [o] else old(items)
    {
      ok := |items| < MAX_OUTPUTS;
      if ok {
        items := items + [o];
      }
    }
  }

  lemma RegroupOutputs(a: seq<AppOutput>, b: seq<AppOutput>, c: seq<AppOutput>)
    ensures a + (b + c) == (a + b) + c
  {
  }

  lemma {:induction false} ConvertSplit(xs: seq<Output>, o: Output)
    ensures Convert(xs + [o]) == Convert(xs) + Convert([o])
  {
    if xs == [] {
      assert xs + [o] == [o] && Convert(xs) + Convert([o]) == Convert([o]);
    } else {
      assert (xs + [o])[1..] == xs[1..] + [o] && (xs + [o])[0] == xs[0];
      ConvertSplit(xs[1..], o);
      RegroupOutputs(Convert([xs[0]]), Convert(xs[1..]), Convert([o]));
      assert [xs[0]][1..] == [] && Convert([]) == [];
    }
  }

  /** How a step of the class ended: success, error, or an abort. */
  ghost predicate Ended(step: AppStep, r: Result<(), AppError>, panicked: bool, outs: seq<AppOutput>) {
    match step
    case Did(_, Ok(expected)) => r == Ok(()) && !panicked && outs == expected
    case Did(_, Err(e)) => r == Err(e) && !panicked
    case Aborts(_) => panicked
  }

  class ApplicationStateMachine {
    const network: Spake2StateMachine
    var app: AppState
    var nextId: nat

    constructor (network: Spake2StateMachine)
      ensures this.network == network && app == Unauthenticated && nextId == 1
    {
      this.network := network;
      app := Unauthenticated;
      nextId := 1;
    }

    function Snapshot(): App
      reads this, network, network.cryptoData
    {
      App(network.state, network.cryptoData.Snapshot(), app, nextId)
    }

    ghost predicate Valid()
      reads this, network, network.cryptoData
    {
      network.cryptoData.Valid() && nextId < U64
    }

    /** The object is where the step says; a poisoned machine's buffers are left open. */
    ghost predicate At(a: App)
      reads this, network, network.cryptoData
    {
      && network.state == a.net && app == a.app && nextId == a.nextId
      && (a.net != Poisoned ==> network.cryptoData.Snapshot() == a.data)
    }

    /** Encodes a command into its own 1024-byte buffer. */
    method EncodeCommand(input: AppInput, id: nat) returns (r: Result<Bytes, MessageError>)
      requires IsCommand(input)
      ensures var bytes := AppEncode(CommandMessage(input, id));
              (r.Ok? <==> |bytes| <= MAX_MESSAGE_SIZE) && (r.Ok? ==> r.value == bytes)
    {
      var buf := new ByteVec(MAX_MESSAGE_SIZE);
      ghost var bytes := AppEncode(CommandMessage(input, id));
      assert [] + bytes == bytes;
      var e: Result<(), MessageError>;
      var m := CommandMessage(input, id);
      if input.StartPresentation? {
        e := AppCodec.EncodeStartRequest(m.start, buf);
      } else if input.CheckUrlAvailability? {
        e := AppCodec.EncodeUrlRequest(m.url, buf);
      } else if input.ClosePresentation? {
        e := AppCodec.EncodeCloseEvent(m.close, buf);
      } else if input.RequestInfo? {
        e := AppCodec.EncodeAgentInfoRequest(id, buf);
      } else {
        e := AppCodec.EncodeFlat(m, buf);
      }
      if e.Err? { return Err(e.error); }
      return Ok(buf.items);
    }

    method HandleCommand(input: AppInput, outputs: AppQueue) returns (r: Result<(), AppError>)
      requires Valid() && IsCommand(input) && outputs.items == []
      modifies this, outputs
      ensures Valid() && outputs.Valid()
      ensures var step := CommandStep(old(Snapshot()), input);
              At(step.next) && Ended(step, r, false, outputs.items)
    {
      if network.state != Authenticated { return Err(NotAuthenticated); }
      var id := nextId;
      if IsRequest(input) {
        nextId := (nextId + 1) % U64;
      }
      if input.CheckUrlAvailability? && |input.urls| > MAX_URLS { return Err(AppBufferFull); }
      var data := EncodeCommand(input, id);
      if data.Err? { return Err(AppEncodeFailed); }
      var ok := outputs.Push(SendAppData(data.value));
      if !ok { return Err(AppBufferFull); }
      return Ok(());
    }

    method HandleMessage(m: AppMessage, outputs: AppQueue) returns (r: Result<(), AppError>)
      requires Valid() && outputs.items == []
      modifies this`app, outputs
      ensures Valid() && outputs.Valid()
      ensures var step := MessageStep(old(Snapshot()), m);
              At(step.next) && Ended(step, r, false, outputs.items)
    {
      match m {
        case StartResponseMsg(response) =>
          if response.result == 1 { app := Presenting; }
        case TerminationEventMsg(_) =>
          app := Ready;
        case ConnectionMsg(c) =>
          if |c.message| > MAX_EVENT_MESSAGE { return Err(AppBufferFull); }
        case _ =>
      }
      if !Silent(m) {
        var ok := outputs.Push(Received(m));
        if !ok { return Err(AppBufferFull); }
      }
      return Ok(());
    }

    /** Passes on what concerns the layer above; an announcement also moves the state. */
    method PassOn(outs: seq<Output>, outputs: AppQueue) returns (r: Result<(), AppError>)
      requires |outs| <= MAX_OUTPUTS && outputs.items == []
      modifies this`app, outputs
      ensures r == Ok(()) && outputs.Valid() && outputs.items == Convert(outs)
      ensures app == if Announces(outs) then Ready else old(app)
    {
      assert outs[..0] == [];
      for i := 0 to |outs|
        invariant outputs.items == Convert(outs[..i]) && |Convert(outs[..i])| <= i
        invariant app == if Announces(outs[..i]) then Ready else old(app)
      {
        assert outs[..i + 1] == outs[..i] + [outs[i]];
        ConvertSplit(outs[..i], outs[i]);
        ConvertOne(outs[i]);
        AnnouncesSplit(outs, i);
        var ok := true;
        match outs[i] {
          case OpenUniStream => ok := outputs.Push(OpenBiStream);
          case SendMessage(_) =>
          case SendData(_) =>
          case CloseStream(s) => ok := outputs.Push(AppCloseStream(s));
          case CloseConnection => ok := outputs.Push(AppCloseConnection);
          case RequestCrypto(request) => ok := outputs.Push(AppRequestCrypto(request));
          case NeedsPoll => ok := outputs.Push(AppNeedsPoll);
          case Event(event) =>
            if event.AuthenticatedEvent? {
              app := Ready;
              ok := outputs.Push(NetworkAuthenticated);
            } else {
              ok := outputs.Push(NetworkFailed);
            }
        }
        if !ok { return Err(AppBufferFull); }
      }
      assert outs[..|outs|] == outs;
      return Ok(());
    }

    lemma ConvertOne(o: Output)
      ensures |Convert([o])| <= 1
      ensures match o
              case OpenUniStream => Convert([o]) == [OpenBiStream]
              case SendMessage(_) => Convert([o]) == []
              case SendData(_) => Convert([o]) == []
              case CloseStream(s) => Convert([o]) == [AppCloseStream(s)]
              case CloseConnection => Convert([o]) == [AppCloseConnection]
              case RequestCrypto(r) => Convert([o]) == [AppRequestCrypto(r)]
              case NeedsPoll => Convert([o]) == [AppNeedsPoll]
              case Event(e) => Convert([o]) == if e.AuthenticatedEvent? then [NetworkAuthenticated] else [NetworkFailed]
    {
      assert [o][1..] == [];
    }

    lemma AnnouncesSplit(outs: seq<Output>, i: nat)
      requires i < |outs|
      ensures Announces(outs[..i + 1]) <==> Announces(outs[..i]) || outs[i] == Event(AuthenticatedEvent)
    {
      if Announces(outs[..i]) {
        var j :| 0 <= j < i && outs[..i][j] == Event(AuthenticatedEvent);
        assert outs[..i + 1][j] == Event(AuthenticatedEvent);
      }
      if outs[i] == Event(AuthenticatedEvent) {
        assert outs[..i + 1][i] == Event(AuthenticatedEvent);
      }
      if Announces(outs[..i + 1]) {
        var j :| 0 <= j < i + 1 && outs[..i + 1][j] == Event(AuthenticatedEvent);
        assert j < i ==> outs[..i][j] == Event(AuthenticatedEvent);
      }
    }

    /** One call of the network machine with a fresh output queue. */
    method RunNetwork(input: Input) returns (r: Result<(), NetworkError>, panicked: bool, outs: seq<Output>)
      requires Valid()
      modifies network, network.cryptoData
      ensures Valid() && |outs| <= MAX_OUTPUTS
      ensures match HandleStep(WIRE, old(network.state), old(network.cryptoData.Snapshot()), input, MAX_OUTPUTS)
              case Next(s, d, expected) =>
                r == Ok(()) && !panicked && outs == expected && network.state == s && network.cryptoData.Snapshot() == d
              case Fail(e) => r == Err(e) && !panicked && network.state == Poisoned
              case Panic => panicked && network.state == Poisoned
    {
      var queue := new OutputQueue();
      r, panicked := network.Handle(input, queue);
      outs := queue.items;
      assert [] + queue.items == queue.items;
    }

    method HandleNetworkEvent(input: Input, outputs: AppQueue) returns (r: Result<(), AppError>, panicked: bool)
      requires Valid() && outputs.items == []
      modifies this`app, network, network.cryptoData, outputs
      ensures Valid() && outputs.Valid()
      ensures var step := NetworkStep(old(Snapshot()), input);
              At(step.next) && Ended(step, r, panicked, outputs.items)
    {
      var handled, outs;
      handled, panicked, outs := RunNetwork(input);
      if panicked { return Err(FromNetwork(InvalidState)), true; }
      if handled.Err? { return Err(FromNetwork(handled.error)), false; }
      r := PassOn(outs, outputs);
    }

    method HandleDataReceived(other: OtherBodies, stream: nat, bytes: Bytes, outputs: AppQueue) returns (r: Result<(), AppError>, panicked: bool)
      requires Valid() && outputs.items == []
      modifies this`app, network, network.cryptoData, outputs
      ensures Valid() && outputs.Valid()
      ensures var step := InputStep(other, old(Snapshot()), Transport(DataReceived(stream, bytes)));
              At(step.next) && Ended(step, r, panicked, outputs.items)
    {
      var decoded := AppCodec.DecodeAppMessage(other, bytes);
      if decoded.Ok? {
        r := HandleMessage(decoded.value, outputs);
        panicked := false;
      } else {
        r, panicked := HandleNetworkEvent(DataReceived(stream, bytes), outputs);
      }
    }

    method HandleInput(other: OtherBodies, input: AppInput, outputs: AppQueue) returns (r: Result<(), AppError>, panicked: bool)
      requires Valid()
      modifies this, network, network.cryptoData, outputs
      ensures Valid() && outputs.Valid()
      ensures var step := InputStep(other, old(Snapshot()), input);
              At(step.next) && Ended(step, r, panicked, outputs.items)
    {
      outputs.Clear();
      match input {
        case Transport(i) =>
          if i.DataReceived? {
            r, panicked := HandleDataReceived(other, i.stream, i.bytes, outputs);
          } else {
            r, panicked := HandleNetworkEvent(i, outputs);
          }
        case _ =>
          r := HandleCommand(input, outputs);
          panicked := false;
      }
    }
  }
}
