/** The state machine in the code's own form: handlers overwrite the shared buffers one
    after the other, push onto the caller's output queue, and return the next state. */
module StateMachine {
  import opened Basics
  import opened Cbor
  import opened Messages
  import MessageCodec
  import opened Machine

  /** The buffers and the configuration, updated in place. */
  class CryptoData {
    var psk: Bytes
    var authToken: Bytes
    var isResponder: bool
    var myFingerprint: Bytes
    var peerFingerprint: Bytes
    var spake2Public: Bytes
    var peerPublic: Bytes
    var sharedSecret: Bytes
    var tokenTemp: Bytes
    var ourHandshake: Bytes
    var peerHandshake: Bytes
    var transcript: Bytes
    var context: Bytes
    var initiatorKey: Bytes
    var responderKey: Bytes
    var myConfirmation: Bytes
    var peerConfirmation: Bytes
    var pending: Bytes

    function Configuration(): Config
      reads this
    {
      Config(psk, authToken, isResponder, myFingerprint, peerFingerprint)
    }

    function Snapshot(): Data
      reads this
    {
      Data(Configuration(), spake2Public, peerPublic, sharedSecret, tokenTemp, ourHandshake, peerHandshake,
           transcript, context, initiatorKey, responderKey, myConfirmation, peerConfirmation, pending)
    }

    ghost predicate Valid()
      reads this
    {
      Fits(Snapshot())
    }

    constructor ()
      ensures Valid() && Snapshot() == FreshData(Config([], [], false, [], []))
    {
      psk, authToken, isResponder, myFingerprint, peerFingerprint := [], [], false, [], [];
      spake2Public, peerPublic, sharedSecret, tokenTemp := [], [], [], [];
      ourHandshake, peerHandshake, transcript, context := [], [], [], [];
      initiatorKey, responderKey, myConfirmation, peerConfirmation, pending := [], [], [], [], [];
    }

    /** A value over the capacity is refused and leaves the field empty. */
    method SetPsk(password: Bytes) returns (ok: bool)
      requires Valid()
      modifies this`psk
      ensures Valid() && ok == (|password| <= 128)
      ensures psk == if ok then password else []
    {
      psk := [];
      ok := |password| <= MAX_PSK_SIZE;
      if ok {
        psk := password;
      }
    }

    method SetAuthToken(token: Bytes) returns (ok: bool)
      requires Valid()
      modifies this`authToken
      ensures Valid() && ok == (|token| <= 64)
      ensures authToken == if ok then token else []
    {
      authToken := [];
      ok := |token| <= MAX_AUTH_TOKEN_SIZE;
      if ok {
        authToken := token;
      }
    }

    method SetFingerprints(mine: Bytes, peers: Bytes) returns (ok: bool)
      requires Valid()
      modifies this`myFingerprint, this`peerFingerprint
      ensures Valid() && ok == (|mine| <= 32 && |peers| <= 32)
      ensures ok ==> myFingerprint == mine && peerFingerprint == peers
    {
      myFingerprint := [];
      if |mine| > MAX_FINGERPRINT_SIZE { return false; }
      myFingerprint := mine;
      peerFingerprint := [];
      if |peers| > MAX_FINGERPRINT_SIZE { return false; }
      peerFingerprint := peers;
      return true;
    }

    method SetRole(responder: bool)
      requires Valid()
      modifies this`isResponder
      ensures Valid() && isResponder == responder
    {
      isResponder := responder;
    }
  }

  /** The caller's queue of at most 16 outputs. */
  class OutputQueue {
    var items: seq<Output>

    ghost predicate Valid()
      reads this
    {
      |items| <= MAX_OUTPUTS
    }

    constructor ()
      ensures Valid() && items == []
    {
      items := [];
    }

    method Push(o: Output) returns (ok: bool)
      requires Valid()
      modifies this
      ensures Valid()
      ensures ok == (|old(items)| < 16)
      ensures items == if ok then old(items) + [o] else old(items)
    {
      ok := |items| < MAX_OUTPUTS;
      if ok {
        items := items + [o];
      }
    }
  }

  /** How a handler returns. */
  datatype Handled = Moved(state: State) | Error(error: NetworkError) | Panicked

  /** A handler did what `step` says: next state, whole new data and exactly the outputs
      emitted; or it failed the same way, leaving the buffers within their capacity. */
  ghost predicate Did(step: Step, r: Handled, before: seq<Output>, data: Data, after: seq<Output>) {
    match step
    case Next(s, d, outs) => r == Moved(s) && data == d && after == before + outs
    case Fail(e) => r == Error(e)
    case Panic => r == Panicked
  }

  /** The handshakes are exchanged and the finish has been requested. */
  predicate Exchanged(s: State) {
    s in {Computing, AwaitingConfirmation, AwaitingStatus, Authenticated, Poisoned} || s.Failed?
  }

  /** What the exchange fixed: both public values, both handshakes and the transcript. From
      the finish on every handler keeps it, also one that fails. */
  predicate SameExchange(before: Data, after: Data) {
    && after.spake2Public == before.spake2Public && after.peerPublic == before.peerPublic
    && after.ourHandshake == before.ourHandshake && after.peerHandshake == before.peerHandshake
    && after.transcript == before.transcript
  }

  ghost function Room(q: OutputQueue): nat
    reads q
    requires q.Valid()
  {
    MAX_OUTPUTS - |q.items|
  }

  method HandleIdle(cd: CryptoData, input: Input, outputs: OutputQueue) returns (r: Handled)
    requires cd.Valid() && outputs.Valid()
    modifies cd, outputs
    ensures cd.Valid() && outputs.Valid() && cd.Configuration() == old(cd.Configuration())
    ensures Did(IdleStep(old(cd.Snapshot()), input, old(Room(outputs))), r, old(outputs.items), cd.Snapshot(), outputs.items)
  {
    match input {
      case TransportConnected =>
        var ok := outputs.Push(SendMessage(OUR_CAPABILITIES));
        if !ok { return Error(NetworkError.BufferFull); }
        return Moved(AwaitingCapabilities);
      case Tick(_) =>
        return Moved(Idle);
      case _ =>
        return Panicked;
    }
  }

  method HandleAwaitingCapabilities(cd: CryptoData, input: Input, outputs: OutputQueue) returns (r: Handled)
    requires cd.Valid() && outputs.Valid()
    modifies cd, outputs
    ensures cd.Valid() && outputs.Valid() && cd.Configuration() == old(cd.Configuration())
    ensures Did(AwaitingCapabilitiesStep(WIRE, old(cd.Snapshot()), input, old(Room(outputs))), r, old(outputs.items), cd.Snapshot(), outputs.items)
  {
    match input {
      case DataReceived(_, bytes) =>
        var caps := MessageCodec.DecodeMessageOnly(CAPABILITIES_KEY, bytes);
        if !caps.Got? { return Error(NetworkError.DecodeFailed); }
        if cd.isResponder {
          return Moved(AwaitingHandshake);
        }
        var ok := outputs.Push(RequestCrypto(CryptoRequest(1, Start(cd.psk, false))));
        if !ok { return Error(NetworkError.BufferFull); }
        return Moved(InitiatingHandshake);
      case Tick(_) =>
        return Moved(AwaitingCapabilities);
      case _ =>
        return Panicked;
    }
  }

  /** Encodes into the 256-byte handshake buffer. */
  method StoreEncoded(cd: CryptoData, m: Message, ghost w: Codec) returns (ok: bool)
    requires cd.Valid() && Same(w, WIRE)
    modifies cd`ourHandshake
    ensures cd.Valid()
    ensures ok == (|w.encode(m)| <= MAX_HANDSHAKE_MSG_SIZE)
    ensures ok ==> cd.ourHandshake == w.encode(m)
  {
    assert Peek(0);
    var buf := new ByteVec(MAX_HANDSHAKE_MSG_SIZE);
    var encoded := MessageCodec.EncodeMessage(m, buf);
    cd.ourHandshake := buf.items;
    ok := encoded.Ok?;
    assert [] + w.encode(m) == w.encode(m);
  }

  /** The token goes into the handshake only if it is text and fits. */
  method KeepToken(cd: CryptoData, ghost w: Codec) returns (r: Result<(), NetworkError>)
    requires cd.Valid() && Same(w, WIRE)
    modifies cd`tokenTemp
    ensures cd.Valid()
    ensures cd.authToken != [] && !w.isText(cd.authToken) ==> r == Err(NetworkError.DecodeFailed)
    ensures cd.authToken == [] || w.isText(cd.authToken) ==> r == Ok(()) && cd.tokenTemp == cd.authToken
  {
    assert Peek(0);
    cd.tokenTemp := [];
    if cd.authToken != [] {
      if !ValidUtf8(cd.authToken) { return Err(NetworkError.DecodeFailed); }
      if |cd.authToken| > MAX_AUTH_TOKEN_SIZE { return Err(NetworkError.BufferFull); }
      cd.tokenTemp := cd.authToken;
    }
    return Ok(());
  }

  method MakeHandshake(cd: CryptoData, publicValue: Bytes, status: PskStatus, ghost w: Codec) returns (r: Result<(), NetworkError>)
    requires cd.Valid() && Same(w, WIRE)
    modifies cd
    ensures cd.Valid() && cd.Configuration() == old(cd.Configuration())
    ensures match GenerateHandshake(w, old(cd.Snapshot()), publicValue, status)
            case Err(e) => r == Err(e)
            case Ok(d) => r == Ok(()) && cd.Snapshot() == d
  {
    cd.spake2Public := [];
    if |publicValue| > MAX_CRYPTO_OUTPUT { return Err(NetworkError.BufferFull); }
    cd.spake2Public := publicValue;
    var kept := KeepToken(cd, w);
    if kept.Err? { return kept; }
    cd.ourHandshake := [];
    var m := HandshakeMsg(OwnHandshake(cd.tokenTemp, status, cd.spake2Public));
    var ok := StoreEncoded(cd, m, w);
    if !ok { return Err(NetworkError.EncodeFailed); }
    return Ok(());
  }

  method HandleInitiatingHandshake(cd: CryptoData, input: Input, outputs: OutputQueue) returns (r: Handled)
    requires cd.Valid() && outputs.Valid()
    modifies cd, outputs
    ensures cd.Valid() && outputs.Valid() && cd.Configuration() == old(cd.Configuration())
    ensures Did(InitiatingHandshakeStep(WIRE, old(cd.Snapshot()), input, old(Room(outputs))), r, old(outputs.items), cd.Snapshot(), outputs.items)
  {
    match input {
      case CryptoCompleted(result) =>
        var made := MakeHandshake(cd, result, PskShown, WIRE);
        if made.Err? { return Error(made.error); }
        var ok := outputs.Push(SendMessage(HandshakeMsg(OwnHandshake(cd.tokenTemp, PskShown, cd.spake2Public))));
        if !ok { return Error(NetworkError.BufferFull); }
        return Moved(AwaitingHandshake);
      case Tick(_) =>
        return Moved(InitiatingHandshake);
      case _ =>
        return Panicked;
    }
  }

  method MakeTranscript(cd: CryptoData, first: Bytes, second: Bytes) returns (r: Result<(), NetworkError>)
    requires cd.Valid()
    modifies cd`transcript
    ensures cd.Valid()
    ensures match BuildTranscript(old(cd.Snapshot()), first, second)
            case Err(e) => r == Err(e)
            case Ok(d) => r == Ok(()) && cd.Snapshot() == d
  {
    cd.transcript := [];
    if |first| > MAX_TRANSCRIPT_SIZE { return Err(NetworkError.BufferFull); }
    cd.transcript := first;
    if |cd.transcript| + |second| > MAX_TRANSCRIPT_SIZE { return Err(NetworkError.BufferFull); }
    cd.transcript := cd.transcript + second;
    return Ok(());
  }

  method HandleGeneratingHandshake(cd: CryptoData, input: Input, outputs: OutputQueue) returns (r: Handled)
    requires cd.Valid() && outputs.Valid()
    modifies cd, outputs
    ensures cd.Valid() && outputs.Valid() && cd.Configuration() == old(cd.Configuration())
    ensures Did(GeneratingHandshakeStep(WIRE, old(cd.Snapshot()), input, old(Room(outputs))), r, old(outputs.items), cd.Snapshot(), outputs.items)
  {
    match input {
      case CryptoCompleted(result) =>
        var made := MakeHandshake(cd, result, PskInput, WIRE);
        if made.Err? { return Error(made.error); }
        var ok := outputs.Push(SendMessage(HandshakeMsg(OwnHandshake(cd.tokenTemp, PskInput, cd.spake2Public))));
        if !ok { return Error(NetworkError.BufferFull); }
        var built := MakeTranscript(cd, cd.peerHandshake, cd.ourHandshake);
        if built.Err? { return Error(NetworkError.BufferFull); }
        ok := outputs.Push(RequestCrypto(CryptoRequest(2, Finish(
          cd.spake2Public, cd.peerPublic, cd.transcript, cd.myFingerprint, cd.peerFingerprint, cd.isResponder))));
        if !ok { return Error(NetworkError.BufferFull); }
        return Moved(Computing);
      case Tick(_) =>
        return Moved(GeneratingHandshake);
      case _ =>
        return Panicked;
    }
  }

  /** The token was accepted: keep the handshake, then take the step of our role. */
  method AcceptHandshake(cd: CryptoData, bytes: Bytes, publicValue: Bytes, outputs: OutputQueue) returns (r: Handled)
    requires cd.Valid() && outputs.Valid()
    modifies cd, outputs
    ensures cd.Valid() && outputs.Valid() && cd.Configuration() == old(cd.Configuration())
    ensures |bytes| > MAX_HANDSHAKE_MSG_SIZE || |publicValue| > PEER_PUBLIC_MAX_SIZE ==> r == Error(NetworkError.BufferFull)
    ensures |bytes| <= MAX_HANDSHAKE_MSG_SIZE && |publicValue| <= PEER_PUBLIC_MAX_SIZE ==>
              Did(HandshakeAccepted(old(cd.Snapshot()).(peerHandshake := bytes, peerPublic := publicValue), old(Room(outputs))),
                  r, old(outputs.items), cd.Snapshot(), outputs.items)
  {
    cd.peerHandshake := [];
    if |bytes| > MAX_HANDSHAKE_MSG_SIZE { return Error(NetworkError.BufferFull); }
    cd.peerHandshake := bytes;
    cd.peerPublic := [];
    if |publicValue| > PEER_PUBLIC_MAX_SIZE { return Error(NetworkError.BufferFull); }
    cd.peerPublic := publicValue;
    if cd.isResponder && cd.spake2Public == [] {
      var ok := outputs.Push(RequestCrypto(CryptoRequest(1, Start(cd.psk, cd.isResponder))));
      if !ok { return Error(NetworkError.BufferFull); }
      return Moved(GeneratingHandshake);
    } else {
      var built := MakeTranscript(cd, cd.ourHandshake, cd.peerHandshake);
      if built.Err? { return Error(NetworkError.BufferFull); }
      var ok := outputs.Push(RequestCrypto(CryptoRequest(3, Finish(
        cd.spake2Public, cd.peerPublic, cd.transcript, cd.myFingerprint, cd.peerFingerprint, cd.isResponder))));
      if !ok { return Error(NetworkError.BufferFull); }
      return Moved(Computing);
    }
  }

  method HandleAwaitingHandshake(cd: CryptoData, input: Input, outputs: OutputQueue) returns (r: Handled)
    requires cd.Valid() && outputs.Valid()
    modifies cd, outputs
    ensures cd.Valid() && outputs.Valid() && cd.Configuration() == old(cd.Configuration())
    ensures Did(AwaitingHandshakeStep(WIRE, old(cd.Snapshot()), input, old(Room(outputs))), r, old(outputs.items), cd.Snapshot(), outputs.items)
  {
    match input {
      case DataReceived(_, bytes) =>
        var msg := MessageCodec.DecodeMessage(bytes);
        if msg.Unimplemented? { return Panicked; }
        if msg.Bad? || !msg.msg.HandshakeMsg? { return Error(NetworkError.DecodeFailed); }
        var h := msg.msg.handshake;
        if cd.isResponder && cd.authToken != [] {
          if !ValidUtf8(cd.authToken) { return Error(NetworkError.AuthenticationFailed); }
          if h.token.None? || h.token.value != cd.authToken { return Error(NetworkError.AuthenticationFailed); }
        }
        r := AcceptHandshake(cd, bytes, h.publicValue, outputs);
      case Tick(_) =>
        return Moved(AwaitingHandshake);
      case _ =>
        return Panicked;
    }
  }

  /** Transcript, then the key under which the peer confirmed. */
  method MakeContext(cd: CryptoData) returns (ok: bool)
    requires cd.Valid()
    modifies cd`context
    ensures cd.Valid()
    ensures ok == (|cd.transcript| + |PeerKey(cd.Snapshot())| <= MAX_CONFIRMATION_CONTEXT_SIZE)
    ensures ok ==> cd.context == cd.transcript + PeerKey(cd.Snapshot())
  {
    var peerKey := if cd.isResponder then cd.initiatorKey else cd.responderKey;
    cd.context := [];
    if |cd.transcript| > MAX_CONFIRMATION_CONTEXT_SIZE { return false; }
    cd.context := cd.transcript;
    if |cd.context| + |peerKey| > MAX_CONFIRMATION_CONTEXT_SIZE { return false; }
    cd.context := cd.context + peerKey;
    return true;
  }

  /** The tail shared by the two places that verify a peer confirmation. */
  method RequestVerification(cd: CryptoData, msg: Decoded, clearPending: bool, outputs: OutputQueue) returns (r: Handled)
    requires cd.Valid() && outputs.Valid()
    modifies cd, outputs
    ensures cd.Valid() && outputs.Valid() && cd.Configuration() == old(cd.Configuration())
    ensures SameExchange(old(cd.Snapshot()), cd.Snapshot())
    ensures Did(CheckConfirmation(old(cd.Snapshot()), msg, clearPending, [], old(Room(outputs))), r, old(outputs.items), cd.Snapshot(), outputs.items)
  {
    if msg.Unimplemented? { return Panicked; }
    if msg.Bad? || !msg.msg.ConfirmationMsg? { return Error(NetworkError.DecodeFailed); }
    var value := msg.msg.value;
    cd.peerConfirmation := [];
    if |value| > MAX_CONFIRMATION_SIZE { return Error(NetworkError.BufferFull); }
    cd.peerConfirmation := value;
    if clearPending {
      cd.pending := [];
    }
    var made := MakeContext(cd);
    if !made { return Error(NetworkError.BufferFull); }
    var ok := outputs.Push(RequestCrypto(CryptoRequest(4, Verify(cd.context, cd.peerConfirmation))));
    if !ok { return Error(NetworkError.BufferFull); }
    return Moved(Computing);
  }

  method KeepResult(cd: CryptoData, result: Bytes)
    requires cd.Valid() && |result| >= RESULT_SIZE
    modifies cd`sharedSecret, cd`initiatorKey, cd`responderKey, cd`myConfirmation
    ensures cd.Valid() && cd.Snapshot() == StoreKeys(old(cd.Snapshot()), result)
  {
    cd.sharedSecret := result[0..32];
    cd.initiatorKey := result[64..96];
    cd.responderKey := result[96..128];
    cd.myConfirmation := result[32..64];
  }

  method FinishCompleted(cd: CryptoData, result: Bytes, outputs: OutputQueue) returns (r: Handled)
    requires cd.Valid() && outputs.Valid() && result != []
    modifies cd, outputs
    ensures cd.Valid() && outputs.Valid() && cd.Configuration() == old(cd.Configuration())
    ensures SameExchange(old(cd.Snapshot()), cd.Snapshot())
    ensures Did(OnFinish(WIRE, old(cd.Snapshot()), result, old(Room(outputs))), r, old(outputs.items), cd.Snapshot(), outputs.items)
  {
    if |result| < RESULT_SIZE { return Error(NetworkError.CryptoFailed); }
    KeepResult(cd, result);
    var ok := outputs.Push(SendMessage(ConfirmationMsg(cd.myConfirmation)));
    if !ok { return Error(NetworkError.BufferFull); }
    if cd.pending == [] {
      return Moved(AwaitingConfirmation);
    }
    var msg := MessageCodec.DecodeMessage(cd.pending);
    r := RequestVerification(cd, msg, true, outputs);
  }

  method HandleComputing(cd: CryptoData, input: Input, outputs: OutputQueue) returns (r: Handled)
    requires cd.Valid() && outputs.Valid()
    modifies cd, outputs
    ensures cd.Valid() && outputs.Valid() && cd.Configuration() == old(cd.Configuration())
    ensures SameExchange(old(cd.Snapshot()), cd.Snapshot())
    ensures Did(ComputingStep(WIRE, old(cd.Snapshot()), input, old(Room(outputs))), r, old(outputs.items), cd.Snapshot(), outputs.items)
  {
    match input {
      case CryptoCompleted(result) =>
        if result == [] {
          var ok := outputs.Push(SendMessage(StatusMsg(StatusOk)));
          if !ok { return Error(NetworkError.BufferFull); }
          return Moved(AwaitingStatus);
        }
        r := FinishCompleted(cd, result, outputs);
      case DataReceived(_, bytes) =>
        cd.pending := [];
        if |bytes| > MAX_HANDSHAKE_MSG_SIZE { return Error(NetworkError.BufferFull); }
        cd.pending := bytes;
        return Moved(Computing);
      case Tick(_) =>
        return Moved(Computing);
      case _ =>
        return Panicked;
    }
  }

  method HandleAwaitingConfirmation(cd: CryptoData, input: Input, outputs: OutputQueue) returns (r: Handled)
    requires cd.Valid() && outputs.Valid()
    modifies cd, outputs
    ensures cd.Valid() && outputs.Valid() && cd.Configuration() == old(cd.Configuration())
    ensures SameExchange(old(cd.Snapshot()), cd.Snapshot())
    ensures Did(AwaitingConfirmationStep(WIRE, old(cd.Snapshot()), input, old(Room(outputs))), r, old(outputs.items), cd.Snapshot(), outputs.items)
  {
    match input {
      case DataReceived(_, bytes) =>
        var msg := MessageCodec.DecodeMessage(bytes);
        r := RequestVerification(cd, msg, false, outputs);
      case Tick(_) =>
        return Moved(AwaitingConfirmation);
      case _ =>
        return Panicked;
    }
  }

  method HandleAwaitingStatus(cd: CryptoData, input: Input, outputs: OutputQueue) returns (r: Handled)
    requires cd.Valid() && outputs.Valid()
    modifies cd, outputs
    ensures cd.Valid() && outputs.Valid() && cd.Configuration() == old(cd.Configuration())
    ensures SameExchange(old(cd.Snapshot()), cd.Snapshot())
    ensures Did(AwaitingStatusStep(WIRE, old(cd.Snapshot()), input, old(Room(outputs))), r, old(outputs.items), cd.Snapshot(), outputs.items)
  {
    match input {
      case DataReceived(_, bytes) =>
        var msg := MessageCodec.DecodeMessageOnly(STATUS_KEY, bytes);
        if !msg.Got? || !msg.msg.StatusMsg? { return Error(NetworkError.DecodeFailed); }
        if msg.msg.code != StatusOk {
          return Moved(Failed(NetworkError.AuthenticationFailed));
        }
        var ok := outputs.Push(Event(AuthenticatedEvent));
        if !ok { return Error(NetworkError.BufferFull); }
        return Moved(Authenticated);
      case Tick(_) =>
        return Moved(AwaitingStatus);
      case _ =>
        return Panicked;
    }
  }

  /** The coordinator. While a handler runs the state is Poisoned, and it stays so when
      the handler fails or aborts. */
  class Spake2StateMachine {
    var state: State
    const cryptoData: CryptoData

    constructor (cryptoData: CryptoData)
      ensures this.state == Idle && this.cryptoData == cryptoData
    {
      this.state := Idle;
      this.cryptoData := cryptoData;
    }

    method Handle(input: Input, outputs: OutputQueue) returns (r: Result<(), NetworkError>, panicked: bool)
      requires cryptoData.Valid() && outputs.Valid()
      modifies this, cryptoData, outputs
      ensures cryptoData.Valid() && outputs.Valid()
      ensures cryptoData.Configuration() == old(cryptoData.Configuration())
      ensures Exchanged(old(state)) ==> SameExchange(old(cryptoData.Snapshot()), cryptoData.Snapshot())
      ensures match HandleStep(WIRE, old(state), old(cryptoData.Snapshot()), input, old(Room(outputs)))
              case Next(s, d, outs) =>
                r == Ok(()) && !panicked && state == s
                && cryptoData.Snapshot() == d && outputs.items == old(outputs.items) + outs
              case Fail(e) => r == Err(e) && !panicked && state == Poisoned
              case Panic => panicked && state == Poisoned
    {
      var oldState := state;
      state := Poisoned;
      panicked := false;
      var h := Dispatch(oldState, input, outputs);
      match h {
        case Moved(s) =>
          state := s;
          r := Ok(());
        case Error(e) =>
          r := Err(e);
        case Panicked =>
          panicked := true;
          r := Err(InvalidState);
      }
    }

    method Dispatch(oldState: State, input: Input, outputs: OutputQueue) returns (h: Handled)
      requires cryptoData.Valid() && outputs.Valid()
      modifies cryptoData, outputs
      ensures cryptoData.Valid() && outputs.Valid()
      ensures cryptoData.Configuration() == old(cryptoData.Configuration())
      ensures Exchanged(oldState) ==> SameExchange(old(cryptoData.Snapshot()), cryptoData.Snapshot())
      ensures Did(HandleStep(WIRE, oldState, old(cryptoData.Snapshot()), input, old(Room(outputs))),
                  h, old(outputs.items), cryptoData.Snapshot(), outputs.items)
    {
      match oldState {
        case Idle => h := HandleIdle(cryptoData, input, outputs);
        case AwaitingCapabilities => h := HandleAwaitingCapabilities(cryptoData, input, outputs);
        case InitiatingHandshake => h := HandleInitiatingHandshake(cryptoData, input, outputs);
        case GeneratingHandshake => h := HandleGeneratingHandshake(cryptoData, input, outputs);
        case AwaitingHandshake => h := HandleAwaitingHandshake(cryptoData, input, outputs);
        case Computing => h := HandleComputing(cryptoData, input, outputs);
        case AwaitingConfirmation => h := HandleAwaitingConfirmation(cryptoData, input, outputs);
        case AwaitingStatus => h := HandleAwaitingStatus(cryptoData, input, outputs);
        case Authenticated => h := Moved(oldState);
        case Failed(_) => h := Moved(oldState);
        case Poisoned => h := Error(InvalidState);
      }
    }
  }
}
