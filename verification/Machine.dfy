/** The SPAKE2 authentication state machine as a function: what one input does to the
    state and to the data buffers, and what it emits. `StateMachine` holds the code's own
    form; the theorems are about this one. */
module Machine {
  import opened Basics
  import opened VarInt
  import opened Cbor
  import opened Messages

  const MAX_PSK_SIZE := 128
  const MAX_AUTH_TOKEN_SIZE := 64
  const MAX_FINGERPRINT_SIZE := 32
  const MAX_HANDSHAKE_MSG_SIZE := 256
  const MAX_TRANSCRIPT_SIZE := 512
  const MAX_CONFIRMATION_CONTEXT_SIZE := 544
  const MAX_CONFIRMATION_SIZE := 64
  const MAX_CRYPTO_OUTPUT := 640
  const PEER_PUBLIC_MAX_SIZE := 65
  const MAX_KEY_SIZE := 32
  const MAX_OUTPUTS := 16

  datatype NetworkError =
    | InvalidState
    | EncodeFailed
    | DecodeFailed
    | CryptoFailed
    | AuthenticationFailed
    | BufferFull

  /** What the drivers set before connecting and do not change afterwards. */
  datatype Config = Config(
    psk: Bytes, authToken: Bytes, isResponder: bool, myFingerprint: Bytes, peerFingerprint: Bytes)

  /** The buffers the handlers share. */
  datatype Data = Data(
    config: Config,
    spake2Public: Bytes,
    peerPublic: Bytes,
    sharedSecret: Bytes,
    tokenTemp: Bytes,
    ourHandshake: Bytes,
    peerHandshake: Bytes,
    transcript: Bytes,
    context: Bytes,
    initiatorKey: Bytes,
    responderKey: Bytes,
    myConfirmation: Bytes,
    peerConfirmation: Bytes,
    pending: Bytes)

  function FreshData(config: Config): Data {
    Data(config, [], [], [], [], [], [], [], [], [], [], [], [], [])
  }

  /** Every buffer within its fixed capacity. */
  ghost predicate ConfigFits(c: Config) {
    && |c.psk| <= MAX_PSK_SIZE
    && |c.authToken| <= MAX_AUTH_TOKEN_SIZE
    && |c.myFingerprint| <= MAX_FINGERPRINT_SIZE
    && |c.peerFingerprint| <= MAX_FINGERPRINT_SIZE
  }

  ghost predicate Fits(d: Data) {
    && ConfigFits(d.config)
    && |d.spake2Public| <= MAX_CRYPTO_OUTPUT
    && |d.peerPublic| <= PEER_PUBLIC_MAX_SIZE
    && |d.sharedSecret| <= MAX_CRYPTO_OUTPUT
    && |d.tokenTemp| <= MAX_AUTH_TOKEN_SIZE
    && |d.ourHandshake| <= MAX_HANDSHAKE_MSG_SIZE
    && |d.peerHandshake| <= MAX_HANDSHAKE_MSG_SIZE
    && |d.transcript| <= MAX_TRANSCRIPT_SIZE
    && |d.context| <= MAX_CONFIRMATION_CONTEXT_SIZE
    && |d.initiatorKey| <= MAX_KEY_SIZE
    && |d.responderKey| <= MAX_KEY_SIZE
    && |d.myConfirmation| <= MAX_CONFIRMATION_SIZE
    && |d.peerConfirmation| <= MAX_CONFIRMATION_SIZE
    && |d.pending| <= MAX_HANDSHAKE_MSG_SIZE
  }

  datatype State =
    | Idle
    | AwaitingCapabilities
    | InitiatingHandshake
    | GeneratingHandshake
    | AwaitingHandshake
    | Computing
    | AwaitingConfirmation
    | AwaitingStatus
    | Authenticated
    | Failed(reason: NetworkError)
    | Poisoned

  datatype Input =
    | TransportConnected
    | StreamOpened(stream: nat)
    | StreamClosed(stream: nat)
    | DataReceived(stream: nat, bytes: Bytes)
    | CryptoCompleted(result: Bytes)
    | Tick(time: nat)

  datatype CryptoOp =
    | Start(password: Bytes, isResponder: bool)
    | Finish(state: Bytes, peerPublic: Bytes, transcript: Bytes,
             myFingerprint: Bytes, peerFingerprint: Bytes, isResponder: bool)
    | Verify(context: Bytes, peerConfirmation: Bytes)

  datatype CryptoRequest = CryptoRequest(opId: nat, op: CryptoOp)

  datatype NetworkEvent = AuthenticatedEvent | AuthenticationFailedEvent(error: NetworkError)

  datatype Output =
    | OpenUniStream
    | SendMessage(msg: Message)
    | SendData(data: Bytes)
    | CloseStream(stream: nat)
    | CloseConnection
    | RequestCrypto(request: CryptoRequest)
    | NeedsPoll
    | Event(event: NetworkEvent)

  /** What a handler does: move on, emitting some outputs, or fail, or abort the program. */
  datatype Step =
    | Next(state: State, data: Data, outputs: seq<Output>)
    | Fail(error: NetworkError)
    | Panic

  /** The wire format as the machine sees it. The handlers are written, and the run
      theorems proved, for any format; `WIRE` is the one the program uses. */
  datatype Codec = Codec(
    encode: Message -> Bytes,
    decode: Bytes -> Decoded,
    decodeOnly: (u16, Bytes) -> Decoded,
    isText: Bytes -> bool)

  const WIRE := Codec(Encode, Decode, DecodeOnly, ValidUtf8)

  // ---------------------------------------------------------------- handlers

  const OUR_CAPABILITIES := CapabilitiesMsg(Capabilities(Simple, [], 64))

  function IdleStep(d: Data, input: Input, room: nat): Step {
    match input
    case TransportConnected =>
      if room < 1 then Fail(NetworkError.BufferFull)
      else Next(AwaitingCapabilities, d, [SendMessage(OUR_CAPABILITIES)])
    case Tick(_) => Next(Idle, d, [])
    case _ => Panic
  }

  function StartRequest(d: Data, isResponder: bool): Output {
    RequestCrypto(CryptoRequest(1, Start(d.config.psk, isResponder)))
  }

  function AwaitingCapabilitiesStep(w: Codec, d: Data, input: Input, room: nat): Step {
    match input
    case DataReceived(_, bytes) => OnCapabilities(d, w.decodeOnly(CAPABILITIES_KEY, bytes), room)
    case Tick(_) => Next(AwaitingCapabilities, d, [])
    case _ => Panic
  }

  function OnCapabilities(d: Data, decoded: Decoded, room: nat): Step {
    if !decoded.Got? then Fail(NetworkError.DecodeFailed)
    else if d.config.isResponder then Next(AwaitingHandshake, d, [])
    else if room < 1 then Fail(NetworkError.BufferFull)
    else Next(InitiatingHandshake, d, [StartRequest(d, false)])
  }

  /** The handshake a machine sends: its token, if it has one, and its public value. */
  function OwnHandshake(token: Bytes, status: PskStatus, publicValue: Bytes): Handshake {
    Handshake(if token == [] then None else Some(token), status, publicValue)
  }

  /** Both handshake generators start alike: store the public value and the token, then
      encode the handshake into its 256-byte buffer. */
  function GenerateHandshake(w: Codec, d: Data, publicValue: Bytes, status: PskStatus): Result<Data, NetworkError> {
    var token := d.config.authToken;
    if |publicValue| > MAX_CRYPTO_OUTPUT then Err(NetworkError.BufferFull)
    else if token != [] && !w.isText(token) then Err(NetworkError.DecodeFailed)
    else if |token| > MAX_AUTH_TOKEN_SIZE then Err(NetworkError.BufferFull)
    else
      var encoded := w.encode(HandshakeMsg(OwnHandshake(token, status, publicValue)));
      if |encoded| > MAX_HANDSHAKE_MSG_SIZE then Err(NetworkError.EncodeFailed)
      else Ok(d.(spake2Public := publicValue, tokenTemp := token, ourHandshake := encoded))
  }

  function InitiatingHandshakeStep(w: Codec, d: Data, input: Input, room: nat): Step {
    match input
    case CryptoCompleted(result) =>
      (match GenerateHandshake(w, d, result, PskShown)
       case Err(e) => Fail(e)
       case Ok(d1) =>
         if room < 1 then Fail(NetworkError.BufferFull)
         else Next(AwaitingHandshake, d1, [SendMessage(HandshakeMsg(OwnHandshake(d1.tokenTemp, PskShown, d1.spake2Public)))]))
    case Tick(_) => Next(InitiatingHandshake, d, [])
    case _ => Panic
  }

  function FinishRequest(d: Data, opId: nat): Output {
    RequestCrypto(CryptoRequest(opId, Finish(
      d.spake2Public, d.peerPublic, d.transcript,
      d.config.myFingerprint, d.config.peerFingerprint, d.config.isResponder)))
  }

  function BuildTranscript(d: Data, first: Bytes, second: Bytes): Result<Data, NetworkError> {
    if |first| + |second| > MAX_TRANSCRIPT_SIZE then Err(NetworkError.BufferFull)
    else Ok(d.(transcript := first + second))
  }

  function GeneratingHandshakeStep(w: Codec, d: Data, input: Input, room: nat): Step {
    match input
    case CryptoCompleted(result) =>
      (match GenerateHandshake(w, d, result, PskInput)
       case Err(e) => Fail(e)
       case Ok(d1) =>
         if room < 1 then Fail(NetworkError.BufferFull)
         else match BuildTranscript(d1, d1.peerHandshake, d1.ourHandshake)
              case Err(e) => Fail(e)
              case Ok(d2) =>
                if room < 2 then Fail(NetworkError.BufferFull)
                else Next(Computing, d2,
                          [SendMessage(HandshakeMsg(OwnHandshake(d1.tokenTemp, PskInput, d1.spake2Public))),
                           FinishRequest(d2, 2)]))
    case Tick(_) => Next(GeneratingHandshake, d, [])
    case _ => Panic
  }

  /** A responder that advertised a token accepts no other and not its absence. */
  predicate TokenAccepted(w: Codec, c: Config, received: Option<Bytes>) {
    c.isResponder && c.authToken != [] ==> w.isText(c.authToken) && received == Some(c.authToken)
  }

  function AwaitingHandshakeStep(w: Codec, d: Data, input: Input, room: nat): Step {
    match input
    case DataReceived(_, bytes) => OnHandshake(w, d, bytes, w.decode(bytes), room)
    case Tick(_) => Next(AwaitingHandshake, d, [])
    case _ => Panic
  }

  function OnHandshake(w: Codec, d: Data, bytes: Bytes, decoded: Decoded, room: nat): Step {
    match decoded
    case Unimplemented => Panic
    case Got(HandshakeMsg(h)) =>
      if !TokenAccepted(w, d.config, h.token) then Fail(NetworkError.AuthenticationFailed)
      else if |bytes| > MAX_HANDSHAKE_MSG_SIZE then Fail(NetworkError.BufferFull)
      else if |h.publicValue| > PEER_PUBLIC_MAX_SIZE then Fail(NetworkError.BufferFull)
      else HandshakeAccepted(d.(peerHandshake := bytes, peerPublic := h.publicValue), room)
    case _ => Fail(NetworkError.DecodeFailed)
  }

  /** The responder has no handshake of its own yet; the initiator has. */
  function HandshakeAccepted(d: Data, room: nat): Step {
    if d.config.isResponder && d.spake2Public == [] then
      if room < 1 then Fail(NetworkError.BufferFull)
      else Next(GeneratingHandshake, d, [StartRequest(d, d.config.isResponder)])
    else
      match BuildTranscript(d, d.ourHandshake, d.peerHandshake)
      case Err(e) => Fail(e)
      case Ok(d1) =>
        if room < 1 then Fail(NetworkError.BufferFull)
        else Next(Computing, d1, [FinishRequest(d1, 3)])
  }

  /** The key under which the peer computed its confirmation. */
  function PeerKey(d: Data): Bytes {
    if d.config.isResponder then d.initiatorKey else d.responderKey
  }

  function OwnKey(d: Data): Bytes {
    if d.config.isResponder then d.responderKey else d.initiatorKey
  }

  function VerifyRequest(d: Data): Output {
    RequestCrypto(CryptoRequest(4, Verify(d.context, d.peerConfirmation)))
  }

  /** Store a decoded peer confirmation and ask for its verification; `sent` is what the
      handler has already emitted. */
  function CheckConfirmation(d: Data, decoded: Decoded, clearPending: bool, sent: seq<Output>, room: nat): Step {
    match decoded
    case Unimplemented => Panic
    case Got(ConfirmationMsg(value)) =>
      if |value| > MAX_CONFIRMATION_SIZE then Fail(NetworkError.BufferFull)
      else if |d.transcript| + |PeerKey(d)| > MAX_CONFIRMATION_CONTEXT_SIZE then Fail(NetworkError.BufferFull)
      else if room < |sent| + 1 then Fail(NetworkError.BufferFull)
      else
        var d1 := d.(peerConfirmation := value,
                     pending := if clearPending then [] else d.pending,
                     context := d.transcript + PeerKey(d));
        Next(Computing, d1, sent + [VerifyRequest(d1)])
    case _ => Fail(NetworkError.DecodeFailed)
  }

  const SECRET_SIZE := 32
  const RESULT_SIZE := 128

  /** The four 32-byte parts of a finish result. */
  function StoreKeys(d: Data, result: Bytes): Data
    requires |result| >= RESULT_SIZE
  {
    d.(sharedSecret := result[0..32],
       myConfirmation := result[32..64],
       initiatorKey := result[64..96],
       responderKey := result[96..128])
  }

  function OnFinish(w: Codec, d: Data, result: Bytes, room: nat): Step {
    if |result| < RESULT_SIZE then Fail(NetworkError.CryptoFailed)
    else
      var d1 := StoreKeys(d, result);
      var sent := [SendMessage(ConfirmationMsg(d1.myConfirmation))];
      if room < 1 then Fail(NetworkError.BufferFull)
      else if d1.pending == [] then Next(AwaitingConfirmation, d1, sent)
      else CheckConfirmation(d1, w.decode(d1.pending), true, sent, room)
  }

  function ComputingStep(w: Codec, d: Data, input: Input, room: nat): Step {
    match input
    case CryptoCompleted(result) =>
      if result == [] then
        if room < 1 then Fail(NetworkError.BufferFull)
        else Next(AwaitingStatus, d, [SendMessage(StatusMsg(StatusOk))])
      else OnFinish(w, d, result, room)
    case DataReceived(_, bytes) =>
      if |bytes| > MAX_HANDSHAKE_MSG_SIZE then Fail(NetworkError.BufferFull)
      else Next(Computing, d.(pending := bytes), [])
    case Tick(_) => Next(Computing, d, [])
    case _ => Panic
  }

  function AwaitingConfirmationStep(w: Codec, d: Data, input: Input, room: nat): Step {
    match input
    case DataReceived(_, bytes) => CheckConfirmation(d, w.decode(bytes), false, [], room)
    case Tick(_) => Next(AwaitingConfirmation, d, [])
    case _ => Panic
  }

  function AwaitingStatusStep(w: Codec, d: Data, input: Input, room: nat): Step {
    match input
    case DataReceived(_, bytes) => OnStatus(d, w.decodeOnly(STATUS_KEY, bytes), room)
    case Tick(_) => Next(AwaitingStatus, d, [])
    case _ => Panic
  }

  function OnStatus(d: Data, decoded: Decoded, room: nat): Step {
    match decoded
    case Got(StatusMsg(code)) =>
      if code != StatusOk then Next(Failed(NetworkError.AuthenticationFailed), d, [])
      else if room < 1 then Fail(NetworkError.BufferFull)
      else Next(Authenticated, d, [Event(AuthenticatedEvent)])
    case _ => Fail(NetworkError.DecodeFailed)
  }

  /** Dispatch; the terminal states accept and ignore every input. */
  function HandleStep(w: Codec, s: State, d: Data, input: Input, room: nat): Step {
    match s
    case Idle => IdleStep(d, input, room)
    case AwaitingCapabilities => AwaitingCapabilitiesStep(w, d, input, room)
    case InitiatingHandshake => InitiatingHandshakeStep(w, d, input, room)
    case GeneratingHandshake => GeneratingHandshakeStep(w, d, input, room)
    case AwaitingHandshake => AwaitingHandshakeStep(w, d, input, room)
    case Computing => ComputingStep(w, d, input, room)
    case AwaitingConfirmation => AwaitingConfirmationStep(w, d, input, room)
    case AwaitingStatus => AwaitingStatusStep(w, d, input, room)
    case Authenticated => Next(s, d, [])
    case Failed(_) => Next(s, d, [])
    case Poisoned => Fail(InvalidState)
  }

  // ---------------------------------------------------------------- rank

  /** How many state-advancing steps are still to come, by role. `verifying` tells the two
      uses of Computing apart. */
  function Rank(s: State, isResponder: bool, verifying: bool): nat {
    match s
    case Idle => 9
    case AwaitingCapabilities => 8
    case InitiatingHandshake => 7
    case AwaitingHandshake => if isResponder then 7 else 6
    case GeneratingHandshake => 6
    case Computing => if verifying then 3 else 5
    case AwaitingConfirmation => 4
    case AwaitingStatus => 2
    case Authenticated => 1
    case Failed(_) => 1
    case Poisoned => 0
  }
}
