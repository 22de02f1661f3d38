/** Every way a step of the machine can go wrong, each with exactly the inputs that make it,
    and the outputs of one that goes right. Sizes and type keys are numbers here. */
module Errors {
  import opened Basics
  import opened Messages
  import opened Machine

  /** What `input` brings, if it is data. */
  predicate Brings(input: Input) {
    input.DataReceived?
  }

  /** A confirmation, whatever its length. */
  predicate IsConfirmation(decoded: Decoded) {
    decoded.Got? && decoded.msg.ConfirmationMsg?
  }

  predicate IsHandshake(decoded: Decoded) {
    decoded.Got? && decoded.msg.HandshakeMsg?
  }

  /** A start that has completed, in a state that waits for it. */
  predicate Starting(s: State, input: Input) {
    (s == InitiatingHandshake || s == GeneratingHandshake) && input.CryptoCompleted?
  }

  /** A finish that has completed while something waits in the race buffer. */
  predicate Racing(s: State, d: Data, input: Input) {
    s == Computing && input.CryptoCompleted? && |input.result| >= 128 && d.pending != []
  }

  ghost predicate TokenIsText(w: Codec, d: Data) {
    d.config.authToken == [] || w.isText(d.config.authToken)
  }

  /** The token of a handshake that a responder with a token refuses. */
  ghost predicate WrongToken(w: Codec, d: Data, token: Option<Bytes>) {
    && d.config.isResponder && d.config.authToken != []
    && (token != Some(d.config.authToken) || !w.isText(d.config.authToken))
  }

  lemma AuthenticationFailedExactly(w: Codec, s: State, d: Data, input: Input)
    ensures HandleStep(w, s, d, input, 16) == Fail(NetworkError.AuthenticationFailed)
       <==> && s == AwaitingHandshake && Brings(input) && IsHandshake(w.decode(input.bytes))
            && WrongToken(w, d, w.decode(input.bytes).msg.handshake.token)
  {
  }

  lemma CryptoFailedExactly(w: Codec, s: State, d: Data, input: Input)
    ensures HandleStep(w, s, d, input, 16) == Fail(CryptoFailed)
       <==> s == Computing && input.CryptoCompleted? && 0 < |input.result| < 128
  {
  }

  lemma InvalidStateExactly(w: Codec, s: State, d: Data, input: Input)
    ensures HandleStep(w, s, d, input, 16) == Fail(InvalidState) <==> s == Poisoned
  {
  }

  lemma EncodeFailedExactly(w: Codec, s: State, d: Data, input: Input)
    requires Fits(d)
    ensures HandleStep(w, s, d, input, 16) == Fail(NetworkError.EncodeFailed)
       <==> && Starting(s, input) && |input.result| <= 640 && TokenIsText(w, d)
            && |w.encode(HandshakeMsg(Handshake(
                  if d.config.authToken == [] then None else Some(d.config.authToken),
                  if s == InitiatingHandshake then PskShown else PskInput,
                  input.result)))| > 256
  {
  }

  /** Bytes that do not decode as what the state expects, or a token that is no text. */
  lemma DecodeFailedExactly(w: Codec, s: State, d: Data, input: Input)
    requires Fits(d)
    ensures HandleStep(w, s, d, input, 16) == Fail(NetworkError.DecodeFailed)
       <==> || (s == AwaitingCapabilities && Brings(input) && !w.decodeOnly(1001, input.bytes).Got?)
            || (s == AwaitingHandshake && Brings(input)
                && !w.decode(input.bytes).Unimplemented? && !IsHandshake(w.decode(input.bytes)))
            || (s == AwaitingConfirmation && Brings(input)
                && !w.decode(input.bytes).Unimplemented? && !IsConfirmation(w.decode(input.bytes)))
            || (s == AwaitingStatus && Brings(input)
                && !(w.decodeOnly(1004, input.bytes).Got? && w.decodeOnly(1004, input.bytes).msg.StatusMsg?))
            || (Racing(s, d, input) && !w.decode(d.pending).Unimplemented? && !IsConfirmation(w.decode(d.pending)))
            || (Starting(s, input) && |input.result| <= 640 && !TokenIsText(w, d))
  {
  }

  lemma BufferFullExactly(w: Codec, s: State, d: Data, input: Input)
    requires Fits(d)
    ensures HandleStep(w, s, d, input, 16) == Fail(NetworkError.BufferFull)
       <==> || (s == Computing && Brings(input) && |input.bytes| > 256)
            || (s == AwaitingHandshake && Brings(input) && IsHandshake(w.decode(input.bytes))
                && !WrongToken(w, d, w.decode(input.bytes).msg.handshake.token)
                && (|input.bytes| > 256 || |w.decode(input.bytes).msg.handshake.publicValue| > 65))
            || (s == AwaitingConfirmation && Brings(input) && IsConfirmation(w.decode(input.bytes))
                && |w.decode(input.bytes).msg.value| > 64)
            || (Racing(s, d, input) && IsConfirmation(w.decode(d.pending)) && |w.decode(d.pending).msg.value| > 64)
            || (Starting(s, input) && |input.result| > 640)
  {
  }

  /** The inputs a state has no case for abort the program, and so does the message without a
      decoder where messages of any type are decoded. */
  lemma PanicExactly(w: Codec, s: State, d: Data, input: Input)
    ensures HandleStep(w, s, d, input, 16) == Panic
       <==> || (s == Idle && !input.TransportConnected? && !input.Tick?)
            || (s in {AwaitingCapabilities, AwaitingHandshake, AwaitingConfirmation, AwaitingStatus} && !Brings(input) && !input.Tick?)
            || (s in {InitiatingHandshake, GeneratingHandshake} && !input.CryptoCompleted? && !input.Tick?)
            || (s == Computing && !Brings(input) && !input.CryptoCompleted? && !input.Tick?)
            || (s in {AwaitingHandshake, AwaitingConfirmation} && Brings(input) && w.decode(input.bytes).Unimplemented?)
            || (Racing(s, d, input) && w.decode(d.pending).Unimplemented?)
  {
  }

  // ---------------------------------------------------------------- outputs

  /** The operation number of a request: 1 for a start, 2 and 3 for the finish of a responder
      and of an initiator, 4 for a verification. */
  predicate Numbered(s: State, r: CryptoRequest) {
    match r.op
    case Start(_, _) => r.opId == 1
    case Finish(_, _, _, _, _, _) => r.opId == if s == GeneratingHandshake then 2 else 3
    case Verify(_, _) => r.opId == 4
  }

  /** All a step ever emits: a message, then a request; or the one event, on becoming
      Authenticated; and requests carry their number. */
  lemma OutputsExact(w: Codec, s: State, d: Data, input: Input)
    ensures var step := HandleStep(w, s, d, input, 16);
            step.Next? ==>
              (&& |step.outputs| <= 2
               && (|step.outputs| == 2 ==> step.outputs[0].SendMessage? && step.outputs[1].RequestCrypto?)
               && (forall o :: o in step.outputs ==> o.SendMessage? || o.RequestCrypto? || o == Event(AuthenticatedEvent))
               && (forall o :: o in step.outputs && o.RequestCrypto? ==> Numbered(s, o.request))
               && (Event(AuthenticatedEvent) in step.outputs <==> step.state == Authenticated && s != Authenticated))
  {
  }

  /** A queue with less room fails the step, and nothing else about it matters. */
  lemma RoomExact(w: Codec, s: State, d: Data, input: Input, room: nat)
    requires room <= 16 && HandleStep(w, s, d, input, 16).Next?
    ensures HandleStep(w, s, d, input, room) ==
            if room >= |HandleStep(w, s, d, input, 16).outputs| then HandleStep(w, s, d, input, 16) else Fail(NetworkError.BufferFull)
  {
  }
}
