/** What holds of one endpoint in every run after connecting, for any network and any
    timing of its crypto. */
module NodeTheorems {
  import opened Basics
  import opened Messages
  import opened Machine
  import opened Provider
  import opened Node
  import opened NodeInvariant
  import opened NodeProofs

  // ---------------------------------------------------------------- what no step changes

  /** Configuration and randomness are fixed; the four logs only grow. */
  ghost predicate Extends(n: Node, n1: Node) {
    && n1.data.config == n.data.config && n1.nonce == n.nonce
    && n.received <= n1.received && n.msgs <= n1.msgs
    && n.requests <= n1.requests && n.completed <= n1.completed
  }

  lemma HandlerKeepsConfig(w: Codec, s: State, d: Data, input: Input, room: nat)
    ensures HandleStep(w, s, d, input, room).Next? ==> HandleStep(w, s, d, input, room).data.config == d.config
  {
  }

  lemma AbsorbExtends(n: Node, step: Step)
    requires step.Next? ==> step.data.config == n.data.config
    ensures Extends(n, Absorb(n, step))
  {
  }

  lemma StepExtends(w: World, n: Node, e: Event)
    requires Sized(w.prims)
    ensures Extends(n, NodeStep(w, n, e))
  {
    if n.dead {
    } else if e.Deliver? {
      HandlerKeepsConfig(w.wire, n.state, n.data, DataReceived(0, e.bytes), MAX_OUTPUTS);
      AbsorbExtends(Heard(n, e.bytes), HandleStep(w.wire, n.state, n.data, DataReceived(0, e.bytes), MAX_OUTPUTS));
    } else if e == Clock {
      HandlerKeepsConfig(w.wire, n.state, n.data, Tick(0), MAX_OUTPUTS);
      AbsorbExtends(n, HandleStep(w.wire, n.state, n.data, Tick(0), MAX_OUTPUTS));
    } else if n.outstanding != [] {
      CompletionStep(w, n);
      var (slot, r) := Crypto(w, n);
      if r.Ok? {
        HandlerKeepsConfig(w.wire, n.state, n.data, CryptoCompleted(r.value), MAX_OUTPUTS);
        AbsorbExtends(Took(n, slot, r.value), HandleStep(w.wire, n.state, n.data, CryptoCompleted(r.value), MAX_OUTPUTS));
      }
    }
  }

  lemma {:induction false} RunExtends(w: World, n: Node, events: seq<Event>)
    requires Sized(w.prims)
    ensures Extends(n, NodeRun(w, n, events))
    decreases |events|
  {
    if events != [] {
      StepExtends(w, n, events[0]);
      RunExtends(w, NodeStep(w, n, events[0]), events[1..]);
    }
  }

  // ---------------------------------------------------------------- progress

  /** State-advancing steps an endpoint can still take. */
  function StepsLeft(n: Node): nat {
    if n.dead then 0 else Rank(n.state, n.data.config.isResponder, |n.requests| >= 3)
  }

  ghost predicate Moved(n: Node, n1: Node) {
    n1.state != n.state || n1.requests != n.requests || n1.dead != n.dead
  }

  ghost predicate Descends(n: Node, n1: Node) {
    if Moved(n, n1) then StepsLeft(n1) < StepsLeft(n) else StepsLeft(n1) == StepsLeft(n)
  }

  lemma HandshakeDescends(w: World, n: Node, bytes: Bytes, decoded: Decoded)
    requires Sized(w.prims) && !n.dead && n.state == AwaitingHandshake && |n.requests| <= 1
    requires n.data.config.isResponder <==> n.data.spake2Public == []
    ensures Descends(n, Absorb(Heard(n, bytes), OnHandshake(w.wire, n.data, bytes, decoded, MAX_OUTPUTS)))
  {
    var step := OnHandshake(w.wire, n.data, bytes, decoded, MAX_OUTPUTS);
    if step.Next? {
      Emitted(step.outputs);
    }
  }

  lemma ConfirmationDescends(w: World, n: Node, bytes: Bytes, decoded: Decoded)
    requires Sized(w.prims) && !n.dead && n.state == AwaitingConfirmation && |n.requests| == 2
    ensures Descends(n, Absorb(Heard(n, bytes), CheckConfirmation(n.data, decoded, false, [], MAX_OUTPUTS)))
  {
    var step := CheckConfirmation(n.data, decoded, false, [], MAX_OUTPUTS);
    if step.Next? {
      Emitted(step.outputs);
    }
  }

  lemma CapabilitiesDescends(n: Node, bytes: Bytes, decoded: Decoded)
    requires !n.dead && n.state == AwaitingCapabilities && |n.requests| <= 1
    ensures Descends(n, Absorb(Heard(n, bytes), OnCapabilities(n.data, decoded, MAX_OUTPUTS)))
  {
    Emitted([]);
    Emitted([StartRequest(n.data, false)]);
  }

  lemma StatusDescends(n: Node, bytes: Bytes, decoded: Decoded)
    requires !n.dead && n.state == AwaitingStatus
    ensures Descends(n, Absorb(Heard(n, bytes), OnStatus(n.data, decoded, MAX_OUTPUTS)))
  {
    Emitted([]);
    Emitted([Event(AuthenticatedEvent)]);
  }

  lemma BufferedDescends(n: Node, bytes: Bytes, d: Data)
    requires !n.dead && n.state != Poisoned && d.config == n.data.config
    ensures Descends(n, Absorb(Heard(n, bytes), Next(n.state, d, [])))
  {
    Emitted([]);
  }

  lemma FailureDescends(n: Node, bytes: Bytes, step: Step)
    requires !n.dead && n.state != Poisoned && !step.Next?
    ensures Descends(n, Absorb(Heard(n, bytes), step))
  {
  }

  lemma PublicByRole(w: World, n: Node)
    requires Sized(w.prims) && NodeInv(w, n) && !n.dead && n.state == AwaitingHandshake
    ensures n.data.config.isResponder <==> n.data.spake2Public == []
    ensures |n.requests| <= 1
  {
  }

  lemma DeliveryDescends(w: World, n: Node, bytes: Bytes)
    requires Sized(w.prims) && NodeInv(w, n) && !n.dead
    ensures Descends(n, NodeStep(w, n, Deliver(bytes)))
  {
    DeliveryStep(w, n, bytes);
    if n.state == AwaitingHandshake {
      PublicByRole(w, n);
      HandshakeDescends(w, n, bytes, w.wire.decode(bytes));
    } else if n.state == AwaitingConfirmation {
      ConfirmationDescends(w, n, bytes, w.wire.decode(bytes));
    } else if n.state == AwaitingCapabilities {
      CapabilitiesDescends(n, bytes, w.wire.decodeOnly(CAPABILITIES_KEY, bytes));
    } else if n.state == AwaitingStatus {
      StatusDescends(n, bytes, w.wire.decodeOnly(STATUS_KEY, bytes));
    } else if n.state == Computing {
      if |bytes| > MAX_HANDSHAKE_MSG_SIZE {
        FailureDescends(n, bytes, Fail(NetworkError.BufferFull));
      } else {
        BufferedDescends(n, bytes, n.data.(pending := bytes));
      }
    } else if n.state == InitiatingHandshake || n.state == GeneratingHandshake {
      FailureDescends(n, bytes, Panic);
    } else {
      BufferedDescends(n, bytes, n.data);
    }
  }

  lemma InitiatorStartDescends(w: Codec, n: Node, slot: Slot, result: Bytes)
    requires !n.dead && n.outstanding != [] && |n.requests| == 1
    requires n.state == InitiatingHandshake && !n.data.config.isResponder
    ensures Descends(n, Absorb(Took(n, slot, result), InitiatingHandshakeStep(w, n.data, CryptoCompleted(result), MAX_OUTPUTS)))
  {
    var step := InitiatingHandshakeStep(w, n.data, CryptoCompleted(result), MAX_OUTPUTS);
    if step.Next? {
      Emitted(step.outputs);
    }
  }

  lemma ResponderStartDescends(w: Codec, n: Node, slot: Slot, result: Bytes)
    requires !n.dead && n.outstanding != [] && |n.requests| == 1
    requires n.state == GeneratingHandshake && n.data.config.isResponder
    ensures Descends(n, Absorb(Took(n, slot, result), GeneratingHandshakeStep(w, n.data, CryptoCompleted(result), MAX_OUTPUTS)))
  {
    var step := GeneratingHandshakeStep(w, n.data, CryptoCompleted(result), MAX_OUTPUTS);
    if step.Next? {
      Emitted(step.outputs);
    }
  }

  lemma FinishDescends(w: World, n: Node, slot: Slot, result: Bytes)
    requires !n.dead && n.outstanding != [] && n.state == Computing && |n.requests| == 2
    ensures Descends(n, Absorb(Took(n, slot, result), OnFinish(w.wire, n.data, result, MAX_OUTPUTS)))
  {
    var step := OnFinish(w.wire, n.data, result, MAX_OUTPUTS);
    if step.Next? {
      Emitted(step.outputs);
    }
  }

  lemma VerifyDescends(w: World, n: Node, slot: Slot)
    requires !n.dead && n.outstanding != [] && n.state == Computing && |n.requests| == 3
    ensures Descends(n, Absorb(Took(n, slot, []), HandleStep(w.wire, Computing, n.data, CryptoCompleted([]), MAX_OUTPUTS)))
  {
    Emitted([SendMessage(StatusMsg(StatusOk))]);
  }

  lemma CompletionDescends(w: World, n: Node)
    requires Sized(w.prims) && NodeInv(w, n) && !n.dead && n.outstanding != []
    ensures Descends(n, NodeStep(w, n, Complete))
  {
    var (slot, r) := Crypto(w, n);
    if n.state == Computing && Finishing(w, n) {
      TookProgress(n, 2, 2, 1, None, []);
      FinishCompletion(w, n);
      if r.Ok? {
        FinishDescends(w, n, slot, r.value);
      }
    } else {
      CompletionStep(w, n);
      if n.state == Computing {
        TookProgress(n, 3, 3, 2, None, []);
        VerifyExecutes(w, n);
        VerifyDescends(w, n, slot);
      } else if n.state != InitiatingHandshake && n.state != GeneratingHandshake {
        NothingOutstanding(w, n);
      } else if r.Ok? {
        if n.state == InitiatingHandshake {
          InitiatorStartDescends(w.wire, n, slot, r.value);
        } else {
          ResponderStartDescends(w.wire, n, slot, r.value);
        }
      }
    }
  }

  lemma StepDescends(w: World, n: Node, e: Event)
    requires Sized(w.prims) && NodeInv(w, n)
    ensures Descends(n, NodeStep(w, n, e))
  {
    if n.dead {
    } else if e.Deliver? {
      DeliveryDescends(w, n, e.bytes);
    } else if e == Clock {
      ClockChangesNothing(w, n);
    } else if n.outstanding != [] {
      CompletionDescends(w, n);
    }
  }

  /** How many events of a run advanced the state. */
  ghost function Moves(w: World, n: Node, events: seq<Event>): nat
    requires Sized(w.prims)
    decreases |events|
  {
    if events == [] then 0
    else
      var n1 := NodeStep(w, n, events[0]);
      (if Moved(n, n1) then 1 else 0) + Moves(w, n1, events[1..])
  }

  lemma {:induction false} MovesBounded(w: World, n: Node, events: seq<Event>)
    requires Sized(w.prims) && NodeInv(w, n)
    ensures Moves(w, n, events) + StepsLeft(NodeRun(w, n, events)) <= StepsLeft(n)
    decreases |events|
  {
    if events != [] {
      StepDescends(w, n, events[0]);
      StepHolds(w, n, events[0]);
      MovesBounded(w, NodeStep(w, n, events[0]), events[1..]);
    }
  }

  // ---------------------------------------------------------------- theorems over all runs

  /** The shape of a run: messages in the order capabilities, handshake, confirmation,
      status; operations in the order start, finish, verify, completed in that order and at
      most one outstanding; at most eight events advance the state. */
  lemma RunShape(w: World, config: Config, nonce: nat, events: seq<Event>)
    requires Sized(w.prims) && ConfigFits(config)
    ensures var n := NodeRun(w, Connected(w, config, nonce), events);
            InOrder(n) && Fits(n.data) && n.data.config == config
    ensures Moves(w, Connected(w, config, nonce), events) <= 8
  {
    ConnectedHolds(w, config, nonce);
    ConnectedIsLive(w, config, nonce);
    RunHolds(w, Connected(w, config, nonce), events);
    RunExtends(w, Connected(w, config, nonce), events);
    MovesBounded(w, Connected(w, config, nonce), events);
  }

  /** States a machine reaches only past the peer's handshake. */
  predicate PastHandshake(s: State) {
    s == GeneratingHandshake || s == Computing || s == AwaitingConfirmation
    || s == AwaitingStatus || s == Authenticated || s.Failed?
  }

  /** Token binding: a responder that advertised a token and got past the peer's handshake
      holds one, received from the network, that decodes to a message carrying exactly that
      token; from then on, through any further run, it holds the same bytes. */
  lemma TokenBinding(w: World, config: Config, nonce: nat, events: seq<Event>, more: seq<Event>)
    requires Sized(w.prims) && ConfigFits(config)
    requires config.isResponder && config.authToken != []
    ensures var n := NodeRun(w, Connected(w, config, nonce), events);
            !n.dead && PastHandshake(n.state) ==>
              && |n.received| >= 2 && n.data.peerHandshake == n.received[1]
              && w.wire.decode(n.data.peerHandshake).Got?
              && w.wire.decode(n.data.peerHandshake).msg.HandshakeMsg?
              && w.wire.decode(n.data.peerHandshake).msg.handshake.token == Some(config.authToken)
              && w.wire.isText(config.authToken)
              && (var n1 := NodeRun(w, n, more);
                 !n1.dead ==> PastHandshake(n1.state) && n1.data.peerHandshake == n.data.peerHandshake)
  {
    var n := NodeRun(w, Connected(w, config, nonce), events);
    RunShape(w, config, nonce, events);
    ConnectedHolds(w, config, nonce);
    RunHolds(w, Connected(w, config, nonce), events);
    if !n.dead && PastHandshake(n.state) {
      PeerWhenPast(w, n);
      RunHolds(w, n, more);
      RunExtends(w, n, more);
      var n1 := NodeRun(w, n, more);
      if !n1.dead {
        PastWhenRequested(w, n1);
        PeerWhenPast(w, n1);
      }
    }
  }

  lemma PeerWhenPast(w: World, n: Node)
    requires Sized(w.prims) && NodeInv(w, n) && !n.dead && PastHandshake(n.state)
    ensures HasPeer(w, n) && (n.data.config.isResponder ==> |n.requests| >= 1)
  {
  }

  lemma PastWhenRequested(w: World, n: Node)
    requires Sized(w.prims) && NodeInv(w, n) && !n.dead && n.data.config.isResponder && |n.requests| >= 1
    ensures PastHandshake(n.state)
  {
  }

  /** What Authenticated means in any run: the start, finish and verify operations all
      completed, the verified confirmation came from the network after the handshake, it is
      the MAC of the transcript under the peer's key, and an OK status arrived after that. */
  lemma AuthenticatedMeans(w: World, config: Config, nonce: nat, events: seq<Event>)
    requires Sized(w.prims) && ConfigFits(config)
    ensures var n := NodeRun(w, Connected(w, config, nonce), events);
            n.state == Authenticated ==>
              && !n.dead && |n.completed| == 3
              && n.completed[2] == (VerifyOp(n.data), [])
              && n.data.peerConfirmation == w.prims.hmac(PeerKey(n.data), n.data.transcript)
              && HasConfirmation(w, n) && StatusReceived(w, n, true)
  {
    var n := NodeRun(w, Connected(w, config, nonce), events);
    ConnectedHolds(w, config, nonce);
    RunHolds(w, Connected(w, config, nonce), events);
    if n.state == Authenticated {
      assert Confirmed(w, n);
      assert n.completed[2].0 == AllOps(n.data)[2];
    }
  }

  // ---------------------------------------------------------------- capacities

  /** The inputs that overflow a buffer: all of them carry too long a value themselves. */
  ghost predicate Overflows(w: Codec, s: State, d: Data, input: Input) {
    match input
    case DataReceived(_, bytes) =>
      (s == Computing && |bytes| > MAX_HANDSHAKE_MSG_SIZE)
      || (s == AwaitingHandshake && w.decode(bytes).Got? && w.decode(bytes).msg.HandshakeMsg?
          && TokenAccepted(w, d.config, w.decode(bytes).msg.handshake.token)
          && (|bytes| > MAX_HANDSHAKE_MSG_SIZE || |w.decode(bytes).msg.handshake.publicValue| > PEER_PUBLIC_MAX_SIZE))
      || (s == AwaitingConfirmation && LongConfirmation(w.decode(bytes)))
    case CryptoCompleted(result) =>
      ((s == InitiatingHandshake || s == GeneratingHandshake) && |result| > MAX_CRYPTO_OUTPUT)
      || (s == Computing && |result| >= RESULT_SIZE && d.pending != [] && LongConfirmation(w.decode(d.pending)))
    case _ => false
  }

  predicate LongConfirmation(decoded: Decoded) {
    decoded.Got? && decoded.msg.ConfirmationMsg? && |decoded.msg.value| > MAX_CONFIRMATION_SIZE
  }

  /** With every buffer within its capacity and an empty output queue, a handler reports a
      full buffer exactly on such an input: the transcript, the confirmation context and the
      output queue never overflow. */
  lemma CapacityExact(w: Codec, s: State, d: Data, input: Input)
    requires Fits(d)
    ensures HandleStep(w, s, d, input, MAX_OUTPUTS) == Fail(NetworkError.BufferFull) <==> Overflows(w, s, d, input)
  {
  }

  /** And no step leaves a buffer over its capacity, so the above holds in every run. */
  lemma CapacityKept(w: Codec, s: State, d: Data, input: Input, room: nat)
    requires Fits(d)
    ensures HandleStep(w, s, d, input, room).Next? ==> Fits(HandleStep(w, s, d, input, room).data)
  {
  }
}
