/** The endpoint invariant holds after connecting and is kept by every step, so it holds
    in every run. One lemma per state and kind of event. */
module NodeProofs {
  import opened Basics
  import opened Messages
  import opened Machine
  import opened Provider
  import opened Node
  import opened NodeInvariant

  // ---------------------------------------------------------------- logs

  lemma Emitted(outs: seq<Output>)
    ensures outs == [] ==> Sent(outs) == [] && Requested(outs) == []
    ensures |outs| == 1 ==> Sent(outs) == (if outs[0].SendMessage? then [outs[0].msg] else [])
    ensures |outs| == 1 ==> Requested(outs) == (if outs[0].RequestCrypto? then [outs[0].request.op] else [])
    ensures |outs| == 2 && outs[0].SendMessage? && outs[1].RequestCrypto?
            ==> Sent(outs) == [outs[0].msg] && Requested(outs) == [outs[1].request.op]
  {
    if |outs| == 1 {
      assert outs[1..] == [];
    } else if |outs| == 2 {
      assert outs[1..][1..] == [] && outs[1..][0] == outs[1];
    }
  }

  lemma FullOrder(d: Data)
    ensures forall i :: 0 <= i < 4 ==> KindOf(AllMsgs(d)[i]) == MSG_ORDER[i]
    ensures forall i :: 0 <= i < 3 ==> OpKindOf(AllOps(d)[i]) == OP_ORDER[i]
  {
  }

  lemma ProgressInOrder(n: Node, m: nat, q: nat, c: nat)
    requires m <= 4 && q <= 3 && c <= q <= c + 1
    requires Progress(n, m, q, c)
    ensures InOrder(n)
  {
    FullOrder(n.data);
  }

  /** A live endpoint has kept the order: its logs are prefixes of the full protocol. */
  lemma LiveInOrder(w: World, n: Node)
    requires Sized(w.prims) && Live(w, n)
    ensures InOrder(n)
  {
    match n.state
    case AwaitingCapabilities => ProgressInOrder(n, 1, 0, 0);
    case InitiatingHandshake => ProgressInOrder(n, 1, 1, 0);
    case AwaitingHandshake =>
      if AtHandshakeResponder(n) {
        ProgressInOrder(n, 1, 0, 0);
      } else {
        ProgressInOrder(n, 2, 1, 1);
      }
    case GeneratingHandshake => ProgressInOrder(n, 1, 1, 0);
    case Computing =>
      if Finishing(w, n) {
        ProgressInOrder(n, 2, 2, 1);
      } else {
        ProgressInOrder(n, 3, 3, 2);
      }
    case AwaitingConfirmation => ProgressInOrder(n, 3, 2, 2);
    case AwaitingStatus => ProgressInOrder(n, 4, 3, 3);
    case Authenticated => ProgressInOrder(n, 4, 3, 3);
    case Failed(_) => ProgressInOrder(n, 4, 3, 3);
  }

  /** The logs after a step: what was sent and requested continues the protocol order. */
  lemma Advance(n: Node, s: State, d: Data, outs: seq<Output>, m: nat, q: nat, c: nat, m1: nat, q1: nat)
    requires m <= m1 <= 4 && c <= q <= q1 <= 3
    requires Progress(n, m, q, c)
    requires AllMsgs(d)[..m] == AllMsgs(n.data)[..m] && AllOps(d)[..q] == AllOps(n.data)[..q]
    requires Sent(outs) == AllMsgs(d)[m..m1] && Requested(outs) == AllOps(d)[q..q1]
    ensures Progress(Absorb(n, Next(s, d, outs)), m1, q1, c)
  {
    var ms, os := AllMsgs(d), AllOps(d);
    assert ms[..m] + ms[m..m1] == ms[..m1];
    assert os[..q] + os[q..q1] == os[..q1];
    assert AllOps(n.data)[c..q] == AllOps(n.data)[..q][c..] == os[c..q];
    assert os[c..q] + os[q..q1] == os[c..q1];
    forall i | 0 <= i < c ensures n.completed[i].0 == os[i] {
      assert AllOps(n.data)[..q][i] == os[..q][i];
    }
  }

  lemma LiveKept(w: World, n: Node)
    requires Sized(w.prims) && Live(w, n)
    ensures Kept(w, n)
  {
  }

  lemma KeptStays(w: World, n: Node, n1: Node)
    requires Sized(w.prims) && InOrder(n) && Kept(w, n)
    requires n1.data == n.data && n1.nonce == n.nonce && n.received <= n1.received
    requires n1.msgs == n.msgs && n1.requests == n.requests
    requires n.completed <= n1.completed && (n1.completed == n.completed || n.outstanding != [])
    requires n1.outstanding == n.outstanding || n.outstanding != []
    ensures Kept(w, n1)
  {
    if |n.requests| >= 2 {
      PeerStays(w, n, n1);
    }
    if |n.msgs| >= 4 {
      KeyedStays(w, n, n1);
      ConfirmationStays(w, n, n1);
    }
  }

  /** Ending the connection keeps the order and what outlives it. */
  lemma Dies(w: World, n: Node, n1: Node)
    requires Sized(w.prims) && InOrder(n) && Fits(n.data) && Kept(w, n)
    requires n1.dead && n1.data == n.data && !n1.state.Authenticated?
    requires n1.nonce == n.nonce && n.received <= n1.received && n.completed <= n1.completed
    requires n1.msgs == n.msgs && n1.requests == n.requests
    requires (n1.outstanding == n.outstanding && n1.completed == n.completed)
          || (n.outstanding != [] && n1.outstanding == n.outstanding[1..]
              && (n1.completed == n.completed
                  || (|n1.completed| == |n.completed| + 1 && n1.completed[..|n.completed|] == n.completed
                      && n1.completed[|n.completed|].0 == n.outstanding[0]
                      && n.outstanding[0] == n.requests[|n.completed|])))
    ensures NodeInv(w, n1)
  {
    KeptStays(w, n, n1);
  }

  // ---------------------------------------------------------------- connecting, the clock

  lemma ConnectedIsLive(w: World, config: Config, nonce: nat)
    ensures var n := Connected(w, config, nonce);
            AtCapabilities(n) && n.data == FreshData(config) && !n.dead && n.state == AwaitingCapabilities
  {
    Emitted([SendMessage(OUR_CAPABILITIES)]);
  }

  lemma ConnectedHolds(w: World, config: Config, nonce: nat)
    requires Sized(w.prims) && ConfigFits(config)
    ensures NodeInv(w, Connected(w, config, nonce))
    ensures Connected(w, config, nonce).data.config == config
  {
    ConnectedIsLive(w, config, nonce);
    LiveHolds(w, Connected(w, config, nonce));
  }

  lemma TickStep(w: World, s: State, d: Data)
    requires s != Poisoned
    ensures HandleStep(w.wire, s, d, Tick(0), MAX_OUTPUTS) == Next(s, d, [])
  {
  }

  lemma ClockChangesNothing(w: World, n: Node)
    requires Sized(w.prims) && (n.dead || n.state != Poisoned)
    ensures NodeStep(w, n, Clock) == n
  {
    if !n.dead {
      TickStep(w, n.state, n.data);
      Emitted([]);
      assert n.msgs + [] == n.msgs && n.outstanding + [] == n.outstanding && n.requests + [] == n.requests;
    }
  }

  // ---------------------------------------------------------------- deliveries

  function Heard(n: Node, bytes: Bytes): Node {
    n.(received := n.received + [bytes])
  }

  lemma HeardProgress(n: Node, bytes: Bytes, m: nat, q: nat, c: nat)
    requires m <= 4 && c <= q <= 3 && Progress(n, m, q, c)
    ensures Progress(Heard(n, bytes), m, q, c)
  {
  }

  lemma PeerStays(w: World, n: Node, n1: Node)
    requires HasPeer(w, n) && n.received <= n1.received
    requires n1.data.peerHandshake == n.data.peerHandshake && n1.data.peerPublic == n.data.peerPublic
    requires n1.data.config == n.data.config
    ensures HasPeer(w, n1)
  {
  }

  lemma KeyedStays(w: World, n: Node, n1: Node)
    requires Sized(w.prims) && Keyed(w, n) && n.received <= n1.received && n1.nonce == n.nonce
    requires n1.data == n.data.(peerConfirmation := n1.data.peerConfirmation, pending := n1.data.pending, context := n1.data.context)
    requires |n1.completed| >= |n.completed| && n1.completed[0] == n.completed[0]
    ensures Keyed(w, n1)
  {
    PeerStays(w, n, n1);
  }

  lemma ConfirmationAt(w: World, n: Node, k: nat)
    requires 2 <= k < |n.received|
    requires w.wire.decode(n.received[k]) == Got(ConfirmationMsg(n.data.peerConfirmation))
    requires n.data.context == n.data.transcript + PeerKey(n.data)
    ensures HasConfirmation(w, n)
  {
  }

  lemma ConfirmationStays(w: World, n: Node, n1: Node)
    requires HasConfirmation(w, n) && n.received <= n1.received
    requires n1.data == n.data.(pending := n1.data.pending)
    ensures HasConfirmation(w, n1)
  {
    var k :| 2 <= k < |n.received| && w.wire.decode(n.received[k]) == Got(ConfirmationMsg(n.data.peerConfirmation));
    ConfirmationAt(w, n1, k);
  }

  lemma StatusStays(w: World, n: Node, n1: Node, ok: bool)
    requires StatusReceived(w, n, ok) && n.received <= n1.received
    ensures StatusReceived(w, n1, ok)
  {
    var k :| 3 <= k < |n.received| && w.wire.decodeOnly(STATUS_KEY, n.received[k]).Got?
             && w.wire.decodeOnly(STATUS_KEY, n.received[k]).msg.StatusMsg?
             && (w.wire.decodeOnly(STATUS_KEY, n.received[k]).msg.code == StatusOk) == ok;
    assert n1.received[k] == n.received[k];
  }

  lemma FailedStepDies(w: World, n: Node, bytes: Bytes, step: Step)
    requires Sized(w.prims) && NodeInv(w, n) && !step.Next?
    ensures NodeInv(w, Absorb(Heard(n, bytes), step))
  {
    Dies(w, n, Absorb(Heard(n, bytes), step));
  }

  lemma CapabilitiesAccepted(n: Node, bytes: Bytes, decoded: Decoded)
    requires AtCapabilities(n) && decoded.Got?
    ensures var n1 := Absorb(Heard(n, bytes), OnCapabilities(n.data, decoded, MAX_OUTPUTS));
            && n1.data == n.data && n1.dead == n.dead
            && ((n1.state == AwaitingHandshake && AtHandshakeResponder(n1))
                || (n1.state == InitiatingHandshake && AtInitiating(n1)))
  {
    var d := n.data;
    HeardProgress(n, bytes, 1, 0, 0);
    if d.config.isResponder {
      Emitted([]);
      Advance(Heard(n, bytes), AwaitingHandshake, d, [], 1, 0, 0, 1, 0);
    } else {
      Emitted([StartRequest(d, false)]);
      Advance(Heard(n, bytes), InitiatingHandshake, d, [StartRequest(d, false)], 1, 0, 0, 1, 1);
    }
  }

  /** The data after an accepted handshake, before the role decides. */
  function WithPeer(d: Data, bytes: Bytes, h: Handshake): Data {
    d.(peerHandshake := bytes, peerPublic := h.publicValue)
  }

  lemma HandshakeAtResponder(w: World, n: Node, bytes: Bytes, h: Handshake)
    requires AtHandshakeResponder(n) && w.wire.decode(bytes) == Got(HandshakeMsg(h))
    requires TokenAccepted(w.wire, n.data.config, h.token)
    ensures var n1 := Absorb(Heard(n, bytes), HandshakeAccepted(WithPeer(n.data, bytes, h), MAX_OUTPUTS));
            n1.state == GeneratingHandshake && n1.dead == n.dead && n1.data == WithPeer(n.data, bytes, h) && AtGenerating(w, n1)
  {
    var d := WithPeer(n.data, bytes, h);
    HeardProgress(n, bytes, 1, 0, 0);
    Emitted([StartRequest(d, true)]);
    Advance(Heard(n, bytes), GeneratingHandshake, d, [StartRequest(d, true)], 1, 0, 0, 1, 1);
  }

  lemma HandshakeAtInitiator(w: World, n: Node, bytes: Bytes, h: Handshake)
    requires AtHandshakeInitiator(w, n) && w.wire.decode(bytes) == Got(HandshakeMsg(h))
    requires TokenAccepted(w.wire, n.data.config, h.token)
    requires |bytes| + |n.data.ourHandshake| <= MAX_TRANSCRIPT_SIZE
    ensures var d1 := WithPeer(n.data, bytes, h).(transcript := n.data.ourHandshake + bytes);
            var n1 := Absorb(Heard(n, bytes), HandshakeAccepted(WithPeer(n.data, bytes, h), MAX_OUTPUTS));
            n1.state == Computing && n1.dead == n.dead && n1.data == d1 && Finishing(w, n1)
  {
    var d := WithPeer(n.data, bytes, h);
    var d1 := d.(transcript := n.data.ourHandshake + bytes);
    HeardProgress(n, bytes, 2, 1, 1);
    Emitted([FinishRequest(d1, 3)]);
    Advance(Heard(n, bytes), Computing, d1, [FinishRequest(d1, 3)], 2, 1, 1, 2, 2);
  }

  lemma BufferedFinishing(w: World, n: Node, bytes: Bytes)
    requires Finishing(w, n)
    ensures var n1 := Absorb(Heard(n, bytes), Next(Computing, n.data.(pending := bytes), []));
            Finishing(w, n1)
  {
    var n1 := Absorb(Heard(n, bytes), Next(Computing, n.data.(pending := bytes), []));
    HeardProgress(n, bytes, 2, 2, 1);
    Emitted([]);
    Advance(Heard(n, bytes), Computing, n.data.(pending := bytes), [], 2, 2, 1, 2, 2);
    PeerStays(w, n, n1);
  }

  lemma BufferedVerifying(w: World, n: Node, bytes: Bytes)
    requires Sized(w.prims) && Verifying(w, n)
    ensures var n1 := Absorb(Heard(n, bytes), Next(Computing, n.data.(pending := bytes), []));
            Verifying(w, n1)
  {
    var n1 := Absorb(Heard(n, bytes), Next(Computing, n.data.(pending := bytes), []));
    HeardProgress(n, bytes, 3, 3, 2);
    Emitted([]);
    Advance(Heard(n, bytes), Computing, n.data.(pending := bytes), [], 3, 3, 2, 3, 3);
    KeyedStays(w, n, n1);
    ConfirmationStays(w, n, n1);
  }

  lemma ConfirmationAccepted(w: World, n: Node, bytes: Bytes, value: Bytes)
    requires Sized(w.prims) && AtConfirmation(w, n)
    requires w.wire.decode(bytes) == Got(ConfirmationMsg(value))
    ensures var d1 := n.data.(peerConfirmation := value, context := n.data.transcript + PeerKey(n.data));
            Verifying(w, Absorb(Heard(n, bytes), Next(Computing, d1, [VerifyRequest(d1)])))
  {
    var d1 := n.data.(peerConfirmation := value, context := n.data.transcript + PeerKey(n.data));
    var n1 := Absorb(Heard(n, bytes), Next(Computing, d1, [VerifyRequest(d1)]));
    HeardProgress(n, bytes, 3, 2, 2);
    Emitted([VerifyRequest(d1)]);
    Advance(Heard(n, bytes), Computing, d1, [VerifyRequest(d1)], 3, 2, 2, 3, 3);
    KeyedStays(w, n, n1);
    ConfirmationAt(w, n1, |n.received|);
  }

  lemma ConfirmedStays(w: World, n: Node, bytes: Bytes, s: State, outs: seq<Output>)
    requires Sized(w.prims) && Confirmed(w, n) && Sent(outs) == [] && Requested(outs) == []
    ensures Confirmed(w, Absorb(Heard(n, bytes), Next(s, n.data, outs)))
  {
    var n1 := Absorb(Heard(n, bytes), Next(s, n.data, outs));
    HeardProgress(n, bytes, 4, 3, 3);
    Advance(Heard(n, bytes), s, n.data, outs, 4, 3, 3, 4, 3);
    KeyedStays(w, n, n1);
    ConfirmationStays(w, n, n1);
  }

  lemma StatusAccepted(w: World, n: Node, bytes: Bytes, code: StatusCode)
    requires Sized(w.prims) && Confirmed(w, n)
    requires w.wire.decodeOnly(STATUS_KEY, bytes) == Got(StatusMsg(code))
    ensures var n1 := Absorb(Heard(n, bytes), OnStatus(n.data, Got(StatusMsg(code)), MAX_OUTPUTS));
            && n1.dead == n.dead && n1.data == n.data && Confirmed(w, n1)
            && ((n1.state == Authenticated && StatusReceived(w, n1, true)) || (n1.state.Failed? && StatusReceived(w, n1, false)))
  {
    var outs := if code == StatusOk then [Event(AuthenticatedEvent)] else [];
    var s := if code == StatusOk then Authenticated else Failed(NetworkError.AuthenticationFailed);
    Emitted(outs);
    ConfirmedStays(w, n, bytes, s, outs);
    var n1 := Absorb(Heard(n, bytes), OnStatus(n.data, Got(StatusMsg(code)), MAX_OUTPUTS));
    assert n1.received[|n.received|] == bytes;
  }

  /** What a delivery does, with the decoding taken out of the state dispatch. */
  lemma DeliveryStep(w: World, n: Node, bytes: Bytes)
    requires Sized(w.prims) && !n.dead
    ensures NodeStep(w, n, Deliver(bytes)) ==
            Absorb(Heard(n, bytes),
              match n.state
              case Idle => Panic
              case AwaitingCapabilities => OnCapabilities(n.data, w.wire.decodeOnly(CAPABILITIES_KEY, bytes), MAX_OUTPUTS)
              case InitiatingHandshake => Panic
              case GeneratingHandshake => Panic
              case AwaitingHandshake => OnHandshake(w.wire, n.data, bytes, w.wire.decode(bytes), MAX_OUTPUTS)
              case Computing => if |bytes| > MAX_HANDSHAKE_MSG_SIZE then Fail(NetworkError.BufferFull)
                                else Next(Computing, n.data.(pending := bytes), [])
              case AwaitingConfirmation => CheckConfirmation(n.data, w.wire.decode(bytes), false, [], MAX_OUTPUTS)
              case AwaitingStatus => OnStatus(n.data, w.wire.decodeOnly(STATUS_KEY, bytes), MAX_OUTPUTS)
              case Authenticated => Next(n.state, n.data, [])
              case Failed(_) => Next(n.state, n.data, [])
              case Poisoned => Fail(InvalidState))
  {
  }

  lemma LiveHolds(w: World, n: Node)
    requires Sized(w.prims) && Live(w, n) && Fits(n.data) && !n.dead
    ensures NodeInv(w, n)
  {
    LiveInOrder(w, n);
    LiveKept(w, n);
  }

  lemma HandshakeDelivered(w: World, n: Node, bytes: Bytes)
    requires Sized(w.prims) && NodeInv(w, n) && !n.dead && n.state == AwaitingHandshake
    ensures NodeInv(w, Absorb(Heard(n, bytes), OnHandshake(w.wire, n.data, bytes, w.wire.decode(bytes), MAX_OUTPUTS)))
  {
    var decoded := w.wire.decode(bytes);
    var step := OnHandshake(w.wire, n.data, bytes, decoded, MAX_OUTPUTS);
    if decoded.Got? && decoded.msg.HandshakeMsg? && step == HandshakeAccepted(WithPeer(n.data, bytes, decoded.msg.handshake), MAX_OUTPUTS)
       && TokenAccepted(w.wire, n.data.config, decoded.msg.handshake.token)
       && |bytes| <= MAX_HANDSHAKE_MSG_SIZE && |decoded.msg.handshake.publicValue| <= PEER_PUBLIC_MAX_SIZE {
      if AtHandshakeResponder(n) {
        HandshakeAtResponder(w, n, bytes, decoded.msg.handshake);
      } else {
        HandshakeAtInitiator(w, n, bytes, decoded.msg.handshake);
      }
      LiveHolds(w, Absorb(Heard(n, bytes), step));
    } else {
      FailedStepDies(w, n, bytes, step);
    }
  }

  lemma CapabilitiesDelivered(w: World, n: Node, bytes: Bytes, decoded: Decoded)
    requires Sized(w.prims) && NodeInv(w, n) && !n.dead && n.state == AwaitingCapabilities
    ensures NodeInv(w, Absorb(Heard(n, bytes), OnCapabilities(n.data, decoded, MAX_OUTPUTS)))
  {
    if decoded.Got? {
      CapabilitiesAccepted(n, bytes, decoded);
      LiveHolds(w, Absorb(Heard(n, bytes), OnCapabilities(n.data, decoded, MAX_OUTPUTS)));
    } else {
      FailedStepDies(w, n, bytes, OnCapabilities(n.data, decoded, MAX_OUTPUTS));
    }
  }

  lemma BufferDelivered(w: World, n: Node, bytes: Bytes)
    requires Sized(w.prims) && NodeInv(w, n) && !n.dead && n.state == Computing && |bytes| <= MAX_HANDSHAKE_MSG_SIZE
    ensures NodeInv(w, Absorb(Heard(n, bytes), Next(Computing, n.data.(pending := bytes), [])))
  {
    if Finishing(w, n) {
      BufferedFinishing(w, n, bytes);
    } else {
      BufferedVerifying(w, n, bytes);
    }
    LiveHolds(w, Absorb(Heard(n, bytes), Next(Computing, n.data.(pending := bytes), [])));
  }

  lemma ConfirmationDelivered(w: World, n: Node, bytes: Bytes, decoded: Decoded)
    requires Sized(w.prims) && NodeInv(w, n) && !n.dead && n.state == AwaitingConfirmation && decoded == w.wire.decode(bytes)
    ensures NodeInv(w, Absorb(Heard(n, bytes), CheckConfirmation(n.data, decoded, false, [], MAX_OUTPUTS)))
  {
    var step := CheckConfirmation(n.data, decoded, false, [], MAX_OUTPUTS);
    if step.Next? {
      var value := decoded.msg.value;
      var d1 := n.data.(peerConfirmation := value, context := n.data.transcript + PeerKey(n.data));
      assert [] + [VerifyRequest(d1)] == [VerifyRequest(d1)];
      ConfirmationAccepted(w, n, bytes, value);
      LiveHolds(w, Absorb(Heard(n, bytes), step));
    } else {
      FailedStepDies(w, n, bytes, step);
    }
  }

  lemma StatusDelivered(w: World, n: Node, bytes: Bytes, decoded: Decoded)
    requires Sized(w.prims) && NodeInv(w, n) && !n.dead && n.state == AwaitingStatus && decoded == w.wire.decodeOnly(STATUS_KEY, bytes)
    ensures NodeInv(w, Absorb(Heard(n, bytes), OnStatus(n.data, decoded, MAX_OUTPUTS)))
  {
    var step := OnStatus(n.data, decoded, MAX_OUTPUTS);
    if step.Next? {
      StatusAccepted(w, n, bytes, decoded.msg.code);
      LiveHolds(w, Absorb(Heard(n, bytes), step));
    } else {
      FailedStepDies(w, n, bytes, step);
    }
  }

  lemma TerminalDelivered(w: World, n: Node, bytes: Bytes)
    requires Sized(w.prims) && NodeInv(w, n) && !n.dead && (n.state == Authenticated || n.state.Failed?)
    ensures NodeInv(w, Absorb(Heard(n, bytes), Next(n.state, n.data, [])))
  {
    var n1 := Absorb(Heard(n, bytes), Next(n.state, n.data, []));
    Emitted([]);
    ConfirmedStays(w, n, bytes, n.state, []);
    StatusStays(w, n, n1, n.state == Authenticated);
    LiveHolds(w, n1);
  }

  lemma DeliveryHolds(w: World, n: Node, bytes: Bytes)
    requires Sized(w.prims) && NodeInv(w, n) && !n.dead
    ensures NodeInv(w, NodeStep(w, n, Deliver(bytes)))
  {
    DeliveryStep(w, n, bytes);
    if n.state == AwaitingCapabilities {
      CapabilitiesDelivered(w, n, bytes, w.wire.decodeOnly(CAPABILITIES_KEY, bytes));
    } else if n.state == InitiatingHandshake || n.state == GeneratingHandshake {
      FailedStepDies(w, n, bytes, Panic);
    } else if n.state == AwaitingHandshake {
      HandshakeDelivered(w, n, bytes);
    } else if n.state == Computing {
      if |bytes| > MAX_HANDSHAKE_MSG_SIZE {
        FailedStepDies(w, n, bytes, Fail(NetworkError.BufferFull));
      } else {
        BufferDelivered(w, n, bytes);
      }
    } else if n.state == AwaitingConfirmation {
      ConfirmationDelivered(w, n, bytes, w.wire.decode(bytes));
    } else if n.state == AwaitingStatus {
      StatusDelivered(w, n, bytes, w.wire.decodeOnly(STATUS_KEY, bytes));
    } else {
      TerminalDelivered(w, n, bytes);
    }
  }

  // ---------------------------------------------------------------- completions

  function Took(n: Node, slot: Slot, bytes: Bytes): Node
    requires n.outstanding != []
  {
    n.(slot := slot, outstanding := n.outstanding[1..], completed := n.completed + [(n.outstanding[0], bytes)])
  }

  function Crypto(w: World, n: Node): (Slot, Result<Bytes, CryptoError>)
    requires Sized(w.prims) && n.outstanding != []
  {
    Execute(w.prims, n.slot, n.nonce, n.outstanding[0])
  }

  lemma CompletionStep(w: World, n: Node)
    requires Sized(w.prims) && !n.dead && n.outstanding != []
    ensures var (slot, r) := Crypto(w, n);
            NodeStep(w, n, Complete) ==
              if r.Err? then n.(slot := slot, outstanding := n.outstanding[1..], dead := true)
              else Absorb(Took(n, slot, r.value), HandleStep(w.wire, n.state, n.data, CryptoCompleted(r.value), MAX_OUTPUTS))
  {
  }

  lemma CompletionDies(w: World, n: Node, slot: Slot, bytes: Bytes, step: Step)
    requires Sized(w.prims) && NodeInv(w, n) && n.outstanding != [] && !step.Next?
    requires n.outstanding[0] == n.requests[|n.completed|]
    ensures NodeInv(w, Absorb(Took(n, slot, bytes), step))
  {
    Dies(w, n, Absorb(Took(n, slot, bytes), step));
  }

  lemma CryptoFailureDies(w: World, n: Node, slot: Slot)
    requires Sized(w.prims) && NodeInv(w, n) && n.outstanding != [] && !n.state.Authenticated?
    ensures NodeInv(w, n.(slot := slot, outstanding := n.outstanding[1..], dead := true))
  {
    Dies(w, n, n.(slot := slot, outstanding := n.outstanding[1..], dead := true));
  }

  /** The oldest outstanding operation is the next in protocol order; completing it moves
      the completion count on. */
  lemma TookProgress(n: Node, m: nat, q: nat, c: nat, slot: Slot, bytes: Bytes)
    requires m <= 4 && c < q <= 3 && Progress(n, m, q, c)
    ensures n.outstanding != [] && n.outstanding[0] == AllOps(n.data)[c] == n.requests[|n.completed|]
    ensures Progress(Took(n, slot, bytes), m, q, c + 1)
  {
    var t := Took(n, slot, bytes);
    forall i | 0 <= i < c + 1 ensures t.completed[i].0 == AllOps(n.data)[i] {
    }
  }

  lemma StartExecutes(w: World, n: Node, c: Config)
    requires Sized(w.prims) && n.outstanding != [] && n.outstanding[0] == StartOp(c)
    ensures Crypto(w, n) == (Some(Session(c.psk, c.isResponder, n.nonce)), Ok(w.prims.public(c.psk, c.isResponder, n.nonce)))
  {
  }

  /** The buffers once our handshake was generated. */
  function WithOwn(w: Codec, d: Data, pub: Bytes): Data {
    var d0 := d.(spake2Public := pub, tokenTemp := d.config.authToken);
    d0.(ourHandshake := w.encode(HandshakeMsg(OwnHandshakeOf(d0))))
  }

  lemma GenerateGives(w: Codec, d: Data, pub: Bytes)
    ensures var g := GenerateHandshake(w, d, pub, StatusOf(d.config.isResponder));
            g.Ok? ==> && g.value == WithOwn(w, d, pub) && |g.value.ourHandshake| <= MAX_HANDSHAKE_MSG_SIZE
                      && |pub| <= MAX_CRYPTO_OUTPUT && |d.config.authToken| <= MAX_AUTH_TOKEN_SIZE
                      && (d.config.authToken != [] ==> w.isText(d.config.authToken))
  {
  }

  lemma InitiatorStarted(w: World, n: Node, pub: Bytes)
    requires Sized(w.prims) && AtInitiating(n) && n.outstanding != []
    requires pub == w.prims.public(n.data.config.psk, false, n.nonce)
    requires n.data.config.authToken != [] ==> w.wire.isText(n.data.config.authToken)
    ensures var d1 := WithOwn(w.wire, n.data, pub);
            var n1 := Absorb(Took(n, Some(Session(n.data.config.psk, false, n.nonce)), pub),
                             Next(AwaitingHandshake, d1, [SendMessage(HandshakeMsg(OwnHandshakeOf(d1)))]));
            AtHandshakeInitiator(w, n1)
  {
    var d1 := WithOwn(w.wire, n.data, pub);
    var slot := Some(Session(n.data.config.psk, false, n.nonce));
    var outs := [SendMessage(HandshakeMsg(OwnHandshakeOf(d1)))];
    TookProgress(n, 1, 1, 0, slot, pub);
    Emitted(outs);
    Advance(Took(n, slot, pub), AwaitingHandshake, d1, outs, 1, 1, 1, 2, 1);
  }

  lemma ResponderStarted(w: World, n: Node, pub: Bytes)
    requires Sized(w.prims) && AtGenerating(w, n) && n.outstanding != []
    requires pub == w.prims.public(n.data.config.psk, true, n.nonce)
    requires n.data.config.authToken != [] ==> w.wire.isText(n.data.config.authToken)
    ensures var d1 := WithOwn(w.wire, n.data, pub);
            var d2 := d1.(transcript := d1.peerHandshake + d1.ourHandshake);
            var n1 := Absorb(Took(n, Some(Session(n.data.config.psk, true, n.nonce)), pub),
                             Next(Computing, d2, [SendMessage(HandshakeMsg(OwnHandshakeOf(d1))), FinishRequest(d2, 2)]));
            Finishing(w, n1)
  {
    var d1 := WithOwn(w.wire, n.data, pub);
    var d2 := d1.(transcript := d1.peerHandshake + d1.ourHandshake);
    var slot := Some(Session(n.data.config.psk, true, n.nonce));
    var outs := [SendMessage(HandshakeMsg(OwnHandshakeOf(d1))), FinishRequest(d2, 2)];
    TookProgress(n, 1, 1, 0, slot, pub);
    Emitted(outs);
    Advance(Took(n, slot, pub), Computing, d2, outs, 1, 1, 1, 2, 2);
    PeerStays(w, n, Absorb(Took(n, slot, pub), Next(Computing, d2, outs)));
  }

  lemma InitiatorStartTaken(w: World, n: Node, slot: Slot, pub: Bytes)
    requires Sized(w.prims) && NodeInv(w, n) && !n.dead && n.state == InitiatingHandshake
    requires pub == w.prims.public(n.data.config.psk, false, n.nonce)
    requires n.outstanding != [] && slot == Some(Session(n.data.config.psk, false, n.nonce))
    requires n.outstanding[0] == n.requests[|n.completed|]
    ensures NodeInv(w, Absorb(Took(n, slot, pub), HandleStep(w.wire, InitiatingHandshake, n.data, CryptoCompleted(pub), MAX_OUTPUTS)))
  {
    var step := HandleStep(w.wire, InitiatingHandshake, n.data, CryptoCompleted(pub), MAX_OUTPUTS);
    GenerateGives(w.wire, n.data, pub);
    if step.Next? {
      InitiatorStarted(w, n, pub);
      LiveHolds(w, Absorb(Took(n, slot, pub), step));
    } else {
      CompletionDies(w, n, slot, pub, step);
    }
  }

  lemma ResponderStartTaken(w: World, n: Node, slot: Slot, pub: Bytes)
    requires Sized(w.prims) && NodeInv(w, n) && !n.dead && n.state == GeneratingHandshake
    requires pub == w.prims.public(n.data.config.psk, true, n.nonce)
    requires n.outstanding != [] && slot == Some(Session(n.data.config.psk, true, n.nonce))
    requires n.outstanding[0] == n.requests[|n.completed|]
    ensures NodeInv(w, Absorb(Took(n, slot, pub), HandleStep(w.wire, GeneratingHandshake, n.data, CryptoCompleted(pub), MAX_OUTPUTS)))
  {
    var step := HandleStep(w.wire, GeneratingHandshake, n.data, CryptoCompleted(pub), MAX_OUTPUTS);
    GenerateGives(w.wire, n.data, pub);
    if step.Next? {
      ResponderStarted(w, n, pub);
      LiveHolds(w, Absorb(Took(n, slot, pub), step));
    } else {
      CompletionDies(w, n, slot, pub, step);
    }
  }

  lemma StartCompleted(w: World, n: Node)
    requires Sized(w.prims) && NodeInv(w, n) && !n.dead
    requires n.state == InitiatingHandshake || n.state == GeneratingHandshake
    ensures NodeInv(w, NodeStep(w, n, Complete))
  {
    var c := n.data.config;
    var pub := w.prims.public(c.psk, c.isResponder, n.nonce);
    var slot := Some(Session(c.psk, c.isResponder, n.nonce));
    TookProgress(n, 1, 1, 0, slot, pub);
    StartExecutes(w, n, c);
    CompletionStep(w, n);
    if n.state == InitiatingHandshake {
      InitiatorStartTaken(w, n, slot, pub);
    } else {
      ResponderStartTaken(w, n, slot, pub);
    }
  }

  /** A finish that succeeds returns the 128 bytes the machine parses. */
  lemma FinishExecutes(w: World, n: Node)
    requires Sized(w.prims) && InSession(n) && n.outstanding != [] && n.outstanding[0] == FinishOp(n.data)
    ensures var c := n.data.config;
            var r := Crypto(w, n).1;
            var s := w.prims.secret(c.psk, c.isResponder, n.nonce, n.data.peerPublic);
            r.Ok? ==> s.Some? && |s.value| == 32 && r.value == FinishResult(w.prims, s.value, n.data.transcript, c.isResponder)
  {
  }

  /** The buffers after a finish result was stored. */
  function WithKeys(w: World, d: Data, secret: Bytes): Data
    requires Sized(w.prims)
  {
    d.(sharedSecret := secret,
       myConfirmation := w.prims.hmac(if d.config.isResponder then ResponderKey(w.prims, secret) else InitiatorKey(w.prims, secret), d.transcript),
       initiatorKey := InitiatorKey(w.prims, secret),
       responderKey := ResponderKey(w.prims, secret))
  }

  lemma KeyedAfter(w: World, n: Node, n1: Node, secret: Bytes)
    requires Sized(w.prims) && Finishing(w, n) && |n1.completed| >= 1 && n1.completed[0] == n.completed[0]
    requires n1.received == n.received && n1.nonce == n.nonce
    requires w.prims.secret(n.data.config.psk, n.data.config.isResponder, n.nonce, n.data.peerPublic) == Some(secret)
    requires n1.data == WithKeys(w, n.data, secret).(peerConfirmation := n1.data.peerConfirmation, pending := n1.data.pending, context := n1.data.context)
    ensures Keyed(w, n1)
  {
    PeerStays(w, n, n1);
  }

  lemma FinishedWithoutPending(w: World, n: Node, slot: Slot, result: Bytes, secret: Bytes)
    requires Sized(w.prims) && Finishing(w, n) && n.data.pending == []
    requires w.prims.secret(n.data.config.psk, n.data.config.isResponder, n.nonce, n.data.peerPublic) == Some(secret)
    requires n.outstanding != [] && Progress(Took(n, slot, result), 2, 2, 2)
    ensures var d1 := WithKeys(w, n.data, secret);
            AtConfirmation(w, Absorb(Took(n, slot, result), Next(AwaitingConfirmation, d1, [SendMessage(ConfirmationMsg(d1.myConfirmation))])))
  {
    var d1 := WithKeys(w, n.data, secret);
    var outs := [SendMessage(ConfirmationMsg(d1.myConfirmation))];
    Emitted(outs);
    KeyedAfter(w, n, Absorb(Took(n, slot, result), Next(AwaitingConfirmation, d1, outs)), secret);
    Advance(Took(n, slot, result), AwaitingConfirmation, d1, outs, 2, 2, 2, 3, 2);
  }

  /** The buffers when a buffered confirmation is taken up right after the finish. */
  function WithPending(w: World, d: Data, secret: Bytes, value: Bytes): Data
    requires Sized(w.prims)
  {
    var d1 := WithKeys(w, d, secret);
    d1.(peerConfirmation := value, pending := [], context := d1.transcript + PeerKey(d1))
  }

  lemma FinishedWithPending(w: World, n: Node, slot: Slot, result: Bytes, secret: Bytes, value: Bytes)
    requires Sized(w.prims) && Finishing(w, n) && n.data.pending != []
    requires w.prims.secret(n.data.config.psk, n.data.config.isResponder, n.nonce, n.data.peerPublic) == Some(secret)
    requires n.outstanding != [] && Progress(Took(n, slot, result), 2, 2, 2)
    requires w.wire.decode(n.data.pending) == Got(ConfirmationMsg(value))
    ensures var d2 := WithPending(w, n.data, secret, value);
            Verifying(w, Absorb(Took(n, slot, result), Next(Computing, d2, [SendMessage(ConfirmationMsg(d2.myConfirmation)), VerifyRequest(d2)])))
  {
    var d2 := WithPending(w, n.data, secret, value);
    var outs := [SendMessage(ConfirmationMsg(d2.myConfirmation)), VerifyRequest(d2)];
    var n1 := Absorb(Took(n, slot, result), Next(Computing, d2, outs));
    Emitted(outs);
    KeyedAfter(w, n, n1, secret);
    Advance(Took(n, slot, result), Computing, d2, outs, 2, 2, 2, 3, 3);
    ConfirmationAt(w, n1, |n.received| - 1);
  }

  lemma PendingTaken(w: World, d: Data, secret: Bytes, decoded: Decoded)
    requires Sized(w.prims)
    ensures var d1 := WithKeys(w, d, secret);
            var sent := [SendMessage(ConfirmationMsg(d1.myConfirmation))];
            var step := CheckConfirmation(d1, decoded, true, sent, MAX_OUTPUTS);
            step.Next? ==>
              && decoded.Got? && decoded.msg.ConfirmationMsg? && |decoded.msg.value| <= MAX_CONFIRMATION_SIZE
              && (var d2 := WithPending(w, d, secret, decoded.msg.value);
                 |d2.context| <= MAX_CONFIRMATION_CONTEXT_SIZE
                 && step == Next(Computing, d2, [SendMessage(ConfirmationMsg(d2.myConfirmation)), VerifyRequest(d2)]))
  {
  }

  /** A finish result of the right shape moves on or ends the connection. */
  lemma FinishTaken(w: World, n: Node, slot: Slot, secret: Bytes)
    requires Sized(w.prims) && NodeInv(w, n) && !n.dead && Finishing(w, n) && n.outstanding != []
    requires |secret| == 32
    requires w.prims.secret(n.data.config.psk, n.data.config.isResponder, n.nonce, n.data.peerPublic) == Some(secret)
    ensures var result := FinishResult(w.prims, secret, n.data.transcript, n.data.config.isResponder);
            NodeInv(w, Absorb(Took(n, slot, result), OnFinish(w.wire, n.data, result, MAX_OUTPUTS)))
  {
    var c := n.data.config;
    var result := FinishResult(w.prims, secret, n.data.transcript, c.isResponder);
    TookProgress(n, 2, 2, 1, slot, result);
    KeysRoundTrip(w.prims, secret, n.data.transcript, c.isResponder, n.data);
    assert StoreKeys(n.data, result) == WithKeys(w, n.data, secret);
    if n.data.pending == [] {
      FinishedWithoutPending(w, n, slot, result, secret);
      LiveHolds(w, Absorb(Took(n, slot, result), OnFinish(w.wire, n.data, result, MAX_OUTPUTS)));
    } else {
      PendingTaken(w, n.data, secret, w.wire.decode(n.data.pending));
      var step := OnFinish(w.wire, n.data, result, MAX_OUTPUTS);
      if step.Next? {
        FinishedWithPending(w, n, slot, result, secret, w.wire.decode(n.data.pending).msg.value);
        LiveHolds(w, Absorb(Took(n, slot, result), step));
      } else {
        CompletionDies(w, n, slot, result, step);
      }
    }
  }

  /** Completing the finish either ends the connection or feeds the machine its result. */
  lemma FinishCompletion(w: World, n: Node)
    requires Sized(w.prims) && !n.dead && n.state == Computing
    requires InSession(n) && n.outstanding != [] && n.outstanding[0] == FinishOp(n.data)
    ensures var c := n.data.config;
            var (slot, r) := Crypto(w, n);
            var s := w.prims.secret(c.psk, c.isResponder, n.nonce, n.data.peerPublic);
            if r.Err? then NodeStep(w, n, Complete) == n.(slot := slot, outstanding := n.outstanding[1..], dead := true)
            else && s.Some? && |s.value| == 32
                 && r.value == FinishResult(w.prims, s.value, n.data.transcript, c.isResponder)
                 && NodeStep(w, n, Complete) == Absorb(Took(n, slot, r.value), OnFinish(w.wire, n.data, r.value, MAX_OUTPUTS))
  {
    CompletionStep(w, n);
    FinishExecutes(w, n);
  }

  lemma Finished(w: World, n: Node)
    requires Sized(w.prims) && NodeInv(w, n) && !n.dead && n.state == Computing && Finishing(w, n)
    ensures NodeInv(w, NodeStep(w, n, Complete))
  {
    TookProgress(n, 2, 2, 1, None, []);
    FinishCompletion(w, n);
    var (slot, r) := Crypto(w, n);
    if r.Err? {
      CryptoFailureDies(w, n, slot);
    } else {
      var c := n.data.config;
      FinishTaken(w, n, slot, w.prims.secret(c.psk, c.isResponder, n.nonce, n.data.peerPublic).value);
    }
  }

  lemma VerifyExecutes(w: World, n: Node)
    requires Sized(w.prims) && n.outstanding != [] && n.outstanding[0] == VerifyOp(n.data)
    requires n.data.context == n.data.transcript + PeerKey(n.data) && |PeerKey(n.data)| == 32
    ensures Crypto(w, n).1.Ok? <==> n.data.peerConfirmation == w.prims.hmac(PeerKey(n.data), n.data.transcript)
    ensures Crypto(w, n).1.Ok? ==> Crypto(w, n).1 == Ok([])
  {
    VerifyExact(w.prims, n.slot, n.nonce, n.data.transcript, PeerKey(n.data), n.data.peerConfirmation);
  }

  /** An empty result is taken as a successful verification. */
  lemma EmptyCompletion(w: World, n: Node)
    requires Sized(w.prims) && !n.dead && n.state == Computing && n.outstanding != [] && Crypto(w, n).1 == Ok([])
    ensures NodeStep(w, n, Complete) ==
            Absorb(Took(n, Crypto(w, n).0, []), Next(AwaitingStatus, n.data, [SendMessage(StatusMsg(StatusOk))]))
  {
    CompletionStep(w, n);
  }

  lemma NowConfirmed(w: World, n: Node, slot: Slot)
    requires Sized(w.prims) && Verifying(w, n) && n.outstanding != []
    requires n.data.peerConfirmation == w.prims.hmac(PeerKey(n.data), n.data.transcript)
    ensures Confirmed(w, Absorb(Took(n, slot, []), Next(AwaitingStatus, n.data, [SendMessage(StatusMsg(StatusOk))])))
  {
    var outs := [SendMessage(StatusMsg(StatusOk))];
    TookProgress(n, 3, 3, 2, slot, []);
    Emitted(outs);
    Advance(Took(n, slot, []), AwaitingStatus, n.data, outs, 3, 3, 3, 4, 3);
    var n1 := Absorb(Took(n, slot, []), Next(AwaitingStatus, n.data, outs));
    KeyedStays(w, n, n1);
    ConfirmationStays(w, n, n1);
  }

  lemma VerificationCompleted(w: World, n: Node)
    requires Sized(w.prims) && NodeInv(w, n) && !n.dead && n.state == Computing && Verifying(w, n)
    ensures NodeInv(w, NodeStep(w, n, Complete))
  {
    TookProgress(n, 3, 3, 2, None, []);
    var (slot, r) := Crypto(w, n);
    VerifyExecutes(w, n);
    if r.Err? {
      CompletionStep(w, n);
      CryptoFailureDies(w, n, slot);
    } else {
      EmptyCompletion(w, n);
      NowConfirmed(w, n, slot);
      LiveHolds(w, Absorb(Took(n, slot, []), Next(AwaitingStatus, n.data, [SendMessage(StatusMsg(StatusOk))])));
    }
  }

  lemma NothingOutstanding(w: World, n: Node)
    requires Sized(w.prims) && Live(w, n)
    requires n.state != InitiatingHandshake && n.state != GeneratingHandshake && n.state != Computing
    ensures n.outstanding == []
  {
  }

  lemma CompletionHolds(w: World, n: Node)
    requires Sized(w.prims) && NodeInv(w, n) && !n.dead && n.outstanding != []
    ensures NodeInv(w, NodeStep(w, n, Complete))
  {
    if n.state == InitiatingHandshake || n.state == GeneratingHandshake {
      StartCompleted(w, n);
    } else if n.state == Computing {
      if Finishing(w, n) {
        Finished(w, n);
      } else {
        VerificationCompleted(w, n);
      }
    } else {
      NothingOutstanding(w, n);
    }
  }

  /** Every step of an endpoint keeps the invariant, whatever is delivered and whenever
      its crypto completes. */
  lemma StepHolds(w: World, n: Node, e: Event)
    requires Sized(w.prims) && NodeInv(w, n)
    ensures NodeInv(w, NodeStep(w, n, e))
  {
    if n.dead {
    } else if e.Deliver? {
      DeliveryHolds(w, n, e.bytes);
    } else if e == Clock {
      ClockChangesNothing(w, n);
    } else if n.outstanding != [] {
      CompletionHolds(w, n);
    }
  }

  lemma {:induction false} RunHolds(w: World, n: Node, events: seq<Event>)
    requires Sized(w.prims) && NodeInv(w, n)
    ensures NodeInv(w, NodeRun(w, n, events))
    decreases |events|
  {
    if events != [] {
      StepHolds(w, n, events[0]);
      RunHolds(w, NodeStep(w, n, events[0]), events[1..]);
    }
  }
}
