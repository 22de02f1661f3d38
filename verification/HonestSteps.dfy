/** Every enabled step of a healthy node succeeds and leaves it healthy. */
module HonestSteps {
  import opened Basics
  import opened Messages
  import opened Machine
  import opened Provider
  import opened Node
  import opened NodeInvariant
  import opened NodeProofs
  import opened NodeTheorems
  import opened TwoNodes
  import opened TwoNodesSafety
  import opened Honest

  // ---------------------------------------------------------------- deliveries

  lemma CapabilitiesHeard(n: Node, bytes: Bytes)
    requires !n.dead && AtCapabilities(n)
    ensures var n1 := Absorb(Heard(n, bytes), OnCapabilities(n.data, Got(OUR_CAPABILITIES), MAX_OUTPUTS));
            !n1.dead && Tally(n1)
  {
  }

  lemma HandshakeHeard(w: World, n: Node, bytes: Bytes, h: Handshake)
    requires !n.dead && |n.received| == 1 && n.data.pending == [] && |n.requests| <= 1
    requires n.data.config.isResponder <==> n.data.spake2Public == []
    requires TokenAccepted(w.wire, n.data.config, h.token) && |h.publicValue| <= 64
    requires |bytes| <= 141 && |n.data.ourHandshake| <= MAX_HANDSHAKE_MSG_SIZE
    requires !n.data.config.isResponder ==> |n.requests| == 1
    ensures var n1 := Absorb(Heard(n, bytes), OnHandshake(w.wire, n.data, bytes, Got(HandshakeMsg(h)), MAX_OUTPUTS));
            !n1.dead && Tally(n1)
  {
    var d := WithPeer(n.data, bytes, h);
    Emitted([FinishRequest(d.(transcript := d.ourHandshake + bytes), 3)]);
  }

  lemma BufferedHeard(n: Node, bytes: Bytes)
    requires !n.dead && n.state == Computing && bytes != []
    requires |n.requests| == 2 ==> |n.received| == 2
    requires |n.requests| != 2 ==> |n.received| == 3
    ensures var n1 := Absorb(Heard(n, bytes), Next(Computing, n.data.(pending := bytes), []));
            !n1.dead && Tally(n1)
  {
    Emitted([]);
    assert n.requests + [] == n.requests;
  }

  lemma ConfirmationHeard(n: Node, bytes: Bytes, value: Bytes)
    requires !n.dead && n.state == AwaitingConfirmation && |n.requests| == 2 && |n.received| == 2 && n.data.pending == []
    requires |value| == 32 && |n.data.transcript| <= MAX_TRANSCRIPT_SIZE && |PeerKey(n.data)| <= MAX_KEY_SIZE
    ensures var n1 := Absorb(Heard(n, bytes), CheckConfirmation(n.data, Got(ConfirmationMsg(value)), false, [], MAX_OUTPUTS));
            !n1.dead && Tally(n1)
  {
    var d1 := n.data.(peerConfirmation := value, context := n.data.transcript + PeerKey(n.data));
    assert [] + [VerifyRequest(d1)] == [VerifyRequest(d1)];
    Emitted([VerifyRequest(d1)]);
  }

  lemma StatusHeard(n: Node, bytes: Bytes)
    requires !n.dead && n.state == AwaitingStatus && |n.received| == 3 && n.data.pending == []
    ensures var n1 := Absorb(Heard(n, bytes), OnStatus(n.data, Got(StatusMsg(StatusOk)), MAX_OUTPUTS));
            !n1.dead && Tally(n1)
  {
  }

  /** The responder's token check passes. */
  lemma TokenPasses(w: Codec, c: Config, p: Config)
    requires Compatible(w, c, p)
    ensures TokenAccepted(w, c, OwnHandshake(p.authToken, StatusOf(p.isResponder), []).token)
  {
  }

  lemma HandshakeStateFacts(w: World, n: Node)
    requires Sized(w.prims) && NodeInv(w, n) && !n.dead && n.state == AwaitingHandshake
    ensures |n.received| == 1 && n.data.pending == [] && |n.data.ourHandshake| <= MAX_HANDSHAKE_MSG_SIZE
    ensures n.data.config.isResponder <==> n.data.spake2Public == []
    ensures |n.requests| == if n.data.config.isResponder then 0 else 1
  {
  }

  lemma ConfirmationStateFacts(w: World, n: Node)
    requires Sized(w.prims) && NodeInv(w, n) && !n.dead && n.state == AwaitingConfirmation
    ensures |n.requests| == 2 && n.data.pending == []
    ensures |n.data.transcript| <= MAX_TRANSCRIPT_SIZE && |PeerKey(n.data)| <= MAX_KEY_SIZE
  {
  }

  /** The next message on the channel, by position. */
  lemma NextMessage(w: World, n: Node, peer: Node)
    requires HonestWorld(w) && Healthy(w, n, peer) && Healthy(w, peer, n) && Deliverable(n, peer)
    ensures var k := |n.received|;
            var bytes := w.wire.encode(peer.msgs[k]);
            && k < 4 && 0 < |bytes| <= 141
            && w.wire.decode(bytes) == Got(AllMsgs(peer.data)[k])
            && w.wire.decodeOnly(KeyOf(AllMsgs(peer.data)[k]), bytes) == Got(AllMsgs(peer.data)[k])
            && (k == 1 ==> |peer.data.spake2Public| <= 64)
            && (k == 2 ==> |peer.data.myConfirmation| == 32)
  {
    LiveMsg(w, peer, |n.received|);
    LiveSendable(w, peer, |n.received|);
  }

  lemma HandshakeDue(w: World, n: Node, peer: Node, bytes: Bytes)
    requires HonestWorld(w) && Healthy(w, n, peer) && n.state == AwaitingHandshake
    requires |bytes| <= 141 && |peer.data.spake2Public| <= 64
    ensures var n1 := Absorb(Heard(n, bytes), OnHandshake(w.wire, n.data, bytes, Got(HandshakeMsg(OwnHandshakeOf(peer.data))), MAX_OUTPUTS));
            !n1.dead && Tally(n1)
  {
    HandshakeStateFacts(w, n);
    TokenPasses(w.wire, n.data.config, peer.data.config);
    HandshakeHeard(w, n, bytes, OwnHandshakeOf(peer.data));
  }

  lemma ConfirmationDue(w: World, n: Node, peer: Node, bytes: Bytes)
    requires HonestWorld(w) && Healthy(w, n, peer) && n.state == AwaitingConfirmation
    requires |peer.data.myConfirmation| == 32
    ensures var n1 := Absorb(Heard(n, bytes), CheckConfirmation(n.data, Got(ConfirmationMsg(peer.data.myConfirmation)), false, [], MAX_OUTPUTS));
            !n1.dead && Tally(n1)
  {
    ConfirmationStateFacts(w, n);
    ConfirmationHeard(n, bytes, peer.data.myConfirmation);
  }

  lemma ReceivedByState(w: World, n: Node, peer: Node)
    requires Sized(w.prims) && Healthy(w, n, peer) && |n.received| < 4
    ensures n.state == AwaitingCapabilities ==> |n.received| == 0 && AtCapabilities(n)
    ensures n.state == AwaitingHandshake ==> |n.received| == 1
    ensures n.state == AwaitingConfirmation ==> |n.received| == 2
    ensures n.state == AwaitingStatus ==> |n.received| == 3 && n.data.pending == []
    ensures n.state == Computing && |n.requests| != 2 ==> |n.received| == 3
    ensures n.state in {AwaitingCapabilities, InitiatingHandshake, GeneratingHandshake, AwaitingHandshake, Computing, AwaitingConfirmation, AwaitingStatus}
  {
  }

  lemma HeardStaysAlive(w: World, n: Node, peer: Node)
    requires HonestWorld(w) && Healthy(w, n, peer) && Healthy(w, peer, n) && Deliverable(n, peer)
    ensures !Hear(w, n, peer).dead && Tally(Hear(w, n, peer))
  {
    var bytes := w.wire.encode(peer.msgs[|n.received|]);
    NextMessage(w, n, peer);
    NothingUntimely(w, n, peer);
    ReceivedByState(w, n, peer);
    DeliveryStep(w, n, bytes);
    if n.state == AwaitingCapabilities {
      CapabilitiesHeard(n, bytes);
    } else if n.state == AwaitingHandshake {
      HandshakeDue(w, n, peer, bytes);
    } else if n.state == Computing {
      BufferedHeard(n, bytes);
    } else if n.state == AwaitingConfirmation {
      ConfirmationDue(w, n, peer, bytes);
    } else {
      StatusHeard(n, bytes);
    }
  }

  /** Hearing the next message of a healthy peer. */
  lemma HearStaysHealthy(w: World, n: Node, peer: Node)
    requires HonestWorld(w) && Healthy(w, n, peer) && Healthy(w, peer, n) && Deliverable(n, peer)
    ensures Healthy(w, Hear(w, n, peer), peer) && Healthy(w, peer, Hear(w, n, peer))
  {
    SideStep(w, n, peer, Deliver(w.wire.encode(peer.msgs[|n.received|])));
    HeardStaysAlive(w, n, peer);
  }

  // ---------------------------------------------------------------- completions

  lemma OwnHandshakeFits(w: World, c: Config, status: PskStatus, pub: Bytes)
    requires Faithful(w.wire) && |pub| <= 64 && |c.authToken| <= MAX_AUTH_TOKEN_SIZE
    requires c.authToken != [] ==> w.wire.isText(c.authToken)
    ensures |w.wire.encode(HandshakeMsg(OwnHandshake(c.authToken, status, pub)))| <= 141
  {
    assert Sendable(w.wire, HandshakeMsg(OwnHandshake(c.authToken, status, pub)));
  }

  lemma InitiatorStartStays(w: World, n: Node, slot: Slot, pub: Bytes)
    requires Faithful(w.wire) && !n.dead && n.outstanding != [] && |pub| <= 64
    requires |n.data.config.authToken| <= MAX_AUTH_TOKEN_SIZE
    requires n.data.config.authToken != [] ==> w.wire.isText(n.data.config.authToken)
    ensures var n1 := Absorb(Took(n, slot, pub), InitiatingHandshakeStep(w.wire, n.data, CryptoCompleted(pub), MAX_OUTPUTS));
            !n1.dead && Tally(n1)
  {
    OwnHandshakeFits(w, n.data.config, PskShown, pub);
  }

  lemma ResponderStartStays(w: World, n: Node, slot: Slot, pub: Bytes)
    requires Faithful(w.wire) && !n.dead && n.outstanding != [] && |pub| <= 64
    requires |n.data.config.authToken| <= MAX_AUTH_TOKEN_SIZE
    requires n.data.config.authToken != [] ==> w.wire.isText(n.data.config.authToken)
    requires |n.requests| == 1 && |n.received| == 2 && n.data.pending == []
    requires |n.data.peerHandshake| <= MAX_HANDSHAKE_MSG_SIZE
    ensures var n1 := Absorb(Took(n, slot, pub), GeneratingHandshakeStep(w.wire, n.data, CryptoCompleted(pub), MAX_OUTPUTS));
            !n1.dead && Tally(n1)
  {
    OwnHandshakeFits(w, n.data.config, PskInput, pub);
    var step := GeneratingHandshakeStep(w.wire, n.data, CryptoCompleted(pub), MAX_OUTPUTS);
    Emitted(step.outputs);
  }

  lemma FinishStays(w: World, n: Node, slot: Slot, result: Bytes)
    requires !n.dead && n.outstanding != [] && |result| == RESULT_SIZE
    requires |n.requests| == 2 && Waiting(n, 2) && |n.data.transcript| <= MAX_TRANSCRIPT_SIZE
    requires n.data.pending != [] ==>
               && w.wire.decode(n.data.pending).Got? && w.wire.decode(n.data.pending).msg.ConfirmationMsg?
               && |w.wire.decode(n.data.pending).msg.value| == 32
    ensures var n1 := Absorb(Took(n, slot, result), OnFinish(w.wire, n.data, result, MAX_OUTPUTS));
            !n1.dead && Tally(n1)
  {
    var step := OnFinish(w.wire, n.data, result, MAX_OUTPUTS);
    Emitted(step.outputs);
  }

  lemma VerifyStays(n: Node, slot: Slot)
    requires !n.dead && n.outstanding != [] && n.state == Computing && Waiting(n, 3)
    ensures var n1 := Absorb(Took(n, slot, []), Next(AwaitingStatus, n.data, [SendMessage(StatusMsg(StatusOk))]));
            !n1.dead && Tally(n1)
  {
  }

  /** The finish operation of a healthy node succeeds. */
  lemma FinishSucceeds(w: World, n: Node, peer: Node)
    requires HonestWorld(w) && Healthy(w, n, peer) && Healthy(w, peer, n)
    requires n.state == Computing && Finishing(w, n) && n.outstanding != [] && n.outstanding[0] == FinishOp(n.data)
    ensures Crypto(w, n).1.Ok? && |Crypto(w, n).1.value| == RESULT_SIZE
  {
    SecretExists(w, n, peer);
    var c := n.data.config;
    var secret := w.prims.secret(c.psk, c.isResponder, n.nonce, n.data.peerPublic).value;
    KeysRoundTrip(w.prims, secret, n.data.transcript, c.isResponder, n.data);
  }

  /** What a node buffered while finishing is its peer's confirmation. */
  lemma BufferedConfirmation(w: World, n: Node, peer: Node)
    requires HonestWorld(w) && Healthy(w, n, peer) && Healthy(w, peer, n)
    requires Waiting(n, 2) && n.data.pending != []
    ensures w.wire.decode(n.data.pending) == Got(ConfirmationMsg(peer.data.myConfirmation))
    ensures |peer.data.myConfirmation| == 32
  {
    LiveMsg(w, peer, 2);
    LiveSendable(w, peer, 2);
  }

  lemma StartStaysAlive(w: World, n: Node, peer: Node)
    requires HonestWorld(w) && Healthy(w, n, peer) && n.outstanding != []
    requires n.state == InitiatingHandshake || n.state == GeneratingHandshake
    ensures !NodeStep(w, n, Complete).dead && Tally(NodeStep(w, n, Complete))
  {
    var c := n.data.config;
    TookProgress(n, 1, 1, 0, None, []);
    StartExecutes(w, n, c);
    CompletionStep(w, n);
    var pub := w.prims.public(c.psk, c.isResponder, n.nonce);
    if n.state == InitiatingHandshake {
      InitiatorStartStays(w, n, Some(Session(c.psk, c.isResponder, n.nonce)), pub);
    } else {
      ResponderStartStays(w, n, Some(Session(c.psk, c.isResponder, n.nonce)), pub);
    }
  }

  lemma FinishStaysAlive(w: World, n: Node, peer: Node)
    requires HonestWorld(w) && Healthy(w, n, peer) && Healthy(w, peer, n) && n.state == Computing && Finishing(w, n)
    ensures !NodeStep(w, n, Complete).dead && Tally(NodeStep(w, n, Complete))
  {
    TookProgress(n, 2, 2, 1, None, []);
    FinishCompletion(w, n);
    FinishSucceeds(w, n, peer);
    if n.data.pending != [] {
      BufferedConfirmation(w, n, peer);
    }
    FinishStays(w, n, Crypto(w, n).0, Crypto(w, n).1.value);
  }

  /** The verification of a healthy node succeeds: it sends its status and awaits the peer's. */
  lemma VerifyCompletion(w: World, n: Node, peer: Node)
    requires HonestWorld(w) && Healthy(w, n, peer) && Healthy(w, peer, n) && n.state == Computing && Verifying(w, n)
    ensures n.outstanding != []
    ensures NodeStep(w, n, Complete) ==
            Absorb(Took(n, Crypto(w, n).0, []), Next(AwaitingStatus, n.data, [SendMessage(StatusMsg(StatusOk))]))
  {
    TookProgress(n, 3, 3, 2, None, []);
    ConfirmationMatches(w, n, peer);
    VerifyExecutes(w, n);
    EmptyCompletion(w, n);
  }

  lemma VerifyStaysAlive(w: World, n: Node, peer: Node)
    requires HonestWorld(w) && Healthy(w, n, peer) && Healthy(w, peer, n) && n.state == Computing && Verifying(w, n)
    ensures !NodeStep(w, n, Complete).dead && Tally(NodeStep(w, n, Complete))
  {
    VerifyCompletion(w, n, peer);
    VerifyStays(n, Crypto(w, n).0);
  }

  /** Completing the outstanding operation of a healthy node. */
  lemma CompleteStaysHealthy(w: World, n: Node, peer: Node)
    requires HonestWorld(w) && Healthy(w, n, peer) && Healthy(w, peer, n)
    ensures Healthy(w, NodeStep(w, n, Complete), peer) && Healthy(w, peer, NodeStep(w, n, Complete))
  {
    SideStep(w, n, peer, Complete);
    if n.outstanding != [] {
      if n.state == InitiatingHandshake || n.state == GeneratingHandshake {
        StartStaysAlive(w, n, peer);
      } else if n.state == Computing {
        if Finishing(w, n) {
          FinishStaysAlive(w, n, peer);
        } else {
          VerifyStaysAlive(w, n, peer);
        }
      } else {
        NothingOutstanding(w, n);
      }
    }
  }
}
