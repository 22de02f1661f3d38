/** The protocol of one endpoint written down once more, without the state machine: from the
    configuration, the randomness and the byte strings received, what an endpoint takes, where
    it goes, and every message and operation it emits. Sizes and type keys are numbers here. */
module Reference {
  import opened Basics
  import opened Messages
  import opened Machine
  import opened Provider
  import opened Node
  import opened NodeInvariant
  import opened NodeProofs
  import opened NodeTheorems

  // ---------------------------------------------------------------- what is taken

  /** The byte strings that a live endpoint in state `s` survives. */
  ghost predicate Takes(w: Codec, c: Config, s: State, bytes: Bytes) {
    match s
    case AwaitingCapabilities => w.decodeOnly(1001, bytes).Got?
    case AwaitingHandshake =>
      && |bytes| <= 256 && w.decode(bytes).Got? && w.decode(bytes).msg.HandshakeMsg?
      && (var h := w.decode(bytes).msg.handshake;
         && |h.publicValue| <= 65
         && (c.isResponder && c.authToken != [] ==> w.isText(c.authToken) && h.token == Some(c.authToken)))
    case Computing => |bytes| <= 256
    case AwaitingConfirmation =>
      w.decode(bytes).Got? && w.decode(bytes).msg.ConfirmationMsg? && |w.decode(bytes).msg.value| <= 64
    case AwaitingStatus => w.decodeOnly(1004, bytes).Got? && w.decodeOnly(1004, bytes).msg.StatusMsg?
    case Authenticated => true
    case Failed(_) => true
    case _ => false
  }

  /** Where it goes with them. */
  ghost function After(w: Codec, c: Config, s: State, bytes: Bytes): State
    requires Takes(w, c, s, bytes)
  {
    match s
    case AwaitingCapabilities => if c.isResponder then AwaitingHandshake else InitiatingHandshake
    case AwaitingHandshake => if c.isResponder then GeneratingHandshake else Computing
    case AwaitingConfirmation => Computing
    case AwaitingStatus =>
      if w.decodeOnly(1004, bytes).msg.code == StatusOk then Authenticated else Failed(NetworkError.AuthenticationFailed)
    case _ => s
  }

  lemma CapabilitiesTaken(d: Data, decoded: Decoded)
    ensures var step := OnCapabilities(d, decoded, MAX_OUTPUTS);
            (step.Next? <==> decoded.Got?)
            && (step.Next? ==> step.state == (if d.config.isResponder then AwaitingHandshake else InitiatingHandshake))
  {
  }

  lemma HandshakeTaken(w: Codec, d: Data, bytes: Bytes)
    requires Fits(d) && (d.config.isResponder <==> d.spake2Public == [])
    ensures var step := OnHandshake(w, d, bytes, w.decode(bytes), MAX_OUTPUTS);
            (step.Next? <==> Takes(w, d.config, AwaitingHandshake, bytes))
            && (step.Next? ==> step.state == After(w, d.config, AwaitingHandshake, bytes))
  {
  }

  lemma ConfirmationTaken(w: Codec, d: Data, bytes: Bytes)
    requires Fits(d)
    ensures var step := CheckConfirmation(d, w.decode(bytes), false, [], MAX_OUTPUTS);
            (step.Next? <==> Takes(w, d.config, AwaitingConfirmation, bytes)) && (step.Next? ==> step.state == Computing)
  {
  }

  lemma StatusTaken(w: Codec, d: Data, bytes: Bytes)
    ensures var step := OnStatus(d, w.decodeOnly(STATUS_KEY, bytes), MAX_OUTPUTS);
            (step.Next? <==> Takes(w, d.config, AwaitingStatus, bytes))
            && (step.Next? ==> step.state == After(w, d.config, AwaitingStatus, bytes))
  {
  }

  /** Which deliveries a live endpoint survives, and where they take it: exactly those above. */
  lemma DeliveryExact(w: World, n: Node, bytes: Bytes)
    requires Sized(w.prims) && NodeInv(w, n) && !n.dead
    ensures var n1 := NodeStep(w, n, Deliver(bytes));
            && (!n1.dead <==> Takes(w.wire, n.data.config, n.state, bytes))
            && (!n1.dead ==> n1.state == After(w.wire, n.data.config, n.state, bytes))
            && n1.received == n.received + [bytes]
  {
    DeliveryStep(w, n, bytes);
    if n.state == AwaitingCapabilities {
      CapabilitiesTaken(n.data, w.wire.decodeOnly(CAPABILITIES_KEY, bytes));
    } else if n.state == AwaitingHandshake {
      PublicByRole(w, n);
      HandshakeTaken(w.wire, n.data, bytes);
    } else if n.state == AwaitingConfirmation {
      ConfirmationTaken(w.wire, n.data, bytes);
    } else if n.state == AwaitingStatus {
      StatusTaken(w.wire, n.data, bytes);
    }
  }

  // ---------------------------------------------------------------- what is computed

  /** The handshake of an endpoint. */
  ghost function Own(w: World, c: Config, nonce: nat): Message {
    HandshakeMsg(Handshake(
      if c.authToken == [] then None else Some(c.authToken),
      if c.isResponder then PskInput else PskShown,
      w.prims.public(c.psk, c.isResponder, nonce)))
  }

  /** The half of the expanded secret that is the confirmation key of a role. */
  ghost function Half(w: World, secret: Bytes, responder: bool): Bytes
    requires Sized(w.prims)
  {
    if responder then w.prims.hkdf(secret)[32..] else w.prims.hkdf(secret)[..32]
  }

  /** The initiator's handshake, then the responder's. */
  ghost function Exchange(w: World, c: Config, nonce: nat, peer: Bytes): Bytes {
    if c.isResponder then peer + w.wire.encode(Own(w, c, nonce)) else w.wire.encode(Own(w, c, nonce)) + peer
  }

  /** The peer's handshake is the second thing received. */
  ghost predicate Met(w: World, n: Node) {
    |n.received| >= 2 && w.wire.decode(n.received[1]).Got? && w.wire.decode(n.received[1]).msg.HandshakeMsg?
  }

  ghost function Shared(w: World, n: Node): Option<Bytes>
    requires Met(w, n)
  {
    var c := n.data.config;
    w.prims.secret(c.psk, c.isResponder, n.nonce, w.wire.decode(n.received[1]).msg.handshake.publicValue)
  }

  ghost function TranscriptOf(w: World, n: Node): Bytes
    requires |n.received| >= 2
  {
    Exchange(w, n.data.config, n.nonce, n.received[1])
  }

  /** Its confirmation: the MAC of the transcript under the key of its role. */
  ghost function Proof(w: World, n: Node): Message
    requires Sized(w.prims) && Met(w, n) && Shared(w, n).Some?
  {
    ConfirmationMsg(w.prims.hmac(Half(w, Shared(w, n).value, n.data.config.isResponder), TranscriptOf(w, n)))
  }

  /** Its finish request. */
  ghost function Joining(w: World, n: Node): CryptoOp
    requires Met(w, n)
  {
    var c := n.data.config;
    Finish(w.prims.public(c.psk, c.isResponder, n.nonce), w.wire.decode(n.received[1]).msg.handshake.publicValue,
           TranscriptOf(w, n), c.myFingerprint, c.peerFingerprint, c.isResponder)
  }

  /** The messages of an endpoint, as far as it has got. */
  ghost predicate Says(w: World, n: Node)
    requires Sized(w.prims)
  {
    var c := n.data.config;
    && |n.msgs| <= 4
    && (|n.msgs| >= 1 ==> n.msgs[0] == CapabilitiesMsg(Capabilities(Simple, [], 64)))
    && (|n.msgs| >= 2 ==> n.msgs[1] == Own(w, c, n.nonce))
    && (|n.msgs| >= 3 ==> Met(w, n) && Shared(w, n).Some? && n.msgs[2] == Proof(w, n))
    && (|n.msgs| >= 4 ==> n.msgs[3] == StatusMsg(StatusOk))
  }

  /** The operations it has requested. */
  ghost predicate Asks(w: World, n: Node)
    requires Sized(w.prims)
  {
    var c := n.data.config;
    && |n.requests| <= 3
    && (|n.requests| >= 1 ==> n.requests[0] == Start(c.psk, c.isResponder))
    && (|n.requests| >= 2 ==> Met(w, n) && n.requests[1] == Joining(w, n))
    && (|n.requests| >= 3 ==> Shared(w, n).Some? && exists k :: 2 <= k < |n.received| && Checks(w, n, k))
  }

  /** It verifies the confirmation received as number `k`, under the other role's key. */
  ghost predicate Checks(w: World, n: Node, k: int)
    requires Sized(w.prims) && Met(w, n) && Shared(w, n).Some? && |n.requests| >= 3
  {
    && 2 <= k < |n.received| && w.wire.decode(n.received[k]).Got? && w.wire.decode(n.received[k]).msg.ConfirmationMsg?
    && n.requests[2] == Verify(TranscriptOf(w, n) + Half(w, Shared(w, n).value, !n.data.config.isResponder),
                               w.wire.decode(n.received[k]).msg.value)
  }

  /** How many messages, requests and completions there are in a state. */
  ghost predicate Counts(n: Node) {
    match n.state
    case AwaitingCapabilities => Logged(n, 1, 0, 0)
    case InitiatingHandshake => Logged(n, 1, 1, 0)
    case AwaitingHandshake => if n.data.config.isResponder then Logged(n, 1, 0, 0) else Logged(n, 2, 1, 1)
    case GeneratingHandshake => Logged(n, 1, 1, 0)
    case Computing => Logged(n, 2, 2, 1) || Logged(n, 3, 3, 2)
    case AwaitingConfirmation => Logged(n, 3, 2, 2)
    case AwaitingStatus => Logged(n, 4, 3, 3)
    case Authenticated => Logged(n, 4, 3, 3)
    case Failed(e) => Logged(n, 4, 3, 3) && e == NetworkError.AuthenticationFailed
    case _ => false
  }

  predicate Logged(n: Node, m: nat, q: nat, c: nat) {
    |n.msgs| == m && |n.requests| == q && |n.completed| == c && |n.outstanding| == q - c
  }

  lemma LiveCounts(w: World, n: Node)
    requires Sized(w.prims) && NodeInv(w, n) && !n.dead && (n.state.Failed? ==> n.state.reason == NetworkError.AuthenticationFailed)
    ensures Counts(n)
  {
  }

  // ---------------------------------------------------------------- live endpoints follow it

  lemma OwnIs(w: World, n: Node)
    requires HasOwn(w, n)
    ensures HandshakeMsg(OwnHandshakeOf(n.data)) == Own(w, n.data.config, n.nonce)
    ensures n.data.ourHandshake == w.wire.encode(Own(w, n.data.config, n.nonce))
  {
  }

  lemma BuiltIs(w: World, n: Node)
    requires HasOwn(w, n) && HasPeer(w, n) && HasTranscript(n.data)
    ensures Met(w, n) && n.data.transcript == TranscriptOf(w, n)
    ensures FinishOp(n.data) == Joining(w, n)
  {
    OwnIs(w, n);
  }

  lemma KeysAre(w: World, n: Node)
    requires Sized(w.prims) && Keyed(w, n)
    ensures Met(w, n) && Shared(w, n).Some? && n.data.sharedSecret == Shared(w, n).value
    ensures n.data.initiatorKey == Half(w, Shared(w, n).value, false) && n.data.responderKey == Half(w, Shared(w, n).value, true)
    ensures n.data.transcript == TranscriptOf(w, n) && ConfirmationMsg(n.data.myConfirmation) == Proof(w, n)
    ensures PeerKey(n.data) == Half(w, Shared(w, n).value, !n.data.config.isResponder)
  {
    BuiltIs(w, n);
  }

  lemma ProgressSays(w: World, n: Node, m: nat, q: nat, c: nat)
    requires Sized(w.prims) && c <= q <= 2 && m <= 3 && Progress(n, m, q, c)
    requires m >= 2 ==> HasOwn(w, n)
    requires q >= 2 ==> HasOwn(w, n) && HasPeer(w, n) && HasTranscript(n.data)
    requires m >= 3 ==> Keyed(w, n)
    ensures Says(w, n) && Asks(w, n)
  {
    if m >= 2 { OwnIs(w, n); }
    if q >= 2 { BuiltIs(w, n); }
    if m >= 3 { KeysAre(w, n); }
  }

  lemma LastSays(w: World, n: Node, m: nat, c: nat)
    requires Sized(w.prims) && 3 <= m <= 4 && c <= 3 && Progress(n, m, 3, c) && Keyed(w, n) && HasConfirmation(w, n)
    ensures Says(w, n) && Asks(w, n)
  {
    OwnIs(w, n);
    BuiltIs(w, n);
    KeysAre(w, n);
    var k :| 2 <= k < |n.received| && w.wire.decode(n.received[k]) == Got(ConfirmationMsg(n.data.peerConfirmation));
    assert Checks(w, n, k);
  }

  lemma LiveSays(w: World, n: Node)
    requires Sized(w.prims) && NodeInv(w, n) && !n.dead
    ensures Says(w, n) && Asks(w, n)
  {
    match n.state
    case AwaitingCapabilities => ProgressSays(w, n, 1, 0, 0);
    case InitiatingHandshake => ProgressSays(w, n, 1, 1, 0);
    case AwaitingHandshake =>
      if AtHandshakeResponder(n) { ProgressSays(w, n, 1, 0, 0); } else { ProgressSays(w, n, 2, 1, 1); }
    case GeneratingHandshake => ProgressSays(w, n, 1, 1, 0);
    case Computing => if Finishing(w, n) { ProgressSays(w, n, 2, 2, 1); } else { LastSays(w, n, 3, 2); }
    case AwaitingConfirmation => ProgressSays(w, n, 3, 2, 2);
    case AwaitingStatus => LastSays(w, n, 4, 3);
    case Authenticated => LastSays(w, n, 4, 3);
    case Failed(_) => LastSays(w, n, 4, 3);
  }

  // ---------------------------------------------------------------- completions

  /** The results of an outstanding operation that a live endpoint survives. */
  ghost predicate Finishes(w: World, n: Node)
    requires Sized(w.prims)
  {
    var c := n.data.config;
    if n.state == InitiatingHandshake || n.state == GeneratingHandshake then
      (c.authToken != [] ==> w.wire.isText(c.authToken)) && |w.wire.encode(Own(w, c, n.nonce))| <= 256
    else if |n.requests| == 2 then
      Met(w, n) && Shared(w, n).Some?
      && (n.data.pending == [] || (w.wire.decode(n.data.pending).Got? && w.wire.decode(n.data.pending).msg.ConfirmationMsg?
                                   && |w.wire.decode(n.data.pending).msg.value| <= 64))
    else
      Met(w, n) && Shared(w, n).Some?
      && n.data.peerConfirmation == w.prims.hmac(Half(w, Shared(w, n).value, !c.isResponder), TranscriptOf(w, n))
  }

  ghost function Then(n: Node): State {
    match n.state
    case InitiatingHandshake => AwaitingHandshake
    case GeneratingHandshake => Computing
    case _ =>
      if |n.requests| == 3 then AwaitingStatus else if n.data.pending == [] then AwaitingConfirmation else Computing
  }

  lemma GenerateTaken(w: Codec, d: Data, public: Bytes, status: PskStatus)
    requires Fits(d) && |public| <= 64
    ensures var token := d.config.authToken;
            var own := HandshakeMsg(Handshake(if token == [] then None else Some(token), status, public));
            GenerateHandshake(w, d, public, status).Ok? <==> (token != [] ==> w.isText(token)) && |w.encode(own)| <= 256
  {
  }

  lemma StartTaken(w: World, n: Node)
    requires Sized(w.prims) && NodeInv(w, n) && !n.dead && (n.state == InitiatingHandshake || n.state == GeneratingHandshake)
    ensures var n1 := NodeStep(w, n, Complete);
            (!n1.dead <==> Finishes(w, n)) && (!n1.dead ==> n1.state == Then(n))
  {
    var c := n.data.config;
    TookProgress(n, 1, 1, 0, None, []);
    StartExecutes(w, n, c);
    CompletionStep(w, n);
    GenerateTaken(w.wire, n.data, w.prims.public(c.psk, c.isResponder, n.nonce), if c.isResponder then PskInput else PskShown);
  }

  lemma FinishSucceeds(w: World, n: Node)
    requires Sized(w.prims) && InSession(n) && n.outstanding != [] && n.outstanding[0] == FinishOp(n.data) && ConfigFits(n.data.config)
    ensures var c := n.data.config;
            Crypto(w, n).1.Ok? <==> w.prims.secret(c.psk, c.isResponder, n.nonce, n.data.peerPublic).Some?
  {
  }

  lemma PendingSurvives(w: Codec, d: Data, result: Bytes)
    requires Fits(d) && |result| == 128
    ensures var step := OnFinish(w, d, result, MAX_OUTPUTS);
            && (step.Next? <==> d.pending == [] || (w.decode(d.pending).Got? && w.decode(d.pending).msg.ConfirmationMsg?
                                                    && |w.decode(d.pending).msg.value| <= 64))
            && (step.Next? ==> step.state == if d.pending == [] then AwaitingConfirmation else Computing)
  {
  }

  lemma FinishTakenExactly(w: World, n: Node)
    requires Sized(w.prims) && NodeInv(w, n) && !n.dead && n.state == Computing && Finishing(w, n)
    ensures var n1 := NodeStep(w, n, Complete);
            (!n1.dead <==> Finishes(w, n)) && (!n1.dead ==> n1.state == Then(n))
  {
    TookProgress(n, 2, 2, 1, None, []);
    BuiltIs(w, n);
    FinishCompletion(w, n);
    FinishSucceeds(w, n);
    var (slot, r) := Crypto(w, n);
    if r.Ok? {
      PendingSurvives(w.wire, n.data, r.value);
    }
  }

  lemma VerifyTakenExactly(w: World, n: Node)
    requires Sized(w.prims) && NodeInv(w, n) && !n.dead && n.state == Computing && Verifying(w, n)
    ensures var n1 := NodeStep(w, n, Complete);
            (!n1.dead <==> Finishes(w, n)) && (!n1.dead ==> n1.state == Then(n))
  {
    TookProgress(n, 3, 3, 2, None, []);
    KeysAre(w, n);
    VerifyExecutes(w, n);
    if Crypto(w, n).1.Err? {
      CompletionStep(w, n);
    } else {
      EmptyCompletion(w, n);
    }
  }

  /** Which completions a live endpoint survives, and where they take it. */
  lemma CompletionExact(w: World, n: Node)
    requires Sized(w.prims) && NodeInv(w, n) && !n.dead && n.outstanding != []
    ensures var n1 := NodeStep(w, n, Complete);
            (!n1.dead <==> Finishes(w, n)) && (!n1.dead ==> n1.state == Then(n))
  {
    if n.state == InitiatingHandshake || n.state == GeneratingHandshake {
      StartTaken(w, n);
    } else if n.state == Computing {
      if Finishing(w, n) { FinishTakenExactly(w, n); } else { VerifyTakenExactly(w, n); }
    } else {
      NothingOutstanding(w, n);
    }
  }

  // ---------------------------------------------------------------- every run follows it

  /** The first thing received decoded as capabilities; and only a bad status makes it fail. */
  ghost predicate Began(w: World, n: Node) {
    && (!n.dead && n.state != AwaitingCapabilities ==> |n.received| >= 1 && w.wire.decodeOnly(1001, n.received[0]).Got?)
    && (!n.dead && n.state == AwaitingCapabilities ==> n.received == [])
    && (n.state.Failed? ==> n.state.reason == NetworkError.AuthenticationFailed)
  }

  ghost predicate Follows(w: World, n: Node)
    requires Sized(w.prims)
  {
    Says(w, n) && Asks(w, n) && Began(w, n) && (!n.dead ==> Counts(n))
  }

  /** A step that ends the connection leaves what was said and asked. */
  lemma EndingKeeps(w: World, n: Node, n1: Node)
    requires Sized(w.prims) && Says(w, n) && Asks(w, n)
    requires n1.msgs == n.msgs && n1.requests == n.requests && n.received <= n1.received
    requires n1.data.config == n.data.config && n1.nonce == n.nonce
    ensures Says(w, n1) && Asks(w, n1)
  {
    if |n.requests| >= 3 {
      var k :| 2 <= k < |n.received| && Checks(w, n, k);
      assert Checks(w, n1, k);
    }
  }

  lemma DeadKeepsLogs(w: World, n: Node, e: Event)
    requires Sized(w.prims) && NodeStep(w, n, e).dead
    ensures NodeStep(w, n, e).msgs == n.msgs && NodeStep(w, n, e).requests == n.requests
    ensures !n.dead ==> NodeStep(w, n, e).state == Poisoned || NodeStep(w, n, e).state == n.state
    ensures n.dead ==> NodeStep(w, n, e) == n
  {
  }

  lemma BeganStays(w: World, n: Node, e: Event)
    requires Sized(w.prims) && NodeInv(w, n) && Began(w, n) && !n.dead
    ensures Began(w, NodeStep(w, n, e))
  {
    match e
    case Deliver(bytes) =>
      DeliveryExact(w, n, bytes);
      if NodeStep(w, n, e).dead { DeadKeepsLogs(w, n, e); }
    case Clock => ClockChangesNothing(w, n);
    case Complete =>
      if n.outstanding != [] {
        CompletionExact(w, n);
        StepExtends(w, n, e);
        if NodeStep(w, n, e).dead { DeadKeepsLogs(w, n, e); }
        LiveCounts(w, n);
      }
  }

  lemma StepFollows(w: World, n: Node, e: Event)
    requires Sized(w.prims) && NodeInv(w, n) && Follows(w, n)
    ensures Follows(w, NodeStep(w, n, e))
  {
    if !n.dead {
      var n1 := NodeStep(w, n, e);
      BeganStays(w, n, e);
      StepHolds(w, n, e);
      StepExtends(w, n, e);
      if n1.dead {
        DeadKeepsLogs(w, n, e);
        EndingKeeps(w, n, n1);
      } else {
        LiveSays(w, n1);
        LiveCounts(w, n1);
      }
    }
  }

  lemma {:induction false} RunFollowsFrom(w: World, n: Node, events: seq<Event>)
    requires Sized(w.prims) && NodeInv(w, n) && Follows(w, n)
    ensures Follows(w, NodeRun(w, n, events))
    decreases |events|
  {
    if events != [] {
      StepFollows(w, n, events[0]);
      StepHolds(w, n, events[0]);
      RunFollowsFrom(w, NodeStep(w, n, events[0]), events[1..]);
    }
  }

  /** In every run, over any network: what an endpoint has said and asked for is what its
      configuration, its randomness and the byte strings received determine, in the numbers
      its state tells, also after the connection ended; past the first state, the first thing
      received decoded as capabilities. */
  lemma RunFollows(w: World, config: Config, nonce: nat, events: seq<Event>)
    requires Sized(w.prims) && ConfigFits(config)
    ensures Follows(w, NodeRun(w, Connected(w, config, nonce), events))
  {
    ConnectedHolds(w, config, nonce);
    ConnectedIsLive(w, config, nonce);
    LiveSays(w, Connected(w, config, nonce));
    LiveCounts(w, Connected(w, config, nonce));
    RunFollowsFrom(w, Connected(w, config, nonce), events);
  }
}
