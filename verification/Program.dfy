/** The theorems about two endpoints at the wire format of the program itself. What they
    ask of the format is discharged; what they ask of the crypto primitives remains. */
module Program {
  import opened Basics
  import opened Messages
  import opened Machine
  import opened Provider
  import opened Node
  import opened NodeInvariant
  import opened TwoNodes
  import opened WireFaithful
  import opened TwoNodesSafety
  import opened Honest
  import opened Convergence
  import opened Drained
  import opened LostStatus
  import opened Race
  import opened Drivers
  import opened Joined
  import opened NodeProofs
  import T = NodeTheorems
  import R = Reference
  import W = WireBytes

  function Deployed(p: Primitives): World {
    World(WIRE, p)
  }

  /** Two endpoints as the user configures them: one password, opposite roles, tokens that
      are text, and the responder's token, if it has one, is the initiator's. */
  ghost predicate Configured(u: Setup) {
    SetupFits(u) && Compatible(WIRE, u.ca, u.cb)
  }

  lemma DeployedIsHonest(p: Primitives, u: Setup)
    requires Sized(p) && Agrees(p) && Configured(u)
    ensures HonestSetup(Deployed(p), u)
  {
    WireIsFaithful();
  }

  lemma NoEarlyAuthenticationDeployed(p: Primitives, u: Setup, acts: seq<Action>)
    requires Sized(p) && SetupFits(u)
    ensures var w := Deployed(p);
            var s := SysRun(w, Begin(w, u), acts);
            s.a.state == Authenticated || s.b.state == Authenticated ==>
              VerifiedPeer(w, s.a, s.b) && VerifiedPeer(w, s.b, s.a) && s.a.data.transcript == s.b.data.transcript
  {
    WireIsFaithful();
    NoEarlyAuthentication(Deployed(p), u, acts);
  }

  lemma AsynchronousConvergenceDeployed(p: Primitives, u: Setup, acts: seq<Action>)
    requires Sized(p) && Agrees(p) && Configured(u)
    ensures var w := Deployed(p);
            var s := SysRun(w, Begin(w, u), acts);
            && !s.a.dead && !s.b.dead && Work(s) <= 14 && (Quiescent(s) <==> Work(s) == 14)
            && (Quiescent(s) ==>
                 (s.a.state == Authenticated && s.b.state == Authenticated
                  <==> !SwallowedIn(w, Begin(w, u), acts)))
  {
    DeployedIsHonest(p, u);
    AsynchronousConvergence(Deployed(p), u, acts);
  }

  lemma LostStatusDeployed(p: Primitives, u: Setup) returns (acts: seq<Action>)
    requires Sized(p) && Agrees(p) && Configured(u)
    ensures var w := Deployed(p);
            var s := SysRun(w, Begin(w, u), acts);
            && Quiescent(s) && s.b.state == Authenticated && s.a.state == AwaitingStatus
            && |s.b.msgs| == 4 && s.a.data.pending == Encode(s.b.msgs[3])
  {
    DeployedIsHonest(p, u);
    acts := AsynchronousCryptoLosesStatus(Deployed(p), u);
  }

  lemma DrainedConvergenceDeployed(p: Primitives, u: Setup, turns: seq<Turn>)
    requires Sized(p) && Agrees(p) && Configured(u)
    ensures var w := Deployed(p);
            var s := DrainedRun(w, Begin(w, u), turns);
            && !s.a.dead && !s.b.dead && Deliveries(s) <= 8
            && (Deliveries(s) == 8 <==> s.a.state == Authenticated && s.b.state == Authenticated)
            && (Deliveries(s) < 8 ==> Delivers(s, ToA) || Delivers(s, ToB))
  {
    DeployedIsHonest(p, u);
    DrainedConvergence(Deployed(p), u, turns);
  }

  /** The two drivers over byte streams: both authenticate if and only if each took in all
      the bytes the other transmitted. */
  lemma DriversConvergeDeployed(p: Primitives, u: Setup, toA: seq<Arrival>, toB: seq<Arrival>, a: Node, b: Node)
    requires Sized(p) && Agrees(p) && Configured(u)
    requires a == Driven(Taking(Deployed(p), false), Connected(Deployed(p), u.ca, u.na), toA)
    requires b == Driven(Taking(Deployed(p), true), Connected(Deployed(p), u.cb, u.nb), toB)
    requires Streams(toA) <= EncodeAll(Encode, b.msgs) && Streams(toB) <= EncodeAll(Encode, a.msgs)
    ensures !a.dead && !b.dead
    ensures a.state == Authenticated && b.state == Authenticated
       <==> Streams(toA) == EncodeAll(Encode, b.msgs) && Streams(toB) == EncodeAll(Encode, a.msgs)
  {
    DeployedIsHonest(p, u);
    var turns := DriversConverge(Deployed(p), u, toA, toB, a, b);
  }

  lemma RaceConfluenceDeployed(d: Data, c: Bytes, result: Bytes)
    requires Fits(d) && |result| >= RESULT_SIZE && d.pending == []
    ensures var early := Both(WIRE, Computing, d, DataReceived(0, c), CryptoCompleted(result));
            var late := Both(WIRE, Computing, d, CryptoCompleted(result), DataReceived(0, c));
            && (early.Next? && late.Next? <==> Usable(WIRE, c))
            && (Usable(WIRE, c) ==> early == late && early.state == Computing)
  {
    EmptyIsNoMessage();
    RaceConfluence(WIRE, d, c, result);
  }

  // ---------------------------------------------------------------- in full

  lemma OnlyCapabilities(bytes: Bytes)
    ensures DecodeOnly(1001, bytes).Got? ==> DecodeOnly(1001, bytes).msg.CapabilitiesMsg?
  {
  }

  /** Every connection opens with the same eight bytes, and goes past them only when the
      peer's first bytes have decoded as capabilities. */
  lemma ConnectionOpens(p: Primitives, config: Config, nonce: nat, events: seq<Event>)
    requires Sized(p) && ConfigFits(config)
    ensures var w := Deployed(p);
            var n := NodeRun(w, Connected(w, config, nonce), events);
            && |n.msgs| >= 1 && Encode(n.msgs[0]) == [0x43, 0xE9, 0xA2, 0x00, 0x01, 0x02] + [0x18, 0x40]
            && (!n.dead && n.state != AwaitingCapabilities ==>
                 |n.received| >= 1 && DecodeOnly(1001, n.received[0]).Got? && DecodeOnly(1001, n.received[0]).msg.CapabilitiesMsg?)
  {
    var w := Deployed(p);
    var n := NodeRun(w, Connected(w, config, nonce), events);
    R.RunFollows(w, config, nonce, events);
    RunGrows(w, config, nonce, events);
    W.CapabilitiesInFull(Simple, 1, []);
    if |n.received| >= 1 {
      OnlyCapabilities(n.received[0]);
    }
  }

  lemma RunGrows(w: World, config: Config, nonce: nat, events: seq<Event>)
    requires Sized(w.prims)
    ensures |NodeRun(w, Connected(w, config, nonce), events).msgs| >= 1
  {
    ConnectedIsLive(w, config, nonce);
    T.RunExtends(w, Connected(w, config, nonce), events);
  }

  /** The messages of one side of an honest exchange: `t` is the transcript, `key` the
      confirmation key of its role. */
  ghost function Script(w: World, own: Message, key: Bytes, t: Bytes): seq<Message> {
    [CapabilitiesMsg(Capabilities(Simple, [], 64)), own, ConfirmationMsg(w.prims.hmac(key, t)), StatusMsg(StatusOk)]
  }

  ghost function Token(c: Config): Option<Bytes> {
    if c.authToken == [] then None else Some(c.authToken)
  }

  lemma SideSays(w: World, n: Node, peer: Node)
    requires HonestWorld(w) && Healthy(w, n, peer) && Healthy(w, peer, n) && |n.msgs| == 4 && |peer.msgs| == 4 && |n.received| == 4
    ensures R.Met(w, n) && R.Shared(w, n).Some?
    ensures var c, pc := n.data.config, peer.data.config;
            && n.received[1] == w.wire.encode(R.Own(w, pc, peer.nonce))
            && R.Shared(w, n) == w.prims.secret(c.psk, c.isResponder, n.nonce, w.prims.public(pc.psk, pc.isResponder, peer.nonce))
            && n.msgs == Script(w, R.Own(w, c, n.nonce), R.Half(w, R.Shared(w, n).value, c.isResponder), R.TranscriptOf(w, n))
  {
    R.LiveSays(w, n);
    R.LiveSays(w, peer);
    LiveSendable(w, peer, 1);
    assert n.received[1] == w.wire.encode(peer.msgs[1]);
  }

  lemma CompletedExchange(w: World, u: Setup, turns: seq<Turn>) returns (s: Sys)
    requires HonestSetup(w, u) && Deliveries(DrainedRun(w, Begin(w, u), turns)) == 8
    ensures s == DrainedRun(w, Begin(w, u), turns)
    ensures Healthy(w, s.a, s.b) && Healthy(w, s.b, s.a)
    ensures |s.a.msgs| == 4 && |s.b.msgs| == 4 && |s.a.received| == 4 && |s.b.received| == 4
    ensures s.a.data.config == u.ca && s.a.nonce == u.na && s.b.data.config == u.cb && s.b.nonce == u.nb
  {
    s := DrainedRun(w, Begin(w, u), turns);
    BeginIsGood(w, u);
    DrainedRunStays(w, Begin(w, u), turns);
    Balance(w, s.a);
    Balance(w, s.b);
    DrainedKeeps(w, u, turns);
  }

  /** What two honest endpoints say to each other in a completed exchange, from their
      password, tokens and randomness alone. */
  lemma HonestScript(w: World, u: Setup, turns: seq<Turn>)
    requires HonestSetup(w, u) && Deliveries(DrainedRun(w, Begin(w, u), turns)) == 8
    ensures var s := DrainedRun(w, Begin(w, u), turns);
            var pa, pb := w.prims.public(u.ca.psk, false, u.na), w.prims.public(u.cb.psk, true, u.nb);
            var ha := HandshakeMsg(Handshake(Token(u.ca), PskShown, pa));
            var hb := HandshakeMsg(Handshake(Token(u.cb), PskInput, pb));
            var t := w.wire.encode(ha) + w.wire.encode(hb);
            && w.prims.secret(u.ca.psk, false, u.na, pb).Some?
            && (var x := w.prims.secret(u.ca.psk, false, u.na, pb).value;
               && s.a.msgs == Script(w, ha, w.prims.hkdf(x)[..32], t)
               && s.b.msgs == Script(w, hb, w.prims.hkdf(x)[32..], t))
  {
    var s := CompletedExchange(w, u, turns);
    SideSays(w, s.a, s.b);
    SideSays(w, s.b, s.a);
    var x, y := w.prims.public(u.ca.psk, false, u.na), w.prims.public(u.ca.psk, true, u.nb);
  }

  lemma ExchangeKeeps(w: World, n: Node, peer: Node)
    requires Sized(w.prims)
    ensures Drained.Exchange(w, n, peer).data.config == n.data.config && Drained.Exchange(w, n, peer).nonce == n.nonce
  {
    if Deliverable(n, peer) {
      var bytes := w.wire.encode(peer.msgs[|n.received|]);
      var n1 := NodeStep(w, n, Deliver(bytes));
      T.StepExtends(w, n, Deliver(bytes));
      T.StepExtends(w, n1, Complete);
      T.StepExtends(w, NodeStep(w, n1, Complete), Complete);
    }
  }

  lemma {:induction false} DrainedKeepsFrom(w: World, s: Sys, turns: seq<Turn>)
    requires Sized(w.prims)
    ensures var s1 := DrainedRun(w, s, turns);
            && s1.a.data.config == s.a.data.config && s1.a.nonce == s.a.nonce
            && s1.b.data.config == s.b.data.config && s1.b.nonce == s.b.nonce
    decreases |turns|
  {
    if turns != [] {
      ExchangeKeeps(w, s.a, s.b);
      ExchangeKeeps(w, s.b, s.a);
      T.StepExtends(w, s.a, Clock);
      T.StepExtends(w, s.b, Clock);
      DrainedKeepsFrom(w, DrainedStep(w, s, turns[0]), turns[1..]);
    }
  }

  lemma DrainedKeeps(w: World, u: Setup, turns: seq<Turn>)
    requires Sized(w.prims) && ConfigFits(u.ca) && ConfigFits(u.cb)
    ensures var s := DrainedRun(w, Begin(w, u), turns);
            && s.a.data.config == u.ca && s.a.nonce == u.na && s.b.data.config == u.cb && s.b.nonce == u.nb
  {
    ConnectedHolds(w, u.ca, u.na);
    ConnectedHolds(w, u.cb, u.nb);
    DrainedKeepsFrom(w, Begin(w, u), turns);
  }
}
