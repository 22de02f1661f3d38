/** The certificate fingerprints of a finish request, and what depends on them: nothing but
    the capacity check of a buffer that is filled and never read. */
module Fingerprints {
  import opened Basics
  import opened Messages
  import opened Machine
  import opened Provider
  import opened Node
  import opened TwoNodes
  import opened Honest
  import opened Convergence
  import opened Drained

  // ---------------------------------------------------------------- the provider

  /** The fingerprints fit the buffer beside the 32-byte secret. */
  predicate Admissible(mine: Bytes, peers: Bytes) {
    |mine| + |peers| <= MAX_RFC_CONTEXT - 32
  }

  /** The finish would reach the buffer: there is a session, and it has a secret. */
  predicate HasSecret(p: Primitives, slot: Slot, peerPublic: Bytes) {
    slot.Some? && p.secret(slot.value.password, slot.value.isResponder, slot.value.nonce, peerPublic).Some?
  }

  /** Two finishes that differ only in the fingerprints end alike if and only if both pairs
      fit the buffer or neither does, or the finish fails before it looks at them. */
  lemma FinishIgnoresFingerprints(p: Primitives, slot: Slot, nonce: nat, state: Bytes, peerPublic: Bytes, transcript: Bytes,
                                  isResponder: bool, mineA: Bytes, peersA: Bytes, mineB: Bytes, peersB: Bytes)
    requires Sized(p)
    ensures Execute(p, slot, nonce, Finish(state, peerPublic, transcript, mineA, peersA, isResponder))
         == Execute(p, slot, nonce, Finish(state, peerPublic, transcript, mineB, peersB, isResponder))
       <==> !HasSecret(p, slot, peerPublic) || (Admissible(mineA, peersA) <==> Admissible(mineB, peersB))
  {
  }

  // ---------------------------------------------------------------- without the fingerprints

  function StripConfig(c: Config): Config {
    c.(myFingerprint := [], peerFingerprint := [])
  }

  function StripData(d: Data): Data {
    d.(config := StripConfig(d.config))
  }

  function StripOp(op: CryptoOp): CryptoOp {
    match op
    case Finish(state, peerPublic, transcript, _, _, isResponder) => Finish(state, peerPublic, transcript, [], [], isResponder)
    case _ => op
  }

  function StripOutput(o: Output): Output {
    match o
    case RequestCrypto(CryptoRequest(id, op)) => RequestCrypto(CryptoRequest(id, StripOp(op)))
    case _ => o
  }

  function Each<T, U>(f: T -> U, xs: seq<T>): (ys: seq<U>)
    ensures |ys| == |xs| && forall i :: 0 <= i < |xs| ==> ys[i] == f(xs[i])
  {
    seq(|xs|, i requires 0 <= i < |xs| => f(xs[i]))
  }

  lemma EachAppend<T, U>(f: T -> U, xs: seq<T>, ys: seq<T>)
    ensures Each(f, xs + ys) == Each(f, xs) + Each(f, ys)
  {
  }

  function StripStep(step: Step): Step {
    match step
    case Next(s, d, outs) => Next(s, StripData(d), Each(StripOutput, outs))
    case _ => step
  }

  function StripCompleted(c: (CryptoOp, Bytes)): (CryptoOp, Bytes) {
    (StripOp(c.0), c.1)
  }

  /** The endpoint with its fingerprints, and those in its logs, blanked out. */
  function Strip(n: Node): Node {
    n.(data := StripData(n.data),
       outstanding := Each(StripOp, n.outstanding),
       requests := Each(StripOp, n.requests),
       completed := Each(StripCompleted, n.completed))
  }

  // ---------------------------------------------------------------- the machine

  lemma HandshakesIgnore(w: Codec, s: State, d: Data, input: Input, room: nat)
    requires s == Idle || s == AwaitingCapabilities || s == InitiatingHandshake || s == AwaitingHandshake
    ensures HandleStep(w, s, StripData(d), input, room) == StripStep(HandleStep(w, s, d, input, room))
  {
  }

  lemma GeneratingIgnores(w: Codec, d: Data, input: Input, room: nat)
    ensures GeneratingHandshakeStep(w, StripData(d), input, room) == StripStep(GeneratingHandshakeStep(w, d, input, room))
  {
  }

  lemma CheckIgnores(d: Data, decoded: Decoded, clear: bool, sent: seq<Output>, room: nat)
    requires Each(StripOutput, sent) == sent
    ensures CheckConfirmation(StripData(d), decoded, clear, sent, room) == StripStep(CheckConfirmation(d, decoded, clear, sent, room))
  {
  }

  lemma ComputingIgnores(w: Codec, d: Data, input: Input, room: nat)
    ensures ComputingStep(w, StripData(d), input, room) == StripStep(ComputingStep(w, d, input, room))
  {
    if input.CryptoCompleted? && |input.result| >= RESULT_SIZE {
      var d1 := StoreKeys(d, input.result);
      CheckIgnores(d1, w.decode(d1.pending), true, [SendMessage(ConfirmationMsg(d1.myConfirmation))], room);
    }
  }

  /** No handler looks at a fingerprint. */
  lemma HandlersIgnore(w: Codec, s: State, d: Data, input: Input, room: nat)
    ensures HandleStep(w, s, StripData(d), input, room) == StripStep(HandleStep(w, s, d, input, room))
  {
    match s
    case GeneratingHandshake => GeneratingIgnores(w, d, input, room);
    case Computing => ComputingIgnores(w, d, input, room);
    case AwaitingConfirmation =>
      if input.DataReceived? { CheckIgnores(d, w.decode(input.bytes), false, [], room); }
    case Idle => HandshakesIgnore(w, s, d, input, room);
    case AwaitingCapabilities => HandshakesIgnore(w, s, d, input, room);
    case InitiatingHandshake => HandshakesIgnore(w, s, d, input, room);
    case AwaitingHandshake => HandshakesIgnore(w, s, d, input, room);
    case _ =>
  }

  // ---------------------------------------------------------------- runs

  lemma {:induction false} OutputsStripped(outs: seq<Output>)
    ensures Sent(Each(StripOutput, outs)) == Sent(outs)
    ensures Requested(Each(StripOutput, outs)) == Each(StripOp, Requested(outs))
  {
    if outs != [] {
      OutputsStripped(outs[1..]);
      assert Each(StripOutput, outs)[1..] == Each(StripOutput, outs[1..]);
      EachAppend(StripOp, if outs[0].RequestCrypto? then [outs[0].request.op] else [], Requested(outs[1..]));
    }
  }

  predicate SmallOp(op: CryptoOp) {
    op.Finish? ==> Admissible(op.myFingerprint, op.peerFingerprint)
  }

  /** The fingerprints of an endpoint, and of what it has requested, are admissible. */
  predicate Small(n: Node) {
    && Admissible(n.data.config.myFingerprint, n.data.config.peerFingerprint)
    && forall i :: 0 <= i < |n.outstanding| ==> SmallOp(n.outstanding[i])
  }

  lemma AbsorbIgnores(n: Node, step: Step)
    ensures Absorb(Strip(n), StripStep(step)) == Strip(Absorb(n, step))
  {
    if step.Next? {
      OutputsStripped(step.outputs);
      EachAppend(StripOp, n.outstanding, Requested(step.outputs));
      EachAppend(StripOp, n.requests, Requested(step.outputs));
    }
  }

  lemma FeedIgnores(w: World, n: Node, input: Input)
    ensures Feed(w, Strip(n), input) == Strip(Feed(w, n, input))
  {
    HandlersIgnore(w.wire, n.state, n.data, input, MAX_OUTPUTS);
    AbsorbIgnores(n, HandleStep(w.wire, n.state, n.data, input, MAX_OUTPUTS));
  }

  lemma ExecuteIgnores(p: Primitives, slot: Slot, nonce: nat, op: CryptoOp)
    requires Sized(p) && SmallOp(op)
    ensures Execute(p, slot, nonce, StripOp(op)) == Execute(p, slot, nonce, op)
  {
    match op
    case Finish(state, peerPublic, transcript, mine, peers, isResponder) =>
      FinishIgnoresFingerprints(p, slot, nonce, state, peerPublic, transcript, isResponder, mine, peers, [], []);
    case _ =>
  }

  lemma CompleteIgnores(w: World, n: Node)
    requires Sized(w.prims) && Small(n) && !n.dead && n.outstanding != []
    ensures NodeStep(w, Strip(n), Complete) == Strip(NodeStep(w, n, Complete))
  {
    var op := n.outstanding[0];
    ExecuteIgnores(w.prims, n.slot, n.nonce, op);
    var (slot, result) := Execute(w.prims, n.slot, n.nonce, op);
    var n1 := n.(slot := slot, outstanding := n.outstanding[1..]);
    assert Strip(n).outstanding[1..] == Strip(n1).outstanding;
    if result.Ok? {
      var n2 := n1.(completed := n1.completed + [(op, result.value)]);
      EachAppend(StripCompleted, n1.completed, [(op, result.value)]);
      assert Each(StripCompleted, [(op, result.value)]) == [(StripOp(op), result.value)];
      FeedIgnores(w, n2, CryptoCompleted(result.value));
    }
  }

  lemma StepIgnores(w: World, n: Node, e: Event)
    requires Sized(w.prims) && Small(n)
    ensures NodeStep(w, Strip(n), e) == Strip(NodeStep(w, n, e))
  {
    if !n.dead {
      match e
      case Deliver(bytes) => FeedIgnores(w, n.(received := n.received + [bytes]), DataReceived(0, bytes));
      case Clock => FeedIgnores(w, n, Tick(0));
      case Complete => if n.outstanding != [] { CompleteIgnores(w, n); }
    }
  }

  lemma {:induction false} RequestsSmall(outs: seq<Output>)
    requires forall o :: o in outs && o.RequestCrypto? ==> SmallOp(o.request.op)
    ensures forall i :: 0 <= i < |Requested(outs)| ==> SmallOp(Requested(outs)[i])
  {
    if outs != [] {
      RequestsSmall(outs[1..]);
      assert outs[0] in outs;
    }
  }

  /** What a step requests carries the fingerprints of the configuration. */
  lemma OutputsSmall(w: Codec, s: State, d: Data, input: Input, room: nat)
    requires Admissible(d.config.myFingerprint, d.config.peerFingerprint)
    ensures var step := HandleStep(w, s, d, input, room);
            step.Next? ==> (step.data.config == d.config
                            && forall o :: o in step.outputs && o.RequestCrypto? ==> SmallOp(o.request.op))
  {
  }

  lemma FeedSmall(w: World, n: Node, input: Input)
    requires Small(n)
    ensures Small(Feed(w, n, input))
  {
    var step := HandleStep(w.wire, n.state, n.data, input, MAX_OUTPUTS);
    OutputsSmall(w.wire, n.state, n.data, input, MAX_OUTPUTS);
    if step.Next? {
      RequestsSmall(step.outputs);
    }
  }

  lemma StepSmall(w: World, n: Node, e: Event)
    requires Sized(w.prims) && Small(n)
    ensures Small(NodeStep(w, n, e))
  {
    if !n.dead {
      match e
      case Deliver(bytes) => FeedSmall(w, n.(received := n.received + [bytes]), DataReceived(0, bytes));
      case Clock => FeedSmall(w, n, Tick(0));
      case Complete =>
        if n.outstanding != [] {
          var op := n.outstanding[0];
          var (slot, result) := Execute(w.prims, n.slot, n.nonce, op);
          var n1 := n.(slot := slot, outstanding := n.outstanding[1..]);
          if result.Ok? {
            FeedSmall(w, n1.(completed := n1.completed + [(op, result.value)]), CryptoCompleted(result.value));
          }
        }
    }
  }

  function StripSys(s: Sys): Sys {
    Sys(Strip(s.a), Strip(s.b))
  }

  predicate SmallSys(s: Sys) {
    Small(s.a) && Small(s.b)
  }

  lemma HearIgnores(w: World, n: Node, peer: Node)
    requires Sized(w.prims) && Small(n)
    ensures Hear(w, Strip(n), Strip(peer)) == Strip(Hear(w, n, peer)) && Small(Hear(w, n, peer))
  {
    if Deliverable(n, peer) {
      StepIgnores(w, n, Deliver(w.wire.encode(peer.msgs[|n.received|])));
      StepSmall(w, n, Deliver(w.wire.encode(peer.msgs[|n.received|])));
    }
  }

  lemma SysStepIgnores(w: World, s: Sys, act: Action)
    requires Sized(w.prims) && SmallSys(s)
    ensures SysStep(w, StripSys(s), act) == StripSys(SysStep(w, s, act)) && SmallSys(SysStep(w, s, act))
  {
    match act
    case DeliverToA => HearIgnores(w, s.a, s.b);
    case DeliverToB => HearIgnores(w, s.b, s.a);
    case CompleteA => StepIgnores(w, s.a, Complete); StepSmall(w, s.a, Complete);
    case CompleteB => StepIgnores(w, s.b, Complete); StepSmall(w, s.b, Complete);
    case ClockA => StepIgnores(w, s.a, Clock); StepSmall(w, s.a, Clock);
    case ClockB => StepIgnores(w, s.b, Clock); StepSmall(w, s.b, Clock);
  }

  lemma {:induction false} SysRunIgnores(w: World, s: Sys, acts: seq<Action>)
    requires Sized(w.prims) && SmallSys(s)
    ensures SysRun(w, StripSys(s), acts) == StripSys(SysRun(w, s, acts))
    decreases |acts|
  {
    if acts != [] {
      SysStepIgnores(w, s, acts[0]);
      SysRunIgnores(w, SysStep(w, s, acts[0]), acts[1..]);
    }
  }

  /** The same configurations but for the fingerprints. */
  predicate SameButFingerprints(u: Setup, v: Setup) {
    StripConfig(u.ca) == StripConfig(v.ca) && StripConfig(u.cb) == StripConfig(v.cb) && u.na == v.na && u.nb == v.nb
  }

  lemma ConnectedIgnores(w: World, c: Config, nonce: nat)
    requires ConfigFits(c)
    ensures Small(Connected(w, c, nonce)) && Strip(Connected(w, c, nonce)) == Connected(w, StripConfig(c), nonce)
  {
    var n := Node(Idle, FreshData(c), None, nonce, [], [], [], [], [], false);
    FeedIgnores(w, n, TransportConnected);
    FeedSmall(w, n, TransportConnected);
    assert Strip(n) == Node(Idle, FreshData(StripConfig(c)), None, nonce, [], [], [], [], [], false);
  }

  lemma BeginIgnores(w: World, u: Setup, v: Setup)
    requires SetupFits(u) && SetupFits(v) && SameButFingerprints(u, v)
    ensures SmallSys(Begin(w, u)) && SmallSys(Begin(w, v)) && StripSys(Begin(w, u)) == StripSys(Begin(w, v))
  {
    ConnectedIgnores(w, u.ca, u.na);
    ConnectedIgnores(w, u.cb, u.nb);
    ConnectedIgnores(w, v.ca, v.na);
    ConnectedIgnores(w, v.cb, v.nb);
  }

  /** Nothing an observer of the two endpoints sees but the requests themselves: states, keys
      and buffers, the messages either way, and whether the connection ended. */
  predicate SameBehaviour(n: Node, m: Node) {
    && n.state == m.state && n.dead == m.dead && n.msgs == m.msgs && n.received == m.received
    && n.slot == m.slot && n.data == m.data.(config := n.data.config)
  }

  /** Two systems whose configurations differ only in the fingerprints behave alike in every
      run: the exchange is not bound to them. */
  lemma FingerprintsDoNotMatter(w: World, u: Setup, v: Setup, acts: seq<Action>)
    requires Sized(w.prims) && SetupFits(u) && SetupFits(v) && SameButFingerprints(u, v)
    ensures var s, t := SysRun(w, Begin(w, u), acts), SysRun(w, Begin(w, v), acts);
            SameBehaviour(s.a, t.a) && SameBehaviour(s.b, t.b)
  {
    BeginIgnores(w, u, v);
    SysRunIgnores(w, Begin(w, u), acts);
    SysRunIgnores(w, Begin(w, v), acts);
    var s, t := SysRun(w, Begin(w, u), acts), SysRun(w, Begin(w, v), acts);
    SameStripped(s.a, t.a);
    SameStripped(s.b, t.b);
  }

  lemma SameStripped(n: Node, m: Node)
    requires Strip(n) == Strip(m)
    ensures SameBehaviour(n, m)
  {
    assert StripData(n.data) == StripData(m.data);
  }

  // ---------------------------------------------------------------- fingerprints that do not match

  /** From a calm system, deliveries as long as there are any. */
  lemma {:induction false} DeliverAll(w: World, s: Sys) returns (turns: seq<Turn>)
    requires HonestWorld(w) && Calm(w, s)
    ensures DrainedRun(w, s, turns).a.state == Authenticated && DrainedRun(w, s, turns).b.state == Authenticated
    decreases 8 - Deliveries(s)
  {
    Balance(w, s.a);
    Balance(w, s.b);
    if Quiescent(s) {
      QuiescentIsFull(w, s);
      turns := [];
    } else {
      var t := if Deliverable(s.a, s.b) then ToA else ToB;
      DrainedStepStays(w, s, t);
      var s1 := DrainedStep(w, s, t);
      Balance(w, s1.a);
      Balance(w, s1.b);
      var rest := DeliverAll(w, s1);
      turns := [t] + rest;
      assert turns[1..] == rest;
    }
  }

  /** Each endpoint pinned the certificate the other presents. */
  predicate Matching(u: Setup) {
    u.ca.peerFingerprint == u.cb.myFingerprint && u.cb.peerFingerprint == u.ca.myFingerprint
  }

  /** A pair with one password whose fingerprints do not match: both authenticate. */
  lemma MismatchAuthenticates(w: World, u: Setup) returns (v: Setup, turns: seq<Turn>)
    requires HonestSetup(w, u)
    ensures SetupFits(v) && SameButFingerprints(u, v) && !Matching(v)
    ensures var s := DrainedRun(w, Begin(w, v), turns);
            s.a.state == Authenticated && s.b.state == Authenticated
  {
    v := u.(ca := u.ca.(peerFingerprint := [0]), cb := u.cb.(myFingerprint := [1]));
    BeginIsGood(w, v);
    turns := DeliverAll(w, Begin(w, v));
  }
}
