/** The skeletons of the two connection drivers: they feed the machine what arrives, run the
    crypto it asks for, and send the messages it emits. `Endpoint` is what both share. */
module Drivers {
  import opened Basics
  import opened Messages
  import opened MessageTheorems
  import MessageCodec
  import opened Machine
  import opened StateMachine
  import opened Provider
  import opened Node
  import N = Node
  import opened NodeInvariant
  import opened NodeProofs
  import opened NodeTheorems
  import opened TwoNodes
  import opened WireFaithful
  import opened Honest
  import opened HonestSteps
  import opened Drained

  // ---------------------------------------------------------------- what is transmitted

  function EncodeAll(encode: Message -> Bytes, msgs: seq<Message>): seq<Bytes> {
    if msgs == [] then [] else EncodeAll(encode, msgs[..|msgs| - 1]) + [encode(msgs[|msgs| - 1])]
  }

  lemma EncodeOneMore(encode: Message -> Bytes, msgs: seq<Message>, m: Message)
    ensures EncodeAll(encode, msgs + [m]) == EncodeAll(encode, msgs) + [encode(m)]
  {
    assert (msgs + [m])[..|msgs|] == msgs;
  }

  lemma {:induction false} SentSplit(xs: seq<Output>, o: Output)
    ensures Sent(xs + [o]) == Sent(xs) + if o.SendMessage? then [o.msg] else []
  {
    if xs == [] {
      assert xs + [o] == [o] && [o][1..] == [];
    } else {
      assert (xs + [o])[1..] == xs[1..] + [o] && (xs + [o])[0] == xs[0];
      SentSplit(xs[1..], o);
      RegroupMessages(if xs[0].SendMessage? then [xs[0].msg] else [], Sent(xs[1..]), if o.SendMessage? then [o.msg] else []);
    }
  }

  lemma RegroupMessages(a: seq<Message>, b: seq<Message>, c: seq<Message>)
    ensures a + (b + c) == a + b + c
  {
  }

  /** Sending one more output. */
  lemma OneMoreOutput(encode: Message -> Bytes, before: seq<Message>, outs: seq<Output>, i: nat)
    requires i < |outs|
    ensures EncodeAll(encode, before + Sent(outs[..i + 1]))
         == EncodeAll(encode, before + Sent(outs[..i])) + if outs[i].SendMessage? then [encode(outs[i].msg)] else []
  {
    var done := Sent(outs[..i]);
    assert outs[..i + 1] == outs[..i] + [outs[i]];
    SentSplit(outs[..i], outs[i]);
    if outs[i].SendMessage? {
      RegroupMessages(before, done, [outs[i].msg]);
      EncodeOneMore(encode, before + done, outs[i].msg);
    } else {
      assert done + [] == done;
    }
  }

  lemma {:induction false} SentContains(outs: seq<Output>, i: nat)
    requires i < |outs| && outs[i].SendMessage?
    ensures outs[i].msg in Sent(outs)
  {
    if i > 0 {
      SentContains(outs[1..], i - 1);
    }
  }

  lemma {:induction false} RequestedFirst(outs: seq<Output>, i: nat)
    requires i < |outs| && outs[i].RequestCrypto?
    requires forall j :: 0 <= j < i ==> !outs[j].RequestCrypto?
    ensures Requested(outs) != [] && Requested(outs)[0] == outs[i].request.op
  {
    if i > 0 {
      RequestedFirst(outs[1..], i - 1);
    }
  }

  lemma {:induction false} RequestedNone(outs: seq<Output>)
    requires forall j :: 0 <= j < |outs| ==> !outs[j].RequestCrypto?
    ensures Requested(outs) == []
  {
    if outs != [] {
      RequestedNone(outs[1..]);
    }
  }

  /** Every message the machine emits fits the transport's encoding buffer. */
  lemma OutputsFit(w: World, n: Node, step: Step)
    requires Sized(w.prims) && w.wire == WIRE && step.Next? && !n.dead && NodeInv(w, Absorb(n, step))
    ensures forall i :: 0 <= i < |step.outputs| && step.outputs[i].SendMessage? ==> |WIRE.encode(step.outputs[i].msg)| <= MAX_MESSAGE_SIZE
  {
    var n1 := Absorb(n, step);
    forall i | 0 <= i < |step.outputs| && step.outputs[i].SendMessage?
      ensures |WIRE.encode(step.outputs[i].msg)| <= MAX_MESSAGE_SIZE
    {
      SentContains(step.outputs, i);
      var m := step.outputs[i].msg;
      assert m in n1.msgs;
      var k :| 0 <= k < |n1.msgs| && n1.msgs[k] == m;
      LiveSendable(w, n1, k);
      SentMessage(m);
    }
  }

  // ---------------------------------------------------------------- the shared part

  class Endpoint {
    const machine: Spake2StateMachine
    const provider: RustCryptoProvider
    var sent: seq<Bytes> // every byte string handed to the transport, in order
    ghost var node: Node // the endpoint as the theorems see it

    constructor (cryptoData: CryptoData, provider: RustCryptoProvider)
      requires cryptoData.Valid() && cryptoData.Snapshot() == FreshData(cryptoData.Configuration())
      requires Sized(provider.prims) && provider.slot == None
      ensures machine.cryptoData == cryptoData && this.provider == provider && fresh(machine)
      ensures node == Node(Idle, FreshData(cryptoData.Configuration()), None, provider.nonce, [], [], [], [], [], false)
      ensures Matches(node) && Sync()
    {
      this.machine := new Spake2StateMachine(cryptoData);
      this.provider := provider;
      sent := [];
      node := Node(Idle, FreshData(cryptoData.Configuration()), None, provider.nonce, [], [], [], [], [], false);
    }

    ghost function Env(): World {
      World(WIRE, provider.prims)
    }

    /** The machine and the provider are where `n` says. */
    ghost predicate Matches(n: Node)
      reads machine, machine.cryptoData, provider
    {
      && machine.cryptoData.Valid()
      && n.state == machine.state && n.data == machine.cryptoData.Snapshot()
      && n.slot == provider.slot && n.nonce == provider.nonce
    }

    /** What remains true of the objects when the connection has ended: the state, and what
        an endpoint that asked for the finish has exchanged. */
    ghost predicate Tracks(n: Node)
      reads machine, machine.cryptoData
    {
      machine.state == n.state && (|n.requests| >= 2 ==> SameExchange(n.data, machine.cryptoData.Snapshot()))
    }

    ghost predicate Valid()
      reads this, machine, machine.cryptoData, provider
    {
      && machine.cryptoData.Valid() && Sized(provider.prims)
      && NodeInv(Env(), node) && Tracks(node) && (!node.dead ==> Matches(node))
    }

    /** Between two arrivals: nothing outstanding, and everything emitted is transmitted. */
    ghost predicate Resting()
      reads this, machine, machine.cryptoData, provider
    {
      Valid() && Sync() && Quiet(node)
    }

    /** Transmitted is exactly what the machine emitted: once each, in order. */
    ghost predicate Sync()
      reads this
    {
      sent == EncodeAll(WIRE.encode, node.msgs)
    }

    /** One call of the machine with a fresh output queue. */
    method Feed(ghost base: Node, input: Input) returns (ok: bool, outs: seq<Output>, panicked: bool)
      requires Matches(base) && !base.dead
      modifies this`node, machine, machine.cryptoData
      ensures machine.cryptoData.Valid() && node == N.Feed(Env(), base, input)
      ensures var step := HandleStep(WIRE, base.state, base.data, input, MAX_OUTPUTS);
              && ok == step.Next? && panicked == step.Panic?
              && (ok ==> outs == step.outputs && Matches(node))
      ensures (|base.requests| >= 2 ==> Exchanged(base.state)) ==> Tracks(node)
    {
      var queue := new OutputQueue();
      var r;
      r, panicked := machine.Handle(input, queue);
      ok := r.Ok? && !panicked;
      outs := queue.items;
      node := N.Feed(Env(), base, input);
    }

    /** Runs the operation at the head of the queue of requests; an error ends the
        connection. */
    method Execute(request: CryptoRequest) returns (r: Result<Bytes, CryptoError>)
      requires Valid() && !node.dead && node.outstanding != [] && node.outstanding[0] == request.op
      modifies this`node, provider
      ensures var (slot, result) := Provider.Execute(provider.prims, old(node).slot, old(node).nonce, request.op);
              r == result && provider.slot == slot
              && node == if r.Err? then NodeStep(Env(), old(node), N.Complete) else Took(old(node), slot, r.value)
      ensures r.Ok? ==> Matches(node)
    {
      r := provider.Run(request.op);
      CompletionStep(Env(), node);
      if r.Err? {
        node := NodeStep(Env(), node, N.Complete);
      } else {
        node := Took(node, provider.slot, r.value);
      }
    }

    method Send(m: Message) returns (ok: bool)
      modifies this`sent
      ensures ok == (|WIRE.encode(m)| <= 1024)
      ensures sent == if ok then old(sent) + [WIRE.encode(m)] else old(sent)
    {
      var bytes := MessageCodec.EncodeNetworkMessage(m);
      ok := bytes.Ok?;
      if ok {
        sent := sent + [bytes.value];
      }
    }

    /** Sends every message among the outputs. */
    method SendMessages(outs: seq<Output>, ghost before: seq<Message>)
      requires sent == EncodeAll(WIRE.encode, before)
      requires forall i :: 0 <= i < |outs| && outs[i].SendMessage? ==> |WIRE.encode(outs[i].msg)| <= MAX_MESSAGE_SIZE
      modifies this`sent
      ensures sent == EncodeAll(WIRE.encode, before + Sent(outs))
    {
      assert outs[..0] == [] && before + [] == before;
      for i := 0 to |outs|
        invariant sent == EncodeAll(WIRE.encode, before + Sent(outs[..i]))
      {
        OneMoreOutput(WIRE.encode, before, outs, i);
        if outs[i].SendMessage? {
          var ok := Send(outs[i].msg);
        }
      }
      assert outs[..|outs|] == outs;
    }
  }

  method FirstRequest(outs: seq<Output>) returns (r: Option<CryptoRequest>)
    ensures r.None? ==> Requested(outs) == []
    ensures r.Some? ==> Requested(outs) != [] && Requested(outs)[0] == r.value.op
    ensures r.Some? <==> exists i :: 0 <= i < |outs| && outs[i].RequestCrypto?
  {
    for i := 0 to |outs|
      invariant forall j :: 0 <= j < i ==> !outs[j].RequestCrypto?
    {
      if outs[i].RequestCrypto? {
        RequestedFirst(outs, i);
        return Some(outs[i].request);
      }
    }
    RequestedNone(outs);
    return None;
  }

  /** How an arrival was handled: the connection goes on, or the driver returns an error, or
      the program aborts. */
  datatype Outcome = Continue | Ended | Aborted

  function OutcomeOf(panicked: bool): Outcome {
    if panicked then Aborted else Ended
  }

  /** The arrival that aborts the program: its log decodes type key 1002. */
  predicate IsAbort(arrival: Arrival) {
    arrival.Stream? && IsNeed(arrival.bytes)
  }

  /** The outcome of an arrival that leaves the endpoint at `n`. */
  function OutcomeAfter(arrival: Arrival, n: Node): Outcome {
    if IsAbort(arrival) then Aborted else if n.dead then Ended else Continue
  }

  /** What a driver waits for: a stream that arrives, or its timer. */
  datatype Arrival = Stream(bytes: Bytes) | Timer

  /** What a driver makes of an arrival. The machine takes the bytes, and the crypto they
      cause is run until none is outstanding. Before that the bytes are decoded for the log,
      and that decoder aborts on the unimplemented message. The server skips empty streams. */
  ghost function AfterArrival(w: World, skipEmpty: bool, n: Node, arrival: Arrival): Node
    requires Sized(w.prims)
  {
    match arrival
    case Timer => n
    case Stream(bytes) =>
      if skipEmpty && bytes == [] then n
      else if w.wire.decode(bytes).Unimplemented? then n.(dead := true)
      else Settle(w, NodeStep(w, n, Deliver(bytes)))
  }

  /** Fed the next message of a healthy peer, either driver does one exchange of the drained
      system; so two drivers joined by FIFO channels converge as that system does. */
  lemma ArrivalIsExchange(w: World, skipEmpty: bool, n: Node, peer: Node)
    requires HonestWorld(w) && Healthy(w, n, peer) && Healthy(w, peer, n) && Deliverable(n, peer)
    ensures AfterArrival(w, skipEmpty, n, Stream(w.wire.encode(peer.msgs[|n.received|]))) == Exchange(w, n, peer)
  {
    NextMessage(w, n, peer);
  }

  lemma AbortKills(w: World, skipEmpty: bool, n: Node, arrival: Arrival)
    requires Sized(w.prims) && w.wire == WIRE && IsAbort(arrival)
    ensures AfterArrival(w, skipEmpty, n, arrival) == n.(dead := true)
  {
    UnimplementedExactly(arrival.bytes);
  }

  /** An endpoint that asked for the finish is past the handshakes. */
  lemma PastExchange(w: World, n: Node)
    requires Sized(w.prims) && NodeInv(w, n) && !n.dead && |n.requests| >= 2
    ensures Exchanged(n.state)
  {
  }

  /** A live endpoint with nothing outstanding takes any bytes without a panic, except those
      of type key 1002. */
  lemma DataDoesNotPanic(w: World, n: Node, bytes: Bytes)
    requires Sized(w.prims) && NodeInv(w, n) && !n.dead && n.outstanding == [] && w.wire == WIRE
    requires !IsNeed(bytes)
    ensures !HandleStep(w.wire, n.state, n.data, DataReceived(0, bytes), MAX_OUTPUTS).Panic?
  {
    IdleStates(w, n);
    NoPanicOnData(w.wire, n.state, n.data, bytes);
    UnimplementedExactly(bytes);
  }

  lemma IdleStates(w: World, n: Node)
    requires Sized(w.prims) && NodeInv(w, n) && !n.dead && n.outstanding == []
    ensures n.state !in {Idle, InitiatingHandshake, GeneratingHandshake, Computing, Poisoned}
  {
  }

  lemma NoPanicOnData(w: Codec, s: State, d: Data, bytes: Bytes)
    requires s !in {Idle, InitiatingHandshake, GeneratingHandshake, Computing}
    ensures HandleStep(w, s, d, DataReceived(0, bytes), MAX_OUTPUTS).Panic? ==> w.decode(bytes).Unimplemented?
  {
  }

  /** Nothing waits in the race buffer of a finish. */
  predicate NoBuffer(n: Node) {
    n.state == Computing ==> n.data.pending == []
  }

  lemma ResultDoesNotPanic(w: World, n: Node, result: Bytes)
    requires Sized(w.prims) && NodeInv(w, n) && !n.dead && n.outstanding != [] && NoBuffer(n)
    ensures !HandleStep(w.wire, n.state, n.data, CryptoCompleted(result), MAX_OUTPUTS).Panic?
  {
    BusyStates(w, n);
    NoPanicOnResult(w.wire, n.state, n.data, result);
  }

  lemma BusyStates(w: World, n: Node)
    requires Sized(w.prims) && NodeInv(w, n) && !n.dead && n.outstanding != []
    ensures n.state in {InitiatingHandshake, GeneratingHandshake, Computing}
  {
  }

  lemma NoPanicOnResult(w: Codec, s: State, d: Data, result: Bytes)
    requires s in {InitiatingHandshake, GeneratingHandshake, Computing} && (s == Computing ==> d.pending == [])
    ensures !HandleStep(w, s, d, CryptoCompleted(result), MAX_OUTPUTS).Panic?
  {
  }

  lemma AbortHolds(w: World, n: Node)
    requires Sized(w.prims) && NodeInv(w, n) && !n.state.Authenticated?
    ensures NodeInv(w, n.(dead := true))
  {
    Dies(w, n, n.(dead := true));
  }

  // ---------------------------------------------------------------- a whole run

  ghost function Taking(w: World, skipEmpty: bool): (Node, Arrival) -> Node
    requires Sized(w.prims)
  {
    (n: Node, arrival: Arrival) => AfterArrival(w, skipEmpty, n, arrival)
  }

  predicate Stopped(n: Node) {
    n.dead || n.state == Authenticated
  }

  /** A run over a list of arrivals; it stops at an error and when authenticated. */
  ghost function Driven(step: (Node, Arrival) -> Node, n: Node, arrivals: seq<Arrival>): Node
    decreases |arrivals|
  {
    if arrivals == [] || Stopped(n) then n else Driven(step, step(n, arrivals[0]), arrivals[1..])
  }

  lemma DrivenFurther(step: (Node, Arrival) -> Node, n: Node, arrivals: seq<Arrival>, i: nat)
    requires i < |arrivals| && !Stopped(n)
    ensures Driven(step, step(n, arrivals[i]), arrivals[i + 1..]) == Driven(step, n, arrivals[i..])
  {
    assert arrivals[i..][1..] == arrivals[i + 1..];
  }

  lemma DrivenDone(step: (Node, Arrival) -> Node, n: Node, arrivals: seq<Arrival>, i: nat)
    requires i <= |arrivals| && (i == |arrivals| || Stopped(n))
    ensures Driven(step, n, arrivals[i..]) == n
  {
  }

  /** How such a run ends: an abort or an error ends the connection; otherwise it goes on. */
  ghost function DrivenOutcome(step: (Node, Arrival) -> Node, n: Node, arrivals: seq<Arrival>): Outcome
    decreases |arrivals|
  {
    if arrivals == [] || Stopped(n) then (if n.dead then Ended else Continue)
    else if IsAbort(arrivals[0]) then Aborted
    else DrivenOutcome(step, step(n, arrivals[0]), arrivals[1..])
  }

  /** An arrival aborts the run if the run gets to it. */
  ghost predicate AbortsAt(step: (Node, Arrival) -> Node, n: Node, arrivals: seq<Arrival>, i: int) {
    0 <= i < |arrivals| && IsAbort(arrivals[i]) && !Stopped(Driven(step, n, arrivals[..i]))
  }

  lemma DrivenCons(step: (Node, Arrival) -> Node, n: Node, arrivals: seq<Arrival>, i: nat)
    requires i < |arrivals| && !Stopped(n)
    ensures Driven(step, n, arrivals[..i + 1]) == Driven(step, step(n, arrivals[0]), arrivals[1..][..i])
  {
    assert arrivals[..i + 1][0] == arrivals[0] && arrivals[..i + 1][1..] == arrivals[1..][..i];
  }

  lemma AbortsLater(step: (Node, Arrival) -> Node, n: Node, arrivals: seq<Arrival>)
    requires arrivals != [] && !Stopped(n)
    ensures (exists i :: AbortsAt(step, n, arrivals, i))
       <==> IsAbort(arrivals[0]) || exists i :: AbortsAt(step, step(n, arrivals[0]), arrivals[1..], i)
  {
    var n1, rest := step(n, arrivals[0]), arrivals[1..];
    if IsAbort(arrivals[0]) {
      assert AbortsAt(step, n, arrivals, 0);
    } else if i :| AbortsAt(step, n, arrivals, i) {
      DrivenCons(step, n, arrivals, i - 1);
      assert AbortsAt(step, n1, rest, i - 1);
    } else if i :| AbortsAt(step, n1, rest, i) {
      DrivenCons(step, n, arrivals, i);
      assert AbortsAt(step, n, arrivals, i + 1);
    }
  }

  /** An aborting arrival kills the endpoint. */
  ghost predicate AbortsKill(step: (Node, Arrival) -> Node) {
    forall n, a :: IsAbort(a) ==> step(n, a).dead
  }

  lemma {:induction false} StoppedStays(step: (Node, Arrival) -> Node, n: Node, arrivals: seq<Arrival>, i: int)
    requires Stopped(n)
    ensures !AbortsAt(step, n, arrivals, i)
  {
  }

  /** When a run continues, aborts, or ends with an error. */
  lemma {:induction false} OutcomeExact(step: (Node, Arrival) -> Node, n: Node, arrivals: seq<Arrival>)
    requires AbortsKill(step)
    ensures DrivenOutcome(step, n, arrivals) == Continue <==> !Driven(step, n, arrivals).dead
    ensures DrivenOutcome(step, n, arrivals) == Aborted <==> exists i :: AbortsAt(step, n, arrivals, i)
    decreases |arrivals|
  {
    if Stopped(n) {
      forall i ensures !AbortsAt(step, n, arrivals, i) {
        StoppedStays(step, n, arrivals, i);
      }
    } else if arrivals != [] {
      AbortsLater(step, n, arrivals);
      OutcomeExact(step, step(n, arrivals[0]), arrivals[1..]);
    }
  }

  lemma OutcomeFurther(step: (Node, Arrival) -> Node, n: Node, arrivals: seq<Arrival>, i: nat)
    requires i < |arrivals| && !Stopped(n)
    ensures DrivenOutcome(step, n, arrivals[i..]) ==
            if IsAbort(arrivals[i]) then Aborted else DrivenOutcome(step, step(n, arrivals[i]), arrivals[i + 1..])
  {
    assert arrivals[i..][1..] == arrivals[i + 1..];
  }

  lemma OutcomeDone(step: (Node, Arrival) -> Node, n: Node, arrivals: seq<Arrival>, i: nat)
    requires i <= |arrivals| && (i == |arrivals| || Stopped(n))
    ensures DrivenOutcome(step, n, arrivals[i..]) == if n.dead then Ended else Continue
  {
  }

  lemma TakingAbortsKill(w: World, skipEmpty: bool)
    requires Sized(w.prims) && w.wire == WIRE
    ensures AbortsKill(Taking(w, skipEmpty))
  {
    forall n, a | IsAbort(a) ensures Taking(w, skipEmpty)(n, a).dead {
      AbortKills(w, skipEmpty, n, a);
    }
  }

  /** `step` is the step function of a driver. */
  ghost predicate IsStep(step: (Node, Arrival) -> Node, w: World, skipEmpty: bool)
    requires Sized(w.prims)
  {
    Same(step, Taking(w, skipEmpty))
  }

  /** `n1` is `n` after one completion; stated under a trigger so that the step is looked
      into only where `Peek` is mentioned. */
  ghost predicate Completes(w: World, n: Node, n1: Node)
    requires Sized(w.prims)
  {
    forall x {:trigger Peek(x)} :: Peek(x) ==> n1 == NodeStep(w, n, N.Complete)
  }

  // ---------------------------------------------------------------- one call of the machine

  /** What holds between two calls of the machine: the last outputs are not sent yet. */
  ghost predicate Holding(e: Endpoint, outs: seq<Output>, before: seq<Message>)
    reads e, e.machine, e.machine.cryptoData, e.provider
  {
    && e.Valid() && !e.node.dead
    && e.node.msgs == before + Sent(outs) && e.node.outstanding == Requested(outs)
    && (forall i :: 0 <= i < |outs| && outs[i].SendMessage? ==> |WIRE.encode(outs[i].msg)| <= MAX_MESSAGE_SIZE)
  }

  /** The state of a driver before the transport is connected. */
  ghost predicate Unconnected(e: Endpoint, config: Config)
    reads e, e.machine, e.machine.cryptoData, e.provider
  {
    && Sized(e.provider.prims) && ConfigFits(config)
    && e.node == Node(State.Idle, FreshData(config), None, e.provider.nonce, [], [], [], [], [], false)
    && e.Matches(e.node) && e.Sync()
  }

  /** Feeds an input already logged in `base`; it leads to `n1`. */
  method FeedInto(e: Endpoint, ghost base: Node, input: Input, ghost n1: Node) returns (ok: bool, outs: seq<Output>, panicked: bool)
    requires Sized(e.provider.prims) && e.Matches(base) && !base.dead && base.outstanding == []
    requires n1 == N.Feed(e.Env(), base, input) && NodeInv(e.Env(), n1)
    requires |base.requests| >= 2 ==> Exchanged(base.state)
    modifies e`node, e.machine, e.machine.cryptoData
    ensures e.Valid() && e.node == n1 && ok == !n1.dead
    ensures ok ==> Holding(e, outs, base.msgs)
    ensures !ok ==> n1.msgs == base.msgs
    ensures var step := HandleStep(WIRE, base.state, base.data, input, MAX_OUTPUTS);
            panicked == step.Panic? && (ok ==> step.Next? && outs == step.outputs)
  {
    ghost var step := HandleStep(WIRE, base.state, base.data, input, MAX_OUTPUTS);
    ok, outs, panicked := e.Feed(base, input);
    if ok {
      OutputsFit(e.Env(), base, step);
      assert [] + Requested(outs) == Requested(outs);
    }
  }

  /** A tick feeds nothing. */
  lemma TickFeeds(w: World, n: Node)
    requires Sized(w.prims) && NodeInv(w, n) && !n.dead
    ensures N.Feed(w, n, Input.Tick(0)) == n && (|n.requests| >= 2 ==> Exchanged(n.state))
  {
    ClockChangesNothing(w, n);
    if |n.requests| >= 2 { PastExchange(w, n); }
  }

  /** Feeds an arrival. */
  method FeedData(e: Endpoint, bytes: Bytes) returns (ok: bool, outs: seq<Output>, panicked: bool)
    requires e.Valid() && !e.node.dead && e.node.outstanding == []
    modifies e`node, e.machine, e.machine.cryptoData
    ensures e.Valid() && e.node == NodeStep(e.Env(), old(e.node), Deliver(bytes)) && ok == !e.node.dead
    ensures ok ==> Holding(e, outs, old(e.node).msgs)
    ensures !ok ==> e.node.msgs == old(e.node).msgs
    ensures !IsNeed(bytes) ==> !panicked
  {
    ghost var w, n := e.Env(), e.node;
    StepHolds(w, n, Deliver(bytes));
    if !IsNeed(bytes) { DataDoesNotPanic(w, n, bytes); }
    if |n.requests| >= 2 { PastExchange(w, n); }
    ok, outs, panicked := FeedInto(e, Heard(n, bytes), DataReceived(0, bytes), NodeStep(w, n, Deliver(bytes)));
  }

  /** What the completion of an operation feeds to the machine. */
  lemma ResultFeeds(w: World, n: Node, slot: Slot, result: Bytes)
    requires Sized(w.prims) && NodeInv(w, n) && !n.dead && n.outstanding != []
    requires Crypto(w, n) == (slot, Ok(result))
    ensures N.Feed(w, Took(n, slot, result), CryptoCompleted(result)) == NodeStep(w, n, N.Complete)
    ensures NodeInv(w, NodeStep(w, n, N.Complete))
    ensures var base := Took(n, slot, result);
            && base.state == n.state && base.data == n.data && base.msgs == n.msgs && !base.dead
            && base.requests == n.requests && base.outstanding == n.outstanding[1..]
    ensures |n.requests| >= 2 ==> Exchanged(n.state)
  {
    StepHolds(w, n, N.Complete);
    CompletionStep(w, n);
    if |n.requests| >= 2 { PastExchange(w, n); }
  }

  /** Runs the requested operation and feeds its result. */
  method RunCrypto(e: Endpoint, request: CryptoRequest) returns (ok: bool, outs: seq<Output>, panicked: bool)
    requires e.Valid() && !e.node.dead && e.node.outstanding == [request.op]
    modifies e`node, e.machine, e.machine.cryptoData, e.provider
    ensures e.Valid() && e.node == NodeStep(e.Env(), old(e.node), N.Complete) && ok == !e.node.dead
    ensures ok ==> Holding(e, outs, old(e.node).msgs)
    ensures !ok ==> e.node.msgs == old(e.node).msgs
    ensures NoBuffer(old(e.node)) ==> !panicked
  {
    ghost var n := e.node;
    ghost var w := e.Env();
    var result := e.Execute(request);
    if result.Err? {
      StepHolds(w, n, N.Complete);
      CompletionStep(w, n);
      return false, [], false;
    }
    ghost var slot := e.provider.slot;
    ResultFeeds(w, n, slot, result.value);
    if NoBuffer(n) { ResultDoesNotPanic(w, n, result.value); }
    ok, outs, panicked := FeedInto(e, e.node, CryptoCompleted(result.value), NodeStep(w, n, N.Complete));
  }
}
