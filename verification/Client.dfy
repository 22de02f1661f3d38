/** The client's event processing: it runs the first operation the outputs ask for and
    feeds its result by a recursive call, dropping the other outputs of that step; only
    outputs without a request are sent. For an initiator that loses nothing. */
module Client {
  import opened Basics
  import opened Messages
  import MessageCodec
  import opened Machine
  import opened StateMachine
  import opened Provider
  import opened Node
  import N = Node
  import opened NodeInvariant
  import opened NodeProofs
  import opened NodeTheorems
  import opened Drained
  import opened Drivers
  import opened MessageTheorems

  // ---------------------------------------------------------------- dropped outputs

  predicate Asks(outs: seq<Output>) {
    exists i :: 0 <= i < |outs| && outs[i].RequestCrypto?
  }

  /** A step whose outputs hold both a message and a request: the client would drop the
      message. */
  predicate Mixed(step: Step) {
    step.Next? && Asks(step.outputs) && exists i :: 0 <= i < |step.outputs| && step.outputs[i].SendMessage?
  }

  /** Exactly two steps mix them: a responder's handshake, and a finish that completes with
      a confirmation already in the race buffer. */
  lemma MixedExactly(w: Codec, s: State, d: Data, input: Input)
    ensures var step := HandleStep(w, s, d, input, MAX_OUTPUTS);
            Mixed(step) <==>
              && step.Next? && input.CryptoCompleted?
              && (s == GeneratingHandshake || (s == Computing && input.result != [] && d.pending != []))
  {
    var step := HandleStep(w, s, d, input, MAX_OUTPUTS);
    if step.Next? {
      if s == GeneratingHandshake && input.CryptoCompleted? {
        assert step.outputs[0].SendMessage? && step.outputs[1].RequestCrypto?;
      } else if s == Computing && input.CryptoCompleted? && input.result != [] && d.pending != [] {
        assert step.outputs[0].SendMessage? && step.outputs[1].RequestCrypto?;
      } else {
        assert |step.outputs| <= 1;
      }
    }
  }

  /** An initiator whose race buffer is empty while it computes. */
  predicate Lossless(n: Node) {
    !n.data.config.isResponder && (n.state == Computing ==> n.data.pending == [])
  }

  lemma {:induction false} NoMessages(outs: seq<Output>)
    requires forall i :: 0 <= i < |outs| ==> !outs[i].SendMessage?
    ensures Sent(outs) == []
  {
    if outs != [] {
      NoMessages(outs[1..]);
    }
  }

  /** What a step asks for, it asks for alone: nothing is dropped. */
  lemma DroppedNothing(base: Node, step: Step)
    requires step.Next? && !Mixed(step) && Asks(step.outputs)
    ensures Absorb(base, step).msgs == base.msgs
  {
    NoMessages(step.outputs);
    assert base.msgs + [] == base.msgs;
  }

  lemma InitiatorNeverGenerates(w: World, n: Node)
    requires Sized(w.prims) && NodeInv(w, n) && !n.dead && Lossless(n)
    ensures n.state != GeneratingHandshake
    ensures n.state == Computing ==> n.outstanding != []
  {
  }

  lemma StartedInitiator(w: World, n: Node)
    requires Sized(w.prims) && !n.dead && n.outstanding != [] && n.state == InitiatingHandshake
    ensures NodeStep(w, n, N.Complete).dead || NodeStep(w, n, N.Complete).state == AwaitingHandshake
  {
    CompletionStep(w, n);
  }

  /** One completion drains an initiator. */
  lemma InitiatorDrains(w: World, n: Node)
    requires Sized(w.prims) && NodeInv(w, n) && !n.dead && n.outstanding != [] && Lossless(n)
    ensures Quiet(NodeStep(w, n, N.Complete)) && NodeInv(w, NodeStep(w, n, N.Complete))
  {
    InitiatorNeverGenerates(w, n);
    StepHolds(w, n, N.Complete);
    if n.state == InitiatingHandshake {
      StartedInitiator(w, n);
    } else if n.state == Computing {
      if Finishing(w, n) { FinishLeads(w, n); } else { VerifyLeads(w, n); }
    } else {
      NothingOutstanding(w, n);
    }
    QuietByState(w, NodeStep(w, n, N.Complete));
  }

  // ---------------------------------------------------------------- the code

  /** The pass that encodes the messages of a step, before any is sent. */
  method EncodeOutputs(outs: seq<Output>) returns (ok: bool, actions: seq<Bytes>)
    requires forall i :: 0 <= i < |outs| && outs[i].SendMessage? ==> |WIRE.encode(outs[i].msg)| <= MAX_MESSAGE_SIZE
    ensures ok && actions == EncodeAll(WIRE.encode, Sent(outs))
  {
    actions := [];
    assert outs[..0] == [];
    for i := 0 to |outs|
      invariant actions == EncodeAll(WIRE.encode, Sent(outs[..i]))
    {
      OneMoreOutput(WIRE.encode, [], outs, i);
      assert [] + Sent(outs[..i]) == Sent(outs[..i]) && [] + Sent(outs[..i + 1]) == Sent(outs[..i + 1]);
      if outs[i].SendMessage? {
        var bytes := MessageCodec.EncodeNetworkMessage(outs[i].msg);
        if bytes.Err? { return false, actions; }
        actions := actions + [bytes.value];
      }
    }
    assert outs[..|outs|] == outs;
    return true, actions;
  }

  lemma {:induction false} EncodeConcat(encode: Message -> Bytes, a: seq<Message>, b: seq<Message>)
    ensures EncodeAll(encode, a + b) == EncodeAll(encode, a) + EncodeAll(encode, b)
  {
    if b == [] {
      assert a + b == a;
    } else {
      var m := b[|b| - 1];
      var rest := b[..|b| - 1];
      assert a + b == (a + rest) + [m] && b == rest + [m];
      EncodeOneMore(encode, a + rest, m);
      EncodeConcat(encode, a, rest);
    }
  }

  method SendActions(e: Endpoint, actions: seq<Bytes>)
    modifies e`sent
    ensures e.sent == old(e.sent) + actions
  {
    for i := 0 to |actions|
      invariant e.sent == old(e.sent) + actions[..i]
    {
      e.sent := e.sent + [actions[i]];
    }
  }

  /** The second pass: encode what the step emitted, then send it. */
  method SendOutputs(e: Endpoint, outs: seq<Output>, ghost before: seq<Message>) returns (outcome: Outcome)
    requires Holding(e, outs, before) && e.sent == EncodeAll(WIRE.encode, before)
    modifies e`sent
    ensures e.Valid() && e.Sync() && (Requested(outs) == [] ==> e.Resting()) && outcome == Continue
  {
    var ok, actions := EncodeOutputs(outs);
    if !ok { return Ended; }
    SendActions(e, actions);
    EncodeConcat(WIRE.encode, before, Sent(outs));
    return Continue;
  }

  /** `n1` is the endpoint after the machine took the input, without a panic and with no
      message beside a request. */
  ghost predicate Expect(w: World, base: Node, input: Input, n1: Node)
    requires Sized(w.prims)
  {
    forall x {:trigger Peek(x)} :: Peek(x) ==>
      && n1 == N.Feed(w, base, input)
      && !Mixed(HandleStep(w.wire, base.state, base.data, input, MAX_OUTPUTS))
      && !HandleStep(w.wire, base.state, base.data, input, MAX_OUTPUTS).Panic?
      && (|base.requests| >= 2 ==> Exchanged(base.state))
  }

  /** `n2` is the drained initiator that `n1` leads to. */
  ghost predicate Leads(w: World, n1: Node, n2: Node)
    requires Sized(w.prims)
  {
    && (Quiet(n1) ==> n2 == n1) && Quiet(n2)
    && forall x {:trigger Peek(x)} :: Peek(x) ==>
         && NodeInv(w, n1) && NodeInv(w, n2) && Lossless(n1) && Lossless(n2)
         && (Quiet(n1) || n2 == NodeStep(w, n1, N.Complete))
  }

  lemma LeadsIs(w: World, n1: Node, n2: Node)
    requires Sized(w.prims) && Leads(w, n1, n2)
    ensures NodeInv(w, n1) && Lossless(n1)
  {
    assert Peek(0);
  }

  lemma LeadsByStep(w: World, n1: Node, n2: Node)
    requires Sized(w.prims) && Leads(w, n1, n2) && !Quiet(n1)
    ensures n2 == NodeStep(w, n1, N.Complete)
  {
    assert Peek(0);
  }

  lemma LeadsQuiet(w: World, n1: Node, n2: Node)
    requires Sized(w.prims) && Leads(w, n1, n2)
    ensures Quiet(n1) ==> n1 == n2
  {
  }

  lemma ExpectIs(w: World, base: Node, input: Input, n1: Node)
    requires Sized(w.prims) && Expect(w, base, input, n1)
    ensures n1 == N.Feed(w, base, input)
    ensures !Mixed(HandleStep(w.wire, base.state, base.data, input, MAX_OUTPUTS))
    ensures !HandleStep(w.wire, base.state, base.data, input, MAX_OUTPUTS).Panic?
    ensures |base.requests| >= 2 ==> Exchanged(base.state)
  {
    assert Peek(0);
  }

  lemma LeadsOn(w: World, n1: Node, n2: Node)
    requires Sized(w.prims) && Leads(w, n1, n2)
    ensures Leads(w, n2, n2)
  {
    assert Peek(0);
  }

  /** Ready for an event: `base` logs its input, and it will lead to `n1`. */
  ghost predicate Primed(e: Endpoint, base: Node, input: Input, n1: Node)
    reads e, e.machine, e.machine.cryptoData, e.provider
  {
    && Sized(e.provider.prims) && e.Matches(base) && !base.dead && base.outstanding == []
    && |base.completed| <= 3 && e.sent == EncodeAll(WIRE.encode, base.msgs)
    && Expect(e.Env(), base, input, n1)
  }

  /** An operation is to run; everything emitted is sent. */
  ghost predicate Running(e: Endpoint, request: CryptoRequest)
    reads e, e.machine, e.machine.cryptoData, e.provider
  {
    && e.Valid() && e.Sync() && !e.node.dead
    && e.node.outstanding != [] && e.node.outstanding[0] == request.op
  }

  method FeedExpected(e: Endpoint, ghost base: Node, input: Input, ghost n1: Node, ghost n2: Node)
    returns (ok: bool, outs: seq<Output>, panicked: bool)
    requires Primed(e, base, input, n1) && Leads(e.Env(), n1, n2)
    modifies e`node, e.machine, e.machine.cryptoData
    ensures e.Valid() && e.node == n1 && ok == !n1.dead && n1.completed == base.completed
    ensures ok ==> Holding(e, outs, base.msgs)
    ensures !ok || Asks(outs) ==> e.Sync()
    ensures Quiet(n1) ==> n1 == n2
    ensures !panicked
  {
    LeadsQuiet(e.Env(), n1, n2);
    ExpectIs(e.Env(), base, input, n1);
    LeadsIs(e.Env(), n1, n2);
    ok, outs, panicked := FeedInto(e, base, input, n1);
    if ok && Asks(outs) {
      ghost var step := HandleStep(WIRE, base.state, base.data, input, MAX_OUTPUTS);
      DroppedNothing(base, step);
    }
  }

  /** The first operation the outputs ask for, if any. */
  method FindRequest(e: Endpoint, outs: seq<Output>, ghost before: seq<Message>) returns (request: Option<CryptoRequest>)
    requires Holding(e, outs, before) && (Asks(outs) ==> e.Sync())
    ensures request.Some? ==> Running(e, request.value)
    ensures request.None? ==> Requested(outs) == []
  {
    request := FirstRequest(outs);
  }

  /** The machine takes the event; then either an operation is asked for, or not. */
  method TakeEvent(e: Endpoint, ghost base: Node, input: Input, ghost n1: Node, ghost n2: Node)
    returns (ok: bool, outs: seq<Output>, request: Option<CryptoRequest>, panicked: bool)
    requires Primed(e, base, input, n1) && Leads(e.Env(), n1, n2)
    modifies e`node, e.machine, e.machine.cryptoData
    ensures e.node == n1 && n1.completed == base.completed && (ok <==> !n1.dead) && !panicked
    ensures !ok ==> e.Resting() && n1 == n2
    ensures ok && request.Some? ==> Running(e, request.value)
    ensures ok && request.None? ==> Holding(e, outs, base.msgs) && Requested(outs) == [] && n1 == n2
    ensures e.sent == old(e.sent)
  {
    request := None;
    ok, outs, panicked := FeedExpected(e, base, input, n1, n2);
    if !ok {
      return;
    }
    request := FindRequest(e, outs, base.msgs);
  }

  lemma ResultExpected(w: World, n1: Node, n2: Node, result: Bytes, slot: Slot)
    requires Sized(w.prims) && w.wire == WIRE && !n1.dead && Leads(w, n1, n2)
    requires n1.outstanding != [] && Crypto(w, n1) == (slot, Ok(result))
    ensures Expect(w, Took(n1, slot, result), CryptoCompleted(result), n2)
    ensures Took(n1, slot, result).outstanding == [] && |n1.completed| < |Took(n1, slot, result).completed| <= 3
  {
    LeadsIs(w, n1, n2);
    LeadsByStep(w, n1, n2);
    CompletionStep(w, n1);
    InitiatorNeverGenerates(w, n1);
    MixedExactly(w.wire, n1.state, n1.data, CryptoCompleted(result));
    ResultDoesNotPanic(w, n1, result);
    ResultFeeds(w, n1, slot, result);
  }

  method ExecuteExpected(e: Endpoint, request: CryptoRequest, ghost n2: Node) returns (r: Result<Bytes, CryptoError>)
    requires Running(e, request) && Leads(e.Env(), e.node, n2)
    modifies e`node, e.provider
    ensures Leads(e.Env(), n2, n2)
    ensures r.Err? ==> e.Resting() && e.node == n2 && n2.dead
    ensures r.Ok? ==> Primed(e, e.node, CryptoCompleted(r.value), n2) && |e.node.completed| > |old(e.node).completed|
  {
    ghost var w, n1 := e.Env(), e.node;
    LeadsOn(w, n1, n2);
    r := e.Execute(request);
    if r.Ok? {
      ResultExpected(w, n1, n2, r.value, Crypto(w, n1).0);
    } else {
      LeadsByStep(w, n1, n2);
      LeadsIs(w, n2, n2);
      CompletionStep(w, n1);
    }
  }

  /** One event. `base` is the endpoint with the input logged; the event leads it to `n1`
      and, with its crypto run, to `n2`. */
  method ProcessEvent(e: Endpoint, ghost base: Node, input: Input, ghost n1: Node, ghost n2: Node) returns (outcome: Outcome)
    requires Primed(e, base, input, n1) && Leads(e.Env(), n1, n2)
    modifies e, e.machine, e.machine.cryptoData, e.provider
    ensures e.Resting() && e.node == n2
    ensures outcome == if n2.dead then Ended else Continue
    decreases 3 - |base.completed|
  {
    var ok, outs, request, panicked := TakeEvent(e, base, input, n1, n2);
    if !ok {
      return OutcomeOf(panicked);
    }
    if request.Some? {
      var result := ExecuteExpected(e, request.value, n2);
      if result.Err? {
        return Ended;
      }
      outcome := ProcessEvent(e, e.node, CryptoCompleted(result.value), n2, n2);
    } else {
      outcome := SendOutputs(e, outs, base.msgs);
    }
  }

  // ---------------------------------------------------------------- events of an initiator

  lemma QuietLeads(w: World, n: Node)
    requires Sized(w.prims) && NodeInv(w, n) && Quiet(n) && Lossless(n)
    ensures Leads(w, n, n)
  {
  }

  lemma BusyLeads(w: World, n: Node)
    requires Sized(w.prims) && NodeInv(w, n) && !Quiet(n) && Lossless(n)
    ensures Leads(w, n, Settle(w, n))
  {
    var n1 := NodeStep(w, n, N.Complete);
    InitiatorDrains(w, n);
    QuietCompletes(w, n1);
    StepExtends(w, n, N.Complete);
    if !n1.dead {
      InitiatorNeverGeneratesQuiet(w, n1);
    }
    DeadLossless(w, n, n1);
  }

  lemma InitiatorNeverGeneratesQuiet(w: World, n: Node)
    requires Sized(w.prims) && NodeInv(w, n) && !n.dead && Quiet(n)
    ensures n.state != Computing
  {
  }

  lemma DeadLossless(w: World, n: Node, n1: Node)
    requires Sized(w.prims) && NodeInv(w, n) && !n.dead && n.outstanding != [] && Lossless(n) && n1 == NodeStep(w, n, N.Complete)
    ensures n1.dead ==> Lossless(n1)
  {
    CompletionStep(w, n);
  }

  lemma DataExpected(w: World, n: Node, bytes: Bytes)
    requires Sized(w.prims) && NodeInv(w, n) && !n.dead && n.outstanding == [] && w.wire == WIRE && !IsNeed(bytes)
    ensures Expect(w, Heard(n, bytes), DataReceived(0, bytes), NodeStep(w, n, Deliver(bytes)))
  {
    DataDoesNotPanic(w, n, bytes);
    if |n.requests| >= 2 { PastExchange(w, n); }
    MixedExactly(w.wire, n.state, n.data, DataReceived(0, bytes));
  }

  /** A delivery to an idle initiator loses nothing, and what it leads to is the drained
      endpoint. */
  lemma DataLeads(w: World, n: Node, bytes: Bytes)
    requires Sized(w.prims) && NodeInv(w, n) && !n.dead && n.outstanding == [] && !n.data.config.isResponder
    ensures Leads(w, NodeStep(w, n, Deliver(bytes)), Settle(w, NodeStep(w, n, Deliver(bytes))))
  {
    var n1 := NodeStep(w, n, Deliver(bytes));
    NothingBuffered(w, n, bytes);
    StepExtends(w, n, Deliver(bytes));
    if Quiet(n1) {
      QuietCompletes(w, n1);
      QuietLeads(w, n1);
    } else {
      BusyLeads(w, n1);
    }
  }

  lemma ArrivalKeepsRole(w: World, skipEmpty: bool, n: Node, arrival: Arrival)
    requires Sized(w.prims)
    ensures AfterArrival(w, skipEmpty, n, arrival).data.config == n.data.config
  {
    if arrival.Stream? {
      var n1 := NodeStep(w, n, Deliver(arrival.bytes));
      StepExtends(w, n, Deliver(arrival.bytes));
      StepExtends(w, n1, N.Complete);
      StepExtends(w, NodeStep(w, n1, N.Complete), N.Complete);
    }
  }

  /** One arriving stream, decoded once for the log before it is processed. */
  method OnData(e: Endpoint, buffer: Bytes) returns (outcome: Outcome)
    requires e.Resting() && !Stopped(e.node) && !e.node.data.config.isResponder
    modifies e, e.machine, e.machine.cryptoData, e.provider
    ensures e.Resting() && e.node == AfterArrival(e.Env(), false, old(e.node), Stream(buffer))
    ensures outcome == OutcomeAfter(Stream(buffer), e.node)
  {
    UnimplementedExactly(buffer);
    ghost var w, n := e.Env(), e.node;
    var logged := MessageCodec.DecodeMessage(buffer);
    if logged.Unimplemented? {
      AbortHolds(w, n);
      e.node := n.(dead := true);
      return Aborted;
    }
    DataExpected(w, n, buffer);
    DataLeads(w, n, buffer);
    ghost var n1 := NodeStep(w, n, Deliver(buffer));
    outcome := ProcessEvent(e, Heard(n, buffer), DataReceived(0, buffer), n1, Settle(w, n1));
  }

  lemma TickExpected(w: World, n: Node)
    requires Sized(w.prims) && NodeInv(w, n) && !n.dead
    ensures Expect(w, n, Input.Tick(0), n)
  {
    TickFeeds(w, n);
    ClockChangesNothing(w, n);
    MixedExactly(w.wire, n.state, n.data, Input.Tick(0));
  }

  method Tick(e: Endpoint) returns (outcome: Outcome)
    requires e.Resting() && !Stopped(e.node) && !e.node.data.config.isResponder
    modifies e, e.machine, e.machine.cryptoData, e.provider
    ensures e.Resting() && e.node == old(e.node) && outcome == Continue
  {
    TickExpected(e.Env(), e.node);
    InitiatorNeverGeneratesQuiet(e.Env(), e.node);
    QuietLeads(e.Env(), e.node);
    outcome := ProcessEvent(e, e.node, Input.Tick(0), e.node, e.node);
  }

  lemma ConnectExpected(w: World, config: Config, nonce: nat)
    requires Sized(w.prims) && ConfigFits(config) && !config.isResponder
    ensures var n := Node(State.Idle, FreshData(config), None, nonce, [], [], [], [], [], false);
            Expect(w, n, TransportConnected, Connected(w, config, nonce))
    ensures Leads(w, Connected(w, config, nonce), Connected(w, config, nonce))
  {
    MixedExactly(w.wire, State.Idle, FreshData(config), TransportConnected);
    ConnectedIsLive(w, config, nonce);
    ConnectedHolds(w, config, nonce);
    QuietLeads(w, Connected(w, config, nonce));
  }

  method Connect(e: Endpoint, ghost config: Config) returns (outcome: Outcome)
    requires Unconnected(e, config) && !config.isResponder
    modifies e, e.machine, e.machine.cryptoData, e.provider
    ensures e.Resting() && e.node == Connected(e.Env(), config, e.provider.nonce)
  {
    ghost var n1 := Connected(e.Env(), config, e.provider.nonce);
    ConnectExpected(e.Env(), config, e.provider.nonce);
    outcome := ProcessEvent(e, e.node, TransportConnected, n1, n1);
  }

  method TakeArrival(e: Endpoint, arrival: Arrival, ghost step: (Node, Arrival) -> Node) returns (outcome: Outcome)
    requires e.Resting() && !Stopped(e.node) && !e.node.data.config.isResponder && IsStep(step, e.Env(), false)
    modifies e, e.machine, e.machine.cryptoData, e.provider
    ensures e.Resting() && e.node == step(old(e.node), arrival) && !e.node.data.config.isResponder
    ensures outcome == OutcomeAfter(arrival, e.node)
    ensures outcome == Aborted ==> e.node.dead
  {
    assert Peek(0);
    ArrivalKeepsRole(e.Env(), false, e.node, arrival);
    if IsAbort(arrival) { AbortKills(e.Env(), false, e.node, arrival); }
    match arrival {
      case Stream(buffer) =>
        outcome := OnData(e, buffer);
      case Timer =>
        outcome := Tick(e);
    }
  }

  method RunUntilAuthenticated(e: Endpoint, arrivals: seq<Arrival>, ghost step: (Node, Arrival) -> Node) returns (outcome: Outcome)
    requires e.Resting() && !e.node.dead && !e.node.data.config.isResponder && IsStep(step, e.Env(), false)
    modifies e, e.machine, e.machine.cryptoData, e.provider
    ensures e.Resting() && e.node == Driven(step, old(e.node), arrivals)
    ensures outcome == DrivenOutcome(step, old(e.node), arrivals)
  {
    var i := 0;
    outcome := Continue;
    assert arrivals[0..] == arrivals;
    while i < |arrivals| && outcome == Continue && e.machine.state != Authenticated
      invariant i <= |arrivals| && e.Resting() && !e.node.data.config.isResponder
      invariant outcome == Continue <==> !e.node.dead
      invariant Driven(step, e.node, arrivals[i..]) == Driven(step, old(e.node), arrivals)
      invariant DrivenOutcome(step, old(e.node), arrivals) ==
                if outcome == Aborted then Aborted else DrivenOutcome(step, e.node, arrivals[i..])
    {
      DrivenFurther(step, e.node, arrivals, i);
      OutcomeFurther(step, e.node, arrivals, i);
      outcome := TakeArrival(e, arrivals[i], step);
      i := i + 1;
    }
    DrivenDone(step, e.node, arrivals, i);
    OutcomeDone(step, e.node, arrivals, i);
  }

  /** A client connection from transport to the end: although outputs that accompany a
      request are dropped, what was transmitted is exactly what the machine emitted. It
      aborts and goes on as the server does. */
  method ConnectAndAuthenticate(e: Endpoint, arrivals: seq<Arrival>, ghost config: Config) returns (outcome: Outcome)
    requires Unconnected(e, config) && !config.isResponder
    modifies e, e.machine, e.machine.cryptoData, e.provider
    ensures e.Resting() && e.node == Driven(Taking(e.Env(), false), Connected(e.Env(), config, e.provider.nonce), arrivals)
    ensures e.machine.state == e.node.state
    ensures outcome == Continue <==> !e.node.dead
    ensures outcome == Aborted <==>
            exists i :: AbortsAt(Taking(e.Env(), false), Connected(e.Env(), config, e.provider.nonce), arrivals, i)
  {
    outcome := Connect(e, config);
    ConnectedIsLive(e.Env(), config, e.provider.nonce);
    TakingAbortsKill(e.Env(), false);
    OutcomeExact(Taking(e.Env(), false), e.node, arrivals);
    outcome := RunUntilAuthenticated(e, arrivals, Taking(e.Env(), false));
  }
}
