/** The server's loop: it drains the crypto that an arrival causes, sending what the machine
    emitted before each operation. */
module Server {
  import opened Basics
  import opened Messages
  import MessageCodec
  import opened Machine
  import opened StateMachine
  import opened Provider
  import opened Node
  import N = Node
  import opened NodeInvariant
  import opened NodeProofs
  import opened Drained
  import opened Drivers
  import opened MessageTheorems

  /** The two completions that drain a node. */
  ghost predicate Drains(w: World, n0: Node, n1: Node, n2: Node)
    requires Sized(w.prims)
  {
    && Completes(w, n0, n1) && Completes(w, n1, n2) && Quiet(n2)
    && (Quiet(n0) ==> n2 == n0) && (Quiet(n1) ==> n2 == n1)
    && (!Quiet(n0) ==> NoBuffer(n0)) && (!Quiet(n1) ==> NoBuffer(n1))
  }

  lemma SettleIsDrain(w: World, n: Node)
    requires Sized(w.prims) && NodeInv(w, n) && (n.state == Computing ==> n.data.pending == [])
    ensures Drains(w, n, NodeStep(w, n, N.Complete), Settle(w, n))
  {
    SettleDrains(w, n);
    var n1 := NodeStep(w, n, N.Complete);
    if Quiet(n) { QuietCompletes(w, n); } else { OneCompletion(w, n); }
    if Quiet(n1) { QuietCompletes(w, n1); }
  }

  method RunRequest(e: Endpoint, request: CryptoRequest, ghost n1: Node) returns (ok: bool, outs: seq<Output>, panicked: bool)
    requires e.Valid() && !e.node.dead && e.node.outstanding == [request.op] && Completes(e.Env(), e.node, n1)
    requires NoBuffer(e.node)
    modifies e`node, e.machine, e.machine.cryptoData, e.provider
    ensures e.Valid() && e.node == n1 && ok == !n1.dead && !panicked
    ensures ok ==> Holding(e, outs, old(e.node).msgs)
    ensures !ok ==> e.node.msgs == old(e.node).msgs
  {
    ok, outs, panicked := RunCrypto(e, request);
    assert Peek(0);
  }

  /** The outputs are to be sent, and ask for `request`, if for any. */
  ghost predicate Asking(e: Endpoint, outs: seq<Output>, before: seq<Message>, request: Option<CryptoRequest>)
    reads e, e.machine, e.machine.cryptoData, e.provider
  {
    && Holding(e, outs, before) && e.sent == EncodeAll(WIRE.encode, before)
    && e.node.outstanding == match request
                             case None => []
                             case Some(r) => [r.op]
  }

  lemma AskingFirst(w: World, n: Node, op: CryptoOp)
    requires Sized(w.prims) && NodeInv(w, n) && n.outstanding != [] && n.outstanding[0] == op
    ensures n.outstanding == [op]
  {
  }

  method Ask(e: Endpoint, outs: seq<Output>, ghost before: seq<Message>) returns (request: Option<CryptoRequest>)
    requires Holding(e, outs, before) && e.sent == EncodeAll(WIRE.encode, before)
    ensures Asking(e, outs, before, request)
  {
    request := FirstRequest(outs);
    if request.Some? {
      AskingFirst(e.Env(), e.node, request.value.op);
    }
  }

  /** One round: send, run the operation, feed the result. */
  method Round(e: Endpoint, outs: seq<Output>, ghost before: seq<Message>, request: CryptoRequest, ghost n1: Node)
    returns (ok: bool, moreOuts: seq<Output>, next: Option<CryptoRequest>, panicked: bool, ghost sentNow: seq<Message>)
    requires Asking(e, outs, before, Some(request)) && Completes(e.Env(), e.node, n1) && NoBuffer(e.node)
    modifies e, e.machine, e.machine.cryptoData, e.provider
    ensures e.Valid() && e.node == n1 && ok == !n1.dead && !panicked
    ensures ok ==> Asking(e, moreOuts, sentNow, next)
    ensures !ok ==> e.Sync()
  {
    e.SendMessages(outs, before);
    sentNow := e.node.msgs;
    ok, moreOuts, panicked := RunRequest(e, request, n1);
    if ok {
      next := Ask(e, moreOuts, sentNow);
    } else {
      next := None;
    }
  }

  method SendRemaining(e: Endpoint, outs: seq<Output>, ghost before: seq<Message>)
    requires Asking(e, outs, before, None)
    modifies e`sent
    ensures e.Valid() && e.Sync() && Quiet(e.node)
  {
    e.SendMessages(outs, before);
  }

  /** The inner loop: while the outputs ask for crypto, send their messages, run the first
      operation asked for and feed its result; then send the messages that remain. */
  method DrainCrypto(e: Endpoint, firstOuts: seq<Output>, ghost sentBefore: seq<Message>, ghost n1: Node, ghost n2: Node)
    returns (outcome: Outcome)
    requires Holding(e, firstOuts, sentBefore) && e.sent == EncodeAll(WIRE.encode, sentBefore)
    requires Drains(e.Env(), e.node, n1, n2)
    modifies e, e.machine, e.machine.cryptoData, e.provider
    ensures e.Valid() && e.Sync() && e.node == n2
    ensures outcome == if n2.dead then Ended else Continue
  {
    ghost var n0, before := e.node, sentBefore;
    var outs := firstOuts;
    var request := Ask(e, outs, before);
    ghost var k := 0;
    while request.Some?
      invariant Asking(e, outs, before, request)
      invariant k <= 2 && e.node == if k == 0 then n0 else if k == 1 then n1 else n2
      decreases 2 - k
    {
      var ok, panicked;
      ok, outs, request, panicked, before := Round(e, outs, before, request.value, if k == 0 then n1 else n2);
      k := k + 1;
      if !ok {
        return OutcomeOf(panicked);
      }
    }
    SendRemaining(e, outs, before);
    return Continue;
  }

  /** One arriving stream. */
  method OnData(e: Endpoint, buffer: Bytes) returns (outcome: Outcome)
    requires e.Resting() && !Stopped(e.node)
    modifies e, e.machine, e.machine.cryptoData, e.provider
    ensures e.Resting() && e.node == AfterArrival(e.Env(), true, old(e.node), Stream(buffer))
    ensures outcome == OutcomeAfter(Stream(buffer), e.node)
  {
    UnimplementedExactly(buffer);
    if buffer == [] { return Continue; }
    ghost var w, n := e.Env(), e.node;
    var logged := MessageCodec.DecodeMessage(buffer);
    if logged.Unimplemented? {
      AbortHolds(w, n);
      e.node := n.(dead := true);
      return Aborted;
    }
    NothingBuffered(w, n, buffer);
    var ok, outs, panicked := FeedData(e, buffer);
    if !ok {
      QuietCompletes(w, e.node);
      return OutcomeOf(panicked);
    }
    SettleIsDrain(w, e.node);
    outcome := DrainCrypto(e, outs, n.msgs, NodeStep(w, e.node, N.Complete), Settle(w, e.node));
  }

  /** Connecting: the machine's first outputs are sent. */
  method Connect(e: Endpoint, ghost config: Config)
    requires Unconnected(e, config)
    modifies e, e.machine, e.machine.cryptoData
    ensures e.Resting() && e.node == Connected(e.Env(), config, e.provider.nonce)
  {
    ghost var n := e.node;
    var ok, outs, panicked := e.Feed(n, TransportConnected);
    ConnectedHolds(e.Env(), config, e.provider.nonce);
    ConnectedIsLive(e.Env(), config, e.provider.nonce);
    OutputsFit(e.Env(), n, HandleStep(WIRE, n.state, n.data, TransportConnected, MAX_OUTPUTS));
    e.SendMessages(outs, n.msgs);
  }

  method TakeArrival(e: Endpoint, arrival: Arrival, ghost step: (Node, Arrival) -> Node) returns (outcome: Outcome)
    requires e.Resting() && !Stopped(e.node) && IsStep(step, e.Env(), true)
    modifies e, e.machine, e.machine.cryptoData, e.provider
    ensures e.Resting() && e.node == step(old(e.node), arrival)
    ensures outcome == OutcomeAfter(arrival, e.node)
    ensures outcome == Aborted ==> e.node.dead
  {
    assert Peek(0);
    if IsAbort(arrival) { AbortKills(e.Env(), true, e.node, arrival); }
    match arrival {
      case Stream(buffer) =>
        outcome := OnData(e, buffer);
      case Timer =>
        outcome := Tick(e);
    }
  }

  /** The 100 ms timer; an error of the machine would be ignored. */
  method Tick(e: Endpoint) returns (outcome: Outcome)
    requires e.Resting() && !Stopped(e.node)
    modifies e, e.machine, e.machine.cryptoData
    ensures e.Resting() && e.node == old(e.node) && outcome == Continue
  {
    TickFeeds(e.Env(), e.node);
    var ok, outs, panicked := FeedInto(e, e.node, Input.Tick(0), e.node);
    return Continue;
  }

  /** The outer loop: take arrivals until authenticated, or until the connection ends. */
  method DriveAuthentication(e: Endpoint, arrivals: seq<Arrival>, ghost step: (Node, Arrival) -> Node) returns (outcome: Outcome)
    requires e.Resting() && !e.node.dead && IsStep(step, e.Env(), true)
    modifies e, e.machine, e.machine.cryptoData, e.provider
    ensures e.Resting() && e.node == Driven(step, old(e.node), arrivals)
    ensures outcome == DrivenOutcome(step, old(e.node), arrivals)
  {
    var i := 0;
    outcome := Continue;
    assert arrivals[0..] == arrivals;
    while i < |arrivals| && outcome == Continue && e.machine.state != Authenticated
      invariant i <= |arrivals| && e.Resting()
      invariant outcome == Continue <==> !e.node.dead
      invariant Driven(step, e.node, arrivals[i..]) == Driven(step, old(e.node), arrivals)
      invariant DrivenOutcome(step, old(e.node), arrivals) ==
                if outcome == Aborted then Aborted else DrivenOutcome(step, e.node, arrivals[i..])
    {
      DrivenFurther(step, e.node, arrivals, i);
      OutcomeFurther(step, e.node, arrivals, i);
      outcome := TakeArrival(e, arrivals[i], step);
      i := i + 1;
    }
    DrivenDone(step, e.node, arrivals, i);
    OutcomeDone(step, e.node, arrivals, i);
  }

  /** A server connection from transport to the end: what was transmitted is exactly what
      the machine emitted in a run that drains the crypto of each arrival, and the machine is
      in the state of that run. It aborts exactly at an arrival of type key 1002 that the
      run gets to, and goes on exactly if the run has met no error. */
  method AuthenticateConnection(e: Endpoint, arrivals: seq<Arrival>, ghost config: Config) returns (outcome: Outcome)
    requires Unconnected(e, config)
    modifies e, e.machine, e.machine.cryptoData, e.provider
    ensures e.Resting() && e.node == Driven(Taking(e.Env(), true), Connected(e.Env(), config, e.provider.nonce), arrivals)
    ensures e.machine.state == e.node.state
    ensures outcome == Continue <==> !e.node.dead
    ensures outcome == Aborted <==>
            exists i :: AbortsAt(Taking(e.Env(), true), Connected(e.Env(), config, e.provider.nonce), arrivals, i)
  {
    Connect(e, config);
    ConnectedIsLive(e.Env(), config, e.provider.nonce);
    TakingAbortsKill(e.Env(), true);
    OutcomeExact(Taking(e.Env(), true), e.node, arrivals);
    outcome := DriveAuthentication(e, arrivals, Taking(e.Env(), true));
  }
}
