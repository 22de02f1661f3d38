/** Draining crypto after each delivery, as both drivers do, and the convergence it brings. */
module Drained {
  import opened Basics
  import opened Messages
  import opened Machine
  import opened Provider
  import opened Node
  import opened NodeInvariant
  import opened NodeProofs
  import opened NodeTheorems
  import opened TwoNodes
  import opened TwoNodesSafety
  import opened Honest
  import opened HonestSteps
  import opened Convergence

  // ---------------------------------------------------------------- two completions suffice

  /** Complete what is outstanding, and what that requests in turn. */
  function Settle(w: World, n: Node): Node
    requires Sized(w.prims)
  {
    NodeStep(w, NodeStep(w, n, Complete), Complete)
  }

  lemma DeliveredPending(w: World, n: Node, bytes: Bytes)
    requires Sized(w.prims) && NodeInv(w, n) && !n.dead && n.state != Computing
    ensures NodeStep(w, n, Deliver(bytes)).data.pending == n.data.pending
  {
    DeliveryStep(w, n, bytes);
  }

  lemma IdlePending(w: World, n: Node)
    requires Sized(w.prims) && NodeInv(w, n) && !n.dead && n.outstanding == []
    ensures n.state != Computing
    ensures n.state != AwaitingStatus && n.state != Authenticated && !n.state.Failed? ==> n.data.pending == []
  {
  }

  lemma LastStates(w: World, n: Node, bytes: Bytes)
    requires Sized(w.prims) && NodeInv(w, n) && !n.dead
    requires n.state == AwaitingStatus || n.state == Authenticated || n.state.Failed?
    ensures NodeStep(w, n, Deliver(bytes)).state != Computing
  {
    DeliveryStep(w, n, bytes);
  }

  /** After a delivery to an idle endpoint nothing waits in the race buffer of a finish. */
  lemma NothingBuffered(w: World, n: Node, bytes: Bytes)
    requires Sized(w.prims) && NodeInv(w, n) && !n.dead && n.outstanding == []
    ensures var n1 := NodeStep(w, n, Deliver(bytes));
            NodeInv(w, n1) && (n1.state == Computing ==> n1.data.pending == [])
  {
    StepHolds(w, n, Deliver(bytes));
    IdlePending(w, n);
    DeliveredPending(w, n, bytes);
    if n.state == AwaitingStatus || n.state == Authenticated || n.state.Failed? {
      LastStates(w, n, bytes);
    }
  }

  lemma StartLeads(w: World, n: Node)
    requires Sized(w.prims) && NodeInv(w, n) && !n.dead && n.outstanding != []
    requires n.state == InitiatingHandshake || n.state == GeneratingHandshake
    ensures var n1 := NodeStep(w, n, Complete);
            n1.dead || n1.state == AwaitingHandshake || (n1.state == Computing && |n1.requests| == 2 && n1.data.pending == [])
  {
    TookProgress(n, 1, 1, 0, None, []);
    StartExecutes(w, n, n.data.config);
    CompletionStep(w, n);
    var n1 := NodeStep(w, n, Complete);
    if !n1.dead && n.state == GeneratingHandshake {
      GeneratedOutputs(w.wire, n.data, Crypto(w, n).1.value);
    }
  }

  lemma GeneratedOutputs(w: Codec, d: Data, result: Bytes)
    ensures var step := GeneratingHandshakeStep(w, d, CryptoCompleted(result), MAX_OUTPUTS);
            step.Next? ==> |Requested(step.outputs)| == 1 && step.data.pending == d.pending
  {
    var step := GeneratingHandshakeStep(w, d, CryptoCompleted(result), MAX_OUTPUTS);
    if step.Next? {
      Emitted(step.outputs);
    }
  }

  lemma FinishLeads(w: World, n: Node)
    requires Sized(w.prims) && NodeInv(w, n) && !n.dead && n.state == Computing && Finishing(w, n)
    requires n.data.pending == []
    ensures var n1 := NodeStep(w, n, Complete);
            n1.dead || n1.state == AwaitingConfirmation
  {
    TookProgress(n, 2, 2, 1, None, []);
    FinishCompletion(w, n);
  }

  lemma VerifyLeads(w: World, n: Node)
    requires Sized(w.prims) && NodeInv(w, n) && !n.dead && n.state == Computing && Verifying(w, n)
    ensures var n1 := NodeStep(w, n, Complete);
            n1.dead || n1.state == AwaitingStatus
  {
    TookProgress(n, 3, 3, 2, None, []);
    VerifyExecutes(w, n);
    if Crypto(w, n).1.Err? {
      CompletionStep(w, n);
    } else {
      EmptyCompletion(w, n);
    }
  }

  /** Nothing outstanding, or the connection has ended. */
  predicate Quiet(n: Node) {
    n.dead || n.outstanding == []
  }

  /** Only a finish is outstanding, and the race buffer is empty. */
  predicate OnlyFinish(n: Node) {
    n.state == Computing && |n.requests| == 2 && n.data.pending == []
  }

  lemma QuietByState(w: World, n: Node)
    requires Sized(w.prims) && NodeInv(w, n)
    requires n.dead || n.state == AwaitingHandshake || n.state == AwaitingConfirmation || n.state == AwaitingStatus
    ensures Quiet(n)
  {
    if !n.dead {
      NothingOutstanding(w, n);
    }
  }

  /** One completion leaves nothing outstanding, except that a responder's start requests
      the finish at once. */
  lemma OneCompletion(w: World, n: Node)
    requires Sized(w.prims) && NodeInv(w, n) && !n.dead && n.outstanding != []
    requires n.state == Computing ==> n.data.pending == []
    ensures Quiet(NodeStep(w, n, Complete)) || OnlyFinish(NodeStep(w, n, Complete))
  {
    StepHolds(w, n, Complete);
    if n.state == InitiatingHandshake || n.state == GeneratingHandshake {
      StartLeads(w, n);
    } else if n.state == Computing {
      if Finishing(w, n) { FinishLeads(w, n); } else { VerifyLeads(w, n); }
    } else {
      NothingOutstanding(w, n);
    }
    if !OnlyFinish(NodeStep(w, n, Complete)) {
      QuietByState(w, NodeStep(w, n, Complete));
    }
  }

  lemma LastCompletion(w: World, n: Node)
    requires Sized(w.prims) && NodeInv(w, n) && OnlyFinish(n) && !n.dead
    ensures Quiet(NodeStep(w, n, Complete))
  {
    StepHolds(w, n, Complete);
    FinishLeads(w, n);
    QuietByState(w, NodeStep(w, n, Complete));
  }

  lemma QuietCompletes(w: World, n: Node)
    requires Sized(w.prims) && Quiet(n)
    ensures NodeStep(w, n, Complete) == n
  {
  }

  lemma SettleDrains(w: World, n: Node)
    requires Sized(w.prims) && NodeInv(w, n)
    requires n.state == Computing ==> n.data.pending == []
    ensures NodeInv(w, Settle(w, n)) && Quiet(Settle(w, n))
  {
    var n1 := NodeStep(w, n, Complete);
    StepHolds(w, n, Complete);
    StepHolds(w, n1, Complete);
    if Quiet(n) {
      QuietCompletes(w, n);
    } else {
      OneCompletion(w, n);
    }
    if Quiet(n1) {
      QuietCompletes(w, n1);
    } else {
      LastCompletion(w, n1);
    }
  }

  /** Whatever is delivered to an endpoint with no crypto outstanding, two completions drain
      it: nothing is outstanding afterwards, or the connection has ended. */
  lemma TwoCompletionsDrain(w: World, n: Node, bytes: Bytes)
    requires Sized(w.prims) && NodeInv(w, n) && !n.dead && n.outstanding == []
    ensures var n1 := Settle(w, NodeStep(w, n, Deliver(bytes)));
            NodeInv(w, n1) && Quiet(n1)
  {
    NothingBuffered(w, n, bytes);
    SettleDrains(w, NodeStep(w, n, Deliver(bytes)));
  }

  // ---------------------------------------------------------------- drained convergence

  /** A turn of the drained system: one delivery with all the crypto it causes, or a tick. */
  datatype Turn = ToA | ToB | TickA | TickB

  function Exchange(w: World, n: Node, peer: Node): Node
    requires Sized(w.prims)
  {
    if Deliverable(n, peer) then Settle(w, Hear(w, n, peer)) else n
  }

  function DrainedStep(w: World, s: Sys, t: Turn): Sys
    requires Sized(w.prims)
  {
    match t
    case ToA => s.(a := Exchange(w, s.a, s.b))
    case ToB => s.(b := Exchange(w, s.b, s.a))
    case TickA => s.(a := NodeStep(w, s.a, Clock))
    case TickB => s.(b := NodeStep(w, s.b, Clock))
  }

  function DrainedRun(w: World, s: Sys, turns: seq<Turn>): Sys
    requires Sized(w.prims)
    decreases |turns|
  {
    if turns == [] then s else DrainedRun(w, DrainedStep(w, s, turns[0]), turns[1..])
  }

  ghost predicate Calm(w: World, s: Sys)
    requires Sized(w.prims)
  {
    && Good(w, s) && s.a.outstanding == [] && s.b.outstanding == []
    && !Lost(s.a) && !Lost(s.b)
  }

  lemma SettleStays(w: World, n: Node, peer: Node)
    requires HonestWorld(w) && Healthy(w, n, peer) && Healthy(w, peer, n)
    ensures Healthy(w, Settle(w, n), peer) && Healthy(w, peer, Settle(w, n))
    ensures Lost(Settle(w, n)) <==> Lost(n)
    ensures Settle(w, n).received == n.received && Settle(w, n).data.config == n.data.config
  {
    var n1 := NodeStep(w, n, Complete);
    CompleteStaysHealthy(w, n, peer);
    CompleteStaysHealthy(w, n1, peer);
    LostByCompleting(w, n, peer);
    LostByCompleting(w, n1, peer);
    StepExtends(w, n, Complete);
    StepExtends(w, n1, Complete);
    Received(w, n, Complete);
    Received(w, n1, Complete);
  }

  /** A delivery to an idle healthy endpoint, with its crypto drained. */
  lemma ExchangeStays(w: World, n: Node, peer: Node)
    requires HonestWorld(w) && Healthy(w, n, peer) && Healthy(w, peer, n)
    requires n.outstanding == [] && Deliverable(n, peer)
    ensures var n1 := Exchange(w, n, peer);
            && Healthy(w, n1, peer) && Healthy(w, peer, n1) && n1.outstanding == [] && !Lost(n1)
            && |n1.received| == |n.received| + 1 && n1.data.config == n.data.config
  {
    var bytes := w.wire.encode(peer.msgs[|n.received|]);
    IdlePending(w, n);
    HearStaysHealthy(w, n, peer);
    LostByHearing(w, n, peer);
    SettleStays(w, Hear(w, n, peer), peer);
    TwoCompletionsDrain(w, n, bytes);
    StepExtends(w, n, Deliver(bytes));
    Received(w, n, Deliver(bytes));
  }

  function Deliveries(s: Sys): nat {
    |s.a.received| + |s.b.received|
  }

  predicate Delivers(s: Sys, t: Turn) {
    (t == ToA && Deliverable(s.a, s.b)) || (t == ToB && Deliverable(s.b, s.a))
  }

  lemma DrainedStepStays(w: World, s: Sys, t: Turn)
    requires HonestWorld(w) && Calm(w, s)
    ensures var s1 := DrainedStep(w, s, t);
            Calm(w, s1) && Deliveries(s1) == Deliveries(s) + if Delivers(s, t) then 1 else 0
  {
    match t
    case ToA => if Deliverable(s.a, s.b) { ExchangeStays(w, s.a, s.b); }
    case ToB => if Deliverable(s.b, s.a) { ExchangeStays(w, s.b, s.a); }
    case TickA => ClockIsIdle(w, s.a, s.b);
    case TickB => ClockIsIdle(w, s.b, s.a);
  }

  lemma {:induction false} DrainedRunStays(w: World, s: Sys, turns: seq<Turn>)
    requires HonestWorld(w) && Calm(w, s)
    ensures Calm(w, DrainedRun(w, s, turns))
    decreases |turns|
  {
    if turns != [] {
      DrainedStepStays(w, s, turns[0]);
      DrainedRunStays(w, DrainedStep(w, s, turns[0]), turns[1..]);
    }
  }

  /** Convergence: with crypto drained after each delivery, in every interleaving of
      deliveries and ticks no endpoint ever fails; both endpoints are authenticated exactly
      when eight messages have been delivered; and before that a delivery is always
      possible, so there is no deadlock. */
  lemma DrainedConvergence(w: World, u: Setup, turns: seq<Turn>)
    requires HonestSetup(w, u)
    ensures var s := DrainedRun(w, Begin(w, u), turns);
            && !s.a.dead && !s.b.dead && s.a.outstanding == [] && s.b.outstanding == []
            && Deliveries(s) <= 8
            && (Deliveries(s) == 8 <==> s.a.state == Authenticated && s.b.state == Authenticated)
            && (Deliveries(s) < 8 ==> Delivers(s, ToA) || Delivers(s, ToB))
            && (forall t :: Deliveries(DrainedStep(w, s, t)) == Deliveries(s) + if Delivers(s, t) then 1 else 0)
  {
    BeginIsGood(w, u);
    DrainedRunStays(w, Begin(w, u), turns);
    var s := DrainedRun(w, Begin(w, u), turns);
    Balance(w, s.a);
    Balance(w, s.b);
    if Quiescent(s) {
      QuiescentIsFull(w, s);
    }
    forall t ensures Deliveries(DrainedStep(w, s, t)) == Deliveries(s) + if Delivers(s, t) then 1 else 0 {
      DrainedStepStays(w, s, t);
    }
  }
}
