/** The run in which asynchronous crypto loses a status. */
module LostStatus {
  import opened Basics
  import opened Messages
  import opened Machine
  import opened Provider
  import opened Node
  import opened NodeInvariant
  import opened NodeProofs
  import opened NodeTheorems
  import opened TwoNodes
  import opened TwoNodesSafety
  import opened Honest
  import opened HonestSteps
  import opened Convergence

  /** How far each endpoint has come: messages received and operations completed. */
  datatype Counts = Counts(ra: nat, ca: nat, rb: nat, cb: nat)

  function CountsOf(s: Sys): Counts {
    Counts(|s.a.received|, |s.a.completed|, |s.b.received|, |s.b.completed|)
  }

  /** Messages sent, as a function of operations completed. */
  function SentAt(c: nat): nat {
    if c <= 3 then c + 1 else 4
  }

  /** Whether an operation is outstanding, as a function of role, messages received and
      operations completed. */
  predicate BusyAt(isResponder: bool, r: nat, c: nat) {
    match c
    case 0 => if isResponder then r >= 2 else r >= 1
    case 1 => r >= 2
    case 2 => r >= 3
    case _ => false
  }

  lemma NodeCounts(w: World, n: Node, peer: Node)
    requires Sized(w.prims) && Healthy(w, n, peer)
    ensures |n.msgs| == SentAt(|n.completed|)
    ensures n.outstanding != [] <==> BusyAt(n.data.config.isResponder, |n.received|, |n.completed|)
    ensures |n.received| == 3 && |n.completed| == 2 ==> n.state == Computing && |n.requests| == 3
  {
  }

  /** The system seen through its counts alone. */
  function NextCounts(k: Counts, act: Action): Counts {
    match act
    case DeliverToA => if k.ra < SentAt(k.cb) then k.(ra := k.ra + 1) else k
    case DeliverToB => if k.rb < SentAt(k.ca) then k.(rb := k.rb + 1) else k
    case CompleteA => if BusyAt(false, k.ra, k.ca) then k.(ca := k.ca + 1) else k
    case CompleteB => if BusyAt(true, k.rb, k.cb) then k.(cb := k.cb + 1) else k
    case ClockA => k
    case ClockB => k
  }

  lemma HearCounts(w: World, n: Node, peer: Node)
    requires HonestWorld(w) && Healthy(w, n, peer) && Healthy(w, peer, n)
    ensures var n1 := Hear(w, n, peer);
            && |n1.completed| == |n.completed|
            && |n1.received| == if |n.received| < SentAt(|peer.completed|) then |n.received| + 1 else |n.received|
  {
    NodeCounts(w, peer, n);
    if Deliverable(n, peer) {
      Received(w, n, Deliver(w.wire.encode(peer.msgs[|n.received|])));
      CompletedUnchanged(w, n, w.wire.encode(peer.msgs[|n.received|]));
    }
  }

  lemma CompleteCounts(w: World, n: Node, peer: Node)
    requires HonestWorld(w) && Healthy(w, n, peer) && Healthy(w, peer, n)
    ensures var n1 := NodeStep(w, n, Complete);
            && |n1.received| == |n.received|
            && |n1.completed| == if BusyAt(n.data.config.isResponder, |n.received|, |n.completed|) then |n.completed| + 1 else |n.completed|
  {
    NodeCounts(w, n, peer);
    Received(w, n, Complete);
    if n.outstanding != [] {
      CompleteStaysHealthy(w, n, peer);
      CompletedAfter(w, n);
    }
  }

  lemma DeliveriesTrack(w: World, s: Sys)
    requires HonestWorld(w) && Good(w, s)
    ensures CountsOf(SysStep(w, s, DeliverToA)) == NextCounts(CountsOf(s), DeliverToA)
    ensures CountsOf(SysStep(w, s, DeliverToB)) == NextCounts(CountsOf(s), DeliverToB)
  {
    HearCounts(w, s.a, s.b);
    HearCounts(w, s.b, s.a);
  }

  lemma CompletionsTrack(w: World, s: Sys)
    requires HonestWorld(w) && Good(w, s)
    ensures CountsOf(SysStep(w, s, CompleteA)) == NextCounts(CountsOf(s), CompleteA)
  {
    CompleteCounts(w, s.a, s.b);
  }

  lemma ResponderCompletionsTrack(w: World, s: Sys)
    requires HonestWorld(w) && Good(w, s)
    ensures CountsOf(SysStep(w, s, CompleteB)) == NextCounts(CountsOf(s), CompleteB)
  {
    CompleteCounts(w, s.b, s.a);
  }

  lemma CountsTrack(w: World, s: Sys, act: Action)
    requires HonestWorld(w) && Good(w, s)
    ensures CountsOf(SysStep(w, s, act)) == NextCounts(CountsOf(s), act)
  {
    if act == DeliverToA || act == DeliverToB {
      DeliveriesTrack(w, s);
    } else if act == CompleteA {
      CompletionsTrack(w, s);
    } else if act == CompleteB {
      ResponderCompletionsTrack(w, s);
    } else {
      ClockIsIdle(w, s.a, s.b);
      ClockIsIdle(w, s.b, s.a);
    }
  }

  /** The responder's status reaches the initiator while its verification is outstanding. */
  const LOSING: seq<Action> := [
    DeliverToA, CompleteA, DeliverToB, DeliverToB, CompleteB, CompleteB, DeliverToA,
    CompleteA, DeliverToA, DeliverToB, CompleteB, DeliverToA, CompleteA, DeliverToB]

  const TRACE: seq<Counts> := [
    Counts(0, 0, 0, 0), Counts(1, 0, 0, 0), Counts(1, 1, 0, 0), Counts(1, 1, 1, 0), Counts(1, 1, 2, 0),
    Counts(1, 1, 2, 1), Counts(1, 1, 2, 2), Counts(2, 1, 2, 2), Counts(2, 2, 2, 2), Counts(3, 2, 2, 2),
    Counts(3, 2, 3, 2), Counts(3, 2, 3, 3), Counts(4, 2, 3, 3), Counts(4, 3, 3, 3), Counts(4, 3, 4, 3)]

  lemma TraceSteps(k: nat)
    requires k < 14
    ensures TRACE[k + 1] == NextCounts(TRACE[k], LOSING[k])
  {
  }

  lemma {:induction false} RunSnoc(w: World, s: Sys, acts: seq<Action>, act: Action)
    requires Sized(w.prims)
    ensures SysRun(w, s, acts + [act]) == SysStep(w, SysRun(w, s, acts), act)
    decreases |acts|
  {
    if acts == [] {
      assert [act][1..] == [];
    } else {
      assert (acts + [act])[1..] == acts[1..] + [act];
      RunSnoc(w, SysStep(w, s, acts[0]), acts[1..], act);
    }
  }

  /** The system after the first `k` actions. */
  function After(w: World, u: Setup, k: nat): Sys
    requires Sized(w.prims) && k <= 14
  {
    SysRun(w, Begin(w, u), LOSING[..k])
  }

  lemma AfterNext(w: World, u: Setup, k: nat)
    requires Sized(w.prims) && k < 14
    ensures After(w, u, k + 1) == SysStep(w, After(w, u, k), LOSING[k])
  {
    assert LOSING[..k + 1] == LOSING[..k] + [LOSING[k]];
    RunSnoc(w, Begin(w, u), LOSING[..k], LOSING[k]);
  }

  lemma {:induction false} LosingTrace(w: World, u: Setup, k: nat)
    requires HonestSetup(w, u) && k <= 14
    ensures Good(w, After(w, u, k)) && CountsOf(After(w, u, k)) == TRACE[k]
  {
    if k == 0 {
      BeginIsGood(w, u);
      ConnectedIsLive(w, u.ca, u.na);
      ConnectedIsLive(w, u.cb, u.nb);
    } else {
      LosingTrace(w, u, k - 1);
      AfterNext(w, u, k - 1);
      StepStaysGood(w, After(w, u, k - 1), LOSING[k - 1]);
      CountsTrack(w, After(w, u, k - 1), LOSING[k - 1]);
      TraceSteps(k - 1);
    }
  }

  lemma LosesStatus(w: World, n: Node, peer: Node)
    requires HonestWorld(w) && Healthy(w, n, peer) && Healthy(w, peer, n)
    requires |n.received| == 3 && |n.completed| == 2 && |peer.completed| == 3
    ensures Deliverable(n, peer) && Lost(Hear(w, n, peer))
  {
    NodeCounts(w, n, peer);
    NodeCounts(w, peer, n);
    LostByHearing(w, n, peer);
  }

  lemma TakesStatus(w: World, n: Node, peer: Node)
    requires HonestWorld(w) && Healthy(w, n, peer) && Healthy(w, peer, n)
    requires |n.received| == 3 && |n.completed| == 3 && |peer.completed| == 3
    ensures !Lost(Hear(w, n, peer))
  {
    NodeCounts(w, n, peer);
    NodeCounts(w, peer, n);
    LostByHearing(w, n, peer);
    IdleAtThree(w, n, peer);
  }

  lemma IdleAtThree(w: World, n: Node, peer: Node)
    requires Sized(w.prims) && Healthy(w, n, peer) && |n.completed| == 3
    ensures n.state != Computing
  {
  }

  lemma InitiatorLoses(w: World, s: Sys, s1: Sys, s2: Sys, s3: Sys)
    requires HonestWorld(w) && Good(w, s) && CountsOf(s) == Counts(3, 2, 3, 3)
    requires s1.a == Hear(w, s.a, s.b) && s2.a == NodeStep(w, s1.a, Complete) && s3.a == s2.a
    ensures Lost(s3.a)
  {
    LosesStatus(w, s.a, s.b);
    HearStaysHealthy(w, s.a, s.b);
    LostByCompleting(w, s1.a, s.b);
  }

  lemma ResponderTakes(w: World, s: Sys, s1: Sys)
    requires HonestWorld(w) && Good(w, s) && CountsOf(s) == Counts(4, 3, 3, 3)
    requires s1.b == Hear(w, s.b, s.a)
    ensures !Lost(s1.b)
  {
    TakesStatus(w, s.b, s.a);
  }

  lemma LastActions(w: World, u: Setup, k: nat)
    requires Sized(w.prims) && k == 11
    ensures var s0, s1, s2, s3 := After(w, u, k), After(w, u, k + 1), After(w, u, k + 2), After(w, u, k + 3);
            && s1 == s0.(a := Hear(w, s0.a, s0.b))
            && s2 == s1.(a := NodeStep(w, s1.a, Complete))
            && s3 == s2.(b := Hear(w, s2.b, s2.a))
  {
    AfterNext(w, u, k);
    AfterNext(w, u, k + 1);
    AfterNext(w, u, k + 2);
  }

  lemma InitiatorEnds(w: World, u: Setup, k: nat)
    requires HonestSetup(w, u) && k == 11
    ensures Lost(After(w, u, k + 3).a)
  {
    LosingTrace(w, u, k);
    LastActions(w, u, k);
    InitiatorLoses(w, After(w, u, k), After(w, u, k + 1), After(w, u, k + 2), After(w, u, k + 3));
  }

  lemma ResponderEnds(w: World, u: Setup, k: nat)
    requires HonestSetup(w, u) && k == 11
    ensures !Lost(After(w, u, k + 3).b)
  {
    LosingTrace(w, u, k + 2);
    LastActions(w, u, k);
    ResponderTakes(w, After(w, u, k + 2), After(w, u, k + 3));
  }

  /** For every honest pair there is an interleaving that ends at rest with the responder
      authenticated and the initiator still waiting for the status it already received. */
  lemma AsynchronousCryptoLosesStatus(w: World, u: Setup) returns (acts: seq<Action>)
    requires HonestSetup(w, u)
    ensures var s := SysRun(w, Begin(w, u), acts);
            && Quiescent(s) && SwallowedIn(w, Begin(w, u), acts)
            && s.b.state == Authenticated && s.a.state == AwaitingStatus
            && |s.b.msgs| == 4 && s.a.data.pending == w.wire.encode(s.b.msgs[3])
  {
    var k: nat :| k == 11;
    acts := LOSING[..k + 3];
    var s := After(w, u, k + 3);
    LosingTrace(w, u, k + 3);
    FullIsQuiescent(w, s);
    QuiescentIsFull(w, s);
    InitiatorEnds(w, u, k);
    ResponderEnds(w, u, k);
    AsynchronousConvergence(w, u, acts);
    LostIsLast(w, s.a, s.b);
  }

  lemma LostIsLast(w: World, n: Node, peer: Node)
    requires Sized(w.prims) && Healthy(w, n, peer) && Lost(n) && n.outstanding == []
    ensures |peer.msgs| >= 4 && n.data.pending == w.wire.encode(peer.msgs[3])
  {
  }
}
