/** Convergence of two honest endpoints: with crypto drained after each delivery every
    interleaving authenticates both; with asynchronous crypto, exactly those do in which no
    status reached an endpoint that was still verifying. */
module Convergence {
  import opened Basics
  import opened Messages
  import opened Machine
  import opened Provider
  import opened Node
  import opened NodeInvariant
  import opened NodeProofs
  import opened NodeTheorems
  import opened TwoNodes
  import opened TwoNodesSafety
  import opened Honest
  import opened HonestSteps

  ghost predicate HonestSetup(w: World, u: Setup) {
    HonestWorld(w) && SetupFits(u) && Compatible(w.wire, u.ca, u.cb)
  }

  ghost predicate Good(w: World, s: Sys)
    requires Sized(w.prims)
  {
    && Healthy(w, s.a, s.b) && Healthy(w, s.b, s.a)
    && !s.a.data.config.isResponder && s.b.data.config.isResponder
  }

  lemma BeginIsGood(w: World, u: Setup)
    requires HonestSetup(w, u)
    ensures Good(w, Begin(w, u))
    ensures Begin(w, u).a.outstanding == [] && Begin(w, u).b.outstanding == []
    ensures Begin(w, u).a.received == [] && Begin(w, u).b.received == []
  {
    BeginHolds(w, u);
    ConnectedIsLive(w, u.ca, u.na);
    ConnectedIsLive(w, u.cb, u.nb);
  }

  lemma ClockIsIdle(w: World, n: Node, peer: Node)
    requires Sized(w.prims) && Healthy(w, n, peer)
    ensures NodeStep(w, n, Clock) == n
  {
    ClockChangesNothing(w, n);
  }

  lemma StepStaysGood(w: World, s: Sys, act: Action)
    requires HonestWorld(w) && Good(w, s)
    ensures Good(w, SysStep(w, s, act))
  {
    match act
    case DeliverToA =>
      if Deliverable(s.a, s.b) {
        HearStaysHealthy(w, s.a, s.b);
        StepExtends(w, s.a, Deliver(w.wire.encode(s.b.msgs[|s.a.received|])));
      }
    case DeliverToB =>
      if Deliverable(s.b, s.a) {
        HearStaysHealthy(w, s.b, s.a);
        StepExtends(w, s.b, Deliver(w.wire.encode(s.a.msgs[|s.b.received|])));
      }
    case CompleteA =>
      CompleteStaysHealthy(w, s.a, s.b);
      StepExtends(w, s.a, Complete);
    case CompleteB =>
      CompleteStaysHealthy(w, s.b, s.a);
      StepExtends(w, s.b, Complete);
    case ClockA => ClockIsIdle(w, s.a, s.b);
    case ClockB => ClockIsIdle(w, s.b, s.a);
  }

  lemma {:induction false} RunStaysGood(w: World, s: Sys, acts: seq<Action>)
    requires HonestWorld(w) && Good(w, s)
    ensures Good(w, SysRun(w, s, acts))
    decreases |acts|
  {
    if acts != [] {
      StepStaysGood(w, s, acts[0]);
      RunStaysGood(w, SysStep(w, s, acts[0]), acts[1..]);
    }
  }

  // ---------------------------------------------------------------- quiescence

  /** Nothing to deliver and nothing to complete. */
  predicate Quiescent(s: Sys) {
    && !Deliverable(s.a, s.b) && !Deliverable(s.b, s.a)
    && s.a.outstanding == [] && s.b.outstanding == []
  }

  /** Messages received determine messages sent, when no crypto is outstanding. */
  lemma Balance(w: World, n: Node)
    requires Sized(w.prims) && NodeInv(w, n) && !n.dead && Tally(n) && n.outstanding == []
    ensures |n.received| <= 4
    ensures |n.msgs| == match |n.received|
                        case 0 => 1
                        case 1 => if n.data.config.isResponder then 1 else 2
                        case 2 => 3
                        case _ => 4
    ensures |n.completed| == match |n.received|
                             case 0 => 0
                             case 1 => if n.data.config.isResponder then 0 else 1
                             case 2 => 2
                             case _ => 3
    ensures |n.received| == 4 ==> n.state == (if n.data.pending == [] then Authenticated else AwaitingStatus)
    ensures |n.received| <= 3 ==> n.state != Authenticated && n.data.pending == []
  {
  }

  /** Two quiescent endpoints have exchanged all eight messages and completed all six
      operations. Each is authenticated unless the status it received sits in its buffer. */
  lemma QuiescentIsFull(w: World, s: Sys)
    requires Sized(w.prims) && Good(w, s) && Quiescent(s)
    ensures |s.a.received| == 4 && |s.b.received| == 4 && |s.a.completed| == 3 && |s.b.completed| == 3
    ensures s.a.state == if s.a.data.pending == [] then Authenticated else AwaitingStatus
    ensures s.b.state == if s.b.data.pending == [] then Authenticated else AwaitingStatus
  {
    Balance(w, s.a);
    Balance(w, s.b);
  }

  /** Deliveries and completions so far. */
  function Work(s: Sys): nat {
    |s.a.received| + |s.b.received| + |s.a.completed| + |s.b.completed|
  }

  predicate Enabled(s: Sys, act: Action) {
    match act
    case DeliverToA => Deliverable(s.a, s.b)
    case DeliverToB => Deliverable(s.b, s.a)
    case CompleteA => s.a.outstanding != []
    case CompleteB => s.b.outstanding != []
    case ClockA => false
    case ClockB => false
  }

  lemma CompletedAfter(w: World, n: Node)
    requires Sized(w.prims) && !n.dead && n.outstanding != [] && !NodeStep(w, n, Complete).dead
    ensures |NodeStep(w, n, Complete).completed| == |n.completed| + 1
  {
    CompletionStep(w, n);
  }

  lemma CompletedUnchanged(w: World, n: Node, bytes: Bytes)
    requires Sized(w.prims) && !n.dead
    ensures NodeStep(w, n, Deliver(bytes)).completed == n.completed
  {
  }

  /** An enabled action does one unit of work; any other changes nothing. */
  lemma WorkDone(w: World, s: Sys, act: Action)
    requires HonestWorld(w) && Good(w, s)
    ensures if Enabled(s, act) then Work(SysStep(w, s, act)) == Work(s) + 1 else SysStep(w, s, act) == s
  {
    StepStaysGood(w, s, act);
    match act
    case DeliverToA =>
      if Deliverable(s.a, s.b) {
        Received(w, s.a, Deliver(w.wire.encode(s.b.msgs[|s.a.received|])));
        CompletedUnchanged(w, s.a, w.wire.encode(s.b.msgs[|s.a.received|]));
      }
    case DeliverToB =>
      if Deliverable(s.b, s.a) {
        Received(w, s.b, Deliver(w.wire.encode(s.a.msgs[|s.b.received|])));
        CompletedUnchanged(w, s.b, w.wire.encode(s.a.msgs[|s.b.received|]));
      }
    case CompleteA =>
      Received(w, s.a, Complete);
      if s.a.outstanding != [] { CompletedAfter(w, s.a); }
    case CompleteB =>
      Received(w, s.b, Complete);
      if s.b.outstanding != [] { CompletedAfter(w, s.b); }
    case ClockA => ClockIsIdle(w, s.a, s.b);
    case ClockB => ClockIsIdle(w, s.b, s.a);
  }

  lemma WorkBounded(w: World, s: Sys)
    requires Sized(w.prims) && Good(w, s)
    ensures Work(s) <= 14
  {
    LiveMsgs(w, s.a);
    LiveMsgs(w, s.b);
  }

  // ---------------------------------------------------------------- the lost status

  /** The action delivers to an endpoint that is waiting for its verification. */
  predicate Swallows(s: Sys, act: Action) {
    match act
    case DeliverToA => Deliverable(s.a, s.b) && s.a.state == Computing && |s.a.requests| == 3
    case DeliverToB => Deliverable(s.b, s.a) && s.b.state == Computing && |s.b.requests| == 3
    case _ => false
  }

  ghost predicate SwallowedIn(w: World, s: Sys, acts: seq<Action>)
    requires Sized(w.prims)
    decreases |acts|
  {
    acts != [] && (Swallows(s, acts[0]) || SwallowedIn(w, SysStep(w, s, acts[0]), acts[1..]))
  }

  /** All four messages received, and the last of them buffered. */
  predicate Lost(n: Node) {
    |n.received| == 4 && n.data.pending != []
  }

  lemma HeardState(w: World, n: Node, bytes: Bytes)
    requires Sized(w.prims) && !n.dead && |bytes| <= MAX_HANDSHAKE_MSG_SIZE
    ensures n.state == Computing ==> NodeStep(w, n, Deliver(bytes)).state == Computing
    ensures n.state == AwaitingStatus ==> NodeStep(w, n, Deliver(bytes)).state in {Authenticated, Failed(NetworkError.AuthenticationFailed), Poisoned}
  {
    DeliveryStep(w, n, bytes);
  }

  lemma LostByState(w: World, n: Node, peer: Node)
    requires Sized(w.prims) && Healthy(w, n, peer) && |n.received| == 4
    ensures Lost(n) <==> n.state != Authenticated
  {
  }

  lemma LostByHearing(w: World, n: Node, peer: Node)
    requires HonestWorld(w) && Healthy(w, n, peer) && Healthy(w, peer, n) && Deliverable(n, peer)
    ensures Lost(Hear(w, n, peer)) <==> n.state == Computing && |n.requests| == 3
  {
    var bytes := w.wire.encode(peer.msgs[|n.received|]);
    NothingUntimely(w, n, peer);
    ReceivedByState(w, n, peer);
    NextMessage(w, n, peer);
    Received(w, n, Deliver(bytes));
    if |n.received| == 3 {
      HearStaysHealthy(w, n, peer);
      LostByState(w, Hear(w, n, peer), peer);
      HeardState(w, n, bytes);
      FullState(w, Hear(w, n, peer), peer);
      ThreeReceived(w, n, peer);
    }
  }

  lemma FullState(w: World, n: Node, peer: Node)
    requires Sized(w.prims) && Healthy(w, n, peer) && |n.received| == 4
    ensures n.state in {Computing, AwaitingStatus, Authenticated}
  {
  }

  lemma ThreeReceived(w: World, n: Node, peer: Node)
    requires Sized(w.prims) && Healthy(w, n, peer) && |n.received| == 3
    ensures n.state == AwaitingStatus || (n.state == Computing && 2 <= |n.requests| <= 3)
  {
  }

  lemma FullAndBusy(w: World, n: Node, peer: Node)
    requires Sized(w.prims) && Healthy(w, n, peer) && |n.received| == 4 && n.outstanding != []
    ensures n.state == Computing && Verifying(w, n)
  {
  }

  lemma LostByCompleting(w: World, n: Node, peer: Node)
    requires HonestWorld(w) && Healthy(w, n, peer) && Healthy(w, peer, n)
    ensures Lost(NodeStep(w, n, Complete)) <==> Lost(n)
  {
    Received(w, n, Complete);
    if |n.received| == 4 && n.outstanding != [] {
      FullAndBusy(w, n, peer);
      VerifyCompletion(w, n, peer);
    }
  }

  lemma LostStep(w: World, s: Sys, act: Action)
    requires HonestWorld(w) && Good(w, s)
    ensures var s1 := SysStep(w, s, act);
            Lost(s1.a) || Lost(s1.b) <==> Lost(s.a) || Lost(s.b) || Swallows(s, act)
  {
    match act
    case DeliverToA =>
      if Deliverable(s.a, s.b) {
        LostByHearing(w, s.a, s.b);
        NothingUntimely(w, s.a, s.b);
      }
    case DeliverToB =>
      if Deliverable(s.b, s.a) {
        LostByHearing(w, s.b, s.a);
        NothingUntimely(w, s.b, s.a);
      }
    case CompleteA => LostByCompleting(w, s.a, s.b);
    case CompleteB => LostByCompleting(w, s.b, s.a);
    case ClockA => ClockIsIdle(w, s.a, s.b);
    case ClockB => ClockIsIdle(w, s.b, s.a);
  }

  lemma {:induction false} LostRun(w: World, s: Sys, acts: seq<Action>)
    requires HonestWorld(w) && Good(w, s)
    ensures var s1 := SysRun(w, s, acts);
            Lost(s1.a) || Lost(s1.b) <==> Lost(s.a) || Lost(s.b) || SwallowedIn(w, s, acts)
    decreases |acts|
  {
    if acts != [] {
      LostStep(w, s, acts[0]);
      StepStaysGood(w, s, acts[0]);
      LostRun(w, SysStep(w, s, acts[0]), acts[1..]);
    }
  }

  // ---------------------------------------------------------------- theorems

  /** Asynchronous crypto: no interleaving fails; every enabled action does one unit of work
      and any other action nothing; fourteen units bring the system to rest and nothing less
      does; and at rest both endpoints are authenticated if and only
      if no delivery reached an endpoint whose verification was outstanding. */
  lemma AsynchronousConvergence(w: World, u: Setup, acts: seq<Action>)
    requires HonestSetup(w, u)
    ensures var s := SysRun(w, Begin(w, u), acts);
            && !s.a.dead && !s.b.dead
            && (forall act :: if Enabled(s, act) then Work(SysStep(w, s, act)) == Work(s) + 1 else SysStep(w, s, act) == s)
            && Work(s) <= 14 && (Quiescent(s) <==> Work(s) == 14)
            && (Quiescent(s) ==>
                 (s.a.state == Authenticated && s.b.state == Authenticated
                  <==> !SwallowedIn(w, Begin(w, u), acts)))
  {
    BeginIsGood(w, u);
    RunStaysGood(w, Begin(w, u), acts);
    LostRun(w, Begin(w, u), acts);
    var s := SysRun(w, Begin(w, u), acts);
    WorkBounded(w, s);
    forall act ensures if Enabled(s, act) then Work(SysStep(w, s, act)) == Work(s) + 1 else SysStep(w, s, act) == s {
      WorkDone(w, s, act);
    }
    if Quiescent(s) {
      QuiescentIsFull(w, s);
    } else if Work(s) == 14 {
      FullIsQuiescent(w, s);
    }
  }

  lemma FullIsQuiescent(w: World, s: Sys)
    requires Sized(w.prims) && Good(w, s) && Work(s) == 14
    ensures Quiescent(s)
  {
    LiveMsgs(w, s.a);
    LiveMsgs(w, s.b);
  }
}
