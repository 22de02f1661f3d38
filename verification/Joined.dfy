/** A client and a server joined: each is run by its own driver over the streams that arrive,
    and what arrives is what the other transmits. */
module Joined {
  import opened Basics
  import opened Messages
  import opened Machine
  import opened Provider
  import opened Node
  import opened NodeInvariant
  import opened NodeProofs
  import opened NodeTheorems
  import opened TwoNodes
  import opened Honest
  import opened Convergence
  import opened Drained
  import opened Drivers

  /** The byte strings among the arrivals. */
  function Streams(arrivals: seq<Arrival>): seq<Bytes> {
    if arrivals == [] then []
    else (if arrivals[0].Stream? then [arrivals[0].bytes] else []) + Streams(arrivals[1..])
  }

  lemma {:induction false} EncodeAllAt(encode: Message -> Bytes, msgs: seq<Message>)
    ensures |EncodeAll(encode, msgs)| == |msgs|
    ensures forall i :: 0 <= i < |msgs| ==> EncodeAll(encode, msgs)[i] == encode(msgs[i])
  {
    if msgs != [] {
      EncodeAllAt(encode, msgs[..|msgs| - 1]);
    }
  }

  // ---------------------------------------------------------------- one endpoint

  lemma ArrivalExtends(w: World, skipEmpty: bool, n: Node, arrival: Arrival)
    requires Sized(w.prims)
    ensures n.msgs <= AfterArrival(w, skipEmpty, n, arrival).msgs
  {
    if arrival.Stream? {
      var n1 := NodeStep(w, n, Deliver(arrival.bytes));
      StepExtends(w, n, Deliver(arrival.bytes));
      StepExtends(w, n1, Complete);
      StepExtends(w, NodeStep(w, n1, Complete), Complete);
    }
  }

  lemma {:induction false} DrivenExtends(w: World, skipEmpty: bool, n: Node, arrivals: seq<Arrival>)
    requires Sized(w.prims)
    ensures n.msgs <= Driven(Taking(w, skipEmpty), n, arrivals).msgs
    decreases |arrivals|
  {
    if arrivals != [] && !Stopped(n) {
      ArrivalExtends(w, skipEmpty, n, arrivals[0]);
      DrivenExtends(w, skipEmpty, AfterArrival(w, skipEmpty, n, arrivals[0]), arrivals[1..]);
    }
  }

  /** What is still to arrive is what the peer will have sent, from index `from` on. */
  ghost predicate Continues(encode: Message -> Bytes, from: nat, streams: seq<Bytes>, peerMsgs: seq<Message>) {
    && (streams != [] ==> from + |streams| <= |peerMsgs|)
    && forall i :: from <= i < from + |streams| ==> streams[i - from] == encode(peerMsgs[i])
  }

  lemma ContinuesNext(encode: Message -> Bytes, from: nat, bytes: Bytes, rest: seq<Bytes>, peerMsgs: seq<Message>)
    requires Continues(encode, from, [bytes] + rest, peerMsgs)
    ensures Continues(encode, from + 1, rest, peerMsgs)
    ensures from < |peerMsgs| && bytes == encode(peerMsgs[from])
  {
    var streams := [bytes] + rest;
    assert streams[0] == bytes;
    forall i | from + 1 <= i < from + 1 + |rest| ensures rest[i - (from + 1)] == encode(peerMsgs[i]) {
      assert streams[i - from] == rest[i - (from + 1)];
    }
  }

  /** All of the streams are a prefix of what the peer transmitted. */
  lemma PrefixContinues(encode: Message -> Bytes, streams: seq<Bytes>, peerMsgs: seq<Message>)
    requires streams <= EncodeAll(encode, peerMsgs)
    ensures Continues(encode, 0, streams, peerMsgs)
  {
    EncodeAllAt(encode, peerMsgs);
  }

  lemma StreamsHead(arrivals: seq<Arrival>)
    requires arrivals != []
    ensures Streams(arrivals) == if arrivals[0].Stream? then [arrivals[0].bytes] + Streams(arrivals[1..]) else Streams(arrivals[1..])
  {
    assert [] + Streams(arrivals[1..]) == Streams(arrivals[1..]);
  }

  // ---------------------------------------------------------------- both

  /** A driver takes the next of its arrivals. */
  lemma DriverTakes(w: World, skipEmpty: bool, n: Node, peer: Node, arrivals: seq<Arrival>, peerMsgs: seq<Message>)
    requires HonestWorld(w) && Healthy(w, n, peer) && Healthy(w, peer, n) && n.outstanding == [] && Deliverable(n, peer)
    requires arrivals != [] && arrivals[0].Stream? && !Stopped(n) && peer.msgs <= peerMsgs
    requires Continues(w.wire.encode, |n.received|, Streams(arrivals), peerMsgs)
    ensures var n1 := Exchange(w, n, peer);
            && Driven(Taking(w, skipEmpty), n1, arrivals[1..]) == Driven(Taking(w, skipEmpty), n, arrivals)
            && Continues(w.wire.encode, |n1.received|, Streams(arrivals[1..]), peerMsgs)
            && |n1.received| == |n.received| + 1
  {
    StreamsHead(arrivals);
    ContinuesNext(w.wire.encode, |n.received|, arrivals[0].bytes, Streams(arrivals[1..]), peerMsgs);
    ArrivalIsExchange(w, skipEmpty, n, peer);
    ExchangeStays(w, n, peer);
  }

  /** A driver lets its timer pass. */
  lemma DriverWaits(w: World, skipEmpty: bool, n: Node, arrivals: seq<Arrival>)
    requires Sized(w.prims) && arrivals != [] && arrivals[0].Timer?
    ensures Driven(Taking(w, skipEmpty), n, arrivals[1..]) == Driven(Taking(w, skipEmpty), n, arrivals)
    ensures Streams(arrivals[1..]) == Streams(arrivals)
  {
    StreamsHead(arrivals);
    if Stopped(n) {
    } else {
      assert Taking(w, skipEmpty)(n, arrivals[0]) == n;
    }
  }

  /** A client at `s.a` and a server at `s.b`, with the arrivals still to come, and where
      their drivers end up. */
  ghost predicate Joins(w: World, s: Sys, toA: seq<Arrival>, toB: seq<Arrival>, a: Node, b: Node)
    requires Sized(w.prims)
  {
    && Calm(w, s)
    && a == Driven(Taking(w, false), s.a, toA) && b == Driven(Taking(w, true), s.b, toB)
    && Continues(w.wire.encode, |s.a.received|, Streams(toA), b.msgs)
    && Continues(w.wire.encode, |s.b.received|, Streams(toB), a.msgs)
  }

  lemma ClientTurn(w: World, s: Sys, toA: seq<Arrival>, toB: seq<Arrival>, a: Node, b: Node)
    requires HonestWorld(w) && Joins(w, s, toA, toB, a, b)
    requires toA != [] && toA[0].Stream? && !Stopped(s.a) && Deliverable(s.a, s.b)
    ensures Joins(w, DrainedStep(w, s, ToA), toA[1..], toB, a, b)
    ensures |DrainedStep(w, s, ToA).a.received| == |s.a.received| + 1 && DrainedStep(w, s, ToA).b == s.b
    ensures |Streams(toA)| == |Streams(toA[1..])| + 1
  {
    DrivenExtends(w, true, s.b, toB);
    DriverTakes(w, false, s.a, s.b, toA, b.msgs);
    StreamsHead(toA);
    DrainedStepStays(w, s, ToA);
  }

  lemma ServerTurn(w: World, s: Sys, toA: seq<Arrival>, toB: seq<Arrival>, a: Node, b: Node)
    requires HonestWorld(w) && Joins(w, s, toA, toB, a, b)
    requires toB != [] && toB[0].Stream? && !Stopped(s.b) && Deliverable(s.b, s.a)
    ensures Joins(w, DrainedStep(w, s, ToB), toA, toB[1..], a, b)
    ensures |DrainedStep(w, s, ToB).b.received| == |s.b.received| + 1 && DrainedStep(w, s, ToB).a == s.a
    ensures |Streams(toB)| == |Streams(toB[1..])| + 1
  {
    DrivenExtends(w, false, s.a, toA);
    DriverTakes(w, true, s.b, s.a, toB, a.msgs);
    StreamsHead(toB);
    DrainedStepStays(w, s, ToB);
  }

  /** Nothing more to take, or stopped. */
  predicate Rests(n: Node, arrivals: seq<Arrival>) {
    arrivals == [] || Stopped(n)
  }

  /** A driver waits for a stream that has not been sent yet. */
  predicate Starved(n: Node, peer: Node, arrivals: seq<Arrival>) {
    !Rests(n, arrivals) && arrivals[0].Stream? && !Deliverable(n, peer)
  }

  lemma StarvedNeedsMore(w: World, n: Node, peer: Node, arrivals: seq<Arrival>, peerMsgs: seq<Message>)
    requires Starved(n, peer, arrivals) && Continues(w.wire.encode, |n.received|, Streams(arrivals), peerMsgs)
    ensures |peer.msgs| <= |n.received| < |peerMsgs|
  {
    StreamsHead(arrivals);
    ContinuesNext(w.wire.encode, |n.received|, arrivals[0].bytes, Streams(arrivals[1..]), peerMsgs);
  }

  lemma AtRest(w: World, skipEmpty: bool, n: Node, arrivals: seq<Arrival>)
    requires Sized(w.prims) && Rests(n, arrivals)
    ensures Driven(Taking(w, skipEmpty), n, arrivals) == n
  {
  }

  /** The two drivers never wait for each other. */
  lemma NoStarvation(w: World, s: Sys, toA: seq<Arrival>, toB: seq<Arrival>, a: Node, b: Node)
    requires HonestWorld(w) && Joins(w, s, toA, toB, a, b)
    requires Rests(s.a, toA) || Starved(s.a, s.b, toA)
    requires Rests(s.b, toB) || Starved(s.b, s.a, toB)
    ensures Rests(s.a, toA) && Rests(s.b, toB)
  {
    if Rests(s.a, toA) { AtRest(w, false, s.a, toA); } else { StarvedNeedsMore(w, s.a, s.b, toA, b.msgs); }
    if Rests(s.b, toB) { AtRest(w, true, s.b, toB); } else { StarvedNeedsMore(w, s.b, s.a, toB, a.msgs); }
    if Starved(s.a, s.b, toA) && Starved(s.b, s.a, toB) {
      QuiescentIsFull(w, s);
    }
  }

  /** How many streams a driver has taken: all of them, unless it stopped. */
  predicate Counted(n: Node, before: Node, arrivals: seq<Arrival>) {
    && |n.received| <= |before.received| + |Streams(arrivals)|
    && (Stopped(n) || |n.received| == |before.received| + |Streams(arrivals)|)
  }

  /** Two drivers whose arrivals are what the other transmits do what the drained system does
      in some order of deliveries. */
  lemma {:induction false} DriversJoin(w: World, s: Sys, toA: seq<Arrival>, toB: seq<Arrival>, a: Node, b: Node)
    returns (turns: seq<Turn>)
    requires HonestWorld(w) && Joins(w, s, toA, toB, a, b)
    ensures DrainedRun(w, s, turns) == Sys(a, b)
    ensures Counted(a, s.a, toA) && Counted(b, s.b, toB)
    decreases |toA| + |toB|, 0
  {
    if toA != [] && toA[0].Timer? {
      DriverWaits(w, false, s.a, toA);
      turns := DriversJoin(w, s, toA[1..], toB, a, b);
    } else if toB != [] && toB[0].Timer? {
      DriverWaits(w, true, s.b, toB);
      turns := DriversJoin(w, s, toA, toB[1..], a, b);
    } else if !Rests(s.a, toA) && Deliverable(s.a, s.b) {
      ClientTurn(w, s, toA, toB, a, b);
      turns := FirstTurn(w, s, ToA, toA[1..], toB, a, b);
    } else if !Rests(s.b, toB) && Deliverable(s.b, s.a) {
      ServerTurn(w, s, toA, toB, a, b);
      turns := FirstTurn(w, s, ToB, toA, toB[1..], a, b);
    } else {
      NoStarvation(w, s, toA, toB, a, b);
      AtRest(w, false, s.a, toA);
      AtRest(w, true, s.b, toB);
      turns := [];
    }
  }

  lemma FirstTurn(w: World, s: Sys, t: Turn, toA: seq<Arrival>, toB: seq<Arrival>, a: Node, b: Node) returns (turns: seq<Turn>)
    requires HonestWorld(w) && Joins(w, DrainedStep(w, s, t), toA, toB, a, b)
    ensures DrainedRun(w, s, turns) == Sys(a, b)
    ensures Counted(a, DrainedStep(w, s, t).a, toA) && Counted(b, DrainedStep(w, s, t).b, toB)
    decreases |toA| + |toB|, 1
  {
    var rest := DriversJoin(w, DrainedStep(w, s, t), toA, toB, a, b);
    turns := [t] + rest;
    assert turns[1..] == rest;
  }

  // ---------------------------------------------------------------- convergence

  lemma StoppedIsFull(w: World, n: Node)
    requires Sized(w.prims) && NodeInv(w, n) && Tally(n) && !n.dead && Stopped(n)
    ensures |n.received| == 4
  {
  }

  /** Whoever has taken all that the other sent can take no more. */
  lemma NothingLeft(w: World, n: Node, before: Node, arrivals: seq<Arrival>, peer: Node)
    requires Sized(w.prims) && NodeInv(w, n) && Tally(n) && !n.dead && |peer.msgs| <= 4
    requires Counted(n, before, arrivals) && before.received == [] && |Streams(arrivals)| == |peer.msgs|
    ensures !Deliverable(n, peer)
  {
    if Stopped(n) {
      StoppedIsFull(w, n);
    }
  }

  /** An honest client and server, each run by its own driver, whose arrivals are what the
      other transmitted, in order, with timers anywhere between: neither run ends in an
      error, together they are a run of the drained system, and both end authenticated if
      and only if each took all that the other transmitted. */
  lemma DriversConverge(w: World, u: Setup, toA: seq<Arrival>, toB: seq<Arrival>, a: Node, b: Node) returns (turns: seq<Turn>)
    requires HonestSetup(w, u)
    requires a == Driven(Taking(w, false), Connected(w, u.ca, u.na), toA)
    requires b == Driven(Taking(w, true), Connected(w, u.cb, u.nb), toB)
    requires Streams(toA) <= EncodeAll(w.wire.encode, b.msgs) && Streams(toB) <= EncodeAll(w.wire.encode, a.msgs)
    ensures DrainedRun(w, Begin(w, u), turns) == Sys(a, b)
    ensures !a.dead && !b.dead
    ensures a.state == Authenticated && b.state == Authenticated
       <==> Streams(toA) == EncodeAll(w.wire.encode, b.msgs) && Streams(toB) == EncodeAll(w.wire.encode, a.msgs)
  {
    var s := Begin(w, u);
    BeginIsGood(w, u);
    PrefixContinues(w.wire.encode, Streams(toA), b.msgs);
    PrefixContinues(w.wire.encode, Streams(toB), a.msgs);
    turns := DriversJoin(w, s, toA, toB, a, b);
    DrainedRunStays(w, s, turns);
    EncodeAllAt(w.wire.encode, a.msgs);
    EncodeAllAt(w.wire.encode, b.msgs);
    LiveMsgs(w, a);
    LiveMsgs(w, b);
    if Streams(toA) == EncodeAll(w.wire.encode, b.msgs) && Streams(toB) == EncodeAll(w.wire.encode, a.msgs) {
      NothingLeft(w, a, s.a, toA, b);
      NothingLeft(w, b, s.b, toB, a);
      QuiescentIsFull(w, Sys(a, b));
    } else if Stopped(a) && Stopped(b) {
      StoppedIsFull(w, a);
      StoppedIsFull(w, b);
    }
  }
}
