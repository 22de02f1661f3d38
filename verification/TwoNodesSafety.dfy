/** What holds in every reachable state of the two-endpoint system, for arbitrary
    configurations and with fully asynchronous crypto. */
module TwoNodesSafety {
  import opened Basics
  import opened Messages
  import opened Machine
  import opened Provider
  import opened Node
  import opened NodeInvariant
  import opened NodeProofs
  import opened NodeTheorems
  import opened TwoNodes

  /** What a node received is what its peer sent, encoded, in order. */
  ghost predicate Fifo(w: World, n: Node, peer: Node) {
    && |n.received| <= |peer.msgs|
    && forall i :: 0 <= i < |n.received| ==> n.received[i] == w.wire.encode(peer.msgs[i])
  }

  ghost predicate SysInv(w: World, s: Sys)
    requires Sized(w.prims)
  {
    && NodeInv(w, s.a) && NodeInv(w, s.b)
    && Fifo(w, s.a, s.b) && Fifo(w, s.b, s.a)
    && !s.a.data.config.isResponder && s.b.data.config.isResponder
  }

  lemma Received(w: World, n: Node, e: Event)
    requires Sized(w.prims)
    ensures NodeStep(w, n, e).received == if e.Deliver? && !n.dead then n.received + [e.bytes] else n.received
  {
  }

  /** A step of one node keeps both channels FIFO. */
  lemma SideStep(w: World, n: Node, peer: Node, e: Event)
    requires Sized(w.prims) && NodeInv(w, n) && Fifo(w, n, peer) && Fifo(w, peer, n)
    requires e.Deliver? ==> Deliverable(n, peer) && e.bytes == w.wire.encode(peer.msgs[|n.received|])
    ensures var n1 := NodeStep(w, n, e);
            NodeInv(w, n1) && Fifo(w, n1, peer) && Fifo(w, peer, n1) && Extends(n, n1)
  {
    StepHolds(w, n, e);
    StepExtends(w, n, e);
    Received(w, n, e);
    var n1 := NodeStep(w, n, e);
    FifoExtends(w, n, n1, peer, e);
  }

  lemma FifoExtends(w: World, n: Node, n1: Node, peer: Node, e: Event)
    requires Fifo(w, n, peer) && Fifo(w, peer, n) && n.msgs <= n1.msgs
    requires e.Deliver? ==> Deliverable(n, peer) && e.bytes == w.wire.encode(peer.msgs[|n.received|])
    requires n1.received == if e.Deliver? && !n.dead then n.received + [e.bytes] else n.received
    ensures Fifo(w, n1, peer) && Fifo(w, peer, n1)
  {
  }

  lemma SysStepHolds(w: World, s: Sys, act: Action)
    requires Sized(w.prims) && SysInv(w, s)
    ensures SysInv(w, SysStep(w, s, act))
  {
    match act
    case DeliverToA =>
      if Deliverable(s.a, s.b) {
        SideStep(w, s.a, s.b, Deliver(w.wire.encode(s.b.msgs[|s.a.received|])));
      }
    case DeliverToB =>
      if Deliverable(s.b, s.a) {
        SideStep(w, s.b, s.a, Deliver(w.wire.encode(s.a.msgs[|s.b.received|])));
      }
    case CompleteA => SideStep(w, s.a, s.b, Complete);
    case CompleteB => SideStep(w, s.b, s.a, Complete);
    case ClockA => SideStep(w, s.a, s.b, Clock);
    case ClockB => SideStep(w, s.b, s.a, Clock);
  }

  lemma BeginHolds(w: World, u: Setup)
    requires Sized(w.prims) && SetupFits(u)
    ensures SysInv(w, Begin(w, u))
  {
    ConnectedHolds(w, u.ca, u.na);
    ConnectedHolds(w, u.cb, u.nb);
    ConnectedIsLive(w, u.ca, u.na);
    ConnectedIsLive(w, u.cb, u.nb);
  }

  lemma {:induction false} SysRunHolds(w: World, s: Sys, acts: seq<Action>)
    requires Sized(w.prims) && SysInv(w, s)
    ensures SysInv(w, SysRun(w, s, acts))
    decreases |acts|
  {
    if acts != [] {
      SysStepHolds(w, s, acts[0]);
      SysRunHolds(w, SysStep(w, s, acts[0]), acts[1..]);
    }
  }

  // ---------------------------------------------------------------- transcript agreement

  lemma PeerSaw(w: World, n: Node, peer: Node)
    requires Sized(w.prims) && Fifo(w, n, peer) && Built(w, n) && Built(w, peer)
    ensures n.data.peerHandshake == peer.data.ourHandshake
  {
  }

  /** Whenever both endpoints have built a transcript the two are the same bytes: the
      initiator's handshake followed by the responder's, each as sent, although each side
      appends in its own order and encodes its stored and its transmitted copy apart. This
      holds even after an endpoint failed. */
  lemma TranscriptAgreement(w: World, u: Setup, acts: seq<Action>)
    requires Sized(w.prims) && SetupFits(u)
    ensures var s := SysRun(w, Begin(w, u), acts);
            |s.a.requests| >= 2 && |s.b.requests| >= 2 ==>
              && |s.a.msgs| >= 2 && |s.b.msgs| >= 2
              && s.a.msgs[1].HandshakeMsg? && s.b.msgs[1].HandshakeMsg?
              && s.a.data.transcript == s.b.data.transcript == w.wire.encode(s.a.msgs[1]) + w.wire.encode(s.b.msgs[1])
  {
    BeginHolds(w, u);
    SysRunHolds(w, Begin(w, u), acts);
    var s := SysRun(w, Begin(w, u), acts);
    if |s.a.requests| >= 2 && |s.b.requests| >= 2 {
      PeerSaw(w, s.a, s.b);
      PeerSaw(w, s.b, s.a);
    }
  }

  // ---------------------------------------------------------------- no early authentication

  lemma ConfirmationSendable(w: World, n: Node)
    requires Sized(w.prims) && HasKeys(w, n)
    ensures Sendable(w.wire, ConfirmationMsg(n.data.myConfirmation))
  {
  }

  /** The confirmation a node verified is the one its peer sent. */
  lemma ConfirmationCrosses(w: World, n: Node, peer: Node)
    requires Sized(w.prims) && Faithful(w.wire) && Fifo(w, n, peer)
    requires HasConfirmation(w, n) && HasKeys(w, peer) && 3 <= |peer.msgs| <= 4 && peer.msgs == AllMsgs(peer.data)[..|peer.msgs|]
    ensures n.data.peerConfirmation == peer.data.myConfirmation
  {
    var k :| 2 <= k < |n.received| && w.wire.decode(n.received[k]) == Got(ConfirmationMsg(n.data.peerConfirmation));
    ConfirmationSendable(w, peer);
    assert peer.msgs[k] == if k == 2 then ConfirmationMsg(peer.data.myConfirmation) else StatusMsg(StatusOk);
    assert Sendable(w.wire, peer.msgs[k]);
  }

  /** A node that is authenticated verified its peer's confirmation, and so did the peer. */
  lemma AuthenticatedPair(w: World, n: Node, peer: Node)
    requires Sized(w.prims) && NodeInv(w, n) && NodeInv(w, peer) && Fifo(w, n, peer) && n.state == Authenticated
    ensures Confirmed(w, n) && Confirmed(w, peer)
  {
  }

  /** Verified and finished: the verify operation completed without error, on the
      confirmation the peer sent and over the peer's transcript. */
  ghost predicate VerifiedPeer(w: World, n: Node, peer: Node) {
    && |n.completed| == 3 && n.completed[2] == (VerifyOp(n.data), [])
    && n.data.context == n.data.transcript + PeerKey(n.data)
    && n.data.peerConfirmation == peer.data.myConfirmation
    && peer.data.myConfirmation == w.prims.hmac(OwnKey(peer.data), peer.data.transcript)
    && w.prims.hmac(PeerKey(n.data), n.data.transcript) == w.prims.hmac(OwnKey(peer.data), n.data.transcript)
  }

  lemma PairVerified(w: World, n: Node, peer: Node)
    requires Sized(w.prims) && Faithful(w.wire) && Fifo(w, n, peer)
    requires Confirmed(w, n) && Confirmed(w, peer) && n.data.transcript == peer.data.transcript
    ensures VerifiedPeer(w, n, peer)
  {
    ConfirmationCrosses(w, n, peer);
    assert n.completed[2].0 == AllOps(n.data)[2];
  }

  /** No early authentication: with any configurations and any interleaving of deliveries
      and crypto completions, once either endpoint is authenticated both have completed a
      successful verification of the other's confirmation, over one transcript, so the keys
      they derived give the same MAC of it in both directions. */
  lemma NoEarlyAuthentication(w: World, u: Setup, acts: seq<Action>)
    requires Sized(w.prims) && SetupFits(u) && Faithful(w.wire)
    ensures var s := SysRun(w, Begin(w, u), acts);
            s.a.state == Authenticated || s.b.state == Authenticated ==>
              && VerifiedPeer(w, s.a, s.b) && VerifiedPeer(w, s.b, s.a)
              && s.a.data.transcript == s.b.data.transcript
  {
    BeginHolds(w, u);
    SysRunHolds(w, Begin(w, u), acts);
    var s := SysRun(w, Begin(w, u), acts);
    if s.a.state == Authenticated || s.b.state == Authenticated {
      if s.a.state == Authenticated {
        AuthenticatedPair(w, s.a, s.b);
      } else {
        AuthenticatedPair(w, s.b, s.a);
      }
      TranscriptAgreement(w, u, acts);
      PairVerified(w, s.a, s.b);
      PairVerified(w, s.b, s.a);
    }
  }
}
