/** Two endpoints with one password and compatible tokens over a faithful wire: no step
    fails, whatever the interleaving of deliveries and crypto completions. */
module Honest {
  import opened Basics
  import opened Messages
  import opened Machine
  import opened Provider
  import opened Node
  import opened NodeInvariant
  import opened NodeProofs
  import opened NodeTheorems
  import opened TwoNodes
  import opened TwoNodesSafety

  /** One password, opposite roles, tokens that are text, and the responder's token, if it
      has one, is the initiator's. */
  ghost predicate Compatible(w: Codec, c: Config, p: Config) {
    && c.psk == p.psk && c.isResponder != p.isResponder
    && (c.authToken != [] ==> w.isText(c.authToken))
    && (p.authToken != [] ==> w.isText(p.authToken))
    && (c.isResponder && c.authToken != [] ==> p.authToken == c.authToken)
    && (p.isResponder && p.authToken != [] ==> c.authToken == p.authToken)
  }

  ghost predicate HonestWorld(w: World) {
    Sized(w.prims) && Agrees(w.prims) && Faithful(w.wire)
  }

  /** `k` messages received and none of them buffered, or one more and that one buffered. */
  predicate Waiting(n: Node, k: nat) {
    || (|n.received| == k && n.data.pending == [])
    || (|n.received| == k + 1 && n.data.pending == n.received[k] && n.data.pending != [])
  }

  /** How many messages a node has taken in, by state. */
  predicate Tally(n: Node) {
    match n.state
    case Computing => if |n.requests| == 2 then Waiting(n, 2) else Waiting(n, 3)
    case AwaitingConfirmation => |n.received| == 2
    case AwaitingStatus => Waiting(n, 3)
    case Authenticated => |n.received| == 4 && n.data.pending == []
    case Failed(_) => false
    case _ => true
  }

  /** A node that has met no failure so far. */
  ghost predicate Healthy(w: World, n: Node, peer: Node)
    requires Sized(w.prims)
  {
    && NodeInv(w, n) && !n.dead && Tally(n) && Fifo(w, n, peer)
    && Compatible(w.wire, n.data.config, peer.data.config)
  }

  // ---------------------------------------------------------------- what a healthy node sent

  /** Messages sent are a prefix of the full protocol over the present data. */
  lemma LiveMsgs(w: World, n: Node)
    requires Sized(w.prims) && NodeInv(w, n) && !n.dead
    ensures 1 <= |n.msgs| <= 4 && n.msgs == AllMsgs(n.data)[..|n.msgs|]
    ensures |n.msgs| >= 2 ==> HasOwn(w, n)
    ensures |n.msgs| >= 3 ==> Keyed(w, n)
  {
  }

  lemma LiveMsg(w: World, n: Node, k: nat)
    requires Sized(w.prims) && NodeInv(w, n) && !n.dead && k < |n.msgs|
    ensures k < 4 && n.msgs[k] == AllMsgs(n.data)[k]
    ensures k >= 1 ==> HasOwn(w, n)
    ensures k >= 2 ==> Keyed(w, n)
  {
    LiveMsgs(w, n);
  }

  lemma LiveSendable(w: World, n: Node, k: nat)
    requires Sized(w.prims) && NodeInv(w, n) && !n.dead && k < |n.msgs|
    ensures Sendable(w.wire, n.msgs[k])
  {
    LiveMsg(w, n, k);
    if k == 2 {
      ConfirmationSendable(w, n);
    }
  }

  /** To send its second message a responder must have taken in two; and so on. */
  lemma SentMeansReceived(w: World, n: Node)
    requires Sized(w.prims) && NodeInv(w, n) && !n.dead && Tally(n)
    ensures |n.msgs| >= 2 ==> |n.received| >= if n.data.config.isResponder then 2 else 1
    ensures |n.msgs| >= 3 ==> |n.received| >= 2
    ensures |n.msgs| >= 4 ==> |n.received| >= 3
  {
  }

  lemma ReceivedMeansSent(w: World, n: Node)
    requires Sized(w.prims) && NodeInv(w, n) && !n.dead && Tally(n)
    ensures n.state == InitiatingHandshake ==> |n.msgs| == 1 && |n.received| == 1 && !n.data.config.isResponder
    ensures n.state == GeneratingHandshake ==> |n.msgs| == 1 && |n.received| == 2 && n.data.config.isResponder
    ensures n.state == Computing && |n.requests| == 2 ==> |n.msgs| == 2
  {
  }

  /** Nothing arrives at a node that cannot take it. */
  lemma NothingUntimely(w: World, n: Node, peer: Node)
    requires Sized(w.prims) && Healthy(w, n, peer) && Healthy(w, peer, n) && Deliverable(n, peer)
    ensures n.state != InitiatingHandshake && n.state != GeneratingHandshake
    ensures n.state == Computing && |n.requests| == 2 ==> |n.received| == 2
    ensures |n.received| < 4
  {
    SentMeansReceived(w, peer);
    ReceivedMeansSent(w, n);
    LiveMsgs(w, peer);
  }

  // ---------------------------------------------------------------- agreement

  /** The public value a node stored is its peer's. */
  lemma PublicCrosses(w: World, n: Node, peer: Node)
    requires HonestWorld(w) && Healthy(w, n, peer) && NodeInv(w, peer) && !peer.dead && HasPeer(w, n)
    ensures var p := peer.data.config;
            n.data.peerPublic == w.prims.public(p.psk, p.isResponder, peer.nonce)
  {
    LiveMsg(w, peer, 1);
    LiveSendable(w, peer, 1);
  }

  lemma SecretExists(w: World, n: Node, peer: Node)
    requires HonestWorld(w) && Healthy(w, n, peer) && NodeInv(w, peer) && !peer.dead && HasPeer(w, n)
    ensures var c := n.data.config;
            w.prims.secret(c.psk, c.isResponder, n.nonce, n.data.peerPublic).Some?
  {
    PublicCrosses(w, n, peer);
    var c := n.data.config;
    var x, y := w.prims.public(c.psk, c.isResponder, n.nonce), w.prims.public(c.psk, !c.isResponder, peer.nonce);
  }

  lemma SecretsAgree(w: World, n: Node, peer: Node)
    requires HonestWorld(w) && Healthy(w, n, peer) && Healthy(w, peer, n)
    requires Keyed(w, n) && Keyed(w, peer)
    ensures n.data.sharedSecret == peer.data.sharedSecret
    ensures PeerKey(n.data) == OwnKey(peer.data)
  {
    PublicCrosses(w, n, peer);
    PublicCrosses(w, peer, n);
    var c := n.data.config;
    var x, y := w.prims.public(c.psk, c.isResponder, n.nonce), w.prims.public(c.psk, !c.isResponder, peer.nonce);
  }

  /** The confirmation a node is verifying is the one it expects. */
  lemma ConfirmationMatches(w: World, n: Node, peer: Node)
    requires HonestWorld(w) && Healthy(w, n, peer) && Healthy(w, peer, n)
    requires Keyed(w, n) && HasConfirmation(w, n) && Built(w, n)
    ensures n.data.peerConfirmation == w.prims.hmac(PeerKey(n.data), n.data.transcript)
  {
    LiveMsgs(w, peer);
    assert |peer.msgs| >= 3;
    LiveMsg(w, peer, 1);
    ConfirmationCrosses(w, n, peer);
    PeerSaw(w, n, peer);
    PeerSaw(w, peer, n);
    SecretsAgree(w, n, peer);
  }
}
