/** What every run of one endpoint keeps, whatever the network delivers. */
module NodeInvariant {
  import opened Basics
  import opened Cbor
  import opened Messages
  import opened Machine
  import opened Provider
  import opened Node

  function StatusOf(isResponder: bool): PskStatus {
    if isResponder then PskInput else PskShown
  }

  function OwnHandshakeOf(d: Data): Handshake {
    OwnHandshake(d.config.authToken, StatusOf(d.config.isResponder), d.spake2Public)
  }

  function StartOp(c: Config): CryptoOp {
    Start(c.psk, c.isResponder)
  }

  function FinishOp(d: Data): CryptoOp {
    Finish(d.spake2Public, d.peerPublic, d.transcript,
           d.config.myFingerprint, d.config.peerFingerprint, d.config.isResponder)
  }

  function VerifyOp(d: Data): CryptoOp {
    Verify(d.context, d.peerConfirmation)
  }

  // ---------------------------------------------------------------- facts about the buffers

  /** Our public value is the provider's, and the stored handshake encodes it. */
  ghost predicate HasOwn(w: World, n: Node) {
    var d := n.data;
    && d.spake2Public == w.prims.public(d.config.psk, d.config.isResponder, n.nonce)
    && d.ourHandshake == w.wire.encode(HandshakeMsg(OwnHandshakeOf(d)))
    && (d.config.authToken != [] ==> w.wire.isText(d.config.authToken))
    && |n.completed| >= 1 && n.completed[0].1 == d.spake2Public
  }

  /** The stored peer handshake is the second thing received; it decodes, its token was
      accepted and its public value was kept. */
  ghost predicate HasPeer(w: World, n: Node) {
    && |n.received| >= 2
    && n.data.peerHandshake == n.received[1]
    && w.wire.decode(n.received[1]).Got?
    && w.wire.decode(n.received[1]).msg.HandshakeMsg?
    && (var h := w.wire.decode(n.received[1]).msg.handshake;
       TokenAccepted(w.wire, n.data.config, h.token) && n.data.peerPublic == h.publicValue)
  }

  /** Initiator handshake first, responder handshake second, on both sides. */
  ghost predicate HasTranscript(d: Data) {
    d.transcript == if d.config.isResponder then d.peerHandshake + d.ourHandshake
                    else d.ourHandshake + d.peerHandshake
  }

  ghost predicate HasKeys(w: World, n: Node)
    requires Sized(w.prims)
  {
    var d := n.data;
    var s := w.prims.secret(d.config.psk, d.config.isResponder, n.nonce, d.peerPublic);
    && s == Some(d.sharedSecret)
    && d.initiatorKey == InitiatorKey(w.prims, d.sharedSecret)
    && d.responderKey == ResponderKey(w.prims, d.sharedSecret)
    && d.myConfirmation == w.prims.hmac(OwnKey(d), d.transcript)
  }

  /** The confirmation under verification was received after the handshake. */
  ghost predicate HasConfirmation(w: World, n: Node) {
    && n.data.context == n.data.transcript + PeerKey(n.data)
    && exists k :: 2 <= k < |n.received| && w.wire.decode(n.received[k]) == Got(ConfirmationMsg(n.data.peerConfirmation))
  }

  ghost predicate Verified(w: World, n: Node) {
    && n.data.peerConfirmation == w.prims.hmac(PeerKey(n.data), n.data.transcript)
    && |n.completed| >= 3 && n.completed[2].1 == []
  }

  ghost predicate StatusReceived(w: World, n: Node, ok: bool) {
    exists k :: 3 <= k < |n.received| && w.wire.decodeOnly(STATUS_KEY, n.received[k]).Got?
                && w.wire.decodeOnly(STATUS_KEY, n.received[k]).msg.StatusMsg?
                && (w.wire.decodeOnly(STATUS_KEY, n.received[k]).msg.code == StatusOk) == ok
  }

  /** The race buffer is empty or holds the last thing received. */
  ghost predicate PendingIsLast(n: Node) {
    n.data.pending == [] || (|n.received| >= 3 && n.data.pending == n.received[|n.received| - 1])
  }

  // ---------------------------------------------------------------- the shape of a run

  function AllMsgs(d: Data): (s: seq<Message>)
    ensures |s| == 4
  {
    [OUR_CAPABILITIES, HandshakeMsg(OwnHandshakeOf(d)), ConfirmationMsg(d.myConfirmation), StatusMsg(StatusOk)]
  }

  function AllOps(d: Data): (s: seq<CryptoOp>)
    ensures |s| == 3
  {
    [StartOp(d.config), FinishOp(d), VerifyOp(d)]
  }

  /** `m` messages sent, `q` operations requested, `c` of them completed. */
  ghost predicate Progress(n: Node, m: nat, q: nat, c: nat)
    requires m <= 4 && q <= 3 && c <= q
  {
    && n.msgs == AllMsgs(n.data)[..m]
    && n.requests == AllOps(n.data)[..q]
    && n.outstanding == AllOps(n.data)[c..q]
    && |n.completed| == c
    && (forall i :: 0 <= i < c ==> n.completed[i].0 == AllOps(n.data)[i])
  }

  ghost predicate InSession(n: Node) {
    n.slot == Some(Session(n.data.config.psk, n.data.config.isResponder, n.nonce))
  }

  ghost predicate Finishing(w: World, n: Node) {
    && Progress(n, 2, 2, 1) && InSession(n)
    && HasOwn(w, n) && HasPeer(w, n) && HasTranscript(n.data) && PendingIsLast(n)
  }

  ghost predicate Keyed(w: World, n: Node)
    requires Sized(w.prims)
  {
    HasOwn(w, n) && HasPeer(w, n) && HasTranscript(n.data) && HasKeys(w, n)
  }

  ghost predicate Verifying(w: World, n: Node)
    requires Sized(w.prims)
  {
    Progress(n, 3, 3, 2) && Keyed(w, n) && HasConfirmation(w, n)
  }

  ghost predicate Confirmed(w: World, n: Node)
    requires Sized(w.prims)
  {
    Progress(n, 4, 3, 3) && Keyed(w, n) && HasConfirmation(w, n) && Verified(w, n)
  }

  ghost predicate Untouched(n: Node) {
    n.data == FreshData(n.data.config)
  }

  ghost predicate AtCapabilities(n: Node) {
    Progress(n, 1, 0, 0) && n.received == [] && Untouched(n)
  }

  ghost predicate AtInitiating(n: Node) {
    !n.data.config.isResponder && Progress(n, 1, 1, 0) && |n.received| == 1 && Untouched(n)
  }

  ghost predicate AtHandshakeResponder(n: Node) {
    n.data.config.isResponder && Progress(n, 1, 0, 0) && |n.received| == 1 && Untouched(n)
  }

  ghost predicate AtHandshakeInitiator(w: World, n: Node) {
    && !n.data.config.isResponder && Progress(n, 2, 1, 1) && |n.received| == 1 && n.data.pending == []
    && HasOwn(w, n) && InSession(n)
  }

  ghost predicate AtGenerating(w: World, n: Node) {
    && n.data.config.isResponder && Progress(n, 1, 1, 0) && |n.received| == 2 && n.data.pending == []
    && HasPeer(w, n)
  }

  ghost predicate AtConfirmation(w: World, n: Node)
    requires Sized(w.prims)
  {
    Progress(n, 3, 2, 2) && Keyed(w, n) && n.data.pending == []
  }

  /** Where a live endpoint stands, state by state. */
  ghost predicate Live(w: World, n: Node)
    requires Sized(w.prims)
  {
    match n.state
    case AwaitingCapabilities => AtCapabilities(n)
    case InitiatingHandshake => AtInitiating(n)
    case AwaitingHandshake => AtHandshakeResponder(n) || AtHandshakeInitiator(w, n)
    case GeneratingHandshake => AtGenerating(w, n)
    case Computing => Finishing(w, n) || Verifying(w, n)
    case AwaitingConfirmation => AtConfirmation(w, n)
    case AwaitingStatus => Confirmed(w, n)
    case Authenticated => Confirmed(w, n) && StatusReceived(w, n, true)
    case Failed(_) => Confirmed(w, n) && StatusReceived(w, n, false)
    case Idle => false
    case Poisoned => false
  }

  datatype MsgKind = CapsKind | HandshakeKind | ConfirmationKind | StatusKind

  datatype OpKind = StartKind | FinishKind | VerifyKind

  function KindOf(m: Message): MsgKind {
    match m
    case CapabilitiesMsg(_) => CapsKind
    case HandshakeMsg(_) => HandshakeKind
    case ConfirmationMsg(_) => ConfirmationKind
    case StatusMsg(_) => StatusKind
  }

  function OpKindOf(op: CryptoOp): OpKind {
    match op
    case Start(_, _) => StartKind
    case Finish(_, _, _, _, _, _) => FinishKind
    case Verify(_, _) => VerifyKind
  }

  const MSG_ORDER := [CapsKind, HandshakeKind, ConfirmationKind, StatusKind]

  const OP_ORDER := [StartKind, FinishKind, VerifyKind]

  /** Messages and requests in protocol order, completions in request order, and at most
      one operation outstanding. */
  ghost predicate InOrder(n: Node) {
    && |n.msgs| <= 4 && (forall i :: 0 <= i < |n.msgs| ==> KindOf(n.msgs[i]) == MSG_ORDER[i])
    && |n.requests| <= 3 && (forall i :: 0 <= i < |n.requests| ==> OpKindOf(n.requests[i]) == OP_ORDER[i])
    && |n.completed| + |n.outstanding| <= |n.requests|
    && (forall i :: 0 <= i < |n.completed| ==> n.completed[i].0 == n.requests[i])
    && |n.outstanding| <= 1
  }

  /** Own and peer handshake and the transcript built from them; the handshake sent is the
      one stored. */
  ghost predicate Built(w: World, n: Node) {
    && HasOwn(w, n) && HasPeer(w, n) && HasTranscript(n.data)
    && |n.msgs| >= 2 && n.msgs[1] == HandshakeMsg(OwnHandshakeOf(n.data))
  }

  /** What outlives the connection: the transcript of an endpoint that asked for the finish,
      the verification of one that sent its status. */
  ghost predicate Kept(w: World, n: Node)
    requires Sized(w.prims)
  {
    && (|n.requests| >= 2 ==> Built(w, n))
    && (|n.msgs| >= 4 ==> Confirmed(w, n))
  }

  /** The invariant: a live endpoint is where its state says; a dead one is not
      authenticated; both kept the order. */
  ghost predicate NodeInv(w: World, n: Node)
    requires Sized(w.prims)
  {
    && Fits(n.data)
    && InOrder(n)
    && Kept(w, n)
    && if n.dead then !n.state.Authenticated? else Live(w, n)
  }
}
