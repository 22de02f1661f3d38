/** An initiator and a responder joined by two FIFO channels: what one sends, the other
    receives encoded, once, in order and at any later time. Crypto completes at any later
    time too. */
module TwoNodes {
  import opened Basics
  import opened VarInt
  import opened Messages
  import opened Machine
  import opened Provider
  import opened Node

  /** `a` is the initiator, `b` the responder. The channel towards a node holds the peer's
      messages from index `|received|` on. */
  datatype Sys = Sys(a: Node, b: Node)

  datatype Action = DeliverToA | DeliverToB | CompleteA | CompleteB | ClockA | ClockB

  predicate Deliverable(n: Node, peer: Node) {
    !n.dead && |n.received| < |peer.msgs|
  }

  /** The node takes the next message from its channel. */
  function Hear(w: World, n: Node, peer: Node): Node
    requires Sized(w.prims)
  {
    if Deliverable(n, peer) then NodeStep(w, n, Deliver(w.wire.encode(peer.msgs[|n.received|]))) else n
  }

  function SysStep(w: World, s: Sys, act: Action): Sys
    requires Sized(w.prims)
  {
    match act
    case DeliverToA => s.(a := Hear(w, s.a, s.b))
    case DeliverToB => s.(b := Hear(w, s.b, s.a))
    case CompleteA => s.(a := NodeStep(w, s.a, Complete))
    case CompleteB => s.(b := NodeStep(w, s.b, Complete))
    case ClockA => s.(a := NodeStep(w, s.a, Clock))
    case ClockB => s.(b := NodeStep(w, s.b, Clock))
  }

  function SysRun(w: World, s: Sys, acts: seq<Action>): Sys
    requires Sized(w.prims)
    decreases |acts|
  {
    if acts == [] then s else SysRun(w, SysStep(w, s, acts[0]), acts[1..])
  }

  /** Two configured endpoints, both just connected. */
  datatype Setup = Setup(ca: Config, cb: Config, na: nat, nb: nat)

  ghost predicate SetupFits(u: Setup) {
    ConfigFits(u.ca) && ConfigFits(u.cb) && !u.ca.isResponder && u.cb.isResponder
  }

  function Begin(w: World, u: Setup): Sys {
    Sys(Connected(w, u.ca, u.na), Connected(w, u.cb, u.nb))
  }

  // ---------------------------------------------------------------- the wire

  /** The messages an endpoint ever sends. */
  predicate Sendable(w: Codec, m: Message) {
    match m
    case CapabilitiesMsg(_) => m == OUR_CAPABILITIES
    case HandshakeMsg(h) =>
      |h.publicValue| <= 64 && (h.token.Some? ==> |h.token.value| <= MAX_AUTH_TOKEN_SIZE && w.isText(h.token.value))
    case ConfirmationMsg(v) => |v| <= MAX_CONFIRMATION_SIZE
    case StatusMsg(_) => true
  }

  /** A wire format that delivers what was sent: encodings are short and not empty, and
      each decodes to its message, under its own type key only. */
  ghost predicate Faithful(w: Codec) {
    && (forall m | Sendable(w, m) :: w.decode(w.encode(m)) == Got(m) && 0 < |w.encode(m)| <= 141)
    && (forall m, k: u16 | Sendable(w, m) ::
          w.decodeOnly(k, w.encode(m)) == if k == KeyOf(m) then Got(m) else Bad(InvalidMessageType))
  }
}

/** The wire format of the program is faithful. */
module WireFaithful {
  import opened Basics
  import opened VarInt
  import opened Messages
  import opened MessageTheorems
  import opened Machine
  import opened TwoNodes

  lemma SentMessage(m: Message)
    requires Sendable(WIRE, m)
    ensures WellTyped(m) && WithinLimits(m) && 0 < |Encode(m)| <= 141
  {
    if m.HandshakeMsg? {
      HandshakeLength(m.handshake);
      HandshakeParts(m.handshake);
    } else {
      ShortMessages(m);
    }
  }

  lemma SentDecodes(m: Message, k: u16)
    requires Sendable(WIRE, m)
    ensures Decode(Encode(m)) == Got(m)
    ensures DecodeOnly(k, Encode(m)) == if k == KeyOf(m) then Got(m) else Bad(InvalidMessageType)
  {
    SentMessage(m);
    MessageRoundTrip(m, []);
    KeySeparates(m, [], k);
    assert Encode(m) + [] == Encode(m);
  }

  lemma WireIsFaithful()
    ensures Faithful(WIRE)
  {
    forall m | Sendable(WIRE, m)
      ensures WIRE.decode(WIRE.encode(m)) == Got(m) && 0 < |WIRE.encode(m)| <= 141
    {
      SentMessage(m);
      SentDecodes(m, KeyOf(m));
    }
    forall m, k: u16 | Sendable(WIRE, m)
      ensures WIRE.decodeOnly(k, WIRE.encode(m)) == if k == KeyOf(m) then Got(m) else Bad(InvalidMessageType)
    {
      SentDecodes(m, k);
    }
  }
}
