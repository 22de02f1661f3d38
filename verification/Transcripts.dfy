/** What a transcript says of the two handshakes when the network is arbitrary. One half of a
    machine's transcript is the bytes it received, and the decoders ignore what follows a
    message. */
module Transcripts {
  import opened Basics
  import opened VarInt
  import opened Cbor
  import opened Messages
  import opened MessageTheorems
  import opened Machine
  import opened Provider
  import opened Node
  import opened NodeInvariant
  import opened NodeProofs
  import opened NodeTheorems

  lemma ShortHandshake(h: Handshake)
    requires h.token.None? && |h.publicValue| <= 64
    ensures |Encode(HandshakeMsg(h))| <= 128
  {
    HandshakeParts(h);
    FieldLengths(h);
  }

  lemma Rebracketed(a: Bytes, x: Bytes, b: Bytes)
    ensures a + (x + b) == (a + x) + b
  {
  }

  /** A transcript does not determine the handshakes. An initiator that sent `a` and received
      the encoding of `x` with that of `b` after it, and a responder that received the
      encoding of `a` with that of `x` after it and sent `b`, have one transcript; both
      accept what they received, and the initiator takes `x` for its peer's handshake.
      Without tokens both fit their buffers. */
  lemma TranscriptAmbiguous(a: Handshake, x: Handshake, b: Handshake)
    requires WellTyped(HandshakeMsg(a)) && WellTyped(HandshakeMsg(x)) && WellTyped(HandshakeMsg(b))
    requires WithinLimits(HandshakeMsg(a)) && WithinLimits(HandshakeMsg(x))
    ensures var (ea, ex, eb) := (Encode(HandshakeMsg(a)), Encode(HandshakeMsg(x)), Encode(HandshakeMsg(b)));
            && ea + (ex + eb) == (ea + ex) + eb
            && Decode(ex + eb) == Got(HandshakeMsg(x)) && Decode(ea + ex) == Got(HandshakeMsg(a))
            && ((forall h :: h in {a, x, b} ==> h.token.None? && |h.publicValue| <= 64) ==>
                 |ex + eb| <= MAX_HANDSHAKE_MSG_SIZE && |ea + ex| <= MAX_HANDSHAKE_MSG_SIZE)
  {
    if forall h :: h in {a, x, b} ==> h.token.None? && |h.publicValue| <= 64 {
      ShortHandshake(a);
      ShortHandshake(x);
      ShortHandshake(b);
    }
    MessageRoundTrip(HandshakeMsg(x), Encode(HandshakeMsg(b)));
    MessageRoundTrip(HandshakeMsg(a), Encode(HandshakeMsg(x)));
    Rebracketed(Encode(HandshakeMsg(a)), Encode(HandshakeMsg(x)), Encode(HandshakeMsg(b)));
  }

  /** The bytes are the encoding of the handshake they decode to. */
  predicate Canonical(bytes: Bytes) {
    var m := Decode(bytes);
    m.Got? && m.msg.HandshakeMsg? && bytes == Encode(m.msg)
  }

  lemma OwnWellTyped(w: World, n: Node)
    requires Sized(w.prims) && w.wire == WIRE && Fits(n.data) && HasOwn(w, n)
    ensures WellTyped(HandshakeMsg(OwnHandshakeOf(n.data))) && WithinLimits(HandshakeMsg(OwnHandshakeOf(n.data)))
    ensures n.data.ourHandshake == Encode(HandshakeMsg(OwnHandshakeOf(n.data)))
  {
  }

  lemma DecodedWellTyped(bytes: Bytes)
    requires Canonical(bytes)
    ensures WellTyped(Decode(bytes).msg)
  {
    DecodedMessage(bytes);
  }

  /** Each side received exactly what the other sent. */
  predicate ViewsAgree(n: Node, p: Node) {
    n.data.peerHandshake == p.data.ourHandshake && p.data.peerHandshake == n.data.ourHandshake
  }

  /** When one transcript means one pair of handshakes: exactly when what the responder
      received, which comes first, is the encoding of what it decodes to. */
  lemma EqualTranscripts(w: World, n: Node, p: Node)
    requires Sized(w.prims) && w.wire == WIRE && Fits(n.data) && Fits(p.data) && Built(w, n) && Built(w, p)
    requires !n.data.config.isResponder && p.data.config.isResponder
    requires n.data.transcript == p.data.transcript
    ensures ViewsAgree(n, p) <==> Canonical(p.data.peerHandshake)
  {
    OwnWellTyped(w, n);
    var own := OwnHandshakeOf(n.data);
    if ViewsAgree(n, p) {
      MessageRoundTrip(HandshakeMsg(own), []);
      assert Encode(HandshakeMsg(own)) + [] == Encode(HandshakeMsg(own));
    }
    if Canonical(p.data.peerHandshake) {
      DecodedWellTyped(p.data.peerHandshake);
      HandshakePrefixFree(own, n.data.peerHandshake, Decode(p.data.peerHandshake).msg.handshake, p.data.ourHandshake);
    }
  }

  /** The same for any two runs, each over its own arbitrary network. */
  lemma RunsWithEqualTranscripts(w: World, ca: Config, cb: Config, na: nat, nb: nat, toA: seq<Event>, toB: seq<Event>)
    requires Sized(w.prims) && w.wire == WIRE && ConfigFits(ca) && ConfigFits(cb) && !ca.isResponder && cb.isResponder
    ensures var n, p := NodeRun(w, Connected(w, ca, na), toA), NodeRun(w, Connected(w, cb, nb), toB);
            |n.requests| >= 2 && |p.requests| >= 2 && n.data.transcript == p.data.transcript ==>
              (ViewsAgree(n, p) <==> Canonical(p.data.peerHandshake))
  {
    var n, p := NodeRun(w, Connected(w, ca, na), toA), NodeRun(w, Connected(w, cb, nb), toB);
    ConnectedHolds(w, ca, na);
    ConnectedHolds(w, cb, nb);
    RunHolds(w, Connected(w, ca, na), toA);
    RunHolds(w, Connected(w, cb, nb), toB);
    RunExtends(w, Connected(w, ca, na), toA);
    RunExtends(w, Connected(w, cb, nb), toB);
    if |n.requests| >= 2 && |p.requests| >= 2 && n.data.transcript == p.data.transcript {
      EqualTranscripts(w, n, p);
    }
  }
}
