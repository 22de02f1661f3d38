/** The crypto provider: SPAKE2 with one stored session, key derivation, confirmation and
    its verification. The primitives themselves are parameters. */
module Provider {
  import opened Basics
  import opened Machine

  datatype CryptoError =
    | InvalidInput
    | OperationFailed
    | VerificationFailed
    | BufferTooSmall

  /** SPAKE2 public value and shared secret, HKDF expansion to 64 bytes under the fixed
      label, and HMAC. `nonce` stands for the randomness of a session. */
  datatype Primitives = Primitives(
    public: (Bytes, bool, nat) -> Bytes,
    secret: (Bytes, bool, nat, Bytes) -> Option<Bytes>,
    hkdf: Bytes -> Bytes,
    hmac: (Bytes, Bytes) -> Bytes)

  /** Output lengths of the primitives: SHA-256 for HMAC and for the SPAKE2 key, 64 bytes of
      expansion, and a public value the message format can carry. */
  ghost predicate Sized(p: Primitives) {
    && (forall k :: |p.hkdf(k)| == 64)
    && (forall k, m :: |p.hmac(k, m)| == 32)
    && (forall w, r, n, q :: p.secret(w, r, n, q).Some? ==> |p.secret(w, r, n, q).value| == 32)
    && (forall w, r, n :: 0 < |p.public(w, r, n)| <= 64)
  }

  /** Two sessions with one password, run in opposite roles on each other's public values,
      end with the same secret. */
  ghost predicate Agrees(p: Primitives) {
    forall w, n, m {:trigger p.public(w, false, n), p.public(w, true, m)} ::
      && p.secret(w, false, n, p.public(w, true, m)).Some?
      && p.secret(w, false, n, p.public(w, true, m)) == p.secret(w, true, m, p.public(w, false, n))
  }

  datatype Session = Session(password: Bytes, isResponder: bool, nonce: nat)

  type Slot = Option<Session>

  const MAX_RFC_CONTEXT := 128
  const KEY_LEN := 32

  function InitiatorKey(p: Primitives, secret: Bytes): Bytes
    requires |p.hkdf(secret)| == 64
  {
    p.hkdf(secret)[..32]
  }

  function ResponderKey(p: Primitives, secret: Bytes): Bytes
    requires |p.hkdf(secret)| == 64
  {
    p.hkdf(secret)[32..]
  }

  /** The result of a finish: secret, own confirmation, both keys. */
  function FinishResult(p: Primitives, secret: Bytes, transcript: Bytes, isResponder: bool): Bytes
    requires |p.hkdf(secret)| == 64
  {
    var own := if isResponder then ResponderKey(p, secret) else InitiatorKey(p, secret);
    secret + p.hmac(own, transcript) + InitiatorKey(p, secret) + ResponderKey(p, secret)
  }

  /** One operation: the session left in the slot, and the result. */
  function Execute(p: Primitives, slot: Slot, nonce: nat, op: CryptoOp): (Slot, Result<Bytes, CryptoError>)
    requires forall k :: |p.hkdf(k)| == 64
  {
    match op
    case Start(password, isResponder) =>
      var data := p.public(password, isResponder, nonce);
      (Some(Session(password, isResponder, nonce)),
       if |data| > MAX_CRYPTO_OUTPUT then Err(BufferTooSmall) else Ok(data))
    case Finish(_, peerPublic, transcript, mine, peers, isResponder) =>
      if slot.None? then (None, Err(InvalidInput))
      else
        var s := slot.value;
        (match p.secret(s.password, s.isResponder, s.nonce, peerPublic)
         case None => (None, Err(OperationFailed))
         case Some(secret) =>
           var result := FinishResult(p, secret, transcript, isResponder);
           if |secret| + |mine| + |peers| > MAX_RFC_CONTEXT then (None, Err(BufferTooSmall))
           else if |result| > MAX_CRYPTO_OUTPUT then (None, Err(BufferTooSmall))
           else (None, Ok(result)))
    case Verify(context, peerConfirmation) =>
      if |context| < KEY_LEN then (slot, Err(InvalidInput))
      else if |peerConfirmation| != 32 then (slot, Err(InvalidInput))
      else
        var cut := |context| - KEY_LEN;
        if p.hmac(context[cut..], context[..cut]) == peerConfirmation then (slot, Ok([]))
        else (slot, Err(VerificationFailed))
  }

  // ---------------------------------------------------------------- theorems

  /** The parse offsets of the machine recover what the provider laid out. */
  lemma KeysRoundTrip(p: Primitives, secret: Bytes, transcript: Bytes, isResponder: bool, d: Data)
    requires Sized(p) && |secret| == 32
    ensures var r := FinishResult(p, secret, transcript, isResponder);
            && |r| == RESULT_SIZE
            && StoreKeys(d, r) == d.(
                 sharedSecret := secret,
                 myConfirmation := p.hmac(if isResponder then ResponderKey(p, secret) else InitiatorKey(p, secret), transcript),
                 initiatorKey := InitiatorKey(p, secret),
                 responderKey := ResponderKey(p, secret))
  {
    var r := FinishResult(p, secret, transcript, isResponder);
    var own := if isResponder then ResponderKey(p, secret) else InitiatorKey(p, secret);
    FourParts(secret, p.hmac(own, transcript), InitiatorKey(p, secret), ResponderKey(p, secret));
  }

  /** The result of a finish in terms of the expansion of the secret: the initiator's key is
      its first half and the responder's its second, in the result and in the choice of the
      key for the own confirmation. Everything else a finish can answer is an error, and the
      session is gone in any case. */
  lemma FinishExact(p: Primitives, s: Session, nonce: nat, state: Bytes, peerPublic: Bytes, transcript: Bytes,
                    mine: Bytes, peers: Bytes, isResponder: bool)
    requires Sized(p)
    ensures var (after, r) := Execute(p, Some(s), nonce, Finish(state, peerPublic, transcript, mine, peers, isResponder));
            && after == None
            && match p.secret(s.password, s.isResponder, s.nonce, peerPublic)
               case None => r == Err(OperationFailed)
               case Some(x) =>
                 var first, second := p.hkdf(x)[..32], p.hkdf(x)[32..];
                 if |mine| + |peers| > 96 then r == Err(BufferTooSmall)
                 else
                   && r.Ok? && |r.value| == 128
                   && r.value[0..32] == x
                   && r.value[32..64] == p.hmac(if isResponder then second else first, transcript)
                   && r.value[64..96] == first
                   && r.value[96..128] == second
  {
    var secret := p.secret(s.password, s.isResponder, s.nonce, peerPublic);
    if secret.Some? {
      var x := secret.value;
      var first, second := p.hkdf(x)[..32], p.hkdf(x)[32..];
      FourParts(x, p.hmac(if isResponder then second else first, transcript), first, second);
    }
  }

  /** A finish without a session, a start, and every way a verification can end. */
  lemma OtherOperationsExact(p: Primitives, slot: Slot, nonce: nat, password: Bytes, isResponder: bool,
                             state: Bytes, peerPublic: Bytes, transcript: Bytes, mine: Bytes, peers: Bytes,
                             context: Bytes, confirmation: Bytes)
    requires Sized(p)
    ensures Execute(p, None, nonce, Finish(state, peerPublic, transcript, mine, peers, isResponder)) == (None, Err(InvalidInput))
    ensures Execute(p, slot, nonce, Start(password, isResponder))
         == (Some(Session(password, isResponder, nonce)), Ok(p.public(password, isResponder, nonce)))
    ensures Execute(p, slot, nonce, Verify(context, confirmation))
         == (slot, if |context| < 32 || |confirmation| != 32 then Err(InvalidInput)
                   else if p.hmac(context[|context| - 32..], context[..|context| - 32]) == confirmation then Ok([])
                   else Err(VerificationFailed))
  {
  }

  /** What the machine keeps of a finish, in the same terms. */
  lemma KeysFromExpansion(p: Primitives, s: Session, nonce: nat, state: Bytes, peerPublic: Bytes, transcript: Bytes,
                          mine: Bytes, peers: Bytes, isResponder: bool, d: Data)
    requires Sized(p)
    requires p.secret(s.password, s.isResponder, s.nonce, peerPublic).Some?
    ensures var x := p.secret(s.password, s.isResponder, s.nonce, peerPublic).value;
            var r := Execute(p, Some(s), nonce, Finish(state, peerPublic, transcript, mine, peers, isResponder)).1;
            r.Ok? ==> (|r.value| >= RESULT_SIZE && StoreKeys(d, r.value) == d.(
              sharedSecret := x,
              initiatorKey := p.hkdf(x)[..32],
              responderKey := p.hkdf(x)[32..],
              myConfirmation := p.hmac(if isResponder then p.hkdf(x)[32..] else p.hkdf(x)[..32], transcript)))
  {
    FinishExact(p, s, nonce, state, peerPublic, transcript, mine, peers, isResponder);
  }

  /** An endpoint accepts its own confirmation, sent back to it, exactly if the two halves of
      the expansion give the transcript one MAC. */
  lemma ReflectionExact(p: Primitives, secret: Bytes, transcript: Bytes, d: Data, nonce: nat)
    requires Sized(p) && |secret| == 32
    ensures var kept := StoreKeys(d, FinishResult(p, secret, transcript, d.config.isResponder));
            var accepted := Execute(p, None, nonce, Verify(transcript + PeerKey(kept), kept.myConfirmation)).1.Ok?;
            accepted <==> p.hmac(p.hkdf(secret)[..32], transcript) == p.hmac(p.hkdf(secret)[32..], transcript)
  {
    KeysRoundTrip(p, secret, transcript, d.config.isResponder, d);
    var kept := StoreKeys(d, FinishResult(p, secret, transcript, d.config.isResponder));
    VerifyExact(p, None, nonce, transcript, PeerKey(kept), kept.myConfirmation);
  }

  lemma FourParts(a: Bytes, b: Bytes, c: Bytes, d: Bytes)
    requires |a| == |b| == |c| == |d| == 32
    ensures var r := a + b + c + d;
            |r| == 128 && r[0..32] == a && r[32..64] == b && r[64..96] == c && r[96..128] == d
  {
  }

  /** A verification succeeds exactly when the confirmation is the MAC of the transcript
      under the key at the end of the context. */
  lemma VerifyExact(p: Primitives, slot: Slot, nonce: nat, transcript: Bytes, key: Bytes, confirmation: Bytes)
    requires Sized(p) && |key| == 32
    ensures Execute(p, slot, nonce, Verify(transcript + key, confirmation)).1.Ok?
       <==> confirmation == p.hmac(key, transcript)
    ensures Execute(p, slot, nonce, Verify(transcript + key, confirmation)).1.Ok?
        ==> Execute(p, slot, nonce, Verify(transcript + key, confirmation)).1 == Ok([])
  {
    var context := transcript + key;
    assert context[|context| - 32..] == key && context[..|context| - 32] == transcript;
  }

  /** Honest verification: two sessions with one password, finishing over one transcript,
      accept each other's confirmation under the key the role selects. */
  lemma HonestVerification(p: Primitives, w: Bytes, n: nat, m: nat, transcript: Bytes,
                           mineA: Bytes, peersA: Bytes, mineB: Bytes, peersB: Bytes, da: Data, db: Data)
    requires Sized(p) && Agrees(p)
    requires |mineA| + |peersA| <= 64 && |mineB| + |peersB| <= 64
    requires !da.config.isResponder && db.config.isResponder
    requires da.transcript == db.transcript == transcript
    ensures var ra := Execute(p, Some(Session(w, false, n)), n, Finish(p.public(w, false, n), p.public(w, true, m), transcript, mineA, peersA, false)).1;
            var rb := Execute(p, Some(Session(w, true, m)), m, Finish(p.public(w, true, m), p.public(w, false, n), transcript, mineB, peersB, true)).1;
            && ra.Ok? && rb.Ok? && |ra.value| == |rb.value| == RESULT_SIZE
            && (var a, b := StoreKeys(da, ra.value), StoreKeys(db, rb.value);
               && a.sharedSecret == b.sharedSecret
               && Execute(p, None, n, Verify(transcript + PeerKey(a), b.myConfirmation)).1 == Ok([])
               && Execute(p, None, m, Verify(transcript + PeerKey(b), a.myConfirmation)).1 == Ok([]))
  {
    var secret := p.secret(w, false, n, p.public(w, true, m)).value;
    assert p.secret(w, true, m, p.public(w, false, n)) == Some(secret);
    KeysRoundTrip(p, secret, transcript, false, da);
    KeysRoundTrip(p, secret, transcript, true, db);
    VerifyExact(p, None, n, transcript, ResponderKey(p, secret), p.hmac(ResponderKey(p, secret), transcript));
    VerifyExact(p, None, m, transcript, InitiatorKey(p, secret), p.hmac(InitiatorKey(p, secret), transcript));
  }

  // ---------------------------------------------------------------- the code's own form

  /** The provider object: one slot for the session between start and finish. */
  class RustCryptoProvider {
    const prims: Primitives
    const nonce: nat
    var slot: Slot

    constructor (prims: Primitives, nonce: nat)
      ensures this.prims == prims && this.nonce == nonce && slot == None
    {
      this.prims := prims;
      this.nonce := nonce;
      slot := None;
    }

    /** Finishing takes the stored session: a second finish finds the slot empty. */
    method FinishWithConfirmation(peerPublic: Bytes, transcript: Bytes, mine: Bytes, peers: Bytes, isResponder: bool)
      returns (r: Result<Bytes, CryptoError>)
      requires forall k :: |prims.hkdf(k)| == 64
      modifies this
      ensures forall state :: (slot, r) == Execute(prims, old(slot), nonce, Finish(state, peerPublic, transcript, mine, peers, isResponder))
    {
      if slot.None? { return Err(InvalidInput); }
      var s := slot.value;
      slot := None;
      var secret := prims.secret(s.password, s.isResponder, s.nonce, peerPublic);
      if secret.None? { return Err(OperationFailed); }
      var rfcContext := new ByteVec(MAX_RFC_CONTEXT);
      var ok := rfcContext.ExtendFromSlice(secret.value);
      if !ok { return Err(BufferTooSmall); }
      ok := rfcContext.ExtendFromSlice(mine);
      if !ok { return Err(BufferTooSmall); }
      ok := rfcContext.ExtendFromSlice(peers);
      if !ok { return Err(BufferTooSmall); }
      var keys := prims.hkdf(secret.value);
      var initiatorKey, responderKey := keys[..32], keys[32..];
      var own := if isResponder then responderKey else initiatorKey;
      var confirmation := prims.hmac(own, transcript);
      ok, r := Assemble(secret.value, confirmation, initiatorKey, responderKey);
    }

    method Assemble(a: Bytes, b: Bytes, c: Bytes, d: Bytes) returns (ok: bool, r: Result<Bytes, CryptoError>)
      ensures r == if |a + b + c + d| > MAX_CRYPTO_OUTPUT then Err(BufferTooSmall) else Ok(a + b + c + d)
    {
      var data := new ByteVec(MAX_CRYPTO_OUTPUT);
      ok := data.ExtendFromSlice(a);
      if !ok { return false, Err(BufferTooSmall); }
      ok := data.ExtendFromSlice(b);
      if !ok { return false, Err(BufferTooSmall); }
      ok := data.ExtendFromSlice(c);
      if !ok { return false, Err(BufferTooSmall); }
      ok := data.ExtendFromSlice(d);
      if !ok { return false, Err(BufferTooSmall); }
      assert [] + a == a;
      return true, Ok(data.items);
    }

    method Run(op: CryptoOp) returns (r: Result<Bytes, CryptoError>)
      requires forall k :: |prims.hkdf(k)| == 64
      modifies this
      ensures (slot, r) == Execute(prims, old(slot), nonce, op)
    {
      match op {
        case Start(password, isResponder) =>
          var data := prims.public(password, isResponder, nonce);
          slot := Some(Session(password, isResponder, nonce));
          if |data| > MAX_CRYPTO_OUTPUT { return Err(BufferTooSmall); }
          return Ok(data);
        case Finish(_, peerPublic, transcript, mine, peers, isResponder) =>
          r := FinishWithConfirmation(peerPublic, transcript, mine, peers, isResponder);
        case Verify(context, peerConfirmation) =>
          if |context| < KEY_LEN { return Err(InvalidInput); }
          var transcript, peerKey := context[..|context| - KEY_LEN], context[|context| - KEY_LEN..];
          if |peerConfirmation| != 32 { return Err(InvalidInput); }
          var expected := prims.hmac(peerKey, transcript);
          if expected == peerConfirmation {
            return Ok([]);
          }
          return Err(VerificationFailed);
      }
    }
  }
}
