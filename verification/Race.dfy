/** The race buffer: a confirmation that arrives before the finish completes has the same
    effect as one that arrives after. */
module Race {
  import opened Basics
  import opened Messages
  import opened Machine
  import opened Provider
  import opened Node
  import opened NodeInvariant
  import opened NodeProofs

  /** Two inputs in a row, each handled with an empty output queue; the outputs of both. */
  function Both(w: Codec, s: State, d: Data, first: Input, second: Input): Step {
    match HandleStep(w, s, d, first, MAX_OUTPUTS)
    case Next(s1, d1, outs1) =>
      (match HandleStep(w, s1, d1, second, MAX_OUTPUTS)
       case Next(s2, d2, outs2) => Next(s2, d2, outs1 + outs2)
       case failed => failed)
    case failed => failed
  }

  /** A confirmation message that every buffer on its way can hold. */
  predicate Usable(w: Codec, c: Bytes) {
    && |c| <= MAX_HANDSHAKE_MSG_SIZE
    && w.decode(c).Got? && w.decode(c).msg.ConfirmationMsg?
    && |w.decode(c).msg.value| <= MAX_CONFIRMATION_SIZE
  }

  lemma EarlyThenFinish(w: Codec, d: Data, c: Bytes, result: Bytes)
    requires Fits(d) && |result| >= RESULT_SIZE && c != []
    ensures Both(w, Computing, d, DataReceived(0, c), CryptoCompleted(result)) ==
            if |c| > MAX_HANDSHAKE_MSG_SIZE then Fail(NetworkError.BufferFull)
            else
              var d1 := StoreKeys(d.(pending := c), result);
              CheckConfirmation(d1, w.decode(c), true, [SendMessage(ConfirmationMsg(d1.myConfirmation))], MAX_OUTPUTS)
  {
    if |c| <= MAX_HANDSHAKE_MSG_SIZE {
      var d1 := StoreKeys(d.(pending := c), result);
      var step := CheckConfirmation(d1, w.decode(c), true, [SendMessage(ConfirmationMsg(d1.myConfirmation))], MAX_OUTPUTS);
      assert HandleStep(w, Computing, d.(pending := c), CryptoCompleted(result), MAX_OUTPUTS) == step;
      if step.Next? {
        assert [] + step.outputs == step.outputs;
      }
    }
  }

  lemma FinishThenLate(w: Codec, d: Data, c: Bytes, result: Bytes)
    requires Fits(d) && |result| >= RESULT_SIZE && d.pending == []
    ensures var d1 := StoreKeys(d, result);
            var sent := [SendMessage(ConfirmationMsg(d1.myConfirmation))];
            Both(w, Computing, d, CryptoCompleted(result), DataReceived(0, c)) ==
            CheckConfirmation(d1, w.decode(c), false, sent, MAX_OUTPUTS)
  {
    var d1 := StoreKeys(d, result);
    var sent := [SendMessage(ConfirmationMsg(d1.myConfirmation))];
    var step := CheckConfirmation(d1, w.decode(c), false, [], MAX_OUTPUTS);
    assert HandleStep(w, AwaitingConfirmation, d1, DataReceived(0, c), MAX_OUTPUTS) == step;
    if step.Next? {
      assert step.outputs == [VerifyRequest(step.data)];
    }
  }

  /** Race confluence, exactly: with a finish outstanding and an empty race buffer, receiving
      bytes and completing the finish succeed in both orders if and only if the bytes are a
      usable confirmation, and then both orders give the same state, the same buffers and
      the same outputs. */
  lemma RaceConfluence(w: Codec, d: Data, c: Bytes, result: Bytes)
    requires Fits(d) && |result| >= RESULT_SIZE && d.pending == [] && !w.decode([]).Got?
    ensures var early := Both(w, Computing, d, DataReceived(0, c), CryptoCompleted(result));
            var late := Both(w, Computing, d, CryptoCompleted(result), DataReceived(0, c));
            && (early.Next? && late.Next? <==> Usable(w, c))
            && (Usable(w, c) ==> early == late && early.state == Computing)
  {
    FinishThenLate(w, d, c, result);
    if c != [] {
      EarlyThenFinish(w, d, c, result);
      assert StoreKeys(d.(pending := c), result).(pending := []) == StoreKeys(d, result);
    }
  }

  /** The program's wire format rejects the empty string. */
  lemma EmptyIsNoMessage()
    ensures !WIRE.decode([]).Got?
  {
  }

  // ---------------------------------------------------------------- for an endpoint

  /** The endpoint after both: confirmation sent, verification requested. */
  function Raced(n: Node, c: Bytes, slot: Slot, result: Bytes, d: Data): Node
    requires n.outstanding != []
  {
    Node(Computing, d, slot, n.nonce, n.outstanding[1..] + [VerifyOp(d)], n.received + [c],
         n.msgs + [ConfirmationMsg(d.myConfirmation)], n.requests + [VerifyOp(d)],
         n.completed + [(n.outstanding[0], result)], false)
  }

  /** The buffers after both. */
  function RacedData(w: Codec, d: Data, c: Bytes, result: Bytes): Data
    requires |result| >= RESULT_SIZE && Usable(w, c)
  {
    var d1 := StoreKeys(d, result);
    d1.(peerConfirmation := w.decode(c).msg.value, pending := [], context := d1.transcript + PeerKey(d1))
  }

  lemma EarlyNode(w: World, n: Node, c: Bytes, slot: Slot, result: Bytes)
    requires !n.dead && n.outstanding != [] && Fits(n.data) && Usable(w.wire, c) && c != [] && |result| >= RESULT_SIZE
    ensures Absorb(Took(Absorb(Heard(n, c), Next(Computing, n.data.(pending := c), [])), slot, result),
                   OnFinish(w.wire, n.data.(pending := c), result, MAX_OUTPUTS))
         == Raced(n, c, slot, result, RacedData(w.wire, n.data, c, result))
  {
    var d2 := RacedData(w.wire, n.data, c, result);
    Emitted([]);
    assert n.msgs + [] == n.msgs && n.outstanding + [] == n.outstanding && n.requests + [] == n.requests;
    Emitted([SendMessage(ConfirmationMsg(d2.myConfirmation)), VerifyRequest(d2)]);
    assert OnFinish(w.wire, n.data.(pending := c), result, MAX_OUTPUTS)
        == Next(Computing, d2, [SendMessage(ConfirmationMsg(d2.myConfirmation)), VerifyRequest(d2)]);
  }

  lemma LateNode(w: World, n: Node, c: Bytes, slot: Slot, result: Bytes)
    requires !n.dead && n.outstanding != [] && Fits(n.data) && n.data.pending == [] && Usable(w.wire, c) && |result| >= RESULT_SIZE
    ensures OnFinish(w.wire, n.data, result, MAX_OUTPUTS).Next?
    ensures var n1 := Absorb(Took(n, slot, result), OnFinish(w.wire, n.data, result, MAX_OUTPUTS));
            && n1.state == AwaitingConfirmation && !n1.dead
            && Absorb(Heard(n1, c), CheckConfirmation(n1.data, w.wire.decode(c), false, [], MAX_OUTPUTS))
            == Raced(n, c, slot, result, RacedData(w.wire, n.data, c, result))
  {
    var d1 := StoreKeys(n.data, result);
    var d2 := RacedData(w.wire, n.data, c, result);
    Emitted([SendMessage(ConfirmationMsg(d1.myConfirmation))]);
    Emitted([VerifyRequest(d2)]);
    assert CheckConfirmation(d1, w.wire.decode(c), false, [], MAX_OUTPUTS) == Next(Computing, d2, [VerifyRequest(d2)]);
    assert n.outstanding[1..] + [] == n.outstanding[1..] && n.requests + [] == n.requests;
  }

  /** The same for an endpoint and its provider: unless the finish itself fails, state,
      buffers, provider slot and every log agree. */
  lemma NodeRace(w: World, n: Node, c: Bytes)
    requires Sized(w.prims) && NodeInv(w, n) && !n.dead && n.state == Computing && Finishing(w, n)
    requires n.data.pending == [] && Usable(w.wire, c) && !w.wire.decode([]).Got?
    ensures NodeStep(w, NodeStep(w, n, Deliver(c)), Complete) == NodeStep(w, NodeStep(w, n, Complete), Deliver(c))
         || NodeStep(w, n, Complete).dead
  {
    TookProgress(n, 2, 2, 1, None, []);
    FinishCompletion(w, n);
    var (slot, r) := Crypto(w, n);
    if r.Ok? {
      var secret := w.prims.secret(n.data.config.psk, n.data.config.isResponder, n.nonce, n.data.peerPublic).value;
      KeysRoundTrip(w.prims, secret, n.data.transcript, n.data.config.isResponder, n.data);
      EarlyNode(w, n, c, slot, r.value);
      LateNode(w, n, c, slot, r.value);
      EarlyDelivery(w, n, c);
      DeliveryStep(w, NodeStep(w, n, Complete), c);
    }
  }

  lemma EarlyDelivery(w: World, n: Node, c: Bytes)
    requires Sized(w.prims) && !n.dead && n.state == Computing && |c| <= MAX_HANDSHAKE_MSG_SIZE
    requires InSession(n) && n.outstanding != [] && n.outstanding[0] == FinishOp(n.data) && Crypto(w, n).1.Ok?
    ensures var (slot, r) := Crypto(w, n);
            NodeStep(w, NodeStep(w, n, Deliver(c)), Complete)
            == Absorb(Took(Absorb(Heard(n, c), Next(Computing, n.data.(pending := c), [])), slot, r.value),
                      OnFinish(w.wire, n.data.(pending := c), r.value, MAX_OUTPUTS))
  {
    DeliveryStep(w, n, c);
    Emitted([]);
    var n1 := NodeStep(w, n, Deliver(c));
    assert n.outstanding + [] == n.outstanding;
    FinishCompletion(w, n1);
  }
}
