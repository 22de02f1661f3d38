/** What an arrival does to a driver, case by case, and where a run of arrivals ends. */
module Arrivals {
  import opened Basics
  import opened VarInt
  import opened Messages
  import opened MessageTheorems
  import opened Machine
  import opened Provider
  import opened Node
  import opened NodeInvariant
  import opened NodeProofs
  import opened Drained
  import opened Drivers
  import R = Reference

  /** A timer does nothing, nor does an empty stream at the server; type key 1002 ends the
      connection with nothing delivered; any other stream is delivered once and its crypto
      run. The two drivers differ on the empty stream only. */
  lemma ArrivalExact(w: World, server: bool, n: Node, bytes: Bytes)
    requires Sized(w.prims) && w.wire == WIRE
    ensures AfterArrival(w, server, n, Timer) == n
    ensures AfterArrival(w, server, n, Stream(bytes)) ==
            if server && bytes == [] then n
            else if DecodeTypeKey(bytes).Ok? && DecodeTypeKey(bytes).value.0 == 1002 then n.(dead := true)
            else NodeStep(w, NodeStep(w, NodeStep(w, n, Deliver(bytes)), Complete), Complete)
    ensures bytes != [] ==> AfterArrival(w, true, n, Stream(bytes)) == AfterArrival(w, false, n, Stream(bytes))
  {
    UnimplementedExactly(bytes);
  }

  lemma EmptyDecodes()
    ensures Decode([]) == Bad(MessageError.DecodeFailed) && forall k :: DecodeOnly(k, []) == Bad(MessageError.DecodeFailed)
  {
  }

  lemma SettledStaysDead(w: World, n: Node)
    requires Sized(w.prims) && n.dead
    ensures Settle(w, n) == n
  {
  }

  /** An empty stream ends a client's connection in every state that waits for a message. */
  lemma EmptyStreamAtClient(w: World, n: Node)
    requires Sized(w.prims) && w.wire == WIRE && NodeInv(w, n) && !n.dead && n.outstanding == []
    requires !n.state.Failed? && n.state != Authenticated
    ensures AfterArrival(w, false, n, Stream([])).dead && AfterArrival(w, true, n, Stream([])) == n
  {
    EmptyDecodes();
    IdleStates(w, n);
    R.DeliveryExact(w, n, []);
    SettledStaysDead(w, NodeStep(w, n, Deliver([])));
    UnimplementedExactly([]);
  }

  /** A run of arrivals in two parts: once the connection has ended or is authenticated, what
      arrives later is not looked at. */
  lemma {:induction false} DrivenAppend(step: (Node, Arrival) -> Node, n: Node, first: seq<Arrival>, later: seq<Arrival>)
    ensures var m := Driven(step, n, first);
            Driven(step, n, first + later) == if m.dead || m.state == Authenticated then m else Driven(step, m, later)
    decreases |first|
  {
    if first == [] {
      assert first + later == later;
    } else if !(n.dead || n.state == Authenticated) {
      assert (first + later)[0] == first[0] && (first + later)[1..] == first[1..] + later;
      DrivenAppend(step, step(n, first[0]), first[1..], later);
    }
  }
}
