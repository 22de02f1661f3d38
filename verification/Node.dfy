/** One endpoint: the state machine, its crypto provider and a log of everything that
    crossed its boundary. The network is arbitrary: any bytes may arrive at any time, and
    a requested crypto operation may complete at any later time. */
module Node {
  import opened Basics
  import opened Cbor
  import opened Messages
  import opened Machine
  import opened Provider

  datatype Node = Node(
    state: State,
    data: Data,
    slot: Slot,
    nonce: nat,
    outstanding: seq<CryptoOp>,         // requested and not yet completed
    received: seq<Bytes>,               // every byte string fed in, in order
    msgs: seq<Message>,                 // every message handed to the transport, in order
    requests: seq<CryptoOp>,            // every crypto operation requested, in order
    completed: seq<(CryptoOp, Bytes)>,  // every crypto operation completed, with its result
    dead: bool)                         // an error, an abort or a crypto failure ended the connection

  /** What an endpoint runs in: a wire format and the crypto primitives. */
  datatype World = World(wire: Codec, prims: Primitives)

  datatype Event = Deliver(bytes: Bytes) | Complete | Clock

  function Sent(outs: seq<Output>): seq<Message> {
    if outs == [] then []
    else (if outs[0].SendMessage? then [outs[0].msg] else []) + Sent(outs[1..])
  }

  function Requested(outs: seq<Output>): seq<CryptoOp> {
    if outs == [] then []
    else (if outs[0].RequestCrypto? then [outs[0].request.op] else []) + Requested(outs[1..])
  }

  /** A step of the machine, seen from outside: outputs reach the transport and the crypto
      queue; an error or an abort ends the connection. */
  function Absorb(n: Node, step: Step): Node {
    match step
    case Next(s, d, outs) =>
      n.(state := s, data := d,
         msgs := n.msgs + Sent(outs),
         outstanding := n.outstanding + Requested(outs),
         requests := n.requests + Requested(outs))
    case Fail(_) => n.(state := Poisoned, dead := true)
    case Panic => n.(state := Poisoned, dead := true)
  }

  function Feed(w: World, n: Node, input: Input): Node {
    Absorb(n, HandleStep(w.wire, n.state, n.data, input, MAX_OUTPUTS))
  }

  function NodeStep(w: World, n: Node, e: Event): Node
    requires Sized(w.prims)
  {
    if n.dead then n
    else
      match e
      case Deliver(bytes) => Feed(w, n.(received := n.received + [bytes]), DataReceived(0, bytes))
      case Clock => Feed(w, n, Tick(0))
      case Complete =>
        if n.outstanding == [] then n
        else
          var op := n.outstanding[0];
          var (slot, result) := Execute(w.prims, n.slot, n.nonce, op);
          var n1 := n.(slot := slot, outstanding := n.outstanding[1..]);
          match result
          case Err(_) => n1.(dead := true)
          case Ok(bytes) => Feed(w, n1.(completed := n1.completed + [(op, bytes)]), CryptoCompleted(bytes))
  }

  function NodeRun(w: World, n: Node, events: seq<Event>): Node
    requires Sized(w.prims)
    decreases |events|
  {
    if events == [] then n else NodeRun(w, NodeStep(w, n, events[0]), events[1..])
  }

  /** A configured endpoint right after the transport connected. */
  function Connected(w: World, config: Config, nonce: nat): Node {
    Feed(w, Node(Idle, FreshData(config), None, nonce, [], [], [], [], [], false), TransportConnected)
  }
}
