/** The application layer written down once more: what each command sends, byte by byte, and
    when; what each arrival does; and what is passed on of the network machine. */
module AppReference {
  import opened Basics
  import opened VarInt
  import opened Cbor
  import opened Machine
  import opened AppMessages
  import AT = AppTheorems
  import opened Application
  import opened ApplicationTheorems
  import opened AppBytes
  import W = WireBytes
  import E = Errors

  // ---------------------------------------------------------------- commands

  /** The bytes of a command with request id `id`. */
  function CommandWire(input: AppInput, id: nat): Bytes
    requires IsCommand(input) && Arguments(input) && Fit64(id)
  {
    match input
    case StartPresentation(url, presentationId) =>
      [0x40, 0x68] + ([0xA4] + (NumberEntry(0, id) + (TextEntry(1, presentationId) + (TextEntry(2, url) + ListEntry(3, 0, [])))))
    case TerminatePresentation(presentationId, reason) =>
      [0x40, 0x6A] + ([0xA3] + (NumberEntry(0, id) + (TextEntry(1, presentationId) + NumberEntry(2, reason))))
    case CheckUrlAvailability(urls, duration) =>
      [0x0E] + ([0xA4] + (NumberEntry(0, id) + (ListEntry(1, |urls|, Texts(urls)) + (NumberEntry(2, duration) + NumberEntry(3, 0)))))
    case OpenConnection(presentationId, url) =>
      [0x40, 0x6D] + ([0xA3] + (NumberEntry(0, id) + (TextEntry(1, presentationId) + TextEntry(2, url))))
    case SendMessageOn(connectionId, message) =>
      [0x10] + ([0xA2] + (NumberEntry(0, connectionId) + ([0x01] + W.Blob(message))))
    case ClosePresentation(connectionId, reason) =>
      [0x40, 0x71] + ([0xA3] + (NumberEntry(0, connectionId) + (NumberEntry(1, reason) + ([] + NumberEntry(3, 0)))))
    case RequestStatus(status) =>
      [0x0C] + (if status.None? then [0xA1] + (NumberEntry(0, id) + [])
                else [0xA2] + (NumberEntry(0, id) + ([0x01] + ([0xA1] + TextEntry(0, status.value)))))
    case RequestInfo => [0x0A] + ([0xA1] + NumberEntry(0, id))
  }

  /** Arguments within their types. */
  predicate Arguments(input: AppInput) {
    match input
    case StartPresentation(url, id) => Fit64(|url|) && Fit64(|id|)
    case TerminatePresentation(id, reason) => Fit64(|id|) && Fit64(reason)
    case CheckUrlAvailability(urls, duration) => Fit64(duration) && Fit64(|urls|) && forall u :: u in urls ==> Fit64(|u|)
    case OpenConnection(id, url) => Fit64(|id|) && Fit64(|url|)
    case SendMessageOn(id, message) => Fit64(id) && Fit64(|message|)
    case ClosePresentation(id, reason) => Fit64(id) && Fit64(reason)
    case RequestStatus(status) => status.Some? ==> Fit64(|status.value|)
    case _ => true
  }

  lemma StartWire(url: Bytes, presentationId: Bytes, id: nat)
    requires Fit64(|url|) && Fit64(|presentationId|) && Fit64(id)
    ensures AppEncode(StartRequestMsg(StartRequest(id, presentationId, url, []))) == CommandWire(StartPresentation(url, presentationId), id)
  {
    StartRequestBytes(StartRequest(id, presentationId, url, []));
  }

  lemma UrlWire(urls: seq<Bytes>, duration: nat, id: nat)
    requires Arguments(CheckUrlAvailability(urls, duration)) && Fit64(id)
    ensures AppEncode(UrlRequestMsg(UrlRequest(id, urls, duration, 0))) == CommandWire(CheckUrlAvailability(urls, duration), id)
  {
    UrlRequestBytes(UrlRequest(id, urls, duration, 0));
  }

  lemma CloseWire(connectionId: nat, reason: nat, id: nat)
    requires Fit64(connectionId) && Fit64(reason) && Fit64(id)
    ensures AppEncode(CloseEventMsg(CloseEvent(connectionId, reason, None, 0))) == CommandWire(ClosePresentation(connectionId, reason), id)
  {
    CloseEventBytes(CloseEvent(connectionId, reason, None, 0));
  }

  lemma FlatWire(input: AppInput, id: nat)
    requires Arguments(input) && Fit64(id)
    requires input.TerminatePresentation? || input.OpenConnection? || input.SendMessageOn? || input.RequestStatus? || input.RequestInfo?
    ensures AppEncode(CommandMessage(input, id)) == CommandWire(input, id)
  {
    match input
    case TerminatePresentation(presentationId, reason) => TerminationRequestBytes(TerminationRequest(id, presentationId, reason));
    case OpenConnection(presentationId, url) => OpenRequestBytes(OpenRequest(id, presentationId, url));
    case SendMessageOn(connectionId, message) => ConnectionBytes(ConnectionMessage(connectionId, message));
    case RequestStatus(status) => StatusRequestBytes(StatusRequest(id, status));
    case RequestInfo => AgentInfoRequestBytes(id);
  }

  lemma WireIs(input: AppInput, id: nat)
    requires IsCommand(input) && Arguments(input) && Fit64(id)
    ensures AppEncode(CommandMessage(input, id)) == CommandWire(input, id)
  {
    match input
    case StartPresentation(url, presentationId) => StartWire(url, presentationId, id);
    case CheckUrlAvailability(urls, duration) => UrlWire(urls, duration, id);
    case ClosePresentation(connectionId, reason) => CloseWire(connectionId, reason, id);
    case _ => FlatWire(input, id);
  }

  /** Before authentication a command is refused and changes nothing. */
  lemma CommandRefused(other: OtherBodies, a: App, input: AppInput)
    requires IsCommand(input) && a.net != Authenticated
    ensures InputStep(other, a, input) == Did(a, Err(NotAuthenticated))
  {
  }

  /** The six commands that number their message. */
  predicate Numbers(input: AppInput) {
    !input.SendMessageOn? && !input.ClosePresentation? && !input.Transport?
  }

  lemma CommandSteps(a: App, input: AppInput, wire: Bytes)
    requires IsCommand(input) && a.net == Authenticated && a.nextId < U64
    requires wire == AppEncode(CommandMessage(input, a.nextId))
    ensures CommandStep(a, input) ==
            Did(a.(nextId := if !Numbers(input) then a.nextId else if a.nextId == 0xFFFF_FFFF_FFFF_FFFF then 0 else a.nextId + 1),
                if input.CheckUrlAvailability? && |input.urls| > 16 then Err(AppBufferFull)
                else if |wire| > 1024 then Err(AppEncodeFailed)
                else Ok([SendAppData(wire)]))
  {
    NextId(a.nextId);
  }

  /** After it, a command sends exactly its bytes if they fit 1024, and a check of at most 16
      URLs; a numbered command uses up its id whether it sends or not. */
  lemma CommandExact(other: OtherBodies, a: App, input: AppInput)
    requires IsCommand(input) && Arguments(input) && a.net == Authenticated && a.nextId < U64
    ensures var wire := CommandWire(input, a.nextId);
            InputStep(other, a, input) ==
            Did(a.(nextId := if !Numbers(input) then a.nextId else if a.nextId == 0xFFFF_FFFF_FFFF_FFFF then 0 else a.nextId + 1),
                if input.CheckUrlAvailability? && |input.urls| > 16 then Err(AppBufferFull)
                else if |wire| > 1024 then Err(AppEncodeFailed)
                else Ok([SendAppData(wire)]))
  {
    CommandIsStep(other, a, input);
    WireIs(input, a.nextId);
    CommandSteps(a, input, CommandWire(input, a.nextId));
  }

  // ---------------------------------------------------------------- nothing is sent early

  function Outputs(step: AppStep): seq<AppOutput> {
    match step
    case Did(_, Ok(outs)) => outs
    case _ => []
  }

  predicate SendsNothing(outs: seq<AppOutput>) {
    forall o :: o in outs ==> !o.SendAppData?
  }

  lemma {:induction false} ConvertedSendsNothing(outs: seq<Output>)
    ensures SendsNothing(Convert(outs))
  {
    if outs != [] {
      ConvertedSendsNothing(outs[1..]);
    }
  }

  lemma EarlySendsNothing(other: OtherBodies, a: App, input: AppInput)
    requires a.net != Authenticated
    ensures SendsNothing(Outputs(InputStep(other, a, input)))
  {
    if IsCommand(input) {
      CommandRefused(other, a, input);
    } else if input.input.DataReceived? && AppDecode(other, input.input.bytes).Ok? {
      var m := AppDecode(other, input.input.bytes).value;
      assert Outputs(InputStep(other, a, input)) == Outputs(MessageStep(a, m));
    } else {
      NetworkSendsNothing(a, input.input);
    }
  }

  lemma NetworkSendsNothing(a: App, input: Input)
    ensures SendsNothing(Outputs(NetworkStep(a, input)))
  {
    var step := HandleStep(WIRE, a.net, a.data, input, MAX_OUTPUTS);
    if step.Next? {
      ConvertedSendsNothing(step.outputs);
    }
  }

  predicate NeverSendsEarly(other: OtherBodies, a: App, inputs: seq<AppInput>)
    decreases |inputs|
  {
    inputs == [] ||
    (&& (a.net != Authenticated ==> SendsNothing(Outputs(InputStep(other, a, inputs[0]))))
     && NeverSendsEarly(other, InputStep(other, a, inputs[0]).next, inputs[1..]))
  }

  /** In every run, no application data is sent by an input that the layer takes while the
      network machine is not authenticated. */
  lemma {:induction false} RunNeverSendsEarly(other: OtherBodies, a: App, inputs: seq<AppInput>)
    ensures NeverSendsEarly(other, a, inputs)
    decreases |inputs|
  {
    if inputs != [] {
      if a.net != Authenticated {
        EarlySendsNothing(other, a, inputs[0]);
      }
      RunNeverSendsEarly(other, InputStep(other, a, inputs[0]).next, inputs[1..]);
    }
  }

  // ---------------------------------------------------------------- arrivals

  /** Type keys of the messages that raise no event; an open response raises one only on
      success. */
  predicate Quiet(m: AppMessage) {
    AppKeyOf(m) in {10, 12, 14, 15, 103, 104, 106, 107, 109} || (m.OpenResponseMsg? && m.open.result != 1)
  }

  lemma MessageExact(a: App, m: AppMessage)
    requires m.OtherMsg? ==> m.key in {13, 15, 103, 107, 120, 121}
    ensures MessageStep(a, m) ==
            Did(a.(app := if m.StartResponseMsg? && m.startResponse.result == 1 then Presenting
                          else if m.TerminationEventMsg? then Ready else a.app),
                if m.ConnectionMsg? && |m.connection.message| > 1024 then Err(AppBufferFull)
                else Ok(if Quiet(m) then [] else [Received(m)]))
  {
  }

  lemma OtherKeys(p: FlatParsers, other: OtherBodies, key: u16, body: Bytes)
    requires DecodeFlatBody(p, other, key, body).Ok? && DecodeFlatBody(p, other, key, body).value.OtherMsg?
    requires key !in {10, 11, 14, 104, 110, 113}
    ensures DecodeFlatBody(p, other, key, body).value.key in {13, 15, 103, 107, 120, 121}
  {
  }

  lemma NestedIsNotOther(other: OtherBodies, key: u16, body: Bytes)
    requires AppDecodeBody(other, key, body).Ok? && key in {10, 11, 14, 104, 110, 113}
    ensures !AppDecodeBody(other, key, body).value.OtherMsg?
  {
  }

  lemma NotNested(other: OtherBodies, key: u16, body: Bytes)
    requires key !in {10, 11, 14, 104, 110, 113}
    ensures AppDecodeBody(other, key, body) == DecodeFlatBody(FLAT, other, key, body)
  {
  }

  lemma DecodedOther(other: OtherBodies, bytes: Bytes)
    requires AppDecode(other, bytes).Ok? && AppDecode(other, bytes).value.OtherMsg?
    ensures AppDecode(other, bytes).value.key in {13, 15, 103, 107, 120, 121}
  {
    var (key, n) := DecodeTypeKey(bytes).value;
    if key in {10, 11, 14, 104, 110, 113} {
      NestedIsNotOther(other, key, bytes[n..]);
    } else {
      NotNested(other, key, bytes[n..]);
      OtherKeys(FLAT, other, key, bytes[n..]);
    }
  }

  /** What a message of the layer does when it arrives, whatever the network machine's state:
      a successful start response (105) starts presenting, a termination event (108) ends it,
      everything else leaves the state; most raise their event. */
  lemma ArrivalExact(other: OtherBodies, a: App, stream: nat, bytes: Bytes)
    requires AppDecode(other, bytes).Ok?
    ensures var m := AppDecode(other, bytes).value;
            InputStep(other, a, Transport(DataReceived(stream, bytes))) ==
            Did(a.(app := if m.StartResponseMsg? && m.startResponse.result == 1 then Presenting
                          else if m.TerminationEventMsg? then Ready else a.app),
                if m.ConnectionMsg? && |m.connection.message| > 1024 then Err(AppBufferFull)
                else Ok(if Quiet(m) then [] else [Received(m)]))
  {
    var m := AppDecode(other, bytes).value;
    if m.OtherMsg? {
      DecodedOther(other, bytes);
    }
    MessageExact(a, m);
  }

  /** What the layer makes of one output of the network machine. */
  function Passed(o: Output): seq<AppOutput> {
    match o
    case OpenUniStream => [OpenBiStream]
    case SendMessage(_) => []
    case SendData(_) => []
    case CloseStream(s) => [AppCloseStream(s)]
    case CloseConnection => [AppCloseConnection]
    case RequestCrypto(r) => [AppRequestCrypto(r)]
    case NeedsPoll => [AppNeedsPoll]
    case Event(e) => if e.AuthenticatedEvent? then [NetworkAuthenticated] else [NetworkFailed]
  }

  lemma OnePassed(o: Output)
    ensures Convert([o]) == Passed(o)
  {
    assert [o][1..] == [] && Passed(o) + [] == Passed(o);
  }

  /** Outputs are passed on one by one, in order; messages and raw data are not. */
  lemma ConvertExact(outs: seq<Output>, o: Output)
    ensures Convert([]) == [] && Convert(outs + [o]) == Convert(outs) + Passed(o)
  {
    ConvertSplit(outs, o);
    OnePassed(o);
  }

  /** What any other input does: a step of the network machine, whose errors are passed on; the
      layer becomes ready exactly when that machine becomes Authenticated. */
  lemma NetworkExact(other: OtherBodies, a: App, input: Input)
    requires input.DataReceived? ==> AppDecode(other, input.bytes).Err?
    ensures var step := HandleStep(WIRE, a.net, a.data, input, 16);
            InputStep(other, a, Transport(input)) ==
            match step
            case Next(s, d, outs) =>
              Did(App(s, d, if s == Authenticated && a.net != Authenticated then Ready else a.app, a.nextId), Ok(Convert(outs)))
            case Fail(e) => Did(a.(net := Poisoned), Err(FromNetwork(e)))
            case Panic => Aborts(a.(net := Poisoned))
  {
    E.OutputsExact(WIRE, a.net, a.data, input);
    var step := HandleStep(WIRE, a.net, a.data, input, 16);
    if step.Next? {
      AnnouncesIn(step.outputs);
    }
  }

  lemma AnnouncesIn(outs: seq<Output>)
    ensures Announces(outs) <==> Event(AuthenticatedEvent) in outs
  {
  }

  // ---------------------------------------------------------------- presenting

  lemma {:induction false} RunSnoc(other: OtherBodies, a: App, inputs: seq<AppInput>, input: AppInput)
    ensures AppRun(other, a, inputs + [input]) == InputStep(other, AppRun(other, a, inputs), input).next
    decreases |inputs|
  {
    if inputs == [] {
      assert inputs + [input] == [input] && [input][1..] == [];
    } else {
      assert (inputs + [input])[1..] == inputs[1..] + [input];
      RunSnoc(other, InputStep(other, a, inputs[0]).next, inputs[1..], input);
    }
  }

  /** Bytes that decode as a start response with result 1. */
  predicate Starts(other: OtherBodies, input: AppInput) {
    && input.Transport? && input.input.DataReceived? && AppDecode(other, input.input.bytes).Ok?
    && AppDecode(other, input.input.bytes).value.StartResponseMsg?
    && AppDecode(other, input.input.bytes).value.startResponse.result == 1
  }

  predicate Terminates(other: OtherBodies, input: AppInput) {
    && input.Transport? && input.input.DataReceived? && AppDecode(other, input.input.bytes).Ok?
    && AppDecode(other, input.input.bytes).value.TerminationEventMsg?
  }

  /** The input ends a presentation: a termination event, or the authentication itself. */
  predicate Ends(other: OtherBodies, before: App, input: AppInput) {
    Terminates(other, input) || (before.net != Authenticated && InputStep(other, before, input).next.net == Authenticated)
  }

  lemma PresentingStep(other: OtherBodies, a: App, input: AppInput)
    ensures InputStep(other, a, input).next.app == Presenting
       <==> Starts(other, input) || (a.app == Presenting && !Ends(other, a, input))
  {
    if IsCommand(input) {
      CommandIsStep(other, a, input);
    } else if input.input.DataReceived? && AppDecode(other, input.input.bytes).Ok? {
      ArrivalExact(other, a, input.input.stream, input.input.bytes);
    } else {
      NetworkExact(other, a, input.input);
    }
  }

  /** Input `i` started a presentation that no later one has ended. */
  ghost predicate StartedAt(other: OtherBodies, a: App, inputs: seq<AppInput>, i: int) {
    && 0 <= i < |inputs| && Starts(other, inputs[i])
    && forall j :: i < j < |inputs| ==> !Ends(other, AppRun(other, a, inputs[..j]), inputs[j])
  }

  lemma StartedSnoc(other: OtherBodies, a: App, inputs: seq<AppInput>, input: AppInput, i: int)
    ensures StartedAt(other, a, inputs + [input], i) <==>
            if i == |inputs| then Starts(other, input)
            else StartedAt(other, a, inputs, i) && !Ends(other, AppRun(other, a, inputs), input)
  {
    var more := inputs + [input];
    assert more[..|inputs|] == inputs;
    assert forall j :: 0 <= j < |inputs| ==> more[..j] == inputs[..j] && more[j] == inputs[j];
    if 0 <= i < |inputs| && StartedAt(other, a, more, i) {
      forall j | i < j < |inputs| ensures !Ends(other, AppRun(other, a, inputs[..j]), inputs[j]) {
        assert !Ends(other, AppRun(other, a, more[..j]), more[j]);
      }
      assert !Ends(other, AppRun(other, a, more[..|inputs|]), more[|inputs|]);
    }
    if StartedAt(other, a, inputs, i) && !Ends(other, AppRun(other, a, inputs), input) {
      forall j | i < j < |more| ensures !Ends(other, AppRun(other, a, more[..j]), more[j]) {
        if j < |inputs| {
          assert !Ends(other, AppRun(other, a, inputs[..j]), inputs[j]);
        }
      }
    }
  }

  /** When the layer presents, in any run from a fresh one: exactly when a successful start
      response has arrived and neither a termination event nor the authentication came after. */
  lemma {:induction false} PresentingExactly(other: OtherBodies, config: Config, inputs: seq<AppInput>)
    ensures AppRun(other, Fresh(config), inputs).app == Presenting <==> exists i :: StartedAt(other, Fresh(config), inputs, i)
    decreases |inputs|
  {
    if inputs != [] {
      var init, last := inputs[..|inputs| - 1], inputs[|inputs| - 1];
      var a := AppRun(other, Fresh(config), init);
      assert inputs == init + [last];
      PresentingExactly(other, config, init);
      RunSnoc(other, Fresh(config), init, last);
      PresentingStep(other, a, last);
      forall i ensures StartedAt(other, Fresh(config), inputs, i) <==>
                       if i == |init| then Starts(other, last)
                       else StartedAt(other, Fresh(config), init, i) && !Ends(other, a, last)
      {
        StartedSnoc(other, Fresh(config), init, last, i);
      }
      if Starts(other, last) {
        assert StartedAt(other, Fresh(config), inputs, |init|);
      }
    }
  }
}
