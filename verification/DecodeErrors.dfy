/** How decoding fails: which error each malformed input gives, in both layers. */
module DecodeErrors {
  import opened Basics
  import opened VarInt
  import opened Cbor
  import opened Parsing
  import opened FlatMaps
  import opened AppMessages
  import M = Messages
  import W = WireBytes

  // ---------------------------------------------------------------- loops

  /** The loop body fails with `e` on what is left after `k` entries. */
  ghost predicate FailsAt<A(!new)>(step: (Bytes, A) -> Parse<A>, s: Bytes, acc: A, k: nat, e: MessageError) {
    Repeat(step, s, k, acc).Ok? && step(Repeat(step, s, k, acc).value.1, Repeat(step, s, k, acc).value.0) == Err(e)
  }

  /** A decoding loop fails with the error of the first entry it cannot take, and only then. */
  lemma {:induction false} LoopErrorExact<A(!new)>(step: (Bytes, A) -> Parse<A>, s: Bytes, n: nat, acc: A, e: MessageError)
    ensures Repeat(step, s, n, acc) == Err(e) <==> exists k: nat :: k < n && FailsAt(step, s, acc, k, e)
    decreases n
  {
    if n > 0 {
      match step(s, acc)
      case Err(e0) =>
        assert FailsAt(step, s, acc, 0, e0);
        forall k: nat | k < n && FailsAt(step, s, acc, k, e) ensures k == 0 && e == e0 {
        }
      case Ok((acc1, s1)) =>
        LoopErrorExact(step, s1, n - 1, acc1, e);
        forall k: nat ensures FailsAt(step, s, acc, k + 1, e) <==> FailsAt(step, s1, acc1, k, e) {
          RepeatStep(step, s, k + 1, acc, s1, acc1);
        }
        if exists k: nat :: k < n && FailsAt(step, s, acc, k, e) {
          var k: nat :| k < n && FailsAt(step, s, acc, k, e);
          assert k > 0;
          assert FailsAt(step, s, acc, (k - 1) + 1, e);
          assert FailsAt(step, s1, acc1, k - 1, e);
        }
        if exists k: nat :: k < n - 1 && FailsAt(step, s1, acc1, k, e) {
          var k: nat :| k < n - 1 && FailsAt(step, s1, acc1, k, e);
          assert FailsAt(step, s, acc, k + 1, e);
        }
    }
  }

  /** Of what kind the map is: none at all, of the wrong size, or of a size allowed. */
  datatype Shape3 = NotAMap | WrongSize | Sized(n: nat, rest: Bytes)

  function MapOf(s: Bytes, sizes: set<nat>): Shape3 {
    match ParseMap(s)
    case Some((Some(n), rest)) => if n in sizes then Sized(n, rest) else WrongSize
    case Some((None, _)) => WrongSize
    case None => NotAMap
  }

  // ---------------------------------------------------------------- authentication messages

  /** One handshake entry. */
  lemma FieldErrors(s: Bytes)
    ensures M.ParseField(s).Err? ==> M.ParseField(s).error in {DecodeFailed, InvalidField, FieldTooLong}
    ensures M.ParseField(s) == Err(FieldTooLong) <==>
            && ParseU8(s).Some?
            && var (key, s1) := ParseU8(s).value;
               || (key == 0 && LongToken(s1))
               || (key == 2 && ParseBytes(s1).Some? && |ParseBytes(s1).value.0| > 64)
    ensures M.ParseField(s) == Err(InvalidField) <==>
            && ParseU8(s).Some?
            && var (key, s1) := ParseU8(s).value;
               || key > 2
               || (key == 0 && BadToken(s1))
               || (key == 1 && ParseU8(s1).Some? && ParseU8(s1).value.0 > 2)
  {
  }

  predicate LongToken(s: Bytes) {
    match MapOf(s, {1})
    case Sized(_, s1) => ParseU8(s1).Some? && ParseU8(s1).value.0 == 0 && ParseStr(ParseU8(s1).value.1).Some?
                         && |ParseStr(ParseU8(s1).value.1).value.0| > 256
    case _ => false
  }

  predicate BadToken(s: Bytes) {
    match MapOf(s, {0, 1})
    case NotAMap => false
    case WrongSize => true
    case Sized(n, s1) => n == 1 && ParseU8(s1).Some? && ParseU8(s1).value.0 != 0
  }

  /** A handshake body: the map, the first entry that fails, a field that is missing. */
  lemma HandshakeErrors(s: Bytes)
    ensures match MapOf(s, {3})
            case NotAMap => M.ParseHandshakeBody(s) == Err(DecodeFailed)
            case WrongSize => M.ParseHandshakeBody(s) == Err(InvalidField)
            case Sized(n, s1) =>
              var loop := Repeat(M.FieldStep, s1, n, M.NO_FIELDS);
              && (loop.Err? ==> M.ParseHandshakeBody(s) == Err(loop.error))
              && (loop.Ok? && (loop.value.0.token.None? || loop.value.0.status.None? || loop.value.0.publicValue.None?)
                  ==> M.ParseHandshakeBody(s) == Err(MissingField))
  {
  }

  /** Confirmation and status: a map of one entry under key 0. */
  lemma ShortErrors(s: Bytes)
    ensures match MapOf(s, {1})
            case NotAMap => M.ParseConfirmationBody(s) == Err(DecodeFailed) && M.ParseStatusBody(s) == Err(DecodeFailed)
            case WrongSize => M.ParseConfirmationBody(s) == Err(InvalidField) && M.ParseStatusBody(s) == Err(InvalidField)
            case Sized(_, s1) =>
              match ParseU8(s1)
              case None => M.ParseConfirmationBody(s) == Err(DecodeFailed) && M.ParseStatusBody(s) == Err(DecodeFailed)
              case Some((key, s2)) =>
                if key != 0 then M.ParseConfirmationBody(s) == Err(InvalidField) && M.ParseStatusBody(s) == Err(InvalidField)
                else
                  && (ParseBytes(s2).None? ==> M.ParseConfirmationBody(s) == Err(DecodeFailed))
                  && (ParseU8(s2).None? ==> M.ParseStatusBody(s) == Err(DecodeFailed))
                  && (ParseU8(s2).Some? && ParseU8(s2).value.0 > 5 ==> M.ParseStatusBody(s) == Err(InvalidField))
  {
  }

  /** Capabilities: an entry, then the map. */
  lemma CapabilitiesErrors(s: Bytes, acc: M.CapsFields)
    ensures match ParseU8(s)
            case None => M.CapsStep(s, acc) == Err(DecodeFailed)
            case Some((0, s1)) =>
              (ParseU8(s1).None? ==> M.CapsStep(s, acc) == Err(DecodeFailed))
              && (ParseU8(s1).Some? && ParseU8(s1).value.0 > 3 ==> M.CapsStep(s, acc) == Err(InvalidField))
            case Some((1, s1)) => ParseArray(s1).None? ==> M.CapsStep(s, acc) == Err(DecodeFailed)
            case Some((2, s1)) => ParseUint(s1, 0x1_0000_0000).None? ==> M.CapsStep(s, acc) == Err(DecodeFailed)
            case Some(_) => M.CapsStep(s, acc) == Err(InvalidField)
    ensures match MapOf(s, {2, 3})
            case NotAMap => M.ParseCapabilitiesBody(s) == Err(DecodeFailed)
            case WrongSize => M.ParseCapabilitiesBody(s) == Err(InvalidField)
            case Sized(n, s1) =>
              var loop := Repeat(M.CapsStep, s1, n, M.CapsFields(None, [], None));
              && (loop.Err? ==> M.ParseCapabilitiesBody(s) == Err(loop.error))
              && (loop.Ok? && (loop.value.0.ease.None? || loop.value.0.minBits.None?) ==> M.ParseCapabilitiesBody(s) == Err(MissingField))
  {
  }

  /** An input method: an unknown code, or one more than eight. */
  lemma MethodErrors(s: Bytes, methods: seq<M.PskInputMethod>)
    ensures ParseU8(s).None? ==> M.MethodStep(s, methods) == Err(DecodeFailed)
    ensures ParseU8(s).Some? && ParseU8(s).value.0 > 2 ==> M.MethodStep(s, methods) == Err(InvalidField)
    ensures ParseU8(s).Some? && ParseU8(s).value.0 <= 2 ==>
            (M.MethodStep(s, methods) == Err(BufferFull) <==> |methods| >= 8) && (M.MethodStep(s, methods).Ok? <==> |methods| < 8)
  {
  }

  // ---------------------------------------------------------------- application messages

  /** The keys of an entry: unreadable, or none of the map's. */
  lemma EntryKeyErrors(s: Bytes, a: AgentLocals, b: StartLocals)
    ensures ParseU8(s).None? ==>
            && AgentStep(s, a) == Err(DecodeFailed) && StartStep(s, b) == Err(DecodeFailed) && ParseUrlField(s) == Err(DecodeFailed)
            && ParseOpenField(s) == Err(DecodeFailed) && ParseCloseField(s) == Err(DecodeFailed)
    ensures ParseU8(s).Some? ==>
            var key := ParseU8(s).value.0;
            && (key > 4 ==> AgentStep(s, a) == Err(InvalidField))
            && (key > 3 ==> StartStep(s, b) == Err(InvalidField) && ParseUrlField(s) == Err(InvalidField)
                            && ParseOpenField(s) == Err(InvalidField) && ParseCloseField(s) == Err(InvalidField))
  {
  }

  lemma FlatKeyErrors(table: Table, s: Bytes)
    ensures ParseU8(s).None? ==> ParseEntry(table, s) == Err(DecodeFailed)
    ensures ParseU8(s).Some? && table(ParseU8(s).value.0).None? ==> ParseEntry(table, s) == Err(InvalidField)
  {
  }

  /** One entry of each map whose entries are single values or arrays of their own. */
  lemma EntriesExact(s: Bytes, key: nat, s1: Bytes)
    requires ParseU8(s) == Some((key, s1))
    ensures key == 0 ==> ParseUrlField(s) == Store(ParseNumber(s1), n => UrlIdField(n))
    ensures key == 1 ==> ParseUrlField(s) == Store(ParseList(ParseAnyText, 16, s1), us => UrlsField(us))
    ensures key == 2 ==> ParseUrlField(s) == Store(ParseNumber(s1), n => DurationField(n))
    ensures key == 3 ==> ParseUrlField(s) == Store(ParseNumber(s1), n => WatchField(n))
    ensures key == 0 ==> ParseOpenField(s) == Store(ParseNumber(s1), n => OpenIdField(n))
    ensures key == 2 ==> ParseOpenField(s) == Store(ParseNumber(s1), n => OpenConnectionField(n))
    ensures key == 3 ==> ParseOpenField(s) == Store(ParseNumber(s1), n => OpenCountField(n))
    ensures key == 0 ==> ParseCloseField(s) == Store(ParseNumber(s1), n => CloseConnectionField(n))
    ensures key == 2 ==> ParseCloseField(s) == Store(ParseAnyText(s1), t => ErrorField(t))
    ensures key == 3 ==> ParseCloseField(s) == Store(ParseNumber(s1), n => CloseCountField(n))
  {
  }

  /** A map that is none, of the wrong size, or without a field it must have. */
  lemma MapErrors(s: Bytes)
    ensures MapOf(s, {4}).NotAMap? ==>
            && ParseStartRequest(s) == Err(DecodeFailed) && ParseUrlRequest(s) == Err(DecodeFailed)
            && ParseOpenResponse(s) == Err(DecodeFailed) && ParseCloseEvent(s) == Err(DecodeFailed)
            && ParseAgent(s) == Err(DecodeFailed) && ParseAgentInfoResponse(s) == Err(DecodeFailed) && ParseInfoRequest(s) == Err(DecodeFailed)
    ensures MapOf(s, {4}).WrongSize? ==>
            ParseStartRequest(s) == Err(InvalidField) && ParseUrlRequest(s) == Err(InvalidField) && ParseOpenResponse(s) == Err(InvalidField)
    ensures MapOf(s, {3, 4}).WrongSize? ==> ParseCloseEvent(s) == Err(InvalidField)
    ensures MapOf(s, {5}).WrongSize? ==> ParseAgent(s) == Err(InvalidField)
    ensures MapOf(s, {2}).WrongSize? ==> ParseAgentInfoResponse(s) == Err(InvalidField)
    ensures MapOf(s, {1}).WrongSize? ==> ParseInfoRequest(s) == Err(InvalidField)
  {
  }

  lemma FlatMapErrors(s: Bytes)
    ensures MapOf(s, {2}).NotAMap? ==>
            && ParseConnectionMap(s) == Err(DecodeFailed) && ParseStartResponseMap(s) == Err(DecodeFailed)
            && ParseTerminationRequestMap(s) == Err(DecodeFailed) && ParseTerminationEventMap(s) == Err(DecodeFailed)
            && ParseOpenRequestMap(s) == Err(DecodeFailed) && ParseStatusMap(s) == Err(DecodeFailed)
    ensures MapOf(s, {2}).WrongSize? ==> ParseConnectionMap(s) == Err(InvalidField)
    ensures MapOf(s, {3, 4}).WrongSize? ==> ParseStartResponseMap(s) == Err(InvalidField)
    ensures MapOf(s, {3}).WrongSize? ==>
            && ParseTerminationRequestMap(s) == Err(InvalidField) && ParseTerminationEventMap(s) == Err(InvalidField)
            && ParseOpenRequestMap(s) == Err(InvalidField)
    ensures ParseMap(s).Some? && ParseMap(s).value.0.None? ==> ParseStatusMap(s) == Err(DecodeFailed)
  {
  }

  /** Each mandatory variable that was not filled makes the decoder report it missing. */
  lemma MissingFields(a: AgentLocals, b: StartLocals, c: UrlLocals, d: OpenLocals, e: CloseLocals)
    ensures AgentComplete(a) == Err(MissingField) <==> a.name.None? || a.model.None? || a.stateToken.None?
    ensures StartComplete(b) == Err(MissingField) <==> b.requestId.None? || b.presentationId.None? || b.url.None?
    ensures UrlComplete(c) == Err(MissingField) <==> c.requestId.None? || c.urls.None? || c.watchDuration.None? || c.watchId.None?
    ensures OpenComplete(d) == Err(MissingField) <==>
            d.requestId.None? || d.result.None? || d.connectionId.None? || d.connectionCount.None?
    ensures CloseComplete(e) == Err(MissingField) <==> e.connectionId.None? || e.reason.None? || e.connectionCount.None?
  {
  }

  lemma FlatMissingFields(l: Locals)
    ensures StatusComplete(l) == (if NumberAt(l, 0).None? then Err(MissingField) else Ok(StatusRequest(NumberAt(l, 0).value, StatusAt(l, 1))))
    ensures ConnectionComplete(l) == Err(MissingField) <==> NumberAt(l, 0).None? || BlobAt(l, 1).None?
    ensures StartResponseComplete(l) == Err(MissingField) <==> NumberAt(l, 0).None? || NumberAt(l, 1).None? || NumberAt(l, 2).None?
    ensures TerminationRequestComplete(l) == Err(MissingField) <==> NumberAt(l, 0).None? || TextAt(l, 1).None? || NumberAt(l, 2).None?
    ensures TerminationEventComplete(l) == Err(MissingField) <==> TextAt(l, 0).None? || NumberAt(l, 1).None? || NumberAt(l, 2).None?
    ensures OpenRequestComplete(l) == Err(MissingField) <==> NumberAt(l, 0).None? || TextAt(l, 1).None? || TextAt(l, 2).None?
  {
  }

  /** A type key of neither eighteen is refused as such, one that cannot be read as
      undecodable. */
  lemma AppKeyErrors(other: OtherBodies, data: Bytes)
    ensures DecodeVarInt(data).None? ==> AppDecode(other, data) == Err(DecodeFailed)
    ensures DecodeVarInt(data).Some? && !KnownKey(DecodeVarInt(data).value.0) ==> AppDecode(other, data) == Err(InvalidMessageType)
  {
  }

  predicate KnownKey(x: nat) {
    x in {10, 11, 12, 13, 14, 15, 16, 103, 104, 105, 106, 107, 108, 109, 110, 113, 120, 121}
  }
}
