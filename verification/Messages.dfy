/** The four authentication messages: a variable-length type key followed by one CBOR
    map, whose entries a decoder takes in any order. */
module Messages {
  import opened Basics
  import opened VarInt
  import opened Cbor
  import opened Parsing

  const MAX_MESSAGE_SIZE := 1024
  const MAX_STRING_LEN := 256
  const MAX_BYTES_LEN := 64
  const MAX_METHODS := 8
  const U32 := 0x1_0000_0000

  const CAPABILITIES_KEY: u16 := 1001
  const NEED_KEY: u16 := 1002
  const CONFIRMATION_KEY: u16 := 1003
  const STATUS_KEY: u16 := 1004
  const HANDSHAKE_KEY: u16 := 1005

  // ---------------------------------------------------------------- message values

  datatype PskStatus = PskNeedsPresentation | PskShown | PskInput {
    function Code(): nat {
      match this
      case PskNeedsPresentation => 0
      case PskShown => 1
      case PskInput => 2
    }

    static function FromCode(n: nat): Result<PskStatus, MessageError> {
      match n
      case 0 => Ok(PskNeedsPresentation)
      case 1 => Ok(PskShown)
      case 2 => Ok(PskInput)
      case _ => Err(InvalidField)
    }
  }

  datatype PskInputEase = Unknown | Simple | Moderate | Hard {
    function Code(): nat {
      match this
      case Unknown => 0
      case Simple => 1
      case Moderate => 2
      case Hard => 3
    }

    static function FromCode(n: nat): Result<PskInputEase, MessageError> {
      match n
      case 0 => Ok(Unknown)
      case 1 => Ok(Simple)
      case 2 => Ok(Moderate)
      case 3 => Ok(Hard)
      case _ => Err(InvalidField)
    }
  }

  datatype PskInputMethod = Numeric | QrCode | Nfc {
    function Code(): nat {
      match this
      case Numeric => 0
      case QrCode => 1
      case Nfc => 2
    }

    static function FromCode(n: nat): Result<PskInputMethod, MessageError> {
      match n
      case 0 => Ok(Numeric)
      case 1 => Ok(QrCode)
      case 2 => Ok(Nfc)
      case _ => Err(InvalidField)
    }
  }

  datatype StatusCode =
    | StatusOk
    | AuthenticationFailed
    | UnknownError
    | Timeout
    | SecretUnknown
    | ProofInvalid
  {
    function Code(): nat {
      match this
      case StatusOk => 0
      case AuthenticationFailed => 1
      case UnknownError => 2
      case Timeout => 3
      case SecretUnknown => 4
      case ProofInvalid => 5
    }

    static function FromCode(n: nat): Result<StatusCode, MessageError> {
      match n
      case 0 => Ok(StatusOk)
      case 1 => Ok(AuthenticationFailed)
      case 2 => Ok(UnknownError)
      case 3 => Ok(Timeout)
      case 4 => Ok(SecretUnknown)
      case 5 => Ok(ProofInvalid)
      case _ => Err(InvalidField)
    }
  }

  datatype Capabilities = Capabilities(ease: PskInputEase, methods: seq<PskInputMethod>, minBits: nat)

  datatype Handshake = Handshake(token: Option<Bytes>, status: PskStatus, publicValue: Bytes)

  datatype Message =
    | CapabilitiesMsg(caps: Capabilities)
    | HandshakeMsg(handshake: Handshake)
    | ConfirmationMsg(value: Bytes)
    | StatusMsg(code: StatusCode)

  /** What the types of the original guarantee about a message: the sizes that fit the
      machine, at most eight input methods, and a token that is a string. */
  predicate WellTyped(m: Message) {
    match m
    case CapabilitiesMsg(c) => |c.methods| <= MAX_METHODS && c.minBits < U32
    case HandshakeMsg(h) =>
      && |h.publicValue| < U64
      && (h.token.Some? ==> |h.token.value| < U64 && ValidUtf8(h.token.value))
    case ConfirmationMsg(v) => |v| < U64
    case StatusMsg(_) => true
  }

  /** The field lengths the decoder accepts. */
  predicate WithinLimits(m: Message) {
    m.HandshakeMsg? ==>
      && |m.handshake.publicValue| <= MAX_BYTES_LEN
      && (m.handshake.token.Some? ==> |m.handshake.token.value| <= MAX_STRING_LEN)
  }

  // ---------------------------------------------------------------- encoding

  function MethodBytes(methods: seq<PskInputMethod>): Bytes {
    if methods == [] then [] else EncodeUint(methods[0].Code()) + MethodBytes(methods[1..])
  }

  function MethodsEntry(methods: seq<PskInputMethod>): Bytes {
    if methods == [] then []
    else EncodeUint(1) + EncodeHead(ARRAY, |methods|) + MethodBytes(methods)
  }

  function CapabilitiesBody(c: Capabilities): Bytes {
    EncodeHead(MAP, if c.methods == [] then 2 else 3)
    + ((EncodeUint(0) + EncodeUint(c.ease.Code()))
    + (MethodsEntry(c.methods)
    + (EncodeUint(2) + EncodeUint(c.minBits))))
  }

  /** One entry of the handshake map. */
  datatype Field =
    | TokenField(token: Option<Bytes>)
    | StatusField(status: PskStatus)
    | PublicField(publicValue: Bytes)

  function TokenBytes(token: Option<Bytes>): Bytes {
    match token
    case None => EncodeHead(MAP, 0)
    case Some(t) => EncodeHead(MAP, 1) + EncodeUint(0) + EncodeStr(t)
  }

  function FieldBytes(f: Field): Bytes {
    match f
    case TokenField(t) => EncodeUint(0) + TokenBytes(t)
    case StatusField(s) => EncodeUint(1) + EncodeUint(s.Code())
    case PublicField(p) => EncodeUint(2) + EncodeBytes(p)
  }

  function FieldsOf(h: Handshake): (fs: seq<Field>)
    ensures |fs| == 3
  {
    [TokenField(h.token), StatusField(h.status), PublicField(h.publicValue)]
  }

  function HandshakeBody(h: Handshake): Bytes {
    EncodeHead(MAP, 3) + Concat(FieldBytes, FieldsOf(h))
  }

  function ConfirmationBody(value: Bytes): Bytes {
    EncodeHead(MAP, 1) + (EncodeUint(0) + EncodeBytes(value))
  }

  function StatusBody(code: StatusCode): Bytes {
    EncodeHead(MAP, 1) + (EncodeUint(0) + EncodeUint(code.Code()))
  }

  function BodyBytes(m: Message): Bytes {
    match m
    case CapabilitiesMsg(c) => CapabilitiesBody(c)
    case HandshakeMsg(h) => HandshakeBody(h)
    case ConfirmationMsg(v) => ConfirmationBody(v)
    case StatusMsg(c) => StatusBody(c)
  }

  function KeyOf(m: Message): u16 {
    match m
    case CapabilitiesMsg(_) => CAPABILITIES_KEY
    case HandshakeMsg(_) => HANDSHAKE_KEY
    case ConfirmationMsg(_) => CONFIRMATION_KEY
    case StatusMsg(_) => STATUS_KEY
  }

  /** The bytes of a message on the wire: type key, then the CBOR map. */
  function Encode(m: Message): Bytes {
    TypeKey(KeyOf(m)) + BodyBytes(m)
  }

  // ---------------------------------------------------------------- decoding: handshake

  function ParseToken(s: Bytes): (r: Parse<Option<Bytes>>)
    ensures r.Ok? && r.value.0.Some? ==> ValidUtf8(r.value.0.value) && |r.value.0.value| <= MAX_STRING_LEN
  {
    match ParseMap(s)
    case None => Err(DecodeFailed)
    case Some((Some(1), s1)) =>
      (match ParseU8(s1)
       case None => Err(DecodeFailed)
       case Some((key, s2)) =>
         if key != 0 then Err(InvalidField)
         else match ParseStr(s2)
              case None => Err(DecodeFailed)
              case Some((t, s3)) => if |t| > MAX_STRING_LEN then Err(FieldTooLong) else Ok((Some(t), s3)))
    case Some((Some(0), s1)) => Ok((None, s1))
    case Some(_) => Err(InvalidField)
  }

  function ParseField(s: Bytes): (r: Parse<Field>) {
    match ParseU8(s)
    case None => Err(DecodeFailed)
    case Some((0, s1)) =>
      (match ParseToken(s1)
       case Err(e) => Err(e)
       case Ok((t, s2)) => Ok((TokenField(t), s2)))
    case Some((1, s1)) =>
      (match ParseU8(s1)
       case None => Err(DecodeFailed)
       case Some((n, s2)) =>
         match PskStatus.FromCode(n)
         case Err(e) => Err(e)
         case Ok(status) => Ok((StatusField(status), s2)))
    case Some((2, s1)) =>
      (match ParseBytes(s1)
       case None => Err(DecodeFailed)
       case Some((p, s2)) => if |p| > MAX_BYTES_LEN then Err(FieldTooLong) else Ok((PublicField(p), s2)))
    case Some(_) => Err(InvalidField)
  }

  /** The three local variables the decoding loop fills in; a repeated key overwrites. */
  datatype Fields = Fields(token: Option<Option<Bytes>>, status: Option<PskStatus>, publicValue: Option<Bytes>)

  function Put(acc: Fields, f: Field): Fields {
    match f
    case TokenField(t) => acc.(token := Some(t))
    case StatusField(s) => acc.(status := Some(s))
    case PublicField(p) => acc.(publicValue := Some(p))
  }

  const NO_FIELDS := Fields(None, None, None)

  /** The body of the decoding loop. */
  function FieldStep(s: Bytes, acc: Fields): Parse<Fields> {
    match ParseField(s)
    case Err(e) => Err(e)
    case Ok((f, s1)) => Ok((Put(acc, f), s1))
  }

  function Complete(acc: Fields): Result<Handshake, MessageError> {
    if acc.token.None? || acc.status.None? || acc.publicValue.None? then Err(MissingField)
    else Ok(Handshake(acc.token.value, acc.status.value, acc.publicValue.value))
  }

  function ParseHandshakeBody(s: Bytes): Parse<Handshake> {
    match ParseMap(s)
    case None => Err(DecodeFailed)
    case Some((len, s1)) =>
      if len != Some(3) then Err(InvalidField)
      else match Repeat(FieldStep, s1, 3, NO_FIELDS)
           case Err(e) => Err(e)
           case Ok((acc, rest)) =>
             match Complete(acc)
             case Err(e) => Err(e)
             case Ok(h) => Ok((h, rest))
  }

  // ---------------------------------------------------------------- decoding: the others

  function MethodStep(s: Bytes, methods: seq<PskInputMethod>): Parse<seq<PskInputMethod>> {
    match ParseU8(s)
    case None => Err(DecodeFailed)
    case Some((code, s1)) =>
      match PskInputMethod.FromCode(code)
      case Err(e) => Err(e)
      case Ok(m) => if |methods| >= MAX_METHODS then Err(BufferFull) else Ok((methods + [m], s1))
  }

  datatype CapsFields = CapsFields(ease: Option<PskInputEase>, methods: seq<PskInputMethod>, minBits: Option<nat>)

  function CapsStep(s: Bytes, acc: CapsFields): Parse<CapsFields> {
    match ParseU8(s)
    case None => Err(DecodeFailed)
    case Some((0, s1)) =>
      (match ParseU8(s1)
       case None => Err(DecodeFailed)
       case Some((n, s2)) =>
         match PskInputEase.FromCode(n)
         case Err(e) => Err(e)
         case Ok(ease) => Ok((acc.(ease := Some(ease)), s2)))
    case Some((1, s1)) =>
      (match ParseArray(s1)
       case None => Err(DecodeFailed)
       case Some((None, s2)) => Ok((acc, s2)) // an indefinite-length array is not entered
       case Some((Some(n), s2)) =>
         match Repeat(MethodStep, s2, n, acc.methods)
         case Err(e) => Err(e)
         case Ok((methods, s3)) => Ok((acc.(methods := methods), s3)))
    case Some((2, s1)) =>
      (match ParseUint(s1, U32)
       case None => Err(DecodeFailed)
       case Some((n, s2)) => Ok((acc.(minBits := Some(n)), s2)))
    case Some(_) => Err(InvalidField)
  }

  function ParseCapabilitiesBody(s: Bytes): Parse<Capabilities> {
    match ParseMap(s)
    case None => Err(DecodeFailed)
    case Some((len, s1)) =>
      if len != Some(2) && len != Some(3) then Err(InvalidField)
      else match Repeat(CapsStep, s1, len.value, CapsFields(None, [], None))
           case Err(e) => Err(e)
           case Ok((acc, rest)) =>
             if acc.ease.None? || acc.minBits.None? then Err(MissingField)
             else Ok((Capabilities(acc.ease.value, acc.methods, acc.minBits.value), rest))
  }

  /** The entry key of the two single-entry messages. */
  function ParseOnlyKey(s: Bytes): Result<Bytes, MessageError> {
    match ParseMap(s)
    case None => Err(DecodeFailed)
    case Some((len, s1)) =>
      if len != Some(1) then Err(InvalidField)
      else match ParseU8(s1)
           case None => Err(DecodeFailed)
           case Some((key, s2)) => if key != 0 then Err(InvalidField) else Ok(s2)
  }

  function ParseConfirmationBody(s: Bytes): Parse<Bytes> {
    match ParseOnlyKey(s)
    case Err(e) => Err(e)
    case Ok(s1) =>
      match ParseBytes(s1)
      case None => Err(DecodeFailed)
      case Some((v, rest)) => Ok((v, rest))
  }

  function ParseStatusBody(s: Bytes): Parse<StatusCode> {
    match ParseOnlyKey(s)
    case Err(e) => Err(e)
    case Ok(s1) =>
      match ParseU8(s1)
      case None => Err(DecodeFailed)
      case Some((n, rest)) =>
        match StatusCode.FromCode(n)
        case Err(e) => Err(e)
        case Ok(code) => Ok((code, rest))
  }

  // ---------------------------------------------------------------- decoding: dispatch

  /** A decoding result; type key 1002 is known but its decoder aborts the program. */
  datatype Decoded = Got(msg: Message) | Bad(error: MessageError) | Unimplemented

  function DecodeBody(key: u16, body: Bytes): Decoded {
    if key == CAPABILITIES_KEY then
      match ParseCapabilitiesBody(body)
      case Err(e) => Bad(e)
      case Ok((c, _)) => Got(CapabilitiesMsg(c))
    else if key == HANDSHAKE_KEY then
      match ParseHandshakeBody(body)
      case Err(e) => Bad(e)
      case Ok((h, _)) => Got(HandshakeMsg(h))
    else if key == CONFIRMATION_KEY then
      match ParseConfirmationBody(body)
      case Err(e) => Bad(e)
      case Ok((v, _)) => Got(ConfirmationMsg(v))
    else if key == STATUS_KEY then
      match ParseStatusBody(body)
      case Err(e) => Bad(e)
      case Ok((c, _)) => Got(StatusMsg(c))
    else if key == NEED_KEY then Unimplemented
    else Bad(InvalidMessageType)
  }

  /** The dispatcher over all five type keys. */
  function Decode(data: Bytes): Decoded {
    match DecodeTypeKey(data)
    case Err(e) => Bad(e)
    case Ok((key, n)) => DecodeBody(key, data[n..])
  }

  /** The decoder of one message type: any other key is an error. */
  function DecodeOnly(want: u16, data: Bytes): Decoded {
    match DecodeTypeKey(data)
    case Err(e) => Bad(e)
    case Ok((key, n)) => if key != want then Bad(InvalidMessageType) else DecodeBody(key, data[n..])
  }
}
