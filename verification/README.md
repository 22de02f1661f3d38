# Verification of the OpenScreen authentication stack

This project models, in Dafny, how two OpenScreen endpoints authenticate each other, and
proves what that protocol promises in every run. It covers the wire format, the SPAKE2
state machine with its buffers, the crypto provider, the two QUIC drivers that feed the
machine, the two-endpoint system they form, and the application layer on top.

Verify it with `dafny verify dfyconfig.toml`.

## How it is organised

Each layer has the code's own form (classes with buffers updated in place, loops over a
moving cursor) proved equal to a function, and the theorems are about the functions.

- `Basics`, `VarInt`, `Cbor`, `Parsing`: bytes, the bounded buffer, the variable-length
  integer of section 16 of RFC 9000, the subset of RFC 8949 in use, and what can be said of
  any decoding loop.
- `Messages`, `MessageCodec`, `MessageTheorems`: the four authentication messages; the
  code's encoders and decoders; round trips, order independence, prefix-freeness.
- `Forms`, `WireBytes`, `DecodeErrors`: the formats byte by byte with every constant written
  out, what exactly is accepted, and which error each malformed input gives.
- `Machine`, `StateMachine`: the nine states as a function from state, buffers and input to
  a step, which succeeds, fails or aborts; the handlers and the coordinator as a class.
- `Provider`: the one-slot SPAKE2 session, the 128-byte result and its verification, over
  uninterpreted primitives.
- `Node`, `NodeInvariant`, `NodeProofs`, `NodeTheorems`: one endpoint with a log of all that
  crossed its boundary, under an arbitrary network and asynchronous crypto.
- `Errors`, `Reference`: each error of the machine with exactly the inputs that cause it; and
  the protocol of one endpoint stated without the machine, which every run follows.
- `Transcripts`: what one transcript says of two endpoints.
- `Race`: a confirmation that overtakes the finish.
- `TwoNodes`, `TwoNodesSafety`: an initiator and a responder over two FIFO channels, with
  arbitrary configurations and asynchronous crypto.
- `Honest`, `HonestSteps`, `Convergence`, `LostStatus`, `Drained`: the same two endpoints
  with one password and compatible tokens.
- `Fingerprints`: what depends on the certificate fingerprints.
- `Drivers`, `Server`, `Client`: the output handling of the two connection drivers; `Joined`:
  the two of them fed each other's streams.
- `Arrivals`: what an arrival does to a driver.
- `Program`: the theorems at the wire format of the program.
- `FlatMaps`, `AppMessages`, `AppCodec`, `AppTheorems`, `Exactness`, `AppBytes`, `AppLimits`:
  application messages with nested loops, optional fields and order-free maps, their bytes and
  limits, what exactly decodes, and the dispatcher over all eighteen type keys.
- `Application`, `ApplicationTheorems`, `AppReference`: routing between the two layers,
  commands, the application state and the request ids.

## What it rests on

- SPAKE2, HKDF and HMAC are uninterpreted functions. `Provider.Sized` states their output
  lengths, and `Provider.Agrees` that two sessions with one password, in opposite roles, end
  with one secret. Nothing is claimed about their strength. The nonce of an endpoint stands
  for its randomness.
- Constant-time comparison is equality.
- The configuration is fixed once the transport is connected, as both drivers do it.
- The machine and the run theorems are stated over any wire format (`Machine.Codec`);
  `TwoNodes.Faithful` says what the convergence theorems need of it, and
  `WireFaithful.WireIsFaithful` proves it of the program's own; `Program` has the results.
- After an error the machine is Poisoned and never reads its buffers again; of what they then
  hold the model says that it fits and, once the finish has been requested, that handshakes,
  public values and transcript are unchanged.

## Where the code and its documentation differ

- A handler error leaves the machine in `Poisoned`, not in `Failed`
  (`openscreen-network/src/state_machine/mod.rs:162-232`).
- The confirmation race is only half handled: an early confirmation is recovered from the
  buffer, an early status is not (`openscreen-network/src/state_machine/computing.rs:63-78`
  and `225-250`). `Convergence.AsynchronousConvergence` gives the exact condition and
  `LostStatus` the run; both drivers drain crypto after each delivery, and for them
  `Drained.DrainedConvergence` holds without condition.
- The provider assembles a context of the secret and both certificate fingerprints, which its
  comment says binds the exchange to the TLS certificates
  (`openscreen-crypto-rustcrypto/src/lib.rs:191-202`), and then uses it only for its length
  check. `Fingerprints.FinishIgnoresFingerprints` says exactly what depends on the
  fingerprints, `Fingerprints.FingerprintsDoNotMatter` lifts it to every run, and
  `Fingerprints.MismatchAuthenticates` has two endpoints with fingerprints that do not match
  authenticate each other.
- At the application layer only one direction holds: authenticated below implies authenticated
  above. Application messages are handled without asking the network machine
  (`openscreen-application/src/lib.rs:558-606`);
  `ApplicationTheorems.PresentingUnauthenticated` gives the bytes that show it and
  `ApplicationTheorems.SoundExactly` says exactly when the other direction holds.
- The application encoders accept texts that the decoders refuse
  (`openscreen-application/src/messages.rs:999-1072`): `ApplicationTheorems.SentRequestCarriesId`
  says which requests are read back.
- Both drivers decode an arriving message once for their log, and that decoder aborts on type
  key 1002 before the machine sees the bytes
  (`openscreen-quinn/src/server.rs:360-369`, `openscreen-network/src/messages.rs:623-625`).

## Model

| member | source | states |
|---|---|---|
| `VarInt.RoundTrip` | openscreen-common/src/quinn_varint/varint.rs:77-217 | every value below 2^62, encoded and followed by any bytes, decodes to itself having consumed exactly its size |
| `VarInt.EncodeShape` | openscreen-common/src/quinn_varint/varint.rs:203-216 | an encoding is the size tag and the top bits in one byte, then the rest big-endian |
| `VarInt.DecodedIsBounded` | openscreen-common/src/quinn_varint/varint.rs:165-201 | whatever decodes is below 2^62, takes the 1, 2, 4 or 8 bytes its top two bits select, and re-encodes in no more |
| `VarInt.CanonicalIffShortest` | openscreen-common/src/quinn_varint/varint.rs:77-217 | the bytes consumed are the value's own encoding if and only if they have its minimal size |
| `VarInt.DecodeFrom` | openscreen-common/src/quinn_varint/varint.rs:165-201 | the decoder over a moving cursor and a local array computes exactly that partial function, errors included |
| `VarInt.TypeKeyRoundTrip` | openscreen-common/src/type_key.rs:24-53 | a type key followed by any body is read back, with the length of its encoding |
| `VarInt.EncodeTypeKey` | openscreen-common/src/type_key.rs:24-36 | appends the type key or reports a full buffer, exactly when it does not fit |
| `VarInt.DecodeTypeKeyFrom` | openscreen-common/src/type_key.rs:46-53 | reads a key that fits 16 bits and how many bytes it took |
| `Forms.VarIntDecodesExactly` | openscreen-common/src/quinn_varint/varint.rs:165-201 | a variable-length integer decodes exactly if the bytes its first byte announces are there, shortest form or not, to the number they spell without the two top bits |
| `Forms.TypeKeyBytes` | openscreen-common/src/type_key.rs:24-36 | the bytes of every type key |
| `Forms.TypeKeyDecodesExactly` | openscreen-common/src/type_key.rs:46-53 | a type key of more than 16 bits is an unknown type, one cut short does not decode |
| `Forms.HeadBytes` | openscreen-network/src/messages.rs:325-363 | the bytes of every head, by size of its argument |
| `Forms.HeadDecodesExactly` | openscreen-network/src/messages.rs:378-438 | heads of every width are accepted, reserved ones are not, and the indefinite-length form has no argument (RFC 8949, section 3) |
| `Forms.ItemsExact` | openscreen-network/src/messages.rs:378-438 | major type 0 is read as an integer, 2 as bytes, 3 as text, 4 as an array and 5 as a map, and nothing else is |
| `Forms.Utf8Exact` | openscreen-network/src/messages.rs:378-438 | bytes are accepted as text if and only if they are the UTF-8 encoding of some sequence of Unicode scalar values |
| `Cbor.HeadRoundTrip` | openscreen-network/src/messages.rs:325-363 | the preferred head of a data item is read back (RFC 8949, sections 3.1 and 4.1) |
| `Cbor.StringRoundTrip` | openscreen-network/src/messages.rs:344-358 | a byte or text string followed by any bytes is read back |
| `Cbor.UintRoundTrip` | openscreen-network/src/messages.rs:349-353 | an unsigned integer within a width is read back by the reader of that width |
| `Parsing.ConcatReads` | openscreen-network/src/messages.rs:389-424 | the encodings of any list of entries, one after the other and followed by any bytes, are read as exactly those entries, if each entry alone is |
| `Parsing.LoopReads` | openscreen-network/src/messages.rs:389-424 | on input that reads as n entries the decoding loop consumes exactly them and stores each, in order |
| `Parsing.LoopHasRead` | openscreen-network/src/messages.rs:389-424 | conversely, whenever such a loop succeeds, it has parsed some n entries and stored them in that order |
| `Parsing.LoopExactly` | openscreen-network/src/messages.rs:262-309 | a loop whose arrays have a capacity succeeds with given variables if and only if the input starts with n entries that fit and those variables are the entries stored in order |
| `MessageTheorems.MessageRoundTrip` | openscreen-network/src/messages.rs:199-628 | every message within the decoder's limits, encoded and followed by any bytes, decodes to itself, through the dispatcher and through its own decoder |
| `MessageTheorems.KeySeparates` | openscreen-network/src/messages.rs:252-261 | an encoded message is refused by the decoder of every other type |
| `MessageTheorems.DecodedMessage` | openscreen-network/src/messages.rs:378-438 | whatever decodes carries the type key it was dispatched on, and is within the limits |
| `MessageTheorems.HandshakeOrderExact` | openscreen-network/src/messages.rs:378-438 | a handshake body decodes if and only if it is a three-entry map whose entries are, as a multiset, exactly the three fields of the result: nothing missing, nothing repeated |
| `MessageTheorems.Pigeonhole` | openscreen-network/src/messages.rs:426-437 | three stored entries fill all three fields if and only if they are a permutation of the three required ones |
| `MessageTheorems.AnyOrderDecodes` | openscreen-network/src/messages.rs:389-437 | every permutation of the three entries decodes to the same handshake |
| `MessageTheorems.CapabilitiesReadBack` | openscreen-network/src/messages.rs:203-309 | the capabilities map, with its optional array in the middle, is read back through both nested loops |
| `MessageTheorems.HandshakePrefixFree` | openscreen-network/src/messages.rs:329-363 | encoded handshakes are prefix-free: equal concatenations have equal handshakes and equal remainders |
| `MessageTheorems.TranscriptInjective` | openscreen-network/src/crypto_data.rs:65-77 | two encoded handshakes are determined by their concatenation: token, status and public value on both sides |
| `MessageTheorems.HandshakeLength` | openscreen-network/src/messages.rs:329-363 | a machine's own handshake is at most 141 bytes |
| `MessageTheorems.HandshakeLengthTight` | openscreen-network/src/messages.rs:329-363 | and 141 is reached |
| `MessageCodec.EncodeCapabilities` | openscreen-network/src/messages.rs:203-246 | appends exactly the encoding, or fails exactly when it does not fit |
| `MessageCodec.EncodeHandshake` | openscreen-network/src/messages.rs:329-363 | likewise |
| `MessageCodec.EncodeConfirmation` | openscreen-network/src/messages.rs:455-475 | likewise |
| `MessageCodec.EncodeStatus` | openscreen-network/src/messages.rs:522-542 | likewise |
| `MessageCodec.EncodeNetworkMessage` | openscreen-network/src/messages.rs:635-667 | succeeds exactly when the encoding fits 1024 bytes, and returns it |
| `MessageCodec.DecodeCapabilitiesBody` | openscreen-network/src/messages.rs:262-309 | the two nested loops compute the capabilities parser, error by error |
| `MessageCodec.DecodeHandshakeBody` | openscreen-network/src/messages.rs:378-438 | the loop with its three mutable locals computes the handshake parser, error by error |
| `MessageCodec.DecodeConfirmationBody` | openscreen-network/src/messages.rs:488-510 | computes the confirmation parser |
| `MessageCodec.DecodeStatusBody` | openscreen-network/src/messages.rs:555-573 | computes the status parser |
| `MessageCodec.DecodeMessage` | openscreen-network/src/messages.rs:604-627 | computes the dispatcher, with type key 1002 as an abort |
| `MessageCodec.DecodeMessageOnly` | openscreen-network/src/messages.rs:368-376 | computes the per-type decoder |
| `WireBytes.HandshakeBytes` | openscreen-network/src/messages.rs:329-363 | the bytes of every handshake: key 1005, three entries, status 0, 1 or 2 |
| `WireBytes.ConfirmationBytes` | openscreen-network/src/messages.rs:455-475 | the bytes of every confirmation: key 1003 |
| `WireBytes.StatusBytes` | openscreen-network/src/messages.rs:522-542 | the bytes of each of the six statuses: key 1004 |
| `WireBytes.CapabilitiesBytes` | openscreen-network/src/messages.rs:203-246 | the bytes of every capabilities message: key 1001, the methods only if there are any |
| `WireBytes.HandshakeInFull` | openscreen-network/src/messages.rs:329-438 | each status with a 32-byte public value, with and without a token: bytes, and what they decode to whatever follows |
| `WireBytes.ShortInFull` | openscreen-network/src/messages.rs:455-573 | a 32-byte confirmation and each status: bytes, and what they decode to |
| `WireBytes.CapabilitiesRead` | openscreen-network/src/messages.rs:203-309 | any capabilities are read back from those bytes, with each ease and each method |
| `WireBytes.CodesExact` | openscreen-network/src/messages.rs:90-185 | the codes of the four enumerations, both ways; every other number is refused |
| `WireBytes.FieldExact` | openscreen-network/src/messages.rs:389-424 | one handshake entry is an empty token map, a token of at most 256 bytes, one of three status codes or a public value of at most 64 bytes, and nothing else |
| `WireBytes.ShortBodiesExact` | openscreen-network/src/messages.rs:488-573 | a confirmation or a status is a map of one entry under key 0, and nothing else |
| `WireBytes.KeysExact` | openscreen-network/src/messages.rs:604-627 | five type keys are known, 1002 aborts, any other is refused |
| `WireBytes.HandshakeLimits` | openscreen-network/src/messages.rs:378-438 | a handshake is read back if its token has at most 256 bytes and its public value at most 64, and is refused as too long otherwise |
| `DecodeErrors.LoopErrorExact` | openscreen-network/src/messages.rs:389-424 | a decoding loop fails with the error of the first entry it cannot take, and only then |
| `DecodeErrors.FieldErrors` | openscreen-network/src/messages.rs:389-424 | which malformed handshake entries are too long, which invalid, and that the rest is undecodable |
| `DecodeErrors.HandshakeErrors` | openscreen-network/src/messages.rs:378-438 | no map, a map of the wrong size, a bad entry, a missing field: the error of each |
| `DecodeErrors.CapabilitiesErrors` | openscreen-network/src/messages.rs:262-309 | likewise for capabilities |
| `DecodeErrors.ShortErrors` | openscreen-network/src/messages.rs:488-573 | likewise for confirmations and statuses |
| `MessageTheorems.UnimplementedExactly` | openscreen-network/src/messages.rs:604-627 | the dispatcher aborts on exactly the byte strings whose type key is 1002 |
| `MessageTheorems.NeedAborts` | openscreen-network/src/messages.rs:623-625 | and such byte strings exist: that key, with any body |
| `Exactness.CapabilitiesExact` | openscreen-network/src/messages.rs:262-309 | a capabilities body decodes if and only if it is a map of two or three entries of which ease and bits are the last given and the methods are those of all method entries in order, within their capacity |
| `Transcripts.TranscriptAmbiguous` | openscreen-network/src/state_machine/awaiting_handshake.rs:80-119 | a transcript does not determine the handshakes: one transcript is built by an initiator and a responder that accepted different peer handshakes |
| `Transcripts.EqualTranscripts` | openscreen-network/src/crypto_data.rs:65-77 | two endpoints with one transcript received exactly what the other sent if and only if the bytes the responder received are the encoding of what they decode to |
| `Transcripts.RunsWithEqualTranscripts` | openscreen-network/src/crypto_data.rs:65-77 | so for any two runs, each over its own arbitrary network |
| `StateMachine.CryptoData.SetPsk` | openscreen-network/src/crypto_data.rs:150-155 | stores the password, or leaves it empty when it is over its capacity |
| `StateMachine.CryptoData.SetAuthToken` | openscreen-network/src/crypto_data.rs:168-173 | likewise for the token |
| `StateMachine.HandleIdle` | openscreen-network/src/state_machine/idle.rs:62-98 | does one step of the machine: next state, all buffers, and the outputs appended |
| `StateMachine.HandleAwaitingCapabilities` | openscreen-network/src/state_machine/awaiting_capabilities.rs:36-80 | likewise; the role decides the next state |
| `StateMachine.HandleInitiatingHandshake` | openscreen-network/src/state_machine/initiating_handshake.rs:30-107 | likewise; stores and sends the initiator's handshake |
| `StateMachine.HandleGeneratingHandshake` | openscreen-network/src/state_machine/generating_handshake.rs:37-143 | likewise; the responder's handshake, the transcript and the chained request |
| `StateMachine.HandleAwaitingHandshake` | openscreen-network/src/state_machine/awaiting_handshake.rs:50-188 | likewise; token check, role split, initiator transcript |
| `StateMachine.RequestVerification` | openscreen-network/src/state_machine/awaiting_confirmation.rs:54-122 | stores the peer confirmation, builds transcript and peer key into the context, and requests verification |
| `StateMachine.HandleComputing` | openscreen-network/src/state_machine/computing.rs:55-251 | likewise; the two uses of the state, the 128-byte result, and the race buffer; both handshakes, both public values and the transcript stay, also when it fails |
| `StateMachine.HandleAwaitingConfirmation` | openscreen-network/src/state_machine/awaiting_confirmation.rs:48-132 | likewise |
| `StateMachine.HandleAwaitingStatus` | openscreen-network/src/state_machine/awaiting_status.rs:36-74 | likewise; the only door to Authenticated and Failed |
| `StateMachine.Spake2StateMachine.Handle` | openscreen-network/src/state_machine/mod.rs:147-237 | runs the handler of the current state; an error or an abort leaves the machine Poisoned, and a terminal state ignores its input; once the finish is requested, handshakes, public values and transcript stay whatever happens |
| `Errors.AuthenticationFailedExactly` | openscreen-network/src/state_machine/awaiting_handshake.rs:69-110 | a step fails so exactly when a responder with a token receives a handshake with another token or none |
| `Errors.DecodeFailedExactly` | openscreen-network/src/state_machine/awaiting_confirmation.rs:54-75 | exactly when bytes do not decode as what the state expects, or the token is no text |
| `Errors.BufferFullExactly` | openscreen-network/src/state_machine/awaiting_handshake.rs:107-119 | exactly when a message over 256 bytes, a public value over 65, a confirmation over 64 or a crypto result over 640 is to be stored |
| `Errors.EncodeFailedExactly` | openscreen-network/src/state_machine/initiating_handshake.rs:30-107 | exactly when the own handshake takes more than 256 bytes |
| `Errors.CryptoFailedExactly` | openscreen-network/src/state_machine/computing.rs:80-100 | exactly when a finish yields 1 to 127 bytes |
| `Errors.InvalidStateExactly` | openscreen-network/src/state_machine/mod.rs:147-237 | exactly in the Poisoned state |
| `Errors.PanicExactly` | openscreen-network/src/state_machine/awaiting_capabilities.rs:71-78 | the program aborts exactly on an input the state has no case for, and on type key 1002 where any message is decoded |
| `Errors.OutputsExact` | openscreen-network/src/state_machine/computing.rs:80-250 | a step emits a message, a numbered request, or both in that order, or the one event, on becoming Authenticated |
| `Errors.RoomExact` | openscreen-network/src/state_machine/mod.rs:147-237 | a queue with less room than outputs fails the step, and one with room enough changes nothing about it |
| `Provider.FinishExact` | openscreen-crypto-rustcrypto/src/lib.rs:191-275 | the 128 bytes of a finish are the secret, the MAC of the transcript under the first half of the expansion for an initiator and the second for a responder, then the two halves; and the error of each other case |
| `Provider.OtherOperationsExact` | openscreen-crypto-rustcrypto/src/lib.rs:94-341 | what a start, a finish without a session and a verification answer |
| `Provider.KeysFromExpansion` | openscreen-network/src/state_machine/computing.rs:80-132 | what the machine keeps of a finish, in terms of the halves of the expansion |
| `Provider.ReflectionExact` | openscreen-crypto-rustcrypto/src/lib.rs:279-341 | an endpoint accepts its own confirmation exactly if both halves give the transcript one MAC |
| `Provider.RustCryptoProvider.Run` | openscreen-crypto-rustcrypto/src/lib.rs:94-343 | runs one operation on the one-slot session, as the specification function says, every error included |
| `Provider.KeysRoundTrip` | openscreen-network/src/state_machine/computing.rs:80-132 | the parse offsets of the machine recover the secret, the confirmation and the two keys from the provider's 128-byte layout |
| `Provider.VerifyExact` | openscreen-crypto-rustcrypto/src/lib.rs:279-341 | verification succeeds if and only if the confirmation is the MAC of the transcript under the key at the end of the context |
| `Provider.HonestVerification` | openscreen-crypto-rustcrypto/src/lib.rs:152-341 | with equal secrets, each side accepts the other's confirmation under the key its role selects |
| `Fingerprints.FinishIgnoresFingerprints` | openscreen-crypto-rustcrypto/src/lib.rs:191-202 | two finishes that differ only in the fingerprints give the same session and the same result if and only if both pairs fit the context buffer, or neither does, or there is no secret to put there |
| `Fingerprints.FingerprintsDoNotMatter` | openscreen-crypto-rustcrypto/src/lib.rs:191-202 | two systems whose configurations differ only in the fingerprints have the same states, buffers and messages after every run |
| `Fingerprints.MismatchAuthenticates` | openscreen-crypto-rustcrypto/src/lib.rs:191-202 | an honest pair whose fingerprints do not match still authenticates both endpoints |
| `NodeProofs.StepHolds` | openscreen-network/src/state_machine/mod.rs:147-237 | every delivery, completion and tick keeps the endpoint invariant: logs, buffers and state agree, whatever the network sends |
| `NodeProofs.RunHolds` | openscreen-network/src/state_machine/mod.rs:147-237 | so every run does |
| `NodeProofs.ConnectedHolds` | openscreen-network/src/state_machine/idle.rs:62-98 | and it holds after connecting |
| `NodeTheorems.RunShape` | openscreen-network/src/state_machine/mod.rs:147-237 | in every run messages are sent in the order capabilities, handshake, confirmation, status; operations are requested in the order start, finish, verify and completed in that order, at most one outstanding; buffers keep their capacities; at most eight events advance the state |
| `NodeTheorems.StepDescends` | openscreen-network/src/state_machine/mod.rs:147-237 | a role-dependent rank falls on every event that advances the state, and stays on every other |
| `NodeTheorems.TokenBinding` | openscreen-network/src/state_machine/awaiting_handshake.rs:58-119 | a responder with a token that is past the handshake holds a received handshake that decodes to exactly that token, and keeps it through every further run |
| `NodeTheorems.AuthenticatedMeans` | openscreen-network/src/state_machine/awaiting_status.rs:36-74 | Authenticated implies that the verification of a received confirmation completed successfully and an OK status arrived after it |
| `NodeTheorems.CapacityExact` | openscreen-network/src/state_machine/awaiting_confirmation.rs:77-112 | with buffers within capacity a full-buffer error occurs if and only if an input itself is too long: transcript, confirmation context and output queue never overflow |
| `NodeTheorems.CapacityKept` | openscreen-network/src/crypto_data.rs:31-39 | and buffers stay within capacity |
| `Reference.DeliveryExact` | openscreen-network/src/state_machine/awaiting_capabilities.rs:36-80 | which bytes a live endpoint survives in each state, as an if-and-only-if, and where it goes with them; capabilities in the first |
| `Reference.CompletionExact` | openscreen-network/src/state_machine/computing.rs:55-250 | which completions it survives, and where they take it |
| `Reference.RunFollows` | openscreen-network/src/state_machine/mod.rs:147-237 | in every run over any network, what an endpoint has sent and requested is what its configuration, randomness and the byte strings received determine, in the numbers its state tells; past the first state, the first thing received decoded as capabilities |
| `Race.RaceConfluence` | openscreen-network/src/state_machine/computing.rs:80-250 | with a finish outstanding, receiving bytes and completing the finish succeed in both orders if and only if the bytes are a confirmation every buffer can hold, and then the state, all buffers and the concatenated outputs agree |
| `Race.NodeRace` | openscreen-network/src/state_machine/computing.rs:80-250 | the same for an endpoint with its provider: slot and logs agree too |
| `WireFaithful.WireIsFaithful` | openscreen-network/src/messages.rs:594-667 | every message an endpoint sends is delivered as itself by the wire format, under its own type key only |
| `TwoNodesSafety.TranscriptAgreement` | openscreen-network/src/state_machine/generating_handshake.rs:67-112 | in every reachable state of two connected endpoints in which both have built a transcript the two are the same bytes: initiator handshake, responder handshake, each as transmitted |
| `TwoNodesSafety.NoEarlyAuthentication` | openscreen-network/src/state_machine/computing.rs:61-78 | with asynchronous crypto and arbitrary configurations, once either endpoint is authenticated both have completed a successful verification of the other's confirmation, over one transcript |
| `TwoNodesSafety.SysStepHolds` | openscreen-network/src/state_machine/mod.rs:147-237 | both endpoint invariants and the FIFO windows of both channels are kept by every action |
| `Convergence.AsynchronousConvergence` | openscreen-network/src/state_machine/computing.rs:61-78 | two honest endpoints never fail; each delivery and completion is one unit of progress and nothing else changes anything; fourteen deliveries and completions, and no fewer, bring them to rest; at rest both are authenticated if and only if no delivery reached an endpoint whose verification was outstanding |
| `Convergence.QuiescentIsFull` | openscreen-network/src/state_machine/computing.rs:225-250 | at rest both have received four messages and completed three operations; each is authenticated unless its race buffer holds the status |
| `LostStatus.AsynchronousCryptoLosesStatus` | openscreen-network/src/state_machine/computing.rs:225-250 | for every honest pair there is an interleaving that ends at rest with the responder authenticated and the initiator waiting for a status that sits in its race buffer |
| `Drained.TwoCompletionsDrain` | openscreen-quinn/src/server.rs:381-414 | whatever is delivered to an idle endpoint, two completions leave no crypto outstanding, or the connection has ended |
| `Drained.DrainedConvergence` | openscreen-quinn/src/server.rs:375-434 | with crypto drained after each delivery, every interleaving of deliveries and ticks is free of failure and deadlock, and both endpoints are authenticated exactly when eight messages have been delivered |
| `Drivers.Endpoint.SendMessages` | openscreen-quinn/src/server.rs:474-506 | transmits the messages among the outputs, once each, in order |
| `Drivers.ArrivalIsExchange` | openscreen-quinn/src/server.rs:375-434 | fed the next message of an honest peer, a driver does one exchange of the drained system |
| `Server.DrainCrypto` | openscreen-quinn/src/server.rs:381-414 | the inner loop drains the crypto of an arrival and transmits exactly what the machine emitted, in order; it ends after at most two executions |
| `Server.OnData` | openscreen-quinn/src/server.rs:340-444 | one arriving stream does exactly one drained delivery; the driver aborts exactly on type key 1002, and otherwise returns an error exactly if the connection ended |
| `Server.AuthenticateConnection` | openscreen-quinn/src/server.rs:238-457 | from transport to the end, the transmitted byte strings are the encodings of the machine's messages in the drained run of the arrivals, and the machine is in its state; the connection aborts exactly at an arrival of type key 1002 that the run gets to, and goes on exactly if the run met no error |
| `Client.MixedExactly` | openscreen-quinn/src/lib.rs:367-399 | the outputs hold both a message and a request exactly in a responder's handshake generation and in a finish with a buffered confirmation |
| `Client.ProcessEvent` | openscreen-quinn/src/lib.rs:347-632 | the recursive event processing reaches the drained endpoint and, for an idle initiator, transmits everything emitted although it drops the outputs that accompany a request |
| `Client.ConnectAndAuthenticate` | openscreen-quinn/src/lib.rs:225-343 | likewise for the client, although it drops outputs: transmitted byte strings, state and outcome are those of the drained run of the arrivals |
| `Drivers.OutcomeExact` | openscreen-quinn/src/server.rs:340-457 | a run of a driver goes on if and only if no error ended it, and aborts if and only if it gets to an arrival of type key 1002 |
| `Joined.DriversConverge` | openscreen-quinn/src/lib.rs:225-343 | an honest client and server, each run by its own driver over what the other transmitted, with timers anywhere: neither fails, together they are a run of the drained system, and both end authenticated if and only if each took all that the other transmitted |
| `Program.NoEarlyAuthenticationDeployed` | openscreen-network/src/state_machine/computing.rs:61-78 | the safety theorem at the wire format of the program |
| `Program.AsynchronousConvergenceDeployed` | openscreen-network/src/state_machine/computing.rs:61-78 | asynchronous convergence at that format |
| `Program.LostStatusDeployed` | openscreen-network/src/state_machine/computing.rs:225-250 | the losing interleaving at that format |
| `Program.DrainedConvergenceDeployed` | openscreen-quinn/src/server.rs:375-434 | drained convergence at that format |
| `Program.DriversConvergeDeployed` | openscreen-quinn/src/server.rs:238-457 | the two drivers over byte streams at that format |
| `Program.ConnectionOpens` | openscreen-network/src/state_machine/idle.rs:62-98 | every connection opens with the same eight bytes, and goes past them only when the peer's first bytes decoded as capabilities |
| `Program.HonestScript` | openscreen-network/src/state_machine/computing.rs:80-250 | all eight messages of a completed honest exchange, from password, tokens and randomness alone |
| `Arrivals.ArrivalExact` | openscreen-quinn/src/server.rs:340-444 | a timer does nothing, nor an empty stream at the server; type key 1002 ends the connection undelivered; any other stream is delivered once and two completions follow |
| `Arrivals.EmptyStreamAtClient` | openscreen-quinn/src/lib.rs:298-343 | an empty stream ends a client's connection in every state that waits for a message, and leaves a server alone |
| `Arrivals.DrivenAppend` | openscreen-quinn/src/server.rs:238-457 | what arrives after the connection ended or authenticated is not looked at |
| `Program.RaceConfluenceDeployed` | openscreen-network/src/state_machine/computing.rs:80-250 | race confluence at that format |
| `AppTheorems.AgentInfoResponseRoundTrip` | openscreen-application/src/messages.rs:227-400 | an agent-info-response within its limits, with its nested map and two nested arrays, followed by any bytes, is read back |
| `AppTheorems.StartRequestRoundTrip` | openscreen-application/src/messages.rs:941-1072 | likewise a presentation-start-request with its array of pairs |
| `AppTheorems.UrlRequestRoundTrip` | openscreen-application/src/messages.rs:1718-1820 | likewise a url-availability-request with its array of strings |
| `AppTheorems.OpenResponseRoundTrip` | openscreen-application/src/messages.rs:1605-1696 | likewise a connection-open-response |
| `AppTheorems.CloseEventRoundTrip` | openscreen-application/src/messages.rs:2049-2146 | likewise a connection-close-event, with or without the optional entry in the middle of the map |
| `FlatMaps.FlatRoundTrip` | openscreen-application/src/messages.rs:1094-1195 | a map of single values, written by its table of keys and followed by any bytes, is read back, each value under its key |
| `FlatMaps.FlatExact` | openscreen-application/src/messages.rs:1153-1195 | such a map decodes to given variables if and only if its length is allowed and each variable is the last value of its key: a repeated key overwrites, an optional one may be missing |
| `FlatMaps.MandatoryExact` | openscreen-application/src/messages.rs:1550-1583 | with as many keys as entries, all mandatory, it decodes if and only if its entries are the required ones in some order |
| `AppTheorems.FlatBodiesRoundTrip` | openscreen-application/src/messages.rs:1094-1583 | the six flat messages (status request, connection message, start response, termination request and event, open request) are read back by their decoders |
| `AppTheorems.AppRoundTrip` | openscreen-application/src/messages.rs:2370-2485 | all twelve modelled types through the dispatcher |
| `AppBytes.StartRequestBytes` | openscreen-application/src/messages.rs:941-986 | the bytes of every presentation-start-request, in full |
| `AppBytes.UrlRequestBytes` | openscreen-application/src/messages.rs:1718-1760 | likewise url-availability-request |
| `AppBytes.OpenResponseBytes` | openscreen-application/src/messages.rs:1605-1644 | likewise connection-open-response |
| `AppBytes.CloseEventBytes` | openscreen-application/src/messages.rs:2049-2093 | likewise connection-close-event |
| `AppBytes.AgentInfoRequestBytes` | openscreen-application/src/messages.rs:168-184 | likewise agent-info-request |
| `AppBytes.AgentInfoResponseBytes` | openscreen-application/src/messages.rs:227-289 | likewise agent-info-response |
| `AppBytes.StatusRequestBytes` | openscreen-application/src/messages.rs:423-455 | likewise agent-status-request |
| `AppBytes.ConnectionBytes` | openscreen-application/src/messages.rs:2164-2191 | likewise connection-message |
| `AppBytes.StartResponseBytes` | openscreen-application/src/messages.rs:1094-1140 | likewise presentation-start-response |
| `AppBytes.TerminationRequestBytes` | openscreen-application/src/messages.rs:1215-1248 | likewise presentation-termination-request |
| `AppBytes.TerminationEventBytes` | openscreen-application/src/messages.rs:1403-1436 | likewise presentation-termination-event |
| `AppBytes.OpenRequestBytes` | openscreen-application/src/messages.rs:1504-1537 | likewise connection-open-request |
| `AppLimits.StartLimits` | openscreen-application/src/messages.rs:999-1072 | a start request is read back if its texts have at most 256 bytes and it has at most 8 headers, and refused otherwise |
| `AppLimits.AgentLimits` | openscreen-application/src/messages.rs:302-400 | an agent-info-response is read back if its texts have at most 256 bytes, it has at most 16 capabilities, each between 1 and 8, and at most 8 locales, and refused otherwise |
| `AppLimits.StatusLimits` | openscreen-application/src/messages.rs:468-510 | a status request is read back if its text has at most 256 bytes, and refused otherwise |
| `AppLimits.UrlLimits` | openscreen-application/src/messages.rs:1773-1820 | a url-availability-request is read back if it has at most 16 URLs, of any length, and refused otherwise |
| `AppLimits.OpenLimits` | openscreen-application/src/messages.rs:796-815 | an open response is read back if its result is 1, 10, 11, 100 or 101, and refused otherwise |
| `AppLimits.CloseLimits` | openscreen-application/src/messages.rs:881-900 | a close event is read back if its reason is 1, 10 or 100, and refused otherwise |
| `AppLimits.StartResponseLimits` | openscreen-application/src/messages.rs:1153-1195 | a start response is read back if its result is one of the five and its HTTP code takes 16 bits, and refused otherwise |
| `AppLimits.TerminationRequestLimits` | openscreen-application/src/messages.rs:854-880 | a termination request is read back if its reason is one of the eight, and refused otherwise |
| `AppLimits.TerminationEventLimits` | openscreen-application/src/messages.rs:819-880 | likewise a termination event, whose source is one of the three |
| `AppLimits.ItemsExact` | openscreen-application/src/messages.rs:1026-1055 | what a text, a number, a code and a header are, and how each fails |
| `AppLimits.ShapesExact` | openscreen-application/src/messages.rs:941-2233 | the numbers of entries each map may have and the keys of the flat ones; anything else is refused |
| `DecodeErrors.MapErrors` | openscreen-application/src/messages.rs:302-2146 | no map or a map of the wrong size: the error of each decoder |
| `DecodeErrors.EntriesExact` | openscreen-application/src/messages.rs:1657-2146 | what each entry of a url-availability-request, open response and close event is read as |
| `DecodeErrors.MissingFields` | openscreen-application/src/messages.rs:302-2146 | a decoder reports a missing field exactly if a mandatory one was not given |
| `DecodeErrors.AppKeyErrors` | openscreen-application/src/messages.rs:88-110 | a type key that is none of the eighteen is refused as such |
| `AppTheorems.LongStartRefused` | openscreen-application/src/messages.rs:999-1072 | a start request with a text over 256 bytes encodes, and its receiver refuses it |
| `AppTheorems.LongStatusRefused` | openscreen-application/src/messages.rs:468-510 | likewise a status request |
| `Exactness.StartExact` | openscreen-application/src/messages.rs:999-1072 | a start request decodes if and only if its map has four entries of which the single values are the last given and the headers those of all header entries in order, eight at most |
| `Exactness.AgentExact` | openscreen-application/src/messages.rs:302-400 | likewise the agent map of an agent-info-response, with its two accumulating arrays |
| `Exactness.CloseExact` | openscreen-application/src/messages.rs:2106-2146 | a connection-close-event decodes if and only if its map has three or four entries whose last values are those of the result; the error text is there exactly if an entry gives one |
| `AppTheorems.OpenOrderExact` | openscreen-application/src/messages.rs:1657-1696 | a connection-open-response body decodes if and only if it is a four-entry map whose entries are, as a multiset, exactly the four fields of the result |
| `AppTheorems.OpenAnyOrder` | openscreen-application/src/messages.rs:1657-1696 | every permutation of the four entries decodes to the same response |
| `AppTheorems.UrlOrderExact` | openscreen-application/src/messages.rs:1773-1820 | likewise for the url-availability-request, whose second field is an array |
| `AppTheorems.UrlAnyOrder` | openscreen-application/src/messages.rs:1773-1820 | every permutation of its four entries decodes to the same request |
| `FlatMaps.Covering` | openscreen-application/src/messages.rs:1813-1819 | as many entries as there are required ones, with every required one among them, are a permutation of the required ones |
| `AppTheorems.DecodedKey` | openscreen-application/src/messages.rs:88-110 | what decodes carries the type key it was dispatched on, one of the eighteen of the layer |
| `AppCodec.EncodeAgentInfoResponse` | openscreen-application/src/messages.rs:227-289 | appends exactly the encoding, or fails exactly when it does not fit |
| `AppCodec.EncodeStartRequest` | openscreen-application/src/messages.rs:941-986 | likewise |
| `AppCodec.EncodeUrlRequest` | openscreen-application/src/messages.rs:1718-1760 | likewise |
| `AppCodec.EncodeOpenResponse` | openscreen-application/src/messages.rs:1605-1644 | likewise |
| `AppCodec.EncodeCloseEvent` | openscreen-application/src/messages.rs:2049-2093 | likewise |
| `AppCodec.EncodeAgentInfoRequest` | openscreen-application/src/messages.rs:168-184 | likewise |
| `AppCodec.EncodeFlat` | openscreen-application/src/messages.rs:1094-1140 | likewise for the six flat messages |
| `AppCodec.DecodeAgentInfoResponse` | openscreen-application/src/messages.rs:302-400 | the loop and its two nested loops compute the parser, error by error |
| `AppCodec.DecodeStartRequest` | openscreen-application/src/messages.rs:999-1072 | likewise |
| `AppCodec.DecodeUrlRequest` | openscreen-application/src/messages.rs:1773-1820 | likewise |
| `AppCodec.DecodeOpenResponse` | openscreen-application/src/messages.rs:1657-1696 | likewise |
| `AppCodec.DecodeCloseEvent` | openscreen-application/src/messages.rs:2106-2146 | likewise |
| `AppCodec.DecodeStatusRequest` | openscreen-application/src/messages.rs:468-510 | likewise |
| `AppCodec.DecodeConnectionMessage` | openscreen-application/src/messages.rs:2204-2233 | likewise |
| `AppCodec.DecodeStartResponse` | openscreen-application/src/messages.rs:1153-1195 | likewise |
| `AppCodec.DecodeTerminationRequest` | openscreen-application/src/messages.rs:1261-1296 | likewise |
| `AppCodec.DecodeTerminationEvent` | openscreen-application/src/messages.rs:1449-1484 | likewise |
| `AppCodec.DecodeOpenRequest` | openscreen-application/src/messages.rs:1550-1583 | likewise |
| `AppCodec.DecodeAppMessage` | openscreen-application/src/messages.rs:2394-2485 | computes the dispatcher over all eighteen type keys; the bodies of twelve are modelled |
| `Application.ApplicationStateMachine.HandleInput` | openscreen-application/src/lib.rs:233-298 | does one step of the layer: routing, all eight commands with their bytes, the effect of every message on the state, and the conversion of the network outputs |
| `ApplicationTheorems.LayersAreDisjoint` | openscreen-application/src/messages.rs:88-110 | no byte string decodes as a message of both layers |
| `ApplicationTheorems.NetworkMessagesPass` | openscreen-application/src/lib.rs:558-571 | every encoded network message, whatever follows it, is handed to the network machine unchanged |
| `ApplicationTheorems.RunKeepsLayered` | openscreen-application/src/lib.rs:684-751 | in every run, once the network machine is authenticated the application state is authenticated or presenting |
| `ApplicationTheorems.PresentingUnauthenticated` | openscreen-application/src/lib.rs:604-620 | the converse fails: nine bytes, a successful start response, on a fresh connection make the layer present while the network machine is idle |
| `ApplicationTheorems.SoundExactly` | openscreen-application/src/lib.rs:558-571 | exactly when it holds: the layer is at no point of a run ahead of the network machine if and only if no bytes arrive, while that machine is not authenticated, that decode as a termination event or a successful start response |
| `ApplicationTheorems.SentRequestCarriesId` | openscreen-application/src/lib.rs:300-556 | what each of the six request commands sends decodes to the request with the next id and the command's arguments if its texts are within the receiver's limits, and is refused as too long otherwise |
| `ApplicationTheorems.RequestIdsIncrease` | openscreen-application/src/lib.rs:300-556 | over every run with at most 2^64 - 1 request commands the request ids that the receiver reads in the bytes sent are strictly increasing |
| `AppReference.CommandRefused` | openscreen-application/src/lib.rs:300-556 | before authentication every command is refused and changes nothing, the id included |
| `AppReference.RunNeverSendsEarly` | openscreen-application/src/lib.rs:300-556 | in every run no application data is sent by an input taken while the network machine is not authenticated |
| `AppReference.CommandExact` | openscreen-application/src/lib.rs:300-556 | after authentication a command sends exactly its bytes, written out in full, if they fit 1024 and a check has at most 16 URLs; numbered commands use up their id whether they send or not |
| `AppReference.ArrivalExact` | openscreen-application/src/lib.rs:573-681 | what every decodable message does on arrival: state, event, and the one error |
| `AppReference.NetworkExact` | openscreen-application/src/lib.rs:684-751 | any other input is a step of the network machine, whose errors are passed on; the layer becomes ready exactly when that machine becomes Authenticated |
| `AppReference.ConvertExact` | openscreen-application/src/lib.rs:690-745 | outputs are passed on one by one in order, messages and raw data are not |
| `AppReference.PresentingExactly` | openscreen-application/src/lib.rs:604-640 | the layer presents, at the end of any run, exactly when a successful start response has arrived and neither a termination event nor the authentication came after it |

## Left out

- QUIC, TLS, stream reads, timeouts and certificate checks: the drivers are modelled from
  an arriving byte string to the list of transmitted byte strings.
- Failing sends and closed connections: `Endpoint.Send` fails only when a message does not
  fit its encoding buffer, which is proved never to happen.
- The NeedsPoll loops of both drivers and their branch for an authentication-failed event: no
  handler emits either output.
- The `Negotiating` state: nothing constructs it. `StreamOpened` and `StreamClosed` are
  inputs of the machine, but no driver feeds them.
- The body of the message with type key 1002: its decoder is unimplemented and modelled as an
  abort.
- How minicbor splits its output into writes: a failed encoding leaves some prefix in the
  buffer, and only its length is bounded.
- The provider's hash, HMAC, HKDF and ECDSA operations and the SPAKE2 finish without
  confirmation: the machine never requests them.
- DecodeAppMessage: the bodies of six message types (13, 15, 103, 107, 120 and 121) are known
  only by whether they decode, a parameter of every theorem. Nothing the layer sends has
  these types and none changes its state; they raise an event or nothing.
- HandleInput: takes the same parameter.
- The contents of application events: an event is modelled as the message that raised it.
- Logging, discovery, storage, certificates and the binaries.
- Handle: after a failed handler the buffers other than handshakes, public values and
  transcript are left open, and all of them before the finish is requested, because the
  machine is then Poisoned and never reads them.
- ProcessEvent: proved for an initiator, which is the only role the client configures; for a
  responder `Client.MixedExactly` says which outputs it would drop.
- HonestVerification: equality of the secrets of equal passwords is assumed of the primitives.
