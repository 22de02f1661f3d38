/** The application messages byte by byte, every constant written out. */
module AppBytes {
  import opened Basics
  import opened VarInt
  import opened Cbor
  import opened Parsing
  import opened FlatMaps
  import opened AppMessages
  import opened AppCodec
  import F = Forms
  import W = WireBytes

  // ---------------------------------------------------------------- entries

  predicate Fit64(n: nat) {
    n < 0x1_0000_0000_0000_0000
  }

  function NumberEntry(key: byte, n: nat): Bytes
    requires Fit64(n)
  {
    [key] + W.Number(n)
  }

  function TextEntry(key: byte, t: Bytes): Bytes
    requires Fit64(|t|)
  {
    [key] + W.Str(t)
  }

  lemma NumberEntryIs(key: byte, n: nat)
    requires key < 24 && Fit64(n)
    ensures EncodeUint(key) + EncodeUint(n) == NumberEntry(key, n)
    ensures EntryBytes(Entry(key, Number(n))) == NumberEntry(key, n)
  {
    W.ItemBytes(key);
    W.ItemBytes(n);
  }

  lemma TextEntryIs(key: byte, t: Bytes)
    requires key < 24 && Fit64(|t|)
    ensures EncodeUint(key) + EncodeStr(t) == TextEntry(key, t)
    ensures EntryBytes(Entry(key, Text(t))) == TextEntry(key, t)
  {
    W.ItemBytes(key);
    W.StringBytes(t);
  }

  function Texts(ts: seq<Bytes>): Bytes
    requires forall t :: t in ts ==> Fit64(|t|)
  {
    if ts == [] then [] else assert ts[0] in ts && Fit64(|ts[0]|); W.Str(ts[0]) + Texts(ts[1..])
  }

  lemma {:induction false} TextsAre(ts: seq<Bytes>)
    requires forall t :: t in ts ==> Fit64(|t|)
    ensures Concat(EncodeStr, ts) == Texts(ts)
  {
    if ts != [] {
      assert ts[0] in ts;
      W.StringBytes(ts[0]);
      TextsAre(ts[1..]);
    }
  }

  function Numbers(ns: seq<nat>): Bytes
    requires forall n :: n in ns ==> Fit64(n)
  {
    if ns == [] then [] else assert ns[0] in ns && Fit64(ns[0]); W.Number(ns[0]) + Numbers(ns[1..])
  }

  lemma {:induction false} NumbersAre(ns: seq<nat>)
    requires forall n :: n in ns ==> Fit64(n)
    ensures Concat(EncodeUint, ns) == Numbers(ns)
  {
    if ns != [] {
      assert ns[0] in ns;
      W.ItemBytes(ns[0]);
      NumbersAre(ns[1..]);
    }
  }

  predicate HeaderFits(h: Header) {
    Fit64(|h.key|) && Fit64(|h.value|)
  }

  function Headers(hs: seq<Header>): Bytes
    requires forall h :: h in hs ==> HeaderFits(h)
  {
    if hs == [] then [] else assert hs[0] in hs && HeaderFits(hs[0]); ([0x82] + (W.Str(hs[0].key) + W.Str(hs[0].value))) + Headers(hs[1..])
  }

  lemma {:induction false} HeadersAre(hs: seq<Header>)
    requires forall h :: h in hs ==> HeaderFits(h)
    ensures Concat(HeaderBytes, hs) == Headers(hs)
  {
    if hs != [] {
      assert hs[0] in hs;
      W.ItemBytes(2);
      W.StringBytes(hs[0].key);
      W.StringBytes(hs[0].value);
      assert HeaderBytes(hs[0]) == [0x82] + (W.Str(hs[0].key) + W.Str(hs[0].value));
      HeadersAre(hs[1..]);
    }
  }

  /** An array under a key. */
  function ListEntry(key: byte, n: nat, items: Bytes): Bytes
    requires Fit64(n)
  {
    [key] + (W.Head(0x80, n) + items)
  }

  lemma ListEntryIs<T>(key: byte, bytes: T -> Bytes, xs: seq<T>)
    requires key < 24 && Fit64(|xs|)
    ensures EncodeUint(key) + ListBytes(bytes, xs) == ListEntry(key, |xs|, Concat(bytes, xs))
  {
    W.ItemBytes(key);
    W.ItemBytes(|xs|);
  }

  // ---------------------------------------------------------------- keys

  lemma ShortKeys()
    ensures TypeKey(AGENT_INFO_REQUEST_KEY) == [0x0A] && TypeKey(AGENT_INFO_RESPONSE_KEY) == [0x0B]
    ensures TypeKey(STATUS_REQUEST_KEY) == [0x0C] && TypeKey(URL_AVAILABILITY_REQUEST_KEY) == [0x0E]
    ensures TypeKey(CONNECTION_MESSAGE_KEY) == [0x10]
  {
    F.TypeKeyBytes(10);
    F.TypeKeyBytes(11);
    F.TypeKeyBytes(12);
    F.TypeKeyBytes(14);
    F.TypeKeyBytes(16);
  }

  lemma LongKeys()
    ensures TypeKey(START_REQUEST_KEY) == [0x40, 0x68] && TypeKey(START_RESPONSE_KEY) == [0x40, 0x69]
    ensures TypeKey(TERMINATION_REQUEST_KEY) == [0x40, 0x6A] && TypeKey(TERMINATION_EVENT_KEY) == [0x40, 0x6C]
    ensures TypeKey(OPEN_REQUEST_KEY) == [0x40, 0x6D] && TypeKey(OPEN_RESPONSE_KEY) == [0x40, 0x6E]
    ensures TypeKey(CLOSE_EVENT_KEY) == [0x40, 0x71]
  {
    F.TypeKeyBytes(104);
    F.TypeKeyBytes(105);
    F.TypeKeyBytes(106);
    F.TypeKeyBytes(108);
    F.TypeKeyBytes(109);
    F.TypeKeyBytes(110);
    F.TypeKeyBytes(113);
  }

  lemma MapHeads()
    ensures EncodeHead(MAP, 1) == [0xA1] && EncodeHead(MAP, 2) == [0xA2] && EncodeHead(MAP, 3) == [0xA3]
    ensures EncodeHead(MAP, 4) == [0xA4] && EncodeHead(MAP, 5) == [0xA5]
  {
    W.ItemBytes(1);
    W.ItemBytes(2);
    W.ItemBytes(3);
    W.ItemBytes(4);
    W.ItemBytes(5);
  }

  // ---------------------------------------------------------------- messages with arrays

  /** presentation-start-request: type key 104. */
  lemma StartRequestBytes(m: StartRequest)
    requires Fit64(m.requestId) && Fit64(|m.presentationId|) && Fit64(|m.url|) && Fit64(|m.headers|)
    requires forall h :: h in m.headers ==> HeaderFits(h)
    ensures AppEncode(StartRequestMsg(m)) ==
            [0x40, 0x68] + ([0xA4] + (NumberEntry(0, m.requestId) + (TextEntry(1, m.presentationId)
            + (TextEntry(2, m.url) + ListEntry(3, |m.headers|, Headers(m.headers))))))
  {
    LongKeys();
    MapHeads();
    NumberEntryIs(0, m.requestId);
    TextEntryIs(1, m.presentationId);
    TextEntryIs(2, m.url);
    ListEntryIs(3, HeaderBytes, m.headers);
    HeadersAre(m.headers);
    StartParts(m);
  }

  /** url-availability-request: type key 14. */
  lemma UrlRequestBytes(m: UrlRequest)
    requires Fit64(m.requestId) && Fit64(m.watchDuration) && Fit64(m.watchId) && Fit64(|m.urls|)
    requires forall u :: u in m.urls ==> Fit64(|u|)
    ensures AppEncode(UrlRequestMsg(m)) ==
            [0x0E] + ([0xA4] + (NumberEntry(0, m.requestId) + (ListEntry(1, |m.urls|, Texts(m.urls))
            + (NumberEntry(2, m.watchDuration) + NumberEntry(3, m.watchId)))))
  {
    ShortKeys();
    MapHeads();
    NumberEntryIs(0, m.requestId);
    ListEntryIs(1, EncodeStr, m.urls);
    TextsAre(m.urls);
    NumberEntryIs(2, m.watchDuration);
    NumberEntryIs(3, m.watchId);
    UrlParts(m);
  }

  /** connection-open-response: type key 110. */
  lemma OpenResponseBytes(m: OpenResponse)
    requires Fit64(m.requestId) && Fit64(m.result) && Fit64(m.connectionId) && Fit64(m.connectionCount)
    ensures AppEncode(OpenResponseMsg(m)) ==
            [0x40, 0x6E] + ([0xA4] + (NumberEntry(0, m.requestId) + (NumberEntry(1, m.result)
            + (NumberEntry(2, m.connectionId) + NumberEntry(3, m.connectionCount)))))
  {
    LongKeys();
    MapHeads();
    NumberEntryIs(0, m.requestId);
    NumberEntryIs(1, m.result);
    NumberEntryIs(2, m.connectionId);
    NumberEntryIs(3, m.connectionCount);
    OpenParts(m);
  }

  /** connection-close-event: type key 113; the error text only if there is one. */
  lemma CloseEventBytes(m: CloseEvent)
    requires Fit64(m.connectionId) && Fit64(m.reason) && Fit64(m.connectionCount)
    requires m.errorMessage.Some? ==> Fit64(|m.errorMessage.value|)
    ensures AppEncode(CloseEventMsg(m)) ==
            [0x40, 0x71] + ([if m.errorMessage.Some? then 0xA4 else 0xA3] + (NumberEntry(0, m.connectionId) + (NumberEntry(1, m.reason)
            + ((if m.errorMessage.Some? then TextEntry(2, m.errorMessage.value) else []) + NumberEntry(3, m.connectionCount)))))
  {
    LongKeys();
    MapHeads();
    NumberEntryIs(0, m.connectionId);
    NumberEntryIs(1, m.reason);
    if m.errorMessage.Some? { TextEntryIs(2, m.errorMessage.value); }
    NumberEntryIs(3, m.connectionCount);
    CloseParts(m);
  }

  /** agent-info-request: type key 10. */
  lemma AgentInfoRequestBytes(id: nat)
    requires Fit64(id)
    ensures AppEncode(AgentInfoRequestMsg(id)) == [0x0A] + ([0xA1] + NumberEntry(0, id))
  {
    ShortKeys();
    MapHeads();
    NumberEntryIs(0, id);
  }

  predicate AgentFits(a: AgentInfo) {
    && Fit64(|a.displayName|) && Fit64(|a.modelName|) && Fit64(|a.stateToken|) && Fit64(|a.capabilities|) && Fit64(|a.locales|)
    && (forall c :: c in a.capabilities ==> Fit64(c)) && (forall l :: l in a.locales ==> Fit64(|l|))
  }

  function AgentLayout(a: AgentInfo): Bytes
    requires AgentFits(a)
  {
    [0xA5] + (TextEntry(0, a.displayName) + (TextEntry(1, a.modelName)
    + (ListEntry(2, |a.capabilities|, Numbers(a.capabilities)) + (TextEntry(3, a.stateToken)
    + ListEntry(4, |a.locales|, Texts(a.locales))))))
  }

  lemma AgentBytesAre(a: AgentInfo)
    requires AgentFits(a)
    ensures AgentBytes(a) == AgentLayout(a)
  {
    MapHeads();
    TextEntryIs(0, a.displayName);
    TextEntryIs(1, a.modelName);
    ListEntryIs(2, EncodeUint, a.capabilities);
    NumbersAre(a.capabilities);
    TextEntryIs(3, a.stateToken);
    ListEntryIs(4, EncodeStr, a.locales);
    TextsAre(a.locales);
    Concat5(AgentFieldBytes, NameField(a.displayName), ModelField(a.modelName), CapabilitiesField(a.capabilities),
            StateTokenField(a.stateToken), LocalesField(a.locales));
  }

  lemma JoinAgent(key: Bytes, head: Bytes, zero: Bytes, id: Bytes, one: Bytes, agent: Bytes)
    ensures key + (head + (zero + (id + (one + agent)))) == key + (head + ((zero + id) + (one + agent)))
  {
  }

  /** agent-info-response: type key 11, the agent in a map of its own. */
  lemma AgentInfoResponseBytes(m: AgentInfoResponse)
    requires Fit64(m.requestId) && AgentFits(m.info)
    ensures AppEncode(AgentInfoMsg(m)) == [0x0B] + ([0xA2] + (NumberEntry(0, m.requestId) + ([0x01] + AgentLayout(m.info))))
  {
    ShortKeys();
    MapHeads();
    NumberEntryIs(0, m.requestId);
    W.ItemBytes(0);
    W.ItemBytes(1);
    AgentBytesAre(m.info);
    JoinAgent([0x0B], [0xA2], [0x00], EncodeUint(m.requestId), [0x01], AgentLayout(m.info));
  }

  // ---------------------------------------------------------------- flat messages

  lemma OneEntry(e: Entry)
    ensures Concat(EntryBytes, [e]) == EntryBytes(e) + []
  {
    assert [e][1..] == [];
  }

  lemma TwoEntries(a: Entry, b: Entry)
    ensures Concat(EntryBytes, [a, b]) == EntryBytes(a) + EntryBytes(b)
  {
    OneEntry(b);
    assert [a, b][1..] == [b] && EntryBytes(b) + [] == EntryBytes(b);
  }

  /** agent-status-request: type key 12; a status is a map of its own. */
  lemma StatusRequestBytes(m: StatusRequest)
    requires Fit64(m.requestId) && (m.status.Some? ==> Fit64(|m.status.value|))
    ensures AppEncode(StatusRequestMsg(m)) ==
            [0x0C] + (if m.status.None? then [0xA1] + (NumberEntry(0, m.requestId) + [])
                      else [0xA2] + (NumberEntry(0, m.requestId) + ([0x01] + ([0xA1] + TextEntry(0, m.status.value)))))
  {
    ShortKeys();
    MapHeads();
    FlatParts(StatusRequestMsg(m));
    var id := Entry(0, Number(m.requestId));
    NumberEntryIs(0, m.requestId);
    if m.status.None? {
      assert StatusEntries(m) == [id];
      OneEntry(id);
    } else {
      var status := Entry(1, StatusText(m.status.value));
      assert StatusEntries(m) == [id, status];
      TwoEntries(id, status);
      TextEntryIs(0, m.status.value);
      W.ItemBytes(1);
    }
  }

  /** connection-message: type key 16. */
  lemma ConnectionBytes(m: ConnectionMessage)
    requires Fit64(m.connectionId) && Fit64(|m.message|)
    ensures AppEncode(ConnectionMsg(m)) == [0x10] + ([0xA2] + (NumberEntry(0, m.connectionId) + ([0x01] + W.Blob(m.message))))
  {
    ShortKeys();
    MapHeads();
    FlatParts(ConnectionMsg(m));
    TwoEntries(Entry(0, Number(m.connectionId)), Entry(1, Blob(m.message)));
    NumberEntryIs(0, m.connectionId);
    W.ItemBytes(1);
    W.StringBytes(m.message);
  }

  lemma ThreeNumbers(x: nat, y: nat, z: nat)
    requires Fit64(x) && Fit64(y) && Fit64(z)
    ensures Concat(EntryBytes, [Entry(0, Number(x)), Entry(1, Number(y)), Entry(2, Number(z))])
         == NumberEntry(0, x) + (NumberEntry(1, y) + NumberEntry(2, z))
  {
    NumberEntryIs(0, x);
    NumberEntryIs(1, y);
    NumberEntryIs(2, z);
    Concat3(EntryBytes, Entry(0, Number(x)), Entry(1, Number(y)), Entry(2, Number(z)));
  }

  lemma FourNumbers(x: nat, y: nat, z: nat, u: nat)
    requires Fit64(x) && Fit64(y) && Fit64(z) && Fit64(u)
    ensures Concat(EntryBytes, [Entry(0, Number(x)), Entry(1, Number(y)), Entry(2, Number(z)), Entry(3, Number(u))])
         == NumberEntry(0, x) + (NumberEntry(1, y) + (NumberEntry(2, z) + NumberEntry(3, u)))
  {
    NumberEntryIs(0, x);
    NumberEntryIs(1, y);
    NumberEntryIs(2, z);
    NumberEntryIs(3, u);
    Concat4(EntryBytes, Entry(0, Number(x)), Entry(1, Number(y)), Entry(2, Number(z)), Entry(3, Number(u)));
  }

  lemma StartResponseEntriesAre(m: StartResponse)
    ensures m.httpCode.None? ==>
            StartResponseEntries(m) == [Entry(0, Number(m.requestId)), Entry(1, Number(m.result)), Entry(2, Number(m.connectionId))]
    ensures m.httpCode.Some? ==>
            StartResponseEntries(m) == [Entry(0, Number(m.requestId)), Entry(1, Number(m.result)), Entry(2, Number(m.connectionId)),
                                        Entry(3, Number(m.httpCode.value))]
  {
  }

  lemma LongKey(key: u16)
    requires 64 <= key < 128
    ensures TypeKey(key) == [0x40, key]
  {
    F.TypeKeyBytes(key);
  }

  /** The parts of a flat message, put together. */
  lemma FlatLayout(m: AppMessage, key: Bytes, n: nat, entries: Bytes)
    requires IsFlat(m) && key == TypeKey(AppKeyOf(m)) && n == |FlatEntries(m)| && n < 24
    requires entries == Concat(EntryBytes, FlatEntries(m))
    ensures AppEncode(m) == key + ([0xA0 + n] + entries)
  {
    FlatParts(m);
    W.ItemBytes(n);
  }

  /** presentation-start-response: type key 105; the HTTP code only if there is one. */
  lemma StartResponseBytes(m: StartResponse)
    requires Fit64(m.requestId) && Fit64(m.result) && Fit64(m.connectionId) && (m.httpCode.Some? ==> Fit64(m.httpCode.value))
    ensures AppEncode(StartResponseMsg(m)) ==
            [0x40, 0x69] + (if m.httpCode.None?
              then [0xA3] + (NumberEntry(0, m.requestId) + (NumberEntry(1, m.result) + NumberEntry(2, m.connectionId)))
              else [0xA4] + (NumberEntry(0, m.requestId) + (NumberEntry(1, m.result)
                   + (NumberEntry(2, m.connectionId) + NumberEntry(3, m.httpCode.value)))))
  {
    LongKey(105);
    StartResponseEntriesAre(m);
    if m.httpCode.None? {
      ThreeNumbers(m.requestId, m.result, m.connectionId);
      FlatLayout(StartResponseMsg(m), [0x40, 0x69], 3, Concat(EntryBytes, StartResponseEntries(m)));
    } else {
      FourNumbers(m.requestId, m.result, m.connectionId, m.httpCode.value);
      FlatLayout(StartResponseMsg(m), [0x40, 0x69], 4, Concat(EntryBytes, StartResponseEntries(m)));
    }
  }

  lemma ThreeEntries(a: Entry, b: Entry, c: Entry, x: Bytes, y: Bytes, z: Bytes)
    requires EntryBytes(a) == x && EntryBytes(b) == y && EntryBytes(c) == z
    ensures Concat(EntryBytes, [a, b, c]) == x + (y + z)
  {
    Concat3(EntryBytes, a, b, c);
  }

  /** presentation-termination-request: type key 106. */
  lemma TerminationRequestBytes(m: TerminationRequest)
    requires Fit64(m.requestId) && Fit64(|m.presentationId|) && Fit64(m.reason)
    ensures AppEncode(TerminationRequestMsg(m)) ==
            [0x40, 0x6A] + ([0xA3] + (NumberEntry(0, m.requestId) + (TextEntry(1, m.presentationId) + NumberEntry(2, m.reason))))
  {
    var es := TerminationRequestEntries(m);
    LongKey(106);
    NumberEntryIs(0, m.requestId);
    TextEntryIs(1, m.presentationId);
    NumberEntryIs(2, m.reason);
    ThreeEntries(es[0], es[1], es[2], NumberEntry(0, m.requestId), TextEntry(1, m.presentationId), NumberEntry(2, m.reason));
    FlatLayout(TerminationRequestMsg(m), [0x40, 0x6A], 3, Concat(EntryBytes, es));
  }

  /** presentation-termination-event: type key 108. */
  lemma TerminationEventBytes(m: TerminationEvent)
    requires Fit64(|m.presentationId|) && Fit64(m.source) && Fit64(m.reason)
    ensures AppEncode(TerminationEventMsg(m)) ==
            [0x40, 0x6C] + ([0xA3] + (TextEntry(0, m.presentationId) + (NumberEntry(1, m.source) + NumberEntry(2, m.reason))))
  {
    var es := TerminationEventEntries(m);
    LongKey(108);
    TextEntryIs(0, m.presentationId);
    NumberEntryIs(1, m.source);
    NumberEntryIs(2, m.reason);
    ThreeEntries(es[0], es[1], es[2], TextEntry(0, m.presentationId), NumberEntry(1, m.source), NumberEntry(2, m.reason));
    FlatLayout(TerminationEventMsg(m), [0x40, 0x6C], 3, Concat(EntryBytes, es));
  }

  /** connection-open-request: type key 109. */
  lemma OpenRequestBytes(m: OpenRequest)
    requires Fit64(m.requestId) && Fit64(|m.presentationId|) && Fit64(|m.url|)
    ensures AppEncode(OpenRequestMsg(m)) ==
            [0x40, 0x6D] + ([0xA3] + (NumberEntry(0, m.requestId) + (TextEntry(1, m.presentationId) + TextEntry(2, m.url))))
  {
    var es := OpenRequestEntries(m);
    LongKey(109);
    NumberEntryIs(0, m.requestId);
    TextEntryIs(1, m.presentationId);
    TextEntryIs(2, m.url);
    ThreeEntries(es[0], es[1], es[2], NumberEntry(0, m.requestId), TextEntry(1, m.presentationId), TextEntry(2, m.url));
    FlatLayout(OpenRequestMsg(m), [0x40, 0x6D], 3, Concat(EntryBytes, es));
  }
}
