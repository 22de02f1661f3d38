/** Maps whose entries are single values: what a value may be, and the decoding loop that
    reads such a map by a table of its keys. */
module FlatMaps {
  import opened Basics
  import opened Cbor
  import opened Parsing

  const MAX_STRING_LEN := 256

  // ---------------------------------------------------------------- values

  function ParseNumber(s: Bytes): Parse<nat> {
    ParseBelow(U64, s)
  }

  function ParseBelow(bound: nat, s: Bytes): Parse<nat> {
    match ParseUint(s, bound)
    case None => Err(DecodeFailed)
    case Some((n, rest)) => Ok((n, rest))
  }

  function ParseAnyText(s: Bytes): Parse<Bytes> {
    match ParseStr(s)
    case None => Err(DecodeFailed)
    case Some((t, rest)) => Ok((t, rest))
  }

  function ParseText(s: Bytes): Parse<Bytes> {
    match ParseStr(s)
    case None => Err(DecodeFailed)
    case Some((t, rest)) => if |t| > MAX_STRING_LEN then Err(FieldTooLong) else Ok((t, rest))
  }

  function ParseBlob(s: Bytes): Parse<Bytes> {
    match ParseBytes(s)
    case None => Err(DecodeFailed)
    case Some((b, rest)) => Ok((b, rest))
  }

  /** A byte-sized code of an enumeration. */
  function ParseCode(valid: nat -> bool, s: Bytes): Parse<nat> {
    match ParseU8(s)
    case None => Err(DecodeFailed)
    case Some((n, rest)) => if valid(n) then Ok((n, rest)) else Err(InvalidField)
  }

  /** Reads one expected entry key. */
  function ParseKey(s: Bytes, want: nat): Result<Bytes, MessageError> {
    match ParseU8(s)
    case None => Err(DecodeFailed)
    case Some((key, rest)) => if key != want then Err(InvalidField) else Ok(rest)
  }

  /** A status: a map of one text. */
  function ParseStatus(s: Bytes): Parse<Bytes> {
    match ParseMap(s)
    case None => Err(DecodeFailed)
    case Some((len, s1)) =>
      if len != Some(1) then Err(DecodeFailed)
      else match ParseKey(s1, 0)
           case Err(e) => Err(e)
           case Ok(s2) => ParseText(s2)
  }

  /** Stores a parsed value. */
  function Store<T, A>(p: Parse<T>, store: T -> A): Parse<A> {
    match p
    case Err(e) => Err(e)
    case Ok((x, rest)) => Ok((store(x), rest))
  }

  datatype Value = Number(n: nat) | Text(t: Bytes) | Blob(b: Bytes) | StatusText(s: Bytes)

  function StatusBytes(t: Bytes): Bytes {
    EncodeHead(MAP, 1) + (EncodeUint(0) + EncodeStr(t))
  }

  function ValueBytes(v: Value): Bytes {
    match v
    case Number(n) => EncodeUint(n)
    case Text(t) => EncodeStr(t)
    case Blob(b) => EncodeBytes(b)
    case StatusText(t) => StatusBytes(t)
  }

  /** What the table says of a key. */
  datatype Shape = IsNumber(bound: nat) | IsCode(valid: nat -> bool) | IsText | IsBlob | IsStatus

  function ParseValue(shape: Shape, s: Bytes): Parse<Value> {
    match shape
    case IsNumber(bound) => Store(ParseBelow(bound, s), n => Number(n))
    case IsCode(valid) => Store(ParseCode(valid, s), n => Number(n))
    case IsText => Store(ParseAnyText(s), t => Text(t))
    case IsBlob => Store(ParseBlob(s), b => Blob(b))
    case IsStatus => Store(ParseStatus(s), t => StatusText(t))
  }

  /** The values a shape reads back. */
  predicate Fits(shape: Shape, v: Value) {
    match shape
    case IsNumber(bound) => v.Number? && v.n < bound && v.n < U64
    case IsCode(valid) => v.Number? && v.n < 0x100 && valid(v.n)
    case IsText => v.Text? && |v.t| < U64 && ValidUtf8(v.t)
    case IsBlob => v.Blob? && |v.b| < U64
    case IsStatus => v.StatusText? && |v.s| <= MAX_STRING_LEN && ValidUtf8(v.s)
  }

  // ---------------------------------------------------------------- entries

  datatype Entry = Entry(key: nat, value: Value)

  function EntryBytes(e: Entry): Bytes {
    EncodeUint(e.key) + ValueBytes(e.value)
  }

  type Table = nat -> Option<Shape>

  function ParseEntry(table: Table, s: Bytes): Parse<Entry> {
    match ParseU8(s)
    case None => Err(DecodeFailed)
    case Some((key, s1)) =>
      match table(key)
      case None => Err(InvalidField)
      case Some(shape) => Store(ParseValue(shape, s1), v => Entry(key, v))
  }

  function EntryParser(table: Table): Bytes -> Parse<Entry> {
    s => ParseEntry(table, s)
  }

  /** The local variables of a decoding loop, by key; a repeated key overwrites. */
  type Locals = map<nat, Value>

  function PutValue(locals: Locals, e: Entry): Locals {
    locals[e.key := e.value]
  }

  function FlatStep(table: Table): (Bytes, Locals) -> Parse<Locals> {
    (s: Bytes, locals: Locals) => Store(ParseEntry(table, s), e => PutValue(locals, e))
  }

  function ParseEntries(table: Table, s: Bytes, n: nat): Parse<Locals> {
    Repeat(FlatStep(table), s, n, map[])
  }

  /** The value of a variable, if it was filled. */
  function NumberAt(locals: Locals, key: nat): Option<nat> {
    if key in locals && locals[key].Number? then Some(locals[key].n) else None
  }

  function TextAt(locals: Locals, key: nat): Option<Bytes> {
    if key in locals && locals[key].Text? then Some(locals[key].t) else None
  }

  function BlobAt(locals: Locals, key: nat): Option<Bytes> {
    if key in locals && locals[key].Blob? then Some(locals[key].b) else None
  }

  function StatusAt(locals: Locals, key: nat): Option<Bytes> {
    if key in locals && locals[key].StatusText? then Some(locals[key].s) else None
  }

  function FlatBody(es: seq<Entry>): Bytes {
    EncodeHead(MAP, |es|) + Concat(EntryBytes, es)
  }

  /** A map whose length must be among those allowed. */
  function ParseFlat(table: Table, lengths: set<nat>, s: Bytes): Parse<Locals> {
    match ParseMap(s)
    case None => Err(DecodeFailed)
    case Some((len, s1)) =>
      if len.None? || len.value !in lengths then Err(InvalidField)
      else ParseEntries(table, s1, len.value)
  }

  // ---------------------------------------------------------------- round trips

  lemma Rebracket(key: Bytes, value: Bytes, rest: Bytes)
    ensures key + value + rest == key + (value + rest)
  {
  }

  lemma Rebracket3(a: Bytes, b: Bytes, c: Bytes, rest: Bytes)
    ensures a + (b + c) + rest == a + (b + (c + rest))
  {
  }

  lemma TextRoundTrip(t: Bytes, rest: Bytes)
    requires |t| < U64 && ValidUtf8(t)
    ensures ParseAnyText(EncodeStr(t) + rest) == Ok((t, rest))
    ensures ParseText(EncodeStr(t) + rest) == if |t| <= MAX_STRING_LEN then Ok((t, rest)) else Err(FieldTooLong)
  {
    StringRoundTrip(TEXT, t, rest);
  }

  lemma NumberRoundTrip(n: nat, rest: Bytes)
    requires n < U64
    ensures ParseNumber(EncodeUint(n) + rest) == Ok((n, rest))
  {
    UintRoundTrip(n, U64, rest);
  }

  lemma CodeRoundTrip(valid: nat -> bool, n: nat, rest: Bytes)
    requires n < 0x100 && valid(n)
    ensures ParseCode(valid, EncodeUint(n) + rest) == Ok((n, rest))
  {
    UintRoundTrip(n, 0x100, rest);
  }

  lemma KeyRoundTrip(key: nat, rest: Bytes)
    requires key < 0x100
    ensures ParseU8(EncodeUint(key) + rest) == Some((key, rest))
    ensures ParseKey(EncodeUint(key) + rest, key) == Ok(rest)
  {
    UintRoundTrip(key, 0x100, rest);
  }

  lemma StatusRoundTrip(t: Bytes, rest: Bytes)
    requires |t| < U64 && ValidUtf8(t)
    ensures ParseStatus(StatusBytes(t) + rest) == if |t| <= MAX_STRING_LEN then Ok((t, rest)) else Err(FieldTooLong)
  {
    var s1 := EncodeUint(0) + (EncodeStr(t) + rest);
    Rebracket3(EncodeHead(MAP, 1), EncodeUint(0), EncodeStr(t), rest);
    LengthRoundTrip(MAP, 1, s1);
    KeyRoundTrip(0, EncodeStr(t) + rest);
    TextRoundTrip(t, rest);
  }

  lemma ValueRoundTrip(shape: Shape, v: Value, rest: Bytes)
    requires Fits(shape, v)
    ensures ParseValue(shape, ValueBytes(v) + rest) == Ok((v, rest))
  {
    match shape
    case IsNumber(bound) => UintRoundTrip(v.n, bound, rest);
    case IsCode(valid) => CodeRoundTrip(valid, v.n, rest);
    case IsText => TextRoundTrip(v.t, rest);
    case IsBlob => StringRoundTrip(BYTES, v.b, rest);
    case IsStatus => StatusRoundTrip(v.s, rest);
  }

  predicate FitsTable(table: Table, e: Entry) {
    e.key < 0x100 && table(e.key).Some? && Fits(table(e.key).value, e.value)
  }

  lemma EntryRoundTrip(table: Table, e: Entry, rest: Bytes)
    requires FitsTable(table, e)
    ensures ParseEntry(table, EntryBytes(e) + rest) == Ok((e, rest))
  {
    Rebracket(EncodeUint(e.key), ValueBytes(e.value), rest);
    KeyRoundTrip(e.key, ValueBytes(e.value) + rest);
    ValueRoundTrip(table(e.key).value, e.value, rest);
  }

  lemma StepReads(table: Table)
    ensures ReadsAndPuts(FlatStep(table), EntryParser(table), PutValue)
  {
  }

  /** A loop over entries that fit the table stores each of them. */
  lemma EntriesRoundTrip(table: Table, es: seq<Entry>, rest: Bytes)
    requires forall e :: e in es ==> FitsTable(table, e)
    ensures ParseEntries(table, Concat(EntryBytes, es) + rest, |es|) == Ok((PutAll(PutValue, map[], es), rest))
  {
    forall e, r | e in es ensures EntryParser(table)(EntryBytes(e) + r) == Ok((e, r)) {
      EntryRoundTrip(table, e, r);
    }
    StepReads(table);
    ConcatReads(EntryParser(table), EntryBytes, es, rest);
    LoopReads(FlatStep(table), EntryParser(table), PutValue, Concat(EntryBytes, es) + rest, map[], es, rest);
  }

  lemma FlatRoundTrip(table: Table, lengths: set<nat>, es: seq<Entry>, rest: Bytes)
    requires |es| in lengths && |es| < U64
    requires forall e :: e in es ==> FitsTable(table, e)
    ensures ParseFlat(table, lengths, FlatBody(es) + rest) == Ok((PutAll(PutValue, map[], es), rest))
  {
    var tail := Concat(EntryBytes, es) + rest;
    Rebracket(EncodeHead(MAP, |es|), Concat(EntryBytes, es), rest);
    LengthRoundTrip(MAP, |es|, tail);
    EntriesRoundTrip(table, es, rest);
  }

  // ---------------------------------------------------------------- what decodes

  /** Exactly what a flat map decodes to: the entries it holds, each key with its last value. */
  lemma FlatExact(table: Table, lengths: set<nat>, s: Bytes, locals: Locals, rest: Bytes)
    ensures ParseFlat(table, lengths, s) == Ok((locals, rest))
       <==> && ParseMap(s).Some? && ParseMap(s).value.0.Some? && ParseMap(s).value.0.value in lengths
            && exists es :: |es| == ParseMap(s).value.0.value && Reads(EntryParser(table), ParseMap(s).value.1, es, rest)
                            && LastValues(es, locals)
  {
    StepReads(table);
    if ParseMap(s).Some? && ParseMap(s).value.0.Some? && ParseMap(s).value.0.value in lengths {
      var (len, s1) := ParseMap(s).value;
      if ParseFlat(table, lengths, s) == Ok((locals, rest)) {
        var es := LoopHasRead(FlatStep(table), EntryParser(table), PutValue, s1, len.value, map[]);
        PutAllIsLast(es);
      }
      forall es | |es| == len.value && Reads(EntryParser(table), s1, es, rest) && LastValues(es, locals)
        ensures ParseFlat(table, lengths, s) == Ok((locals, rest))
      {
        LoopReads(FlatStep(table), EntryParser(table), PutValue, s1, map[], es, rest);
        PutAllIsLast(es);
        LastValuesUnique(es, PutAll(PutValue, map[], es), locals);
      }
    }
  }

  /** `locals` holds, for every key that occurs, the value of its last occurrence. */
  ghost predicate LastValues(es: seq<Entry>, locals: Locals) {
    && (forall k :: k in locals ==> exists i :: IsLast(es, i, k) && locals[k] == es[i].value)
    && (forall i :: 0 <= i < |es| ==> es[i].key in locals)
  }

  ghost predicate IsLast(es: seq<Entry>, i: int, k: nat) {
    0 <= i < |es| && es[i].key == k && forall j :: i < j < |es| ==> es[j].key != k
  }

  lemma LastIsUnique(es: seq<Entry>, i: int, j: int, k: nat)
    requires IsLast(es, i, k) && IsLast(es, j, k)
    ensures i == j
  {
  }

  lemma LastValuesUnique(es: seq<Entry>, a: Locals, b: Locals)
    requires LastValues(es, a) && LastValues(es, b)
    ensures a == b
  {
    forall k | k in a ensures k in b && a[k] == b[k] {
      var i :| IsLast(es, i, k) && a[k] == es[i].value;
      var j :| IsLast(es, j, k) && b[k] == es[j].value;
      LastIsUnique(es, i, j, k);
    }
    forall k | k in b ensures k in a {
      var j :| IsLast(es, j, k) && b[k] == es[j].value;
    }
  }

  lemma {:induction false} PutAllSnoc<F, A>(put: (A, F) -> A, acc: A, fs: seq<F>, f: F)
    ensures PutAll(put, acc, fs + [f]) == put(PutAll(put, acc, fs), f)
    decreases |fs|
  {
    if fs == [] {
      assert fs + [f] == [f] && [f][1..] == [];
    } else {
      assert (fs + [f])[1..] == fs[1..] + [f];
      PutAllSnoc(put, put(acc, fs[0]), fs[1..], f);
    }
  }

  lemma {:induction false} PutAllIsLast(es: seq<Entry>)
    ensures LastValues(es, PutAll(PutValue, map[], es))
    decreases |es|
  {
    if es != [] {
      var init, last := es[..|es| - 1], es[|es| - 1];
      PutAllIsLast(init);
      PutAllSnoc(PutValue, map[], init, last);
      assert es == init + [last];
      LastValuesSnoc(init, PutAll(PutValue, map[], init), last);
    }
  }

  lemma LastValuesSnoc(es: seq<Entry>, locals: Locals, e: Entry)
    requires LastValues(es, locals)
    ensures LastValues(es + [e], PutValue(locals, e))
  {
    var more, after := es + [e], PutValue(locals, e);
    forall k | k in after ensures exists i :: IsLast(more, i, k) && after[k] == more[i].value {
      if k == e.key {
        assert IsLast(more, |es|, k);
      } else {
        var i :| IsLast(es, i, k) && locals[k] == es[i].value;
        assert IsLast(more, i, k);
      }
    }
  }

  // ---------------------------------------------------------------- all-mandatory maps

  /** The entries of a map that has exactly the keys below `n`, in key order. */
  function EntriesOf(locals: Locals, n: nat): (es: seq<Entry>)
    requires forall k :: k < n ==> k in locals
    ensures |es| == n && forall k :: 0 <= k < n ==> es[k] == Entry(k, locals[k])
  {
    if n == 0 then [] else EntriesOf(locals, n - 1) + [Entry(n - 1, locals[n - 1])]
  }

  lemma {:induction false} DistinctOnce<F>(vs: seq<F>, x: F)
    requires forall i, j :: 0 <= i < j < |vs| ==> vs[i] != vs[j]
    ensures multiset(vs)[x] <= 1
  {
    if vs != [] {
      var init, last := vs[..|vs| - 1], vs[|vs| - 1];
      DistinctOnce(init, x);
      assert vs == init + [last];
      if x == last {
        assert x !in init;
      }
    }
  }

  /** As many entries as there are required ones, and each required one among them: then
      they are the required ones in some order. */
  lemma Covering<F>(fs: seq<F>, vs: seq<F>)
    requires |fs| == |vs| && (forall i, j :: 0 <= i < j < |vs| ==> vs[i] != vs[j])
    requires forall v :: v in vs ==> v in fs
    ensures multiset(fs) == multiset(vs)
  {
    forall x ensures multiset(vs)[x] <= multiset(fs)[x] {
      DistinctOnce(vs, x);
      if x in vs {
        assert x in multiset(fs);
      }
    }
    var surplus := multiset(fs) - multiset(vs);
    assert multiset(fs) == multiset(vs) + surplus;
    assert |multiset(fs)| == |multiset(vs)| + |surplus|;
  }

  lemma LastIsAmong(es: seq<Entry>, locals: Locals, k: nat)
    requires LastValues(es, locals) && k in locals
    ensures Entry(k, locals[k]) in es
  {
    var i :| IsLast(es, i, k) && locals[k] == es[i].value;
    assert es[i] == Entry(k, locals[k]);
  }

  /** Pigeonhole: `n` entries that fill the `n` variables are, in some order, one entry for
      each variable. */
  lemma FlatPigeonhole(es: seq<Entry>, locals: Locals, n: nat)
    requires |es| == n && LastValues(es, locals) && forall k :: k < n ==> k in locals
    ensures multiset(es) == multiset(EntriesOf(locals, n))
  {
    var vs := EntriesOf(locals, n);
    forall v | v in vs ensures v in es {
      var k: nat :| 0 <= k < n && vs[k] == v;
      LastIsAmong(es, locals, k);
    }
    Covering(es, vs);
  }

  lemma CountTwice<F>(fs: seq<F>, i: nat, j: nat)
    requires i < j < |fs| && fs[i] == fs[j]
    ensures multiset(fs)[fs[i]] >= 2
  {
    assert fs == fs[..j] + fs[j..];
    assert fs[..j][i] == fs[i] && fs[j..][0] == fs[i];
    assert fs[i] in multiset(fs[..j]) && fs[i] in multiset(fs[j..]);
  }

  lemma EntriesDistinct(locals: Locals, n: nat)
    requires forall k :: k < n ==> k in locals
    ensures forall i, j :: 0 <= i < j < n ==> EntriesOf(locals, n)[i] != EntriesOf(locals, n)[j]
  {
  }

  /** Conversely, a permutation of one entry for each variable fills them with those values. */
  lemma PermutationFills(es: seq<Entry>, locals: Locals, n: nat)
    requires (forall k :: k in locals <==> k < n) && multiset(es) == multiset(EntriesOf(locals, n))
    ensures |es| == n && LastValues(es, locals)
  {
    var vs := EntriesOf(locals, n);
    assert |es| == |multiset(es)| == |multiset(vs)| == n;
    forall k | k in locals ensures exists i :: IsLast(es, i, k) && locals[k] == es[i].value {
      assert vs[k] in multiset(vs);
      assert vs[k] in es;
      var i :| 0 <= i < |es| && es[i] == vs[k];
      forall j | i < j < |es| ensures es[j].key != k {
        if es[j].key == k {
          AmongEntries(es[j], es, locals, n);
          CountTwice(es, i, j);
          EntriesDistinct(locals, n);
          DistinctOnce(vs, es[i]);
        }
      }
      assert IsLast(es, i, k);
    }
    forall i | 0 <= i < |es| ensures es[i].key in locals {
      AmongEntries(es[i], es, locals, n);
    }
  }

  lemma AmongEntries(e: Entry, es: seq<Entry>, locals: Locals, n: nat)
    requires (forall k :: k < n ==> k in locals) && multiset(es) == multiset(EntriesOf(locals, n)) && e in es
    ensures e.key < n && e == Entry(e.key, locals[e.key])
  {
    assert e in multiset(es);
    assert e in EntriesOf(locals, n);
  }

  /** A loop that filled every variable read one entry for each of them. */
  lemma MandatoryRead(table: Table, n: nat, s1: Bytes, locals: Locals, rest: Bytes) returns (es: seq<Entry>)
    requires forall k :: k in locals <==> k < n
    requires ParseEntries(table, s1, n) == Ok((locals, rest))
    ensures multiset(es) == multiset(EntriesOf(locals, n)) && Reads(EntryParser(table), s1, es, rest)
  {
    StepReads(table);
    es := LoopHasRead(FlatStep(table), EntryParser(table), PutValue, s1, n, map[]);
    PutAllIsLast(es);
    FlatPigeonhole(es, locals, n);
  }

  lemma MandatoryFills(table: Table, n: nat, s1: Bytes, locals: Locals, es: seq<Entry>, rest: Bytes)
    requires forall k :: k in locals <==> k < n
    requires multiset(es) == multiset(EntriesOf(locals, n)) && Reads(EntryParser(table), s1, es, rest)
    ensures ParseEntries(table, s1, n) == Ok((locals, rest))
  {
    StepReads(table);
    PermutationFills(es, locals, n);
    LoopReads(FlatStep(table), EntryParser(table), PutValue, s1, map[], es, rest);
    PutAllIsLast(es);
    LastValuesUnique(es, PutAll(PutValue, map[], es), locals);
  }

  ghost predicate HoldsPermutation(table: Table, n: nat, s1: Bytes, locals: Locals, rest: Bytes)
    requires forall k :: k < n ==> k in locals
  {
    exists es :: multiset(es) == multiset(EntriesOf(locals, n)) && Reads(EntryParser(table), s1, es, rest)
  }

  /** Exactness of an all-mandatory map: it decodes with every variable filled if and only if
      it holds one entry for each variable, in some order and nothing else. */
  lemma MandatoryExact(table: Table, n: nat, s: Bytes, locals: Locals, rest: Bytes)
    requires forall k :: k in locals <==> k < n
    ensures ParseFlat(table, {n}, s) == Ok((locals, rest))
       <==> && ParseMap(s).Some? && ParseMap(s).value.0 == Some(n)
            && HoldsPermutation(table, n, ParseMap(s).value.1, locals, rest)
  {
    if ParseMap(s).Some? && ParseMap(s).value.0 == Some(n) {
      MandatoryEntries(table, n, ParseMap(s).value.1, locals, rest);
    }
  }

  lemma MandatoryEntries(table: Table, n: nat, s1: Bytes, locals: Locals, rest: Bytes)
    requires forall k :: k in locals <==> k < n
    ensures ParseEntries(table, s1, n) == Ok((locals, rest)) <==> HoldsPermutation(table, n, s1, locals, rest)
  {
    if ParseEntries(table, s1, n) == Ok((locals, rest)) {
      var es := MandatoryRead(table, n, s1, locals, rest);
    }
    if HoldsPermutation(table, n, s1, locals, rest) {
      var es :| multiset(es) == multiset(EntriesOf(locals, n)) && Reads(EntryParser(table), s1, es, rest);
      MandatoryFills(table, n, s1, locals, es, rest);
    }
  }
}
