/** The decoding loop every map and array decoder shares, and what the order of the
    entries it reads does and does not matter for. */
module Parsing {
  import opened Basics

  /** What a decoder yields: a value and the bytes after it. */
  type Parse<+T> = Result<(T, Bytes), MessageError>

  /** Runs one loop body `n` times; the body reads from the input and updates the local
      variables `acc`. */
  function Repeat<A>(step: (Bytes, A) -> Parse<A>, s: Bytes, n: nat, acc: A): Parse<A>
    decreases n
  {
    if n == 0 then Ok((acc, s))
    else match step(s, acc)
         case Err(e) => Err(e)
         case Ok((acc1, s1)) => Repeat(step, s1, n - 1, acc1)
  }

  lemma RepeatStep<A>(step: (Bytes, A) -> Parse<A>, s: Bytes, n: nat, acc: A, s1: Bytes, acc1: A)
    requires n > 0 && step(s, acc) == Ok((acc1, s1))
    ensures Repeat(step, s, n, acc) == Repeat(step, s1, n - 1, acc1)
  {
  }

  lemma RepeatZero<A>(step: (Bytes, A) -> Parse<A>, s: Bytes, acc: A)
    ensures Repeat(step, s, 0, acc) == Ok((acc, s))
  {
  }

  /** `s` starts with exactly the entries `fs`, in that order, and `rest` follows. */
  ghost predicate Reads<F>(item: Bytes -> Parse<F>, s: Bytes, fs: seq<F>, rest: Bytes)
    decreases |fs|
  {
    if fs == [] then s == rest
    else
      && item(s).Ok?
      && item(s).value.0 == fs[0]
      && Reads(item, item(s).value.1, fs[1..], rest)
  }

  function PutAll<F, A>(put: (A, F) -> A, acc: A, fs: seq<F>): A
    decreases |fs|
  {
    if fs == [] then acc else PutAll(put, put(acc, fs[0]), fs[1..])
  }

  /** The loop body reads one entry and stores it. */
  ghost predicate ReadsAndPuts<F(!new), A(!new)>(step: (Bytes, A) -> Parse<A>, item: Bytes -> Parse<F>, put: (A, F) -> A) {
    forall s, acc :: step(s, acc) ==
      if item(s).Err? then Err(item(s).error)
      else Ok((put(acc, item(s).value.0), item(s).value.1))
  }

  /** Reading the entries `fs` makes the loop store them one after the other. */
  lemma {:induction false} LoopReads<F(!new), A(!new)>(
      step: (Bytes, A) -> Parse<A>, item: Bytes -> Parse<F>, put: (A, F) -> A,
      s: Bytes, acc: A, fs: seq<F>, rest: Bytes)
    requires ReadsAndPuts(step, item, put) && Reads(item, s, fs, rest)
    ensures Repeat(step, s, |fs|, acc) == Ok((PutAll(put, acc, fs), rest))
    decreases |fs|
  {
    if fs != [] {
      var (f, s1) := item(s).value;
      assert step(s, acc) == Ok((put(acc, f), s1));
      LoopReads(step, item, put, s1, put(acc, f), fs[1..], rest);
    }
  }

  /** And a loop that succeeds has read some entries and stored those. */
  lemma {:induction false} LoopHasRead<F(!new), A(!new)>(
      step: (Bytes, A) -> Parse<A>, item: Bytes -> Parse<F>, put: (A, F) -> A,
      s: Bytes, n: nat, acc: A) returns (fs: seq<F>)
    requires ReadsAndPuts(step, item, put) && Repeat(step, s, n, acc).Ok?
    ensures |fs| == n && Reads(item, s, fs, Repeat(step, s, n, acc).value.1)
    ensures PutAll(put, acc, fs) == Repeat(step, s, n, acc).value.0
    decreases n
  {
    if n == 0 {
      return [];
    }
    assert step(s, acc).Ok?;
    var (f, s1) := item(s).value;
    assert step(s, acc) == Ok((put(acc, f), s1));
    var tail := LoopHasRead(step, item, put, s1, n - 1, put(acc, f));
    fs := [f] + tail;
    assert fs[1..] == tail;
  }

  /** The bytes of a list of entries. */
  function Concat<F>(bytes: F -> Bytes, fs: seq<F>): Bytes {
    if fs == [] then [] else bytes(fs[0]) + Concat(bytes, fs[1..])
  }

  /** If every entry is read back from its own bytes, so is a list of them. */
  lemma {:induction false} ConcatReads<F(!new)>(item: Bytes -> Parse<F>, bytes: F -> Bytes, fs: seq<F>, rest: Bytes)
    requires forall f, r :: f in fs ==> item(bytes(f) + r) == Ok((f, r))
    ensures Reads(item, Concat(bytes, fs) + rest, fs, rest)
    decreases |fs|
  {
    if fs == [] {
      assert Concat(bytes, fs) + rest == rest;
    } else {
      var tail := Concat(bytes, fs[1..]) + rest;
      assert Concat(bytes, fs) + rest == bytes(fs[0]) + tail;
      assert item(bytes(fs[0]) + tail) == Ok((fs[0], tail));
      ConcatReads(item, bytes, fs[1..], rest);
    }
  }

  lemma Concat3<F>(bytes: F -> Bytes, a: F, b: F, c: F)
    ensures Concat(bytes, [a, b, c]) == bytes(a) + (bytes(b) + bytes(c))
  {
    var fs := [a, b, c];
    assert fs[1..] == [b, c] && fs[1..][1..] == [c] && fs[1..][1..][1..] == [];
    assert Concat(bytes, [c]) == bytes(c) + Concat(bytes, []);
    assert Concat(bytes, [b, c]) == bytes(b) + Concat(bytes, [c]);
  }

  lemma PutAll3<F, A>(put: (A, F) -> A, acc: A, a: F, b: F, c: F)
    ensures PutAll(put, acc, [a, b, c]) == put(put(put(acc, a), b), c)
  {
    var fs := [a, b, c];
    assert fs[1..] == [b, c] && fs[1..][1..] == [c] && fs[1..][1..][1..] == [];
    assert PutAll(put, put(acc, a), [b, c]) == PutAll(put, put(put(acc, a), b), [c]);
    assert PutAll(put, put(put(acc, a), b), [c]) == PutAll(put, put(put(put(acc, a), b), c), []);
  }

  /** Everything a list of entries contains was produced by the entry parser. */
  lemma {:induction false} ReadsAll<F(!new)>(item: Bytes -> Parse<F>, good: F -> bool, s: Bytes, fs: seq<F>, rest: Bytes)
    requires Reads(item, s, fs, rest)
    requires forall t :: item(t).Ok? ==> good(item(t).value.0)
    ensures forall f :: f in fs ==> good(f)
    decreases |fs|
  {
    if fs != [] {
      ReadsAll(item, good, item(s).value.1, fs[1..], rest);
      assert fs == [fs[0]] + fs[1..];
    }
  }

  // ---------------------------------------------------------------- loops with a bound

  /** The loop body reads one entry and stores it, if it fits what is stored already. */
  ghost predicate PutsIfFits<F(!new), A(!new)>(
      step: (Bytes, A) -> Parse<A>, item: Bytes -> Parse<F>, put: (A, F) -> A, fits: (A, F) -> bool) {
    forall s, acc ::
      && (step(s, acc).Ok? <==> item(s).Ok? && fits(acc, item(s).value.0))
      && (step(s, acc).Ok? ==> step(s, acc).value == (put(acc, item(s).value.0), item(s).value.1))
  }

  predicate FitAll<F, A>(put: (A, F) -> A, fits: (A, F) -> bool, acc: A, fs: seq<F>)
    decreases |fs|
  {
    fs == [] || (fits(acc, fs[0]) && FitAll(put, fits, put(acc, fs[0]), fs[1..]))
  }

  /** The entries that a successful loop has read. */
  lemma {:induction false} BoundedLoopHasRead<F(!new), A(!new)>(
      step: (Bytes, A) -> Parse<A>, item: Bytes -> Parse<F>, put: (A, F) -> A, fits: (A, F) -> bool, s: Bytes, n: nat, acc: A)
    returns (fs: seq<F>)
    requires PutsIfFits(step, item, put, fits) && Repeat(step, s, n, acc).Ok?
    ensures |fs| == n && Reads(item, s, fs, Repeat(step, s, n, acc).value.1) && FitAll(put, fits, acc, fs)
    ensures PutAll(put, acc, fs) == Repeat(step, s, n, acc).value.0
    decreases n
  {
    if n == 0 {
      return [];
    }
    assert step(s, acc).Ok?;
    var (f, s1) := item(s).value;
    var tail := BoundedLoopHasRead(step, item, put, fits, s1, n - 1, put(acc, f));
    fs := [f] + tail;
    assert fs[1..] == tail;
  }

  lemma {:induction false} BoundedLoopReads<F(!new), A(!new)>(
      step: (Bytes, A) -> Parse<A>, item: Bytes -> Parse<F>, put: (A, F) -> A, fits: (A, F) -> bool,
      s: Bytes, acc: A, fs: seq<F>, rest: Bytes)
    requires PutsIfFits(step, item, put, fits) && Reads(item, s, fs, rest) && FitAll(put, fits, acc, fs)
    ensures Repeat(step, s, |fs|, acc) == Ok((PutAll(put, acc, fs), rest))
    decreases |fs|
  {
    if fs != [] {
      var (f, s1) := item(s).value;
      assert step(s, acc).Ok? && step(s, acc).value == (put(acc, f), s1);
      BoundedLoopReads(step, item, put, fits, s1, put(acc, f), fs[1..], rest);
    }
  }

  /** Exactly when a loop succeeds, and with what: the input starts with `n` entries that fit,
      and the variables are those entries stored in order. */
  lemma LoopExactly<F(!new), A(!new)>(
      step: (Bytes, A) -> Parse<A>, item: Bytes -> Parse<F>, put: (A, F) -> A, fits: (A, F) -> bool,
      s: Bytes, n: nat, acc: A, out: A, rest: Bytes)
    requires PutsIfFits(step, item, put, fits)
    ensures Repeat(step, s, n, acc) == Ok((out, rest))
       <==> exists fs :: |fs| == n && Reads(item, s, fs, rest) && FitAll(put, fits, acc, fs) && PutAll(put, acc, fs) == out
  {
    if Repeat(step, s, n, acc).Ok? {
      var fs := BoundedLoopHasRead(step, item, put, fits, s, n, acc);
    }
    forall fs | |fs| == n && Reads(item, s, fs, rest) && FitAll(put, fits, acc, fs) && PutAll(put, acc, fs) == out
      ensures Repeat(step, s, n, acc) == Ok((out, rest))
    {
      BoundedLoopReads(step, item, put, fits, s, acc, fs, rest);
    }
  }

  /** The value of the last entry that has one. */
  function LastOf<F, T>(value: F -> Option<T>, fs: seq<F>): Option<T> {
    if fs == [] then None else OrElse(LastOf(value, fs[1..]), value(fs[0]))
  }

  function OrElse<T>(later: Option<T>, earlier: Option<T>): Option<T> {
    if later.Some? then later else earlier
  }

  /** The lists in the entries, one after the other. */
  function Gather<F, T>(list: F -> seq<T>, fs: seq<F>): seq<T> {
    if fs == [] then [] else list(fs[0]) + Gather(list, fs[1..])
  }

  /** A variable that every entry with a value overwrites holds the last value. */
  lemma {:induction false} Overwrites<F(!new), A(!new), T(!new)>(put: (A, F) -> A, field: A -> Option<T>, value: F -> Option<T>, acc: A, fs: seq<F>)
    requires forall a, f :: field(put(a, f)) == OrElse(value(f), field(a))
    ensures field(PutAll(put, acc, fs)) == OrElse(LastOf(value, fs), field(acc))
    decreases |fs|
  {
    if fs != [] {
      Overwrites(put, field, value, put(acc, fs[0]), fs[1..]);
    }
  }

  /** A variable that every entry extends holds their lists. */
  lemma {:induction false} Extends<F(!new), A(!new), T(!new)>(put: (A, F) -> A, field: A -> seq<T>, list: F -> seq<T>, acc: A, fs: seq<F>)
    requires forall a, f :: field(put(a, f)) == field(a) + list(f)
    ensures field(PutAll(put, acc, fs)) == field(acc) + Gather(list, fs)
    decreases |fs|
  {
    if fs != [] {
      Extends(put, field, list, put(acc, fs[0]), fs[1..]);
      assert (field(acc) + list(fs[0])) + Gather(list, fs[1..]) == field(acc) + (list(fs[0]) + Gather(list, fs[1..]));
    } else {
      assert field(acc) + [] == field(acc);
    }
  }

  /** Entries extend a variable within its capacity if and only if all their lists fit. */
  lemma {:induction false} FitExactly<F(!new), A(!new), T(!new)>(
      put: (A, F) -> A, fits: (A, F) -> bool, field: A -> seq<T>, list: F -> seq<T>, capacity: nat, acc: A, fs: seq<F>)
    requires forall a, f :: field(put(a, f)) == field(a) + list(f)
    requires forall a, f :: fits(a, f) <==> (list(f) == [] || |field(a)| + |list(f)| <= capacity)
    requires |field(acc)| <= capacity
    ensures FitAll(put, fits, acc, fs) <==> |field(acc)| + |Gather(list, fs)| <= capacity
    decreases |fs|
  {
    if fs != [] && fits(acc, fs[0]) {
      FitExactly(put, fits, field, list, capacity, put(acc, fs[0]), fs[1..]);
    }
  }
}
