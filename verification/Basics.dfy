/** Types shared by every layer: bytes, the error enumerations and the bounded
    buffer that the original takes from the `heapless` crate. */
module Basics {

  type byte = x: int | 0 <= x < 256

  type Bytes = seq<byte>

  datatype Option<+T> = None | Some(value: T)

  datatype Result<+T, +E> = Ok(value: T) | Err(error: E)

  /** Error kinds of the encoders and decoders. */
  datatype MessageError =
    | EncodeFailed
    | DecodeFailed
    | BufferFull
    | InvalidMessageType
    | MissingField
    | InvalidField
    | FieldTooLong

  /** A byte buffer with a fixed capacity whose append is all-or-nothing. */
  class ByteVec {
    const capacity: nat
    var items: Bytes

    ghost predicate Valid()
      reads this
    {
      |items| <= capacity
    }

    constructor (capacity: nat)
      ensures Valid() && this.capacity == capacity && items == []
    {
      this.capacity := capacity;
      items := [];
    }

    method ExtendFromSlice(s: Bytes) returns (ok: bool)
      requires Valid()
      modifies this
      ensures Valid()
      ensures ok == (|old(items)| + |s| <= capacity)
      ensures items == if ok then old(items) + s else old(items)
    {
      ok := |items| + |s| <= capacity;
      if ok {
        items := items + s;
      }
    }
  }

  /** What an encoder leaves behind: it succeeds exactly when all of `bytes` fits, and
      then has appended it; otherwise the buffer holds some partial output. */
  ghost predicate Appended(before: Bytes, bytes: Bytes, capacity: nat, ok: bool, after: Bytes) {
    && ok == (|before| + |bytes| <= capacity)
    && (ok ==> after == before + bytes)
    && |after| <= capacity
  }

  predicate Peek(x: int) {
    true
  }

  /** Equality stated under a trigger, so that one side is looked into only where `Peek` is
      mentioned. */
  ghost predicate Same<T(!new)>(f: T, g: T) {
    forall x {:trigger Peek(x)} :: Peek(x) ==> f == g
  }
}
