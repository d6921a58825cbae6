/**
  Reading bytes out of the caller's buffer. The source indexes a raw pointer
  with no check; here a read at or beyond the end of the buffer is not
  silently allowed but reported as `PastEnd(index)`, the first index the
  source would have read outside the `len` bytes it was given.
 */
module Reads {
  import opened Bytes

  datatype Option<+T> = None | Some(value: T)

  /** A value read from the buffer, or the index of the first read past its end. */
  datatype Fetch<+T> = Got(value: T) | PastEnd(index: nat) {

    predicate IsFailure() {
      PastEnd?
    }

    function PropagateFailure<U>(): Fetch<U>
      requires PastEnd?
    {
      PastEnd(index)
    }

    function Extract(): T
      requires Got?
    {
      value
    }
  }

  /** `data[i]`. */
  function At(buf: seq<byte>, i: nat): (r: Fetch<byte>)
    ensures r.Got? <==> i < |buf|
    ensures r.Got? ==> r.value == buf[i]
    ensures r.PastEnd? ==> r.index == i
  {
    if i < |buf| then Got(buf[i]) else PastEnd(i)
  }
}
