/** Result shapes shared by every component of the model. */
module Wrappers {

  datatype Option<+T> = None | Some(value: T)

  datatype Result<+T, +E> = Ok(value: T) | Err(error: E)

  /** What the network does to one request sent to a server: it arrives and the
      answer comes back, it never arrives, or it is carried out but the answer
      is lost. The client sees an error in the last two cases. */
  datatype Delivery = Delivered | RequestLost | ReplyLost

  /** One second in nanoseconds, the unit of Go's durations. */
  const SECOND_NS := 1_000_000_000

  function MaxInt(a: int, b: int): int {
    if a < b then b else a
  }

  lemma Assoc<T>(xs: seq<T>, ys: seq<T>, zs: seq<T>)
    ensures xs + ys + zs == xs + (ys + zs)
  {
  }

  lemma Uncons<T>(xs: seq<T>)
    requires xs != []
    ensures xs == [xs[0]] + xs[1..]
  {
  }

  lemma Cons<T>(x: T, xs: seq<T>)
    ensures ([x] + xs)[0] == x && ([x] + xs)[1..] == xs
  {
  }

  lemma EmptySeq<T>(xs: seq<T>)
    ensures xs + [] == xs == [] + xs
  {
  }
}
