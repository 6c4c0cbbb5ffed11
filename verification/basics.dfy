/** Failure-carrying wrappers, the byte type and sequence mapping shared by every module of the model. */
module Basics {

  /** A value that may be absent: the outcome of an identity lookup. */
  datatype Option<+T> = None | Some(value: T)

  /** Either a value or the reason a computation stopped (a Go panic). */
  datatype Result<+T, +E> = Ok(value: T) | Err(error: E)

  newtype byte = x: int | 0 <= x < 256

  /** `f` applied to every element, in order. */
  function MapSeq<A, B>(f: A -> B, xs: seq<A>): (ys: seq<B>)
    ensures |ys| == |xs|
    ensures forall i :: 0 <= i < |xs| ==> ys[i] == f(xs[i])
  {
    seq(|xs|, i requires 0 <= i < |xs| => f(xs[i]))
  }

  lemma MapSeqAppend<A, B>(f: A -> B, a: seq<A>, b: seq<A>)
    ensures MapSeq(f, a + b) == MapSeq(f, a) + MapSeq(f, b)
  {
    var l := MapSeq(f, a + b);
    var r := MapSeq(f, a) + MapSeq(f, b);
    forall i | 0 <= i < |a| + |b|
      ensures l[i] == r[i]
    {
      if i < |a| {
        assert (a + b)[i] == a[i];
      } else {
        assert (a + b)[i] == b[i - |a|];
      }
    }
  }
}
