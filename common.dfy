/** Small shared vocabulary: an optional value and the `iter().map(f).collect()` idiom. */
module Common {

  /** Rust's `Option<T>`. */
  datatype Option<T> = None | Some(value: T) {

    /** `unwrap_or_else`, with the default already evaluated. */
    function UnwrapOr(default: T): (r: T)
      ensures Some? ==> r == value
      ensures None? ==> r == default
    {
      match this
      case Some(v) => v
      case None => default
    }
  }

  /** `xs.iter().map(f).collect()`: one output per input, in the same order. */
  function Map<A, B>(f: A -> B, xs: seq<A>): (r: seq<B>)
    ensures |r| == |xs|
    ensures forall i :: 0 <= i < |xs| ==> r[i] == f(xs[i])
  {
    if xs == [] then [] else [f(xs[0])] + Map(f, xs[1..])
  }
}
