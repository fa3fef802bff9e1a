/** Facts about sequences shared by the other modules. */
module Sequences {

  /** Concatenation is associative. Dafny knows this already; the lemma only
      guides the solver. Calling it names the regrouping that a loop proof
      needs for its accumulator, so the solver does not have to search for
      it. It is shared by the reconstruction loops and the print loop. */
  lemma AppendAssoc<T>(a: seq<T>, b: seq<T>, c: seq<T>)
    ensures (a + b) + c == a + (b + c)
  {
  }
}
