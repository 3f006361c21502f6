/** Generic facts about sequences used by the filters of the table, the
    dropdowns and the form. */
module Seqs {

  /** `xs` is `ys` with some elements dropped, the rest in their order. */
  predicate IsSubsequence<T(==)>(xs: seq<T>, ys: seq<T>)
    decreases |ys|
  {
    if |xs| == 0 then true
    else if |ys| == 0 then false
    else if xs[0] == ys[0] then IsSubsequence(xs[1..], ys[1..])
    else IsSubsequence(xs, ys[1..])
  }
}
