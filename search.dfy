/** First-match search, the shape of every early-return scan in the bot. */
module Search {
  import opened Wrappers

  /** The position of the first element of `xs`, at `from` or later, that `p` relates to `q`. */
  function FirstMatch<T, Q>(xs: seq<T>, p: (T, Q) -> bool, q: Q, from: nat): (r: Option<nat>)
    requires from <= |xs|
    ensures r.Some? ==> from <= r.value < |xs| && p(xs[r.value], q)
    ensures r.Some? ==> forall j :: from <= j < r.value ==> !p(xs[j], q)
    ensures r.None? ==> forall j :: from <= j < |xs| ==> !p(xs[j], q)
    decreases |xs| - from
  {
    if from == |xs| then None
    else if p(xs[from], q) then Some(from)
    else FirstMatch(xs, p, q, from + 1)
  }
}
