/** Sequences without repeated elements. */
module Seqs {
  ghost predicate NoDuplicates<T(!new)>(xs: seq<T>) {
    forall i, j | 0 <= i < j < |xs| :: xs[i] != xs[j]
  }

  lemma {:induction false} NoDuplicatesAppend<T(!new)>(xs: seq<T>, x: T)
    requires NoDuplicates(xs)
    ensures NoDuplicates(xs + [x]) <==> x !in xs
  {
    var longer := xs + [x];
    if NoDuplicates(longer) {
      assert forall i | 0 <= i < |xs| :: longer[i] == xs[i] && longer[i] != longer[|xs|];
    } else {
      assert forall i | 0 <= i < |xs| :: xs[i] in xs;
    }
  }
}
