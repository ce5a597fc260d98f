/** What several parts of the model share. */
module Common {

  datatype Option<+T> = None | Some(value: T)

  /** Different elements of a set are no more than the set has. */
  lemma {:induction false} DistinctFits<T>(elements: seq<T>, all: set<T>)
    requires forall i :: 0 <= i < |elements| ==> elements[i] in all
    requires forall i, j :: 0 <= i < j < |elements| ==> elements[i] != elements[j]
    ensures |elements| <= |all|
  {
    if elements != [] {
      DistinctFits(elements[1..], all - {elements[0]});
    }
  }

  lemma SubsetIsSmaller<T>(small: set<T>, large: set<T>)
    requires small <= large
    ensures |small| <= |large|
  {
    assert large == small + (large - small);
  }
}
