/** What several modules share. */
module Common {
  datatype Option<+T> = None | Some(value: T)

  lemma SubsetSize<T>(small: set<T>, large: set<T>)
    requires small <= large
    ensures |small| <= |large|
  {
    assert large == small + (large - small);
  }
}
