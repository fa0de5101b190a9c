module Sets {
  lemma EmptyOrNot(s: set<int>)
    ensures s == {} || exists x :: x in s
  {
    if !(exists x :: x in s) {
      assert s == {};
    }
  }
}
