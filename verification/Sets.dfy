/** Sizes of sets, and numbers outside them. */
module Sets {
  lemma SubsetSize<T>(small: set<T>, large: set<T>)
    requires small <= large
    ensures |small| <= |large|
  {
    assert large == small + (large - small);
  }

  lemma {:induction false} Above(numbers: set<nat>) returns (n: nat)
    ensures forall x :: x in numbers ==> x < n
    decreases |numbers|
  {
    n := 0;
    if numbers != {} {
      var x :| x in numbers;
      var rest := Above(numbers - {x});
      n := if x < rest then rest else x + 1;
      assert forall y :: y in numbers ==> y == x || y in numbers - {x};
    }
  }
}
