/** Finite sets: how many elements, and a number outside. */
module Sets {
  lemma SmallerIsFewer<T>(a: set<T>, b: set<T>)
    requires a <= b
    ensures |a| <= |b|
  {
    assert b == a + (b - a);
  }

  /** A number greater than every number of the set. */
  lemma {:induction false} Above(s: set<nat>) returns (n: nat)
    ensures forall x | x in s :: x < n
    decreases |s|
  {
    if s == {} {
      n := 0;
    } else {
      var x :| x in s;
      var m := Above(s - {x});
      assert forall y | y in s :: y == x || y in s - {x};
      n := if m > x then m else x + 1;
    }
  }
}
