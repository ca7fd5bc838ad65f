module Numbers {
  lemma {:induction false} Above(xs: set<nat>) returns (n: nat)
    ensures forall x <- xs :: x < n
  {
    if xs == {} {
      n := 0;
    } else {
      var x :| x in xs;
      var m := Above(xs - {x});
      n := if x < m then m else x + 1;
      forall y | y in xs ensures y < n {
        assert y != x ==> y in xs - {x};
      }
    }
  }

  /** No finite set has every number. */
  lemma Unused(xs: set<nat>) returns (n: nat)
    ensures n !in xs
  {
    n := Above(xs);
  }
}
