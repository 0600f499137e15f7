/** Numbers that are not in use. */
module Fresh {
  lemma {:induction false} Above(used: set<nat>) returns (bound: nat)
    ensures forall x :: x in used ==> x < bound
  {
    if used == {} {
      bound := 0;
    } else {
      var x :| x in used;
      bound := Above(used - {x});
      assert forall y :: y in used ==> y == x || y in used - {x};
      if bound <= x {
        bound := x + 1;
      }
    }
  }
}
