/** Names nobody has taken. */
module Ids {
  lemma {:induction false} NewId(taken: set<nat>) returns (c: nat)
    ensures c !in taken && forall d :: d in taken ==> d < c
  {
    c := 0;
    if taken != {} {
      var d :| d in taken;
      var c' := NewId(taken - {d});
      c := if d < c' then c' else d + 1;
      assert taken == (taken - {d}) + {d};
    }
  }
}
