/** Finite sets of ids visited in increasing order, as the queries' ORDER BY and sorted() do. */
module Sets {

  lemma {:induction false} LeastBelow(s: set<nat>, x: nat)
    requires x in s
    ensures exists z :: z in s && forall y :: y in s ==> z <= y
    decreases x
  {
    if y :| y in s && y < x {
      LeastBelow(s, y);
    }
  }

  function Least(s: set<nat>): (x: nat)
    requires s != {}
    ensures x in s && forall y :: y in s ==> x <= y
  {
    var some :| some in s;
    LeastBelow(s, some);
    var x :| x in s && forall y :: y in s ==> x <= y;
    x
  }

  function Above(s: set<nat>, x: nat): set<nat> {
    set y | y in s && x < y
  }

  lemma {:induction false} GreatestAbove(s: set<nat>, x: nat)
    requires x in s
    ensures exists z :: z in s && forall y :: y in s ==> y <= z
    decreases Above(s, x)
  {
    if y :| y in s && x < y {
      assert Above(s, y) < Above(s, x) by {
        assert y in Above(s, x) && y !in Above(s, y);
      }
      GreatestAbove(s, y);
    }
  }

  function Greatest(s: set<nat>): (x: nat)
    requires s != {}
    ensures x in s && forall y :: y in s ==> y <= x
  {
    var some :| some in s;
    GreatestAbove(s, some);
    var x :| x in s && forall y :: y in s ==> y <= x;
    x
  }
}
