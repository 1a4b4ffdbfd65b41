/** Finite sums over sets of keys. */
module Sums {
  ghost function SumOver(s: set<nat>, f: map<nat, nat>): nat
    requires s <= f.Keys
    decreases |s|
  {
    if s == {} then 0
    else
      var x :| x in s;
      f[x] + SumOver(s - {x}, f)
  }

  /** Any element can be taken out first. */
  lemma {:induction false} SumTake(s: set<nat>, f: map<nat, nat>, x: nat)
    requires s <= f.Keys && x in s
    ensures SumOver(s, f) == f[x] + SumOver(s - {x}, f)
    decreases |s|
  {
    var y :| y in s && SumOver(s, f) == f[y] + SumOver(s - {y}, f);
    if y != x {
      SumTake(s - {y}, f, x);
      SumTake(s - {x}, f, y);
      assert s - {y} - {x} == s - {x} - {y};
    }
  }

  lemma {:induction false} SumSame(s: set<nat>, f: map<nat, nat>, g: map<nat, nat>)
    requires s <= f.Keys && s <= g.Keys && forall x :: x in s ==> f[x] == g[x]
    ensures SumOver(s, f) == SumOver(s, g)
    decreases |s|
  {
    if s != {} {
      var x :| x in s;
      SumTake(s, f, x);
      SumTake(s, g, x);
      SumSame(s - {x}, f, g);
    }
  }
}
