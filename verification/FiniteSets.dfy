/** Facts about finite sets. */
module FiniteSets {
  lemma {:induction false} SubsetIsNoLarger<T>(a: set<T>, b: set<T>)
    requires a <= b
    ensures |a| <= |b|
    decreases |a|
  {
    if a != {} {
      var x :| x in a;
      SubsetIsNoLarger(a - {x}, b - {x});
    }
  }

  lemma {:induction false} HasLargest(s: set<nat>) returns (m: nat)
    requires s != {}
    ensures m in s && forall i :: i in s ==> i <= m
    decreases |s|
  {
    var x :| x in s;
    m := x;
    var rest := s - {x};
    assert forall i :: i in s ==> i == x || i in rest;
    if rest != {} {
      var r := HasLargest(rest);
      m := if r > x then r else x;
    }
  }
}
