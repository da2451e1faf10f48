/** The total order that every page query sorts by: creation time, then id. */
module Keys {
  datatype Key = Key(ts: int, id: nat)

  datatype Dir = Asc | Desc

  predicate Less(a: Key, b: Key) {
    a.ts < b.ts || (a.ts == b.ts && a.id < b.id)
  }

  /** `a` is listed before `b` when rows are listed in direction `d`. */
  predicate Before(d: Dir, a: Key, b: Key) {
    if d.Asc? then Less(a, b) else Less(b, a)
  }

  ghost predicate Ordered(d: Dir, s: seq<Key>) {
    forall i, j :: 0 <= i < j < |s| ==> Before(d, s[i], s[j])
  }

  ghost predicate SameKeys(q: seq<Key>, s: set<Key>) {
    forall k :: k in q <==> k in s
  }

  /** Every finite non-empty set of keys has a first one. */
  lemma {:induction false} FirstExists(d: Dir, s: set<Key>)
    requires s != {}
    ensures exists m :: m in s && forall k :: k in s && k != m ==> Before(d, m, k)
    decreases |s|
  {
    var a :| a in s;
    if s == {a} {
    } else {
      var rest := s - {a};
      assert rest != {};
      FirstExists(d, rest);
      var m :| m in rest && forall k :: k in rest && k != m ==> Before(d, m, k);
      var best := if Before(d, a, m) then a else m;
      forall k | k in s && k != best
        ensures Before(d, best, k)
      {
        assert k == a || k in rest;
      }
    }
  }

  function First(d: Dir, s: set<Key>): (m: Key)
    requires s != {}
    ensures m in s
    ensures forall k :: k in s && k != m ==> Before(d, m, k)
  {
    FirstExists(d, s);
    var m :| m in s && forall k :: k in s && k != m ==> Before(d, m, k);
    m
  }

  /** What `ORDER BY created_at, id` does to a set of rows with these keys. */
  function Sort(d: Dir, s: set<Key>): (q: seq<Key>)
    ensures |q| == |s|
    decreases |s|
  {
    if s == {} then []
    else
      var m := First(d, s);
      [m] + Sort(d, s - {m})
  }

  lemma {:induction false} SortSorts(d: Dir, s: set<Key>)
    ensures Ordered(d, Sort(d, s))
    ensures SameKeys(Sort(d, s), s)
    decreases |s|
  {
    if s != {} {
      var m := First(d, s);
      var rest := Sort(d, s - {m});
      SortSorts(d, s - {m});
      assert Sort(d, s) == [m] + rest;
      forall k | k in rest ensures Before(d, m, k) {
        assert k in s - {m};
      }
      assert forall i :: 0 <= i < |rest| ==> rest[i] in rest;
    }
  }

  lemma TailHoldsTheRest(d: Dir, q: seq<Key>, s: set<Key>, m: Key)
    requires Ordered(d, q) && SameKeys(q, s)
    requires q != [] && q[0] == m
    ensures Ordered(d, q[1..]) && SameKeys(q[1..], s - {m})
  {
    forall k ensures k in q[1..] <==> k in s - {m} {
      if k in q[1..] {
        var i :| 1 <= i < |q| && q[i] == k;
        assert Before(d, q[0], q[i]);
        assert k in q;
      }
      if k in s && k != m {
        assert k in q;
      }
    }
  }

  lemma FirstIsFirst(d: Dir, q: seq<Key>, s: set<Key>)
    requires Ordered(d, q) && SameKeys(q, s)
    requires q != []
    ensures s != {} && First(d, s) == q[0]
  {
    assert q[0] in s;
    var m := First(d, s);
    assert m in q;
    var i :| 0 <= i < |q| && q[i] == m;
    assert i > 0 ==> Before(d, q[0], q[i]);
  }

  /** There is only one way to list a set of keys in order, so the database has no choice. */
  lemma {:induction false} SortedListIsUnique(d: Dir, q: seq<Key>, s: set<Key>)
    requires Ordered(d, q)
    requires SameKeys(q, s)
    ensures q == Sort(d, s)
    decreases |q|
  {
    if q == [] {
      assert s == {};
    } else {
      FirstIsFirst(d, q, s);
      TailHoldsTheRest(d, q, s, q[0]);
      SortedListIsUnique(d, q[1..], s - {q[0]});
    }
  }
}
