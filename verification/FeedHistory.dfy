/** Walking the task feed while the API keeps changing the table between two fetches. */
module FeedHistory {
  import opened Wrappers
  import opened Keys
  import opened Walks
  import opened TaskStore
  import opened TaskApi

  /** The tables that the successive fetches see: `batches[i]` runs between fetch `i` and fetch `i + 1`. */
  function Snapshots(t: Table, batches: seq<seq<Op>>): (tables: seq<Table>)
    ensures |tables| == |batches| + 1
    ensures tables[0] == t
    decreases |batches|
  {
    if batches == [] then [t] else [t] + Snapshots(Run(t, batches[0]), batches[1..])
  }

  ghost predicate LegalBatches(t: Table, batches: seq<seq<Op>>)
    decreases |batches|
  {
    batches == [] || (Legal(t, batches[0]) && LegalBatches(Run(t, batches[0]), batches[1..]))
  }

  /** Rows created between fetches carry later timestamps than all rows stored before. */
  predicate Later(t: Table, ops: seq<Op>)
    decreases |ops|
  {
    ops == [] ||
    (&& (ops[0].CreateTask? ==> forall id :: id in t ==> t[id].createdAt < ops[0].now)
     && Later(Exec(t, ops[0]).0, ops[1..]))
  }

  ghost predicate LaterBatches(t: Table, batches: seq<seq<Op>>)
    decreases |batches|
  {
    batches == [] || (Later(t, batches[0]) && LaterBatches(Run(t, batches[0]), batches[1..]))
  }

  function FeedViews(tables: seq<Table>, org: nat, f: Filters): (views: seq<set<Key>>)
    ensures |views| == |tables|
    ensures forall i :: 0 <= i < |views| ==> views[i] == VisibleKeys(tables[i], org, f)
  {
    seq(|tables|, i requires 0 <= i < |tables| => VisibleKeys(tables[i], org, f))
  }

  function StoredViews(tables: seq<Table>): (views: seq<set<Key>>)
    ensures |views| == |tables|
    ensures forall i :: 0 <= i < |views| ==> views[i] == KeysOf(tables[i])
  {
    seq(|tables|, i requires 0 <= i < |tables| => KeysOf(tables[i]))
  }

  /** Keys are for ever: a row keeps its key as long as the history runs. */
  lemma KeysPersist(t: Table, ops: seq<Op>)
    requires Legal(t, ops)
    ensures KeysOf(t) <= KeysOf(Run(t, ops))
  {
    forall id | id in t
      ensures id in Run(t, ops) && KeyOf(Run(t, ops)[id]) == KeyOf(t[id])
    {
      RowsStayWithTheirTenant(t, ops, id);
    }
  }

  lemma LaterSnapshot(t: Table, batches: seq<seq<Op>>, i: nat)
    requires 0 < i <= |batches|
    ensures Snapshots(t, batches)[i] == Snapshots(Run(t, batches[0]), batches[1..])[i - 1]
  {
    assert Snapshots(t, batches)[1..] == Snapshots(Run(t, batches[0]), batches[1..]);
  }

  lemma {:induction false} SnapshotKeysPersist(t: Table, batches: seq<seq<Op>>, i: nat)
    requires LegalBatches(t, batches)
    requires i <= |batches|
    ensures KeysOf(Snapshots(t, batches)[i]) <= KeysOf(Snapshots(t, batches)[|batches|])
    decreases |batches|
  {
    if batches != [] {
      var t' := Run(t, batches[0]);
      LaterSnapshot(t, batches, |batches|);
      if i == 0 {
        KeysPersist(t, batches[0]);
        SnapshotKeysPersist(t', batches[1..], 0);
      } else {
        LaterSnapshot(t, batches, i);
        SnapshotKeysPersist(t', batches[1..], i - 1);
      }
    }
  }

  lemma {:induction false} LaterRowsGoInFront(t: Table, ops: seq<Op>)
    requires Legal(t, ops) && Later(t, ops)
    ensures OnlyInFront(Desc, KeysOf(t), KeysOf(Run(t, ops)))
    decreases |ops|
  {
    if ops != [] {
      var op := ops[0];
      var t' := Exec(t, op).0;
      ExecPutsOneRow(t, op);
      assert forall id :: id in t ==> id in t' && KeyOf(t'[id]) == KeyOf(t[id]);
      LaterRowsGoInFront(t', ops[1..]);
      assert KeysOf(t) <= KeysOf(t');
      forall k, n | k in KeysOf(t) && n in KeysOf(Run(t, ops)) && n !in KeysOf(t)
        ensures !Before(Desc, k, n)
      {
        assert k in KeysOf(t');
        if n in KeysOf(t') {
          var id :| id in t' && KeyOf(t'[id]) == n;
          assert id !in t;
          assert op.CreateTask? && id == op.id;
          var kid :| kid in t && KeyOf(t[kid]) == k;
        }
      }
    }
  }

  lemma {:induction false} SnapshotsGrowInFront(t: Table, batches: seq<seq<Op>>)
    requires LegalBatches(t, batches) && LaterBatches(t, batches)
    ensures GrowsInFront(Desc, StoredViews(Snapshots(t, batches)))
    decreases |batches|
  {
    if batches != [] {
      var t' := Run(t, batches[0]);
      LaterRowsGoInFront(t, batches[0]);
      SnapshotsGrowInFront(t', batches[1..]);
      assert StoredViews(Snapshots(t, batches))[1..] == StoredViews(Snapshots(t', batches[1..]));
    }
  }

  /** The keys that a client sees while it walks a tenant's feed through a changing table. */
  function FeedWalk(t: Table, batches: seq<seq<Op>>, org: nat, f: Filters, limit: nat): seq<Page>
    requires limit >= 1
  {
    Walk(Desc, FeedViews(Snapshots(t, batches), org, f), None, limit)
  }

  /** Whatever requests run between the fetches, the feed is newest first and shows no task twice. */
  lemma FeedShowsNoTaskTwice(t: Table, batches: seq<seq<Op>>, org: nat, f: Filters, limit: nat)
    requires limit >= 1
    requires LegalBatches(t, batches)
    ensures var shown := Flat(FeedWalk(t, batches, org, f, limit));
            && Ordered(Desc, shown)
            && forall i, j :: 0 <= i < j < |shown| ==> shown[i].id != shown[j].id
  {
    var last := Snapshots(t, batches)[|batches|];
    var shown := Flat(FeedWalk(t, batches, org, f, limit));
    WalkIsOrdered(Desc, FeedViews(Snapshots(t, batches), org, f), None, limit);
    EveryKeyShownIsStored(t, batches, org, f, limit);
    OneKeyPerId(last, shown);
  }

  lemma OneKeyPerId(t: Table, shown: seq<Key>)
    requires Ordered(Desc, shown)
    requires forall k :: k in shown ==> k in KeysOf(t)
    ensures forall i, j :: 0 <= i < j < |shown| ==> shown[i].id != shown[j].id
  {
    forall i, j | 0 <= i < j < |shown|
      ensures shown[i].id != shown[j].id
    {
      assert shown[i] in shown && shown[j] in shown;
      assert Before(Desc, shown[i], shown[j]);
      var a :| a in t && KeyOf(t[a]) == shown[i];
      var b :| b in t && KeyOf(t[b]) == shown[j];
    }
  }

  ghost predicate AlwaysVisible(k: Key, tables: seq<Table>, org: nat, f: Filters) {
    forall i :: 0 <= i < |tables| ==> k in VisibleKeys(tables[i], org, f)
  }

  /**
   Once the server says that nothing follows, a task has been shown exactly when it was live and
   matched at the fetch that decides it; so a task that was live and matched all along is shown.
   */
  lemma FeedMissesNothing(t: Table, batches: seq<seq<Op>>, org: nat, f: Filters, limit: nat, k: Key)
    requires limit >= 1
    requires Finished(FeedWalk(t, batches, org, f, limit))
    ensures var pages := FeedWalk(t, batches, org, f, limit); var tables := Snapshots(t, batches);
            && |pages| <= |tables|
            && (k in Flat(pages) <==> k in VisibleKeys(tables[Decider(Desc, pages, k)], org, f))
            && (AlwaysVisible(k, tables, org, f) ==> k in Flat(pages))
  {
    WalkDecides(Desc, FeedViews(Snapshots(t, batches), org, f), None, limit, k);
  }

  lemma EveryKeyShownIsStored(t: Table, batches: seq<seq<Op>>, org: nat, f: Filters, limit: nat)
    requires limit >= 1
    requires LegalBatches(t, batches)
    ensures forall k :: k in Flat(FeedWalk(t, batches, org, f, limit)) ==> k in KeysOf(Snapshots(t, batches)[|batches|])
  {
    var tables := Snapshots(t, batches);
    var views := FeedViews(tables, org, f);
    forall i | 0 <= i < |tables|
      ensures views[i] <= KeysOf(tables[|batches|])
    {
      SnapshotKeysPersist(t, batches, i);
      VisibleAreStored(tables[i], org, f);
    }
    ShownComeFromViews(Desc, views, None, limit, KeysOf(tables[|batches|]));
  }

  lemma {:induction false} ShownComeFromViews(d: Dir, views: seq<set<Key>>, cursor: Option<Key>, limit: nat, all: set<Key>)
    requires limit >= 1
    requires forall i :: 0 <= i < |views| ==> views[i] <= all
    ensures forall k :: k in Flat(Walk(d, views, cursor, limit)) ==> k in all
    decreases |views|
  {
    if views != [] {
      var p := Fetch(d, views[0], cursor, limit);
      FetchIsFair(d, views[0], cursor, limit);
      if p.more {
        ShownComeFromViews(d, views[1..], Some(Last(p)), limit, all);
        assert ([p] + Walk(d, views[1..], Some(Last(p)), limit))[1..] == Walk(d, views[1..], Some(Last(p)), limit);
      } else {
        assert Flat([p]) == p.items;
      }
    }
  }

  /**
   If new tasks get later timestamps, the walk is over after at most one fetch more than there
   were tasks stored at its start, however long the API goes on creating tasks.
   */
  lemma FeedWalkEnds(t: Table, batches: seq<seq<Op>>, org: nat, f: Filters, limit: nat)
    requires limit >= 1
    requires LegalBatches(t, batches) && LaterBatches(t, batches)
    requires |batches| >= |t|
    ensures Finished(FeedWalk(t, batches, org, f, limit))
  {
    var tables := Snapshots(t, batches);
    SnapshotsGrowInFront(t, batches);
    forall i | 0 <= i < |tables|
      ensures FeedViews(tables, org, f)[i] <= StoredViews(tables)[i]
    {
      VisibleAreStored(tables[i], org, f);
    }
    KeysCountRows(t, t.Keys, KeysOf(t));
    assert Remaining(Desc, KeysOf(t), None) == KeysOf(t);
    WalkEnds(Desc, FeedViews(tables, org, f), StoredViews(tables), None, limit);
  }
}
