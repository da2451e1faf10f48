/** Versions of tasks when requests run one after another, status updates and other edits mixed. */
module TaskVersions {
  import opened TaskStore
  import opened TaskApi

  predicate UpdatesTask(op: Op, id: nat) {
    (op.SetStatus? || op.EditTask?) && op.id == id
  }

  /** The version that a successful update of the task expected; nothing for any other request. */
  function Expected(t: Table, op: Op, id: nat): seq<int> {
    if UpdatesTask(op, id) && Exec(t, op).1.Row? then [op.expected] else []
  }

  /** The versions that the successful updates of a task expected, in the order of the updates. */
  function Used(t: Table, ops: seq<Op>, id: nat): seq<int>
    decreases |ops|
  {
    if ops == [] then [] else Expected(t, ops[0], id) + Used(Exec(t, ops[0]).0, ops[1..], id)
  }

  /** `lo`, `lo + 1`, ..., `hi - 1` */
  function Range(lo: int, hi: int): seq<int>
    decreases hi - lo
  {
    if lo >= hi then [] else [lo] + Range(lo + 1, hi)
  }

  lemma {:induction false} RangeLength(lo: int, hi: int)
    requires lo <= hi
    ensures |Range(lo, hi)| == hi - lo
    decreases hi - lo
  {
    if lo < hi {
      RangeLength(lo + 1, hi);
    }
  }

  lemma {:induction false} RangeSplits(lo: int, mid: int, hi: int)
    requires lo <= mid <= hi
    ensures Range(lo, mid) + Range(mid, hi) == Range(lo, hi)
    decreases mid - lo
  {
    if lo < mid {
      RangeSplits(lo + 1, mid, hi);
    }
  }

  lemma UpdateRaisesVersion(t: Table, op: Op, id: nat, t': Table)
    requires Fresh(t, op) && id in t && t' == Exec(t, op).0
    ensures id in t' && t[id].version <= t'[id].version
    ensures Expected(t, op, id) == Range(t[id].version, t'[id].version)
  {
    ExecPutsOneRow(t, op);
  }

  lemma {:induction false} VersionsFromHere(t: Table, ops: seq<Op>, id: nat)
    requires Legal(t, ops) && id in t
    ensures id in Run(t, ops) && t[id].version <= Run(t, ops)[id].version
    ensures Used(t, ops, id) == Range(t[id].version, Run(t, ops)[id].version)
    decreases |ops|
  {
    if ops != [] {
      var t' := Exec(t, ops[0]).0;
      UpdateRaisesVersion(t, ops[0], id, t');
      VersionsFromHere(t', ops[1..], id);
      RangeSplits(t[id].version, t'[id].version, Run(t', ops[1..])[id].version);
    }
  }

  lemma NoUpdateWithoutRow(t: Table, op: Op, id: nat)
    requires id !in t
    ensures Expected(t, op, id) == []
    ensures id in Exec(t, op).0 ==> Exec(t, op).0[id].version == 1
  {
    ExecPutsOneRow(t, op);
  }

  /**
   In every run of whole requests, the successful updates of a task, of its status or of other
   fields, expected the versions 1, 2, 3, ... up to the one before the stored version, once each and
   in this order; a task that is not there was never updated.
   */
  lemma {:induction false} VersionsAreUsedInOrder(t: Table, ops: seq<Op>, id: nat)
    requires Legal(t, ops) && id !in t
    ensures Used(t, ops, id) == if id in Run(t, ops) then Range(1, Run(t, ops)[id].version) else []
    ensures id in Run(t, ops) ==> |Used(t, ops, id)| == Run(t, ops)[id].version - 1
    decreases |ops|
  {
    if ops != [] {
      var t' := Exec(t, ops[0]).0;
      NoUpdateWithoutRow(t, ops[0], id);
      if id in t' {
        VersionsFromHere(t', ops[1..], id);
        RangeLength(1, Run(t, ops)[id].version);
      } else {
        VersionsAreUsedInOrder(t', ops[1..], id);
      }
    }
  }
}
