/** The nightly purge of soft-deleted tasks, as a garbage collector running beside the task API. */
module Sweeper {
  import opened Wrappers
  import opened FiniteSets
  import opened TaskStore
  import opened TaskApi
  import opened Iso8601

  function Expired(t: Table, now: int, days: nat): set<nat> {
    set id | id in t && t[id].isDeleted && t[id].deletedAt.Some? && t[id].deletedAt.value <= now - days * DAY
  }

  function ChildrenOf(t: Table, ids: set<nat>): set<nat> {
    set id | id in t && t[id].parent.Some? && t[id].parent.value in ids
  }

  /** Deleting rows deletes their subtasks too, at every depth (`ON DELETE CASCADE` on `parent_id`). */
  function Cascade(t: Table, ids: set<nat>): set<nat>
    decreases |t.Keys - ids|
  {
    var more := ChildrenOf(t, ids) - ids;
    if more == {} then ids
    else
      CascadeGrows(t, ids, more);
      Cascade(t, ids + more)
  }

  lemma CascadeGrows(t: Table, ids: set<nat>, more: set<nat>)
    requires more == ChildrenOf(t, ids) - ids
    requires more != {}
    ensures |t.Keys - (ids + more)| < |t.Keys - ids|
  {
    var x :| x in more;
    assert t.Keys - (ids + more) <= (t.Keys - ids) - {x};
    SubsetIsNoLarger(t.Keys - (ids + more), (t.Keys - ids) - {x});
  }

  /** The purge job: one DELETE statement and a commit. */
  function Purge(t: Table, now: int, days: nat): Table {
    t - Cascade(t, Expired(t, now, days))
  }

  lemma {:induction false} CascadeContains(t: Table, ids: set<nat>)
    ensures ids <= Cascade(t, ids)
    decreases |t.Keys - ids|
  {
    var more := ChildrenOf(t, ids) - ids;
    if more != {} {
      CascadeGrows(t, ids, more);
      CascadeContains(t, ids + more);
    }
  }

  /** The purge removes exactly the expired rows if and only if no other row is a subtask of an expired one. */
  lemma PurgeIsExactWhenNoSubtaskSurvives(t: Table, now: int, days: nat)
    ensures Cascade(t, Expired(t, now, days)) == Expired(t, now, days)
       <==> ChildrenOf(t, Expired(t, now, days)) <= Expired(t, now, days)
  {
    var ids := Expired(t, now, days);
    var more := ChildrenOf(t, ids) - ids;
    assert more == {} <==> ChildrenOf(t, ids) <= ids;
    if more != {} {
      CascadeGrows(t, ids, more);
      CascadeContains(t, ids + more);
      var x :| x in more;
      assert x in Cascade(t, ids) && x !in ids;
    }
  }

  /** The API never sets `parent_id`. */
  ghost predicate NoSubtasks(t: Table) {
    forall id :: id in t ==> t[id].parent.None?
  }

  lemma PurgeWithoutSubtasks(t: Table, now: int, days: nat)
    requires NoSubtasks(t)
    ensures Purge(t, now, days) == t - Expired(t, now, days)
  {
    PurgeIsExactWhenNoSubtaskSurvives(t, now, days);
    assert ChildrenOf(t, Expired(t, now, days)) == {};
  }

  datatype Event = Api(op: Op) | Sweep(now: int, days: nat)

  function After(t: Table, e: Event): Table {
    match e
    case Api(op) => Exec(t, op).0
    case Sweep(now, days) => Purge(t, now, days)
  }

  function Play(t: Table, events: seq<Event>): Table
    decreases |events|
  {
    if events == [] then t else Play(After(t, events[0]), events[1..])
  }

  function PlayReplies(t: Table, events: seq<Event>): seq<Reply>
    decreases |events|
  {
    if events == [] then []
    else (if events[0].Api? then [Exec(t, events[0].op).1] else []) + PlayReplies(After(t, events[0]), events[1..])
  }

  function WithoutSweeps(events: seq<Event>): seq<Event> {
    if events == [] then []
    else (if events[0].Api? then [events[0]] else []) + WithoutSweeps(events[1..])
  }

  /** Ids of new tasks are never reused, not even those of rows that a purge removed: `t` is the table without purges. */
  ghost predicate FreshIds(t: Table, events: seq<Event>)
    decreases |events|
  {
    events == [] ||
    (&& (events[0].Api? ==> Fresh(t, events[0].op))
     && FreshIds(if events[0].Api? then After(t, events[0]) else t, events[1..]))
  }

  /** `u` is `t` with some soft-deleted rows collected. */
  ghost predicate Collected(t: Table, u: Table) {
    && (forall id :: id in u ==> id in t && t[id] == u[id])
    && (forall id :: id in t && id !in u ==> t[id].isDeleted)
    && NoSubtasks(t)
  }

  lemma CollectedHaveSameLive(t: Table, u: Table, org: nat)
    requires Collected(t, u)
    ensures SameLive(t, u, org)
  {
  }

  lemma SameLiveSameWritten(t: Table, u: Table, op: Op)
    requires SameLive(t, u, op.org)
    ensures Written(t, op) == Written(u, op)
  {
    if op.DeleteTask? || op.SetStatus? || op.EditTask? {
      assert GetById(t, op.org, op.id, false) == GetById(u, op.org, op.id, false);
    }
  }

  lemma WrittenHasNoParent(t: Table, op: Op)
    requires NoSubtasks(t) && Written(t, op).Some?
    ensures Written(t, op).value.parent.None? && (op.CreateTask? ==> Written(t, op).value.id == op.id)
  {
  }

  /** Writing the same row to both tables keeps them in step. */
  lemma PutKeepsCollected(t: Table, u: Table, row: Task)
    requires Collected(t, u) && row.parent.None?
    requires row.id in t ==> row.id in u
    ensures Collected(t[row.id := row], u[row.id := row])
  {
  }

  lemma CollectedStep(t: Table, u: Table, op: Op)
    requires Collected(t, u) && Fresh(t, op)
    ensures Collected(Exec(t, op).0, Exec(u, op).0)
    ensures Exec(t, op).1 == Exec(u, op).1
  {
    CollectedHaveSameLive(t, u, op.org);
    ReplyDependsOnLiveRows(t, u, op);
    SameLiveSameWritten(t, u, op);
    ExecPutsOneRow(t, op);
    ExecPutsOneRow(u, op);
    if Written(t, op).Some? {
      WrittenHasNoParent(t, op);
      PutKeepsCollected(t, u, Written(t, op).value);
    }
  }

  lemma CollectedSweep(t: Table, u: Table, now: int, days: nat)
    requires Collected(t, u)
    ensures Collected(t, Purge(u, now, days))
  {
    PurgeWithoutSubtasks(u, now, days);
  }

  /**
   The collector is unobservable: take the purges out of a history and every request still gets
   the same reply; and what purges removed from the final table is soft-deleted.
   */
  lemma {:induction false} SweepsAreUnobservable(t: Table, u: Table, events: seq<Event>)
    requires Collected(t, u)
    requires FreshIds(t, events)
    ensures PlayReplies(u, events) == PlayReplies(t, WithoutSweeps(events))
    ensures Collected(Play(t, WithoutSweeps(events)), Play(u, events))
    decreases |events|
  {
    if events != [] {
      var e := events[0];
      var kept := WithoutSweeps(events[1..]);
      if e.Api? {
        CollectedStep(t, u, e.op);
        SweepsAreUnobservable(After(t, e), After(u, e), events[1..]);
        assert ([e] + kept)[1..] == kept;
      } else {
        CollectedSweep(t, u, e.now, e.days);
        SweepsAreUnobservable(t, After(u, e), events[1..]);
        assert [] + kept == kept;
      }
    }
  }

  ghost predicate LegalEvents(t: Table, events: seq<Event>)
    decreases |events|
  {
    events == [] || ((events[0].Api? ==> Fresh(t, events[0].op)) && LegalEvents(After(t, events[0]), events[1..]))
  }

  lemma {:induction false} PlayAppend(t: Table, past: seq<Event>, e: Event)
    ensures Play(t, past + [e]) == After(Play(t, past), e)
    decreases |past|
  {
    if past == [] {
      assert past + [e] == [e] && [e][1..] == [];
    } else {
      assert (past + [e])[1..] == past[1..] + [e];
      PlayAppend(After(t, past[0]), past[1..], e);
    }
  }

  /** Event `i` is a request that deleted the task at time `at`: it was answered with success when it ran. */
  ghost predicate DeletedBy(events: seq<Event>, i: nat, id: nat, at: int) {
    && i < |events| && events[i].Api? && events[i].op.DeleteTask?
    && events[i].op.id == id && events[i].op.now == at
    && Exec(Play(map[], events[..i]), events[i].op).1 == NoContent
  }

  /** Exactly the soft-deleted rows are stamped, each by a request of this history that deleted it at that time. */
  ghost predicate DeletionsLogged(t: Table, past: seq<Event>) {
    forall id :: id in t ==>
      && (t[id].isDeleted <==> t[id].deletedAt.Some?)
      && (t[id].isDeleted ==> exists i: nat :: DeletedBy(past, i, id, t[id].deletedAt.value))
  }

  lemma DeletedByStays(past: seq<Event>, e: Event, i: nat, id: nat, at: int)
    requires DeletedBy(past, i, id, at)
    ensures DeletedBy(past + [e], i, id, at)
  {
    assert (past + [e])[..i] == past[..i];
  }

  /** The only request that marks a row as deleted is a successful deletion of it. */
  lemma NewlyDeleted(t: Table, op: Op, id: nat)
    requires Fresh(t, op)
    requires id in Exec(t, op).0 && Exec(t, op).0[id].isDeleted && !(id in t && t[id] == Exec(t, op).0[id])
    ensures op.DeleteTask? && op.id == id && Exec(t, op).1 == NoContent && Exec(t, op).0[id].deletedAt == Some(op.now)
  {
  }

  /** A row that is live after an event is new or was live before, and has no stamp. */
  lemma LiveIsUnstamped(t: Table, e: Event, id: nat)
    requires NoSubtasks(t) && (e.Api? ==> Fresh(t, e.op))
    requires forall k :: k in t ==> (t[k].isDeleted <==> t[k].deletedAt.Some?)
    requires id in After(t, e) && !After(t, e)[id].isDeleted
    ensures After(t, e)[id].deletedAt.None?
  {
    if e.Sweep? {
      PurgeWithoutSubtasks(t, e.now, e.days);
    }
  }

  lemma LogStep(past: seq<Event>, e: Event)
    requires DeletionsLogged(Play(map[], past), past) && NoSubtasks(Play(map[], past))
    requires e.Api? ==> Fresh(Play(map[], past), e.op)
    ensures DeletionsLogged(Play(map[], past + [e]), past + [e]) && NoSubtasks(Play(map[], past + [e]))
  {
    var t := Play(map[], past);
    var t' := Play(map[], past + [e]);
    PlayAppend(map[], past, e);
    if e.Sweep? {
      PurgeWithoutSubtasks(t, e.now, e.days);
    } else {
      ExecPutsOneRow(t, e.op);
    }
    forall id | id in t'
      ensures t'[id].isDeleted <==> t'[id].deletedAt.Some?
      ensures t'[id].isDeleted ==> exists i: nat :: DeletedBy(past + [e], i, id, t'[id].deletedAt.value)
    {
      if !t'[id].isDeleted {
        LiveIsUnstamped(t, e, id);
      } else if id in t && t[id] == t'[id] {
        var i: nat :| DeletedBy(past, i, id, t[id].deletedAt.value);
        DeletedByStays(past, e, i, id, t[id].deletedAt.value);
      } else {
        NewlyDeleted(t, e.op, id);
        assert (past + [e])[..|past|] == past;
        assert DeletedBy(past + [e], |past|, id, e.op.now);
      }
    }
  }

  lemma {:induction false} DeletionsAreLogged(past: seq<Event>, events: seq<Event>)
    requires DeletionsLogged(Play(map[], past), past) && NoSubtasks(Play(map[], past))
    requires LegalEvents(Play(map[], past), events)
    ensures DeletionsLogged(Play(map[], past + events), past + events) && NoSubtasks(Play(map[], past + events))
    decreases |events|
  {
    if events == [] {
      assert past + events == past;
    } else {
      LogStep(past, events[0]);
      PlayAppend(map[], past, events[0]);
      DeletionsAreLogged(past + [events[0]], events[1..]);
      assert past + [events[0]] + events[1..] == past + events;
    }
  }

  /** The purge takes all that is due: no row stays that was stamped at least the threshold before. */
  lemma PurgeLeavesNothingDue(t: Table, now: int, days: nat, id: nat)
    requires id in Purge(t, now, days)
    ensures id in t && Purge(t, now, days)[id] == t[id]
    ensures !(t[id].isDeleted && t[id].deletedAt.Some? && t[id].deletedAt.value + days * 86_400_000_000 <= now)
  {
    CascadeContains(t, Expired(t, now, days));
  }

  /**
   Retention, over every history from the empty table: a purge takes a row away if and only if an earlier
   request deleted it, was answered with success and stamped it, at least the threshold of days before.
   So no live task is ever taken along, nothing is purged early, and nothing due stays.
   */
  lemma PurgedIffDeletedLongAgo(events: seq<Event>, now: int, days: nat, id: nat)
    requires LegalEvents(map[], events) && id in Play(map[], events)
    ensures var row := Play(map[], events)[id];
            && (id !in Purge(Play(map[], events), now, days) ==> row.isDeleted)
            && (id !in Purge(Play(map[], events), now, days)
            <==> exists i: nat, at: int ::
                   DeletedBy(events, i, id, at) && row.deletedAt == Some(at) && at + days * 86_400_000_000 <= now)
  {
    var t := Play(map[], events);
    DeletionsAreLogged([], events);
    assert [] + events == events;
    PurgeWithoutSubtasks(t, now, days);
    if id !in Purge(t, now, days) {
      var i: nat :| DeletedBy(events, i, id, t[id].deletedAt.value);
      assert DeletedBy(events, i, id, t[id].deletedAt.value) && t[id].deletedAt == Some(t[id].deletedAt.value);
    }
  }

  // ----- subtasks -----

  /** With subtasks, which the API never makes, a purge would take exactly the rows below an expired one. */
  lemma {:induction false} CascadeIsLeastClosed(t: Table, ids: set<nat>, closed: set<nat>)
    ensures ids <= Cascade(t, ids) && ChildrenOf(t, Cascade(t, ids)) <= Cascade(t, ids)
    ensures ids <= closed && ChildrenOf(t, closed) <= closed ==> Cascade(t, ids) <= closed
    decreases |t.Keys - ids|
  {
    var more := ChildrenOf(t, ids) - ids;
    if more == {} {
      assert ChildrenOf(t, ids) <= ids;
    } else {
      CascadeGrows(t, ids, more);
      CascadeIsLeastClosed(t, ids + more, closed);
      if ids <= closed && ChildrenOf(t, closed) <= closed {
        assert ChildrenOf(t, ids) <= ChildrenOf(t, closed);
      }
    }
  }

  /** No subtask outlives its task. */
  lemma PurgeLeavesNoOrphans(t: Table, now: int, days: nat, id: nat)
    requires id in Purge(t, now, days) && t[id].parent.Some? && t[id].parent.value in t
    ensures t[id].parent.value in Purge(t, now, days)
  {
    CascadeIsLeastClosed(t, Expired(t, now, days), {});
    assert t[id].parent.value in Cascade(t, Expired(t, now, days)) ==> id in ChildrenOf(t, Cascade(t, Expired(t, now, days)));
  }
}
