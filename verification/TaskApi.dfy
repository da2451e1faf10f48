/**
 The task endpoints as whole transactions on the tasks table, and what any history of them
 guarantees: a tenant sees only its own history.
 */
module TaskApi {
  import opened Wrappers
  import opened Keys
  import opened Walks
  import opened TaskStore
  import opened Text

  const MAX_PAGE := 100

  /** Fields of a PATCH without a status; `None` leaves a field alone. */
  datatype Changes = Changes(
    title: Option<string>, description: Option<string>, priority: Option<Priority>,
    assignee: Option<nat>, dueDate: Option<int>)

  datatype Op =
    | GetTask(org: nat, id: nat)
    | CountTasks(org: nat)
    | ListOffset(org: nat, filters: Filters, page: nat, size: nat)
    | ListFeed(org: nat, filters: Filters, cursor: Option<Key>, limit: nat)
    | CreateTask(org: nat, id: nat, project: nat, reporter: nat, assignee: Option<nat>,
                 title: string, description: Option<string>, priority: Priority, now: int)
    | DeleteTask(org: nat, id: nat, now: int)
    | SetStatus(org: nat, id: nat, status: Status, expected: int)
    | EditTask(org: nat, id: nat, changes: Changes, expected: int)

  datatype Reply =
    | Unprocessable
    | NotFound
    | Conflict
    | NoContent
    | Row(task: Task)
    | Number(n: nat)
    | OffsetReply(rows: seq<Task>, total: nat, pages: nat)
    | FeedReply(rows: seq<Task>, more: bool)

  function Edited(task: Task, c: Changes): Task {
    task.(
      title := if c.title.Some? then Strip(c.title.value) else task.title,
      description := if c.description.Some? then c.description else task.description,
      priority := if c.priority.Some? then c.priority.value else task.priority,
      assignee := if c.assignee.Some? then c.assignee else task.assignee,
      dueDate := if c.dueDate.Some? then c.dueDate else task.dueDate,
      version := task.version + 1)
  }

  /** One request, run as one transaction. */
  function Exec(t: Table, op: Op): (Table, Reply) {
    match op
    case GetTask(org, id) =>
      var row := GetById(t, org, id, false);
      (t, if row.Some? then Row(row.value) else NotFound)
    case CountTasks(org) => (t, Number(CountOf(t, org, false)))
    case ListOffset(org, f, page, size) =>
      if page < 1 || size < 1 || size > MAX_PAGE then (t, Unprocessable)
      else
        var total := |VisibleKeys(t, org, f)|;
        (t, OffsetReply(VisiblePage(t, org, f, DirOf(f), (page - 1) * size, size), total, TotalPages(total, size)))
    case ListFeed(org, f, cursor, limit) =>
      if limit < 1 || limit > MAX_PAGE then (t, Unprocessable)
      else
        var (rows, more) := VisibleFetch(t, org, f, cursor, limit);
        (t, FeedReply(rows, more))
    case CreateTask(org, id, project, reporter, assignee, title, description, priority, now) =>
      var row := NewTask(id, org, project, reporter, assignee, title, description, priority, now);
      (t[id := row], Row(row))
    case DeleteTask(org, id, now) =>
      var (t', deleted) := SoftDelete(t, org, id, now);
      (t', if deleted then NoContent else NotFound)
    case SetStatus(org, id, status, expected) =>
      if GetById(t, org, id, false).None? then (t, NotFound)
      else
        var (t', row) := SetStatusWhereVersion(t, org, id, status, expected);
        (t', if row.Some? then Row(row.value) else Conflict)
    case EditTask(org, id, changes, expected) =>
      var row := GetById(t, org, id, false);
      if row.None? then (t, NotFound)
      else if row.value.version != expected then (t, Conflict)
      else (t[id := Edited(row.value, changes)], Row(Edited(row.value, changes)))
  }

  /** New rows get ids that no stored row has (version 4 UUIDs). */
  predicate Fresh(t: Table, op: Op) {
    op.CreateTask? ==> op.id !in t
  }

  predicate Legal(t: Table, ops: seq<Op>)
    decreases |ops|
  {
    ops == [] || (Fresh(t, ops[0]) && Legal(Exec(t, ops[0]).0, ops[1..]))
  }

  function Run(t: Table, ops: seq<Op>): Table
    decreases |ops|
  {
    if ops == [] then t else Run(Exec(t, ops[0]).0, ops[1..])
  }

  /** The replies that tenant `org` receives. */
  function Replies(t: Table, ops: seq<Op>, org: nat): seq<Reply>
    decreases |ops|
  {
    if ops == [] then []
    else
      var (t', reply) := Exec(t, ops[0]);
      (if ops[0].org == org then [reply] else []) + Replies(t', ops[1..], org)
  }

  function OpsOf(ops: seq<Op>, org: nat): seq<Op> {
    if ops == [] then []
    else (if ops[0].org == org then [ops[0]] else []) + OpsOf(ops[1..], org)
  }

  /** Two tables hold the same live rows of a tenant. */
  ghost predicate SameLive(t: Table, u: Table, org: nat) {
    forall id :: GetById(t, org, id, false) == GetById(u, org, id, false)
  }

  lemma SameLiveSameListings(t: Table, u: Table, org: nat, f: Filters)
    requires SameLive(t, u, org)
    ensures VisibleKeys(t, org, f) == VisibleKeys(u, org, f)
    ensures CountOf(t, org, false) == CountOf(u, org, false)
    ensures forall k :: k in VisibleKeys(t, org, f) ==> k.id in t && k.id in u && t[k.id] == u[k.id]
  {
    forall id
      ensures id in t && t[id].org == org && !t[id].isDeleted <==> id in u && u[id].org == org && !u[id].isDeleted
      ensures id in t && t[id].org == org && !t[id].isDeleted ==> t[id] == u[id]
    {
      assert GetById(t, org, id, false) == GetById(u, org, id, false);
    }
    assert (set id | id in t && t[id].org == org && (false || !t[id].isDeleted))
        == (set id | id in u && u[id].org == org && (false || !u[id].isDeleted));
  }

  lemma SameLiveSamePage(t: Table, u: Table, org: nat, f: Filters, d: Dir, offset: nat, limit: nat)
    requires SameLive(t, u, org)
    ensures VisiblePage(t, org, f, d, offset, limit) == VisiblePage(u, org, f, d, offset, limit)
  {
    SameLiveSameListings(t, u, org, f);
    var s := VisibleKeys(t, org, f);
    SortSorts(d, s);
    var q := Sort(d, s);
    var keys := Slice(q, offset, limit);
    forall i | 0 <= i < |keys| ensures keys[i] in s {
      assert keys[i] == q[offset + i];
    }
  }

  lemma SameLiveSameFetch(t: Table, u: Table, org: nat, f: Filters, cursor: Option<Key>, limit: nat)
    requires SameLive(t, u, org)
    ensures VisibleFetch(t, org, f, cursor, limit) == VisibleFetch(u, org, f, cursor, limit)
  {
    SameLiveSameListings(t, u, org, f);
    var s := Remaining(Desc, VisibleKeys(t, org, f), cursor);
    SortSorts(Desc, s);
    var q := Sort(Desc, s);
    var keys := Fetch(Desc, VisibleKeys(t, org, f), cursor, limit).items;
    forall i | 0 <= i < |keys| ensures keys[i] in s {
      assert keys[i] == q[i];
    }
    FetchIsStored(t, org, f, cursor, limit);
    FetchIsStored(u, org, f, cursor, limit);
    assert Rows(t, keys) == Rows(u, keys);
  }

  lemma SameLiveSameOffset(t: Table, u: Table, op: Op)
    requires op.ListOffset? && SameLive(t, u, op.org)
    ensures Exec(t, op).1 == Exec(u, op).1
  {
    if op.page >= 1 {
      SameLiveSameListings(t, u, op.org, op.filters);
      SameLiveSamePage(t, u, op.org, op.filters, DirOf(op.filters), (op.page - 1) * op.size, op.size);
    }
  }

  lemma SameLiveSameFeed(t: Table, u: Table, op: Op)
    requires op.ListFeed? && SameLive(t, u, op.org)
    ensures Exec(t, op).1 == Exec(u, op).1
  {
    SameLiveSameFetch(t, u, op.org, op.filters, op.cursor, op.limit);
  }

  lemma SameLiveSameReads(t: Table, u: Table, op: Op)
    requires op.GetTask? || op.CountTasks? || op.ListOffset? || op.ListFeed?
    requires SameLive(t, u, op.org)
    ensures Exec(t, op).1 == Exec(u, op).1
  {
    if op.ListOffset? {
      SameLiveSameOffset(t, u, op);
    } else if op.ListFeed? {
      SameLiveSameFeed(t, u, op);
    } else if op.CountTasks? {
      SameLiveSameListings(t, u, op.org, Filters(None, None, None, None, None, None, true));
    } else if op.GetTask? {
      assert GetById(t, op.org, op.id, false) == GetById(u, op.org, op.id, false);
    }
  }

  predicate IsWrite(op: Op) {
    op.CreateTask? || op.DeleteTask? || op.SetStatus? || op.EditTask?
  }

  lemma SameLiveSameWriteReply(t: Table, u: Table, op: Op)
    requires IsWrite(op) && SameLive(t, u, op.org)
    ensures Exec(t, op).1 == Exec(u, op).1
  {
    assert GetById(t, op.org, op.id, false) == GetById(u, op.org, op.id, false);
  }

  lemma SameLiveAfterWrite(t: Table, u: Table, op: Op)
    requires IsWrite(op) && SameLive(t, u, op.org)
    ensures SameLive(Exec(t, op).0, Exec(u, op).0, op.org)
  {
    assert GetById(t, op.org, op.id, false) == GetById(u, op.org, op.id, false);
    forall id
      ensures GetById(Exec(t, op).0, op.org, id, false) == GetById(Exec(u, op).0, op.org, id, false)
    {
      assert GetById(t, op.org, id, false) == GetById(u, op.org, id, false);
    }
  }

  /** Replies and later live rows depend on nothing but the tenant's own live rows. */
  lemma ReplyDependsOnLiveRows(t: Table, u: Table, op: Op)
    requires SameLive(t, u, op.org)
    ensures Exec(t, op).1 == Exec(u, op).1
    ensures SameLive(Exec(t, op).0, Exec(u, op).0, op.org)
  {
    if IsWrite(op) {
      SameLiveSameWriteReply(t, u, op);
      SameLiveAfterWrite(t, u, op);
    } else {
      SameLiveSameReads(t, u, op);
    }
  }

  lemma ViewIsSameLive(t: Table, org: nat)
    ensures SameLive(t, View(t, org), org)
  {
  }

  /** The row that an operation writes, if it writes one. */
  function Written(t: Table, op: Op): Option<Task> {
    match op
    case CreateTask(org, id, project, reporter, assignee, title, description, priority, now) =>
      Some(NewTask(id, org, project, reporter, assignee, title, description, priority, now))
    case DeleteTask(org, id, now) =>
      if GetById(t, org, id, false).Some? then Some(t[id].(isDeleted := true, deletedAt := Some(now))) else None
    case SetStatus(org, id, status, expected) =>
      SetStatusWhereVersion(t, org, id, status, expected).1
    case EditTask(org, id, changes, expected) =>
      var row := GetById(t, org, id, false);
      if row.Some? && row.value.version == expected then Some(Edited(row.value, changes)) else None
    case _ => None
  }

  /** Every operation writes at most one row, of its own tenant, over a row of its own tenant if over any. */
  lemma ExecPutsOneRow(t: Table, op: Op)
    ensures Exec(t, op).0 == if Written(t, op).Some? then t[Written(t, op).value.id := Written(t, op).value] else t
    ensures Written(t, op).Some? ==> Written(t, op).value.org == op.org
    ensures Written(t, op).Some? && !op.CreateTask? ==>
              && Written(t, op).value.id in t
              && t[Written(t, op).value.id].org == op.org
              && !t[Written(t, op).value.id].isDeleted
              && t[Written(t, op).value.id].createdAt == Written(t, op).value.createdAt
  {
  }

  lemma ViewAfterPut(t: Table, row: Task, org: nat)
    requires row.id in t ==> t[row.id].org == row.org
    ensures View(t[row.id := row], org) == if row.org == org then View(t, org)[row.id := row] else View(t, org)
  {
  }

  lemma WrittenFromView(t: Table, op: Op)
    ensures Written(View(t, op.org), op) == Written(t, op)
  {
  }

  /** One operation, seen from tenant `org`: its own operation acts on its rows alone, another's does nothing. */
  lemma StepIsTenantLocal(t: Table, op: Op, org: nat)
    requires Fresh(t, op)
    ensures op.org == org ==> View(Exec(t, op).0, org) == Exec(View(t, org), op).0
    ensures op.org == org ==> Exec(t, op).1 == Exec(View(t, org), op).1
    ensures op.org != org ==> View(Exec(t, op).0, org) == View(t, org)
  {
    ExecPutsOneRow(t, op);
    if Written(t, op).Some? {
      ViewAfterPut(t, Written(t, op).value, org);
    }
    if op.org == org {
      ViewIsSameLive(t, org);
      ReplyDependsOnLiveRows(t, View(t, org), op);
      WrittenFromView(t, op);
      ExecPutsOneRow(View(t, org), op);
    }
  }

  /**
   Noninterference: after any history, a tenant's rows and all the replies it received are what
   they would have been had the other tenants done nothing at all.
   */
  lemma {:induction false} TenantIsolation(t: Table, ops: seq<Op>, org: nat)
    requires Legal(t, ops)
    ensures View(Run(t, ops), org) == Run(View(t, org), OpsOf(ops, org))
    ensures Replies(t, ops, org) == Replies(View(t, org), OpsOf(ops, org), org)
    decreases |ops|
  {
    if ops != [] {
      var op := ops[0];
      var t' := Exec(t, op).0;
      StepIsTenantLocal(t, op, org);
      TenantIsolation(t', ops[1..], org);
      if op.org == org {
        assert OpsOf(ops, org) == [op] + OpsOf(ops[1..], org);
        assert ([op] + OpsOf(ops[1..], org))[1..] == OpsOf(ops[1..], org);
      } else {
        assert OpsOf(ops, org) == OpsOf(ops[1..], org);
      }
    }
  }

  /** No history of one tenant's operations can name a row into another tenant's hands. */
  lemma {:induction false} RowsStayWithTheirTenant(t: Table, ops: seq<Op>, id: nat)
    requires Legal(t, ops)
    requires id in t
    ensures id in Run(t, ops)
    ensures Run(t, ops)[id].org == t[id].org && Run(t, ops)[id].createdAt == t[id].createdAt
    ensures t[id].isDeleted ==> Run(t, ops)[id] == t[id]
    decreases |ops|
  {
    if ops != [] {
      ExecPutsOneRow(t, ops[0]);
      RowsStayWithTheirTenant(Exec(t, ops[0]).0, ops[1..], id);
    }
  }

  /** Pages below 1, and page sizes outside 1 to 100, are refused. */
  lemma OddPagesAreRefused(t: Table, org: nat, f: Filters, cursor: Option<Key>, page: nat, size: nat)
    ensures Exec(t, ListOffset(org, f, page, size)).1 == Unprocessable <==> page < 1 || size < 1 || size > 100
    ensures Exec(t, ListFeed(org, f, cursor, size)).1 == Unprocessable <==> size < 1 || size > 100
  {
  }
}
