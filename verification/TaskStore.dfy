/**
 The tasks table and the SQL statements that the repositories send to it. A statement is one
 atomic step of the database; a table is a map from primary key to row.
 */
module TaskStore {
  import opened Wrappers
  import opened Keys
  import opened Walks

  datatype Status = Backlog | Todo | InProgress | InReview | Done

  datatype Priority = Low | Medium | High | Urgent

  datatype Task = Task(
    id: nat, org: nat, project: nat, parent: Option<nat>, reporter: nat, assignee: Option<nat>,
    title: string, description: Option<string>, status: Status, priority: Priority, dueDate: Option<int>,
    version: int, createdAt: int, isDeleted: bool, deletedAt: Option<int>)

  type Table = t: map<nat, Task> | forall id :: id in t ==> t[id].id == id

  function KeyOf(task: Task): Key {
    Key(task.createdAt, task.id)
  }

  function KeysOf(t: Table): set<Key> {
    set id | id in t :: KeyOf(t[id])
  }

  /** The part of the table that belongs to one tenant. */
  function View(t: Table, org: nat): Table {
    map id | id in t && t[id].org == org :: t[id]
  }

  // ----- filters -----

  /** Query filters; `search` stands for the ILIKE test, which the model leaves abstract. */
  datatype Filters = Filters(
    project: Option<nat>, status: Option<Status>, priority: Option<Priority>,
    assignee: Option<nat>, reporter: Option<nat>, search: Option<Task -> bool>, ascending: bool)

  /** One conjunct of a WHERE clause. */
  datatype Criterion =
    | OrgIs(org: nat)
    | NotDeleted
    | ProjectIs(project: nat)
    | StatusIs(status: Status)
    | PriorityIs(priority: Priority)
    | AssigneeIs(assignee: nat)
    | ReporterIs(reporter: nat)
    | Matches(search: Task -> bool)
    | OlderThan(ts: int, id: nat)

  predicate Holds(c: Criterion, task: Task) {
    match c
    case OrgIs(org) => task.org == org
    case NotDeleted => !task.isDeleted
    case ProjectIs(project) => task.project == project
    case StatusIs(status) => task.status == status
    case PriorityIs(priority) => task.priority == priority
    case AssigneeIs(assignee) => task.assignee == Some(assignee)
    case ReporterIs(reporter) => task.reporter == reporter
    case Matches(search) => search(task)
    case OlderThan(ts, id) => task.createdAt < ts || (task.createdAt == ts && task.id < id)
  }

  predicate Satisfies(criteria: seq<Criterion>, task: Task) {
    forall i :: 0 <= i < |criteria| ==> Holds(criteria[i], task)
  }

  /** What a tenant's listing is meant to show, independently of how the WHERE clause is put together. */
  predicate Visible(org: nat, f: Filters, task: Task) {
    && task.org == org
    && !task.isDeleted
    && (f.project.Some? ==> task.project == f.project.value)
    && (f.status.Some? ==> task.status == f.status.value)
    && (f.priority.Some? ==> task.priority == f.priority.value)
    && (f.assignee.Some? ==> task.assignee == f.assignee)
    && (f.reporter.Some? ==> task.reporter == f.reporter.value)
    && (f.search.Some? ==> f.search.value(task))
  }

  function VisibleKeys(t: Table, org: nat, f: Filters): set<Key> {
    set id | id in t && Visible(org, f, t[id]) :: KeyOf(t[id])
  }

  function DirOf(f: Filters): Dir {
    if f.ascending then Asc else Desc
  }

  // ----- statements -----

  predicate Stored(t: Table, keys: seq<Key>) {
    forall i :: 0 <= i < |keys| ==> keys[i].id in t
  }

  function Rows(t: Table, keys: seq<Key>): (rows: seq<Task>)
    requires Stored(t, keys)
    ensures |rows| == |keys|
  {
    seq(|keys|, i requires 0 <= i < |keys| => t[keys[i].id])
  }

  function KeysWhere(t: Table, criteria: seq<Criterion>): set<Key> {
    set id | id in t && Satisfies(criteria, t[id]) :: KeyOf(t[id])
  }

  lemma AllStored(t: Table, s: set<Key>, q: seq<Key>)
    requires s <= KeysOf(t) && SameKeys(q, s)
    ensures Stored(t, q)
  {
    forall i | 0 <= i < |q| ensures q[i].id in t {
      assert q[i] in KeysOf(t);
    }
  }

  lemma SliceIsStored(t: Table, d: Dir, s: set<Key>, offset: nat, limit: nat)
    requires s <= KeysOf(t)
    ensures Stored(t, Sort(d, s))
    ensures Stored(t, Slice(Sort(d, s), offset, limit))
  {
    SortSorts(d, s);
    AllStored(t, s, Sort(d, s));
  }

  /** `SELECT ... WHERE criteria ORDER BY created_at, id OFFSET offset LIMIT limit` */
  function Select(t: Table, criteria: seq<Criterion>, d: Dir, offset: nat, limit: nat): seq<Task> {
    SliceIsStored(t, d, KeysWhere(t, criteria), offset, limit);
    Rows(t, Slice(Sort(d, KeysWhere(t, criteria)), offset, limit))
  }

  /** `SELECT count(*) ... WHERE criteria` */
  function SelectCount(t: Table, criteria: seq<Criterion>): nat {
    |set id | id in t && Satisfies(criteria, t[id])|
  }

  function GetById(t: Table, org: nat, id: nat, includeDeleted: bool): Option<Task> {
    if id in t && t[id].org == org && (includeDeleted || !t[id].isDeleted) then Some(t[id]) else None
  }

  function CountOf(t: Table, org: nat, includeDeleted: bool): nat {
    |set id | id in t && t[id].org == org && (includeDeleted || !t[id].isDeleted)|
  }

  /** The soft-delete UPDATE: the new table, and whether a row was returned. */
  function SoftDelete(t: Table, org: nat, id: nat, now: int): (Table, bool) {
    if GetById(t, org, id, false).Some? then (t[id := t[id].(isDeleted := true, deletedAt := Some(now))], true)
    else (t, false)
  }

  /** The conditional status UPDATE: the new table, and the row it returned, if any. */
  function SetStatusWhereVersion(t: Table, org: nat, id: nat, status: Status, expected: int): (Table, Option<Task>) {
    if GetById(t, org, id, false).Some? && t[id].version == expected then
      var row := t[id].(status := status, version := expected + 1);
      (t[id := row], Some(row))
    else (t, None)
  }

  /** The row that `create_task` inserts for a tenant. */
  function NewTask(id: nat, org: nat, project: nat, reporter: nat, assignee: Option<nat>,
                   title: string, description: Option<string>, priority: Priority, now: int): Task {
    Task(id, org, project, None, reporter, assignee, title, description, Backlog, priority, None, 1, now, false, None)
  }

  // ----- facts about listings -----

  /** A listing of visible rows read off the table, one row per key. */
  function VisiblePage(t: Table, org: nat, f: Filters, d: Dir, offset: nat, limit: nat): seq<Task> {
    VisibleAreStored(t, org, f);
    SliceIsStored(t, d, VisibleKeys(t, org, f), offset, limit);
    Rows(t, Slice(Sort(d, VisibleKeys(t, org, f)), offset, limit))
  }

  function VisibleFetch(t: Table, org: nat, f: Filters, cursor: Option<Key>, limit: nat): (seq<Task>, bool) {
    FetchIsStored(t, org, f, cursor, limit);
    var p := Fetch(Desc, VisibleKeys(t, org, f), cursor, limit);
    (Rows(t, p.items), p.more)
  }

  function KeysOfRows(rows: seq<Task>): (keys: seq<Key>)
    ensures |keys| == |rows| && forall i :: 0 <= i < |rows| ==> keys[i] == Key(rows[i].createdAt, rows[i].id)
  {
    seq(|rows|, i requires 0 <= i < |rows| => KeyOf(rows[i]))
  }

  /** The one listing of a tenant's visible rows: oldest first if so asked for, else newest first, by time and then id. */
  ghost predicate IsListing(q: seq<Key>, t: Table, org: nat, f: Filters) {
    && SameKeys(q, VisibleKeys(t, org, f))
    && forall i, j :: 0 <= i < j < |q| ==> if f.ascending then Less(q[i], q[j]) else Less(q[j], q[i])
  }

  /** These rows of the table are those from `offset` on, at most `limit`, of a listing. */
  ghost predicate ShowsListing(rows: seq<Task>, t: Table, q: seq<Key>, offset: nat, limit: nat) {
    && |rows| == (if offset >= |q| then 0 else if offset + limit >= |q| then |q| - offset else limit)
    && forall i :: 0 <= i < |rows| ==> rows[i].id in t && t[rows[i].id] == rows[i] && KeyOf(rows[i]) == q[offset + i]
  }

  lemma VisibleAreStored(t: Table, org: nat, f: Filters)
    ensures VisibleKeys(t, org, f) <= KeysOf(t)
  {
  }

  lemma FetchIsStored(t: Table, org: nat, f: Filters, cursor: Option<Key>, limit: nat)
    ensures Stored(t, Fetch(Desc, VisibleKeys(t, org, f), cursor, limit).items)
  {
    var s := Remaining(Desc, VisibleKeys(t, org, f), cursor);
    VisibleAreStored(t, org, f);
    SliceIsStored(t, Desc, s, 0, limit + 1);
  }

  /** Distinct rows have distinct keys, so counting ids is counting keys. */
  lemma {:induction false} KeysCountRows(t: Table, ids: set<nat>, keys: set<Key>)
    requires forall id :: id in ids ==> id in t
    requires keys == set id | id in ids :: KeyOf(t[id])
    ensures |keys| == |ids|
    decreases |ids|
  {
    if ids == {} {
      assert keys == {};
    } else {
      var id :| id in ids;
      var k := KeyOf(t[id]);
      var fewer := set i | i in ids - {id} :: KeyOf(t[i]);
      assert keys == fewer + {k};
      assert k !in fewer by {
        forall i | i in ids - {id} ensures KeyOf(t[i]) != k { assert KeyOf(t[i]).id == i; }
      }
      KeysCountRows(t, ids - {id}, fewer);
    }
  }

  lemma ListingIsSort(q: seq<Key>, t: Table, org: nat, f: Filters)
    requires IsListing(q, t, org, f)
    ensures q == Sort(DirOf(f), VisibleKeys(t, org, f))
  {
    assert Ordered(DirOf(f), q);
    SortedListIsUnique(DirOf(f), q, VisibleKeys(t, org, f));
  }

  lemma ListingExists(t: Table, org: nat, f: Filters)
    ensures IsListing(Sort(DirOf(f), VisibleKeys(t, org, f)), t, org, f)
  {
    var q := Sort(DirOf(f), VisibleKeys(t, org, f));
    SortSorts(DirOf(f), VisibleKeys(t, org, f));
    forall i, j | 0 <= i < j < |q| ensures if f.ascending then Less(q[i], q[j]) else Less(q[j], q[i]) {
      assert Before(DirOf(f), q[i], q[j]);
    }
  }

  lemma StoredKeyNamesRow(t: Table, org: nat, f: Filters, k: Key)
    requires k in VisibleKeys(t, org, f)
    ensures k.id in t && KeyOf(t[k.id]) == k
  {
  }

  /** A page of rows shows its part of the listing. */
  lemma PageShowsListing(t: Table, org: nat, f: Filters, offset: nat, limit: nat, q: seq<Key>)
    requires IsListing(q, t, org, f)
    ensures ShowsListing(VisiblePage(t, org, f, DirOf(f), offset, limit), t, q, offset, limit)
  {
    ListingIsSort(q, t, org, f);
    var rows := VisiblePage(t, org, f, DirOf(f), offset, limit);
    var keys := Slice(q, offset, limit);
    forall i | 0 <= i < |rows| ensures rows[i].id in t && t[rows[i].id] == rows[i] && KeyOf(rows[i]) == q[offset + i] {
      assert keys[i] == q[offset + i] && q[offset + i] in q;
      StoredKeyNamesRow(t, org, f, keys[i]);
    }
  }

  /**
   A feed page: rows of the table, at most `limit` and exactly that many if more follow, whose keys are
   visible, beyond the cursor and newest first, and leave out only visible rows that come later.
   */
  ghost predicate ShowsFairly(rows: seq<Task>, more: bool, t: Table, org: nat, f: Filters, cursor: Option<Key>, limit: nat) {
    && |rows| <= limit && (more ==> |rows| == limit)
    && (forall i :: 0 <= i < |rows| ==> rows[i].id in t && t[rows[i].id] == rows[i])
    && Fair(Desc, VisibleKeys(t, org, f), cursor, Page(KeysOfRows(rows), more))
  }

  lemma FetchShowsFairly(t: Table, org: nat, f: Filters, cursor: Option<Key>, limit: nat)
    requires limit >= 1
    ensures var (rows, more) := VisibleFetch(t, org, f, cursor, limit); ShowsFairly(rows, more, t, org, f, cursor, limit)
  {
    FetchIsStored(t, org, f, cursor, limit);
    FetchIsFair(Desc, VisibleKeys(t, org, f), cursor, limit);
    FetchIsPrefix(Desc, VisibleKeys(t, org, f), cursor, limit);
    var p := Fetch(Desc, VisibleKeys(t, org, f), cursor, limit);
    var (rows, more) := VisibleFetch(t, org, f, cursor, limit);
    forall i | 0 <= i < |rows| ensures KeyOf(rows[i]) == p.items[i] {
      assert p.items[i] in p.items;
      StoredKeyNamesRow(t, org, f, p.items[i]);
    }
    assert KeysOfRows(rows) == p.items;
  }
}
