/** The comments of a task: the ascending keyset reader and the walk through a growing discussion. */
module Comments {
  import opened Wrappers
  import opened Keys
  import opened Walks
  import opened Text
  import TaskStore

  datatype Comment = Comment(id: nat, org: nat, task: nat, author: nat, content: string, isEdited: bool, createdAt: int)

  type CommentTable = c: map<nat, Comment> | forall id :: id in c ==> c[id].id == id

  function KeyOf(c: Comment): Key {
    Key(c.createdAt, c.id)
  }

  /** The keys of the comments that a tenant sees under a task. */
  function Thread(c: CommentTable, org: nat, task: nat): set<Key> {
    set id | id in c && c[id].org == org && c[id].task == task :: KeyOf(c[id])
  }

  datatype Criterion = OrgIs(org: nat) | TaskIs(task: nat) | NewerThan(ts: int, id: nat)

  predicate Holds(k: Criterion, c: Comment) {
    match k
    case OrgIs(org) => c.org == org
    case TaskIs(task) => c.task == task
    case NewerThan(ts, id) => c.createdAt > ts || (c.createdAt == ts && c.id > id)
  }

  predicate Satisfies(criteria: seq<Criterion>, c: Comment) {
    forall i :: 0 <= i < |criteria| ==> Holds(criteria[i], c)
  }

  function KeysWhere(c: CommentTable, criteria: seq<Criterion>): set<Key> {
    set id | id in c && Satisfies(criteria, c[id]) :: KeyOf(c[id])
  }

  predicate Stored(c: CommentTable, keys: seq<Key>) {
    forall i :: 0 <= i < |keys| ==> keys[i].id in c
  }

  function Rows(c: CommentTable, keys: seq<Key>): (rows: seq<Comment>)
    requires Stored(c, keys)
    ensures |rows| == |keys|
  {
    seq(|keys|, i requires 0 <= i < |keys| => c[keys[i].id])
  }

  lemma SliceIsStored(c: CommentTable, s: set<Key>, limit: nat)
    requires forall k :: k in s ==> k.id in c
    ensures Stored(c, Slice(Sort(Asc, s), 0, limit))
  {
    SortSorts(Asc, s);
    var q := Sort(Asc, s);
    assert forall i :: 0 <= i < |q| ==> q[i] in q;
  }

  /** `SELECT ... WHERE criteria ORDER BY created_at ASC, id ASC LIMIT limit` */
  function Select(c: CommentTable, criteria: seq<Criterion>, limit: nat): seq<Comment> {
    SliceIsStored(c, KeysWhere(c, criteria), limit);
    Rows(c, Slice(Sort(Asc, KeysWhere(c, criteria)), 0, limit))
  }

  function ThreadFetch(c: CommentTable, org: nat, task: nat, cursor: Option<Key>, limit: nat): (seq<Comment>, bool) {
    FetchIsStored(c, org, task, cursor, limit);
    var p := Fetch(Asc, Thread(c, org, task), cursor, limit);
    (Rows(c, p.items), p.more)
  }

  lemma FetchIsStored(c: CommentTable, org: nat, task: nat, cursor: Option<Key>, limit: nat)
    ensures Stored(c, Fetch(Asc, Thread(c, org, task), cursor, limit).items)
  {
    SliceIsStored(c, Remaining(Asc, Thread(c, org, task), cursor), limit + 1);
  }

  function KeysOfRows(rows: seq<Comment>): (keys: seq<Key>)
    ensures |keys| == |rows| && forall i :: 0 <= i < |rows| ==> keys[i] == Key(rows[i].createdAt, rows[i].id)
  {
    seq(|rows|, i requires 0 <= i < |rows| => KeyOf(rows[i]))
  }

  /**
   A page of a discussion: comments of the tenant on the task, at most `limit` and exactly that many if
   more follow, beyond the cursor and oldest first, leaving out only comments that come later.
   */
  ghost predicate ShowsFairly(rows: seq<Comment>, more: bool, c: CommentTable, org: nat, task: nat, cursor: Option<Key>, limit: nat) {
    && |rows| <= limit && (more ==> |rows| == limit)
    && (forall i :: 0 <= i < |rows| ==> rows[i].id in c && c[rows[i].id] == rows[i] && rows[i].org == org && rows[i].task == task)
    && Fair(Asc, Thread(c, org, task), cursor, Page(KeysOfRows(rows), more))
  }

  lemma ThreadKeyNamesRow(c: CommentTable, org: nat, task: nat, k: Key)
    requires k in Thread(c, org, task)
    ensures k.id in c && KeyOf(c[k.id]) == k && c[k.id].org == org && c[k.id].task == task
  {
  }

  lemma FetchShowsFairly(c: CommentTable, org: nat, task: nat, cursor: Option<Key>, limit: nat)
    requires limit >= 1
    ensures var (rows, more) := ThreadFetch(c, org, task, cursor, limit); ShowsFairly(rows, more, c, org, task, cursor, limit)
  {
    FetchIsStored(c, org, task, cursor, limit);
    FetchIsFair(Asc, Thread(c, org, task), cursor, limit);
    FetchIsPrefix(Asc, Thread(c, org, task), cursor, limit);
    var p := Fetch(Asc, Thread(c, org, task), cursor, limit);
    var (rows, more) := ThreadFetch(c, org, task, cursor, limit);
    forall i | 0 <= i < |rows| ensures KeyOf(rows[i]) == p.items[i] && rows[i].org == org && rows[i].task == task {
      assert p.items[i] in p.items;
      ThreadKeyNamesRow(c, org, task, p.items[i]);
    }
    assert KeysOfRows(rows) == p.items;
  }

  class CommentRepository {
    const organizationId: nat
    var table: CommentTable

    constructor (organizationId: nat, table: CommentTable)
      ensures this.organizationId == organizationId && this.table == table
    {
      this.organizationId := organizationId;
      this.table := table;
    }

    method ListCommentsCursor(task: nat, cursor: Option<Key>, limit: nat) returns (items: seq<Comment>, hasMore: bool)
      ensures (items, hasMore) == ThreadFetch(table, organizationId, task, cursor, limit)
      ensures limit >= 1 ==> ShowsFairly(items, hasMore, table, organizationId, task, cursor, limit)
    {
      var criteria := [OrgIs(organizationId), TaskIs(task)];
      if cursor.Some? {
        criteria := criteria + [NewerThan(cursor.value.ts, cursor.value.id)];
      }
      assert KeysWhere(table, criteria) == Remaining(Asc, Thread(table, organizationId, task), cursor) by {
        forall id | id in table
          ensures Satisfies(criteria, table[id]) <==>
                  table[id].org == organizationId && table[id].task == task && Beyond(Asc, cursor, KeyOf(table[id]))
        {
          if Satisfies(criteria, table[id]) {
            assert Holds(criteria[0], table[id]) && Holds(criteria[1], table[id]);
            assert cursor.Some? ==> Holds(criteria[2], table[id]);
          }
        }
      }
      var records := Select(table, criteria, limit + 1);
      hasMore := |records| > limit;
      items := if |records| > limit then records[..limit] else records;
      FetchIsStored(table, organizationId, task, cursor, limit);
      ghost var p := Fetch(Asc, Thread(table, organizationId, task), cursor, limit);
      assert p.more == hasMore && |p.items| == |items|;
      assert items == Rows(table, p.items);
      if limit >= 1 {
        FetchShowsFairly(table, organizationId, task, cursor, limit);
      }
    }
  }

  // ----- histories -----

  /** Comment requests; `tasks` is the tasks table as it stands when the request runs. */
  datatype CommentOp =
    | AddComment(tasks: TaskStore.Table, org: nat, task: nat, id: nat, author: nat, content: string, now: int)
    | EditComment(org: nat, id: nat, user: nat, isAdmin: bool, content: string)

  datatype Failure = NotFound | Forbidden

  function ExecComment(c: CommentTable, op: CommentOp): (CommentTable, Result<Comment, Failure>) {
    match op
    case AddComment(tasks, org, task, id, author, content, now) =>
      if TaskStore.GetById(tasks, org, task, false).None? then (c, Err(NotFound))
      else
        var row := Comment(id, org, task, author, Strip(content), false, now);
        (c[id := row], Ok(row))
    case EditComment(org, id, user, isAdmin, content) =>
      if id !in c || c[id].org != org then (c, Err(NotFound))
      else if c[id].author != user && !isAdmin then (c, Err(Forbidden))
      else
        var row := c[id].(content := Strip(content), isEdited := true);
        (c[id := row], Ok(row))
  }

  function RunComments(c: CommentTable, ops: seq<CommentOp>): CommentTable
    decreases |ops|
  {
    if ops == [] then c else RunComments(ExecComment(c, ops[0]).0, ops[1..])
  }

  /** New comments have new ids and later timestamps than all comments stored before them. */
  predicate Appending(c: CommentTable, ops: seq<CommentOp>)
    decreases |ops|
  {
    ops == [] ||
    (&& (ops[0].AddComment? ==> ops[0].id !in c && forall id :: id in c ==> c[id].createdAt < ops[0].now)
     && Appending(ExecComment(c, ops[0]).0, ops[1..]))
  }

  function Snapshots(c: CommentTable, batches: seq<seq<CommentOp>>): (tables: seq<CommentTable>)
    ensures |tables| == |batches| + 1
    ensures tables[0] == c
    decreases |batches|
  {
    if batches == [] then [c] else [c] + Snapshots(RunComments(c, batches[0]), batches[1..])
  }

  ghost predicate AppendingBatches(c: CommentTable, batches: seq<seq<CommentOp>>)
    decreases |batches|
  {
    batches == [] || (Appending(c, batches[0]) && AppendingBatches(RunComments(c, batches[0]), batches[1..]))
  }

  /** Every comment of `c` is kept with its key, and all other comments of `e` are later than those of `c`. */
  ghost predicate Extends(c: CommentTable, e: CommentTable) {
    && (forall id :: id in c ==> id in e && c[id].org == e[id].org && c[id].task == e[id].task && c[id].createdAt == e[id].createdAt)
    && (forall id, old_id :: id in e && id !in c && old_id in c ==> c[old_id].createdAt < e[id].createdAt)
  }

  lemma {:induction false} RunExtends(c: CommentTable, ops: seq<CommentOp>)
    requires Appending(c, ops)
    ensures Extends(c, RunComments(c, ops))
    decreases |ops|
  {
    if ops != [] {
      var d := ExecComment(c, ops[0]).0;
      assert Extends(c, d);
      RunExtends(d, ops[1..]);
      ExtendsTransitively(c, d, RunComments(c, ops));
    }
  }

  lemma ExtendsTransitively(c: CommentTable, d: CommentTable, e: CommentTable)
    requires Extends(c, d) && Extends(d, e)
    ensures Extends(c, e)
  {
    forall id, old_id | id in e && id !in c && old_id in c
      ensures c[old_id].createdAt < e[id].createdAt
    {
      assert old_id in d;
      if id in d {
        assert d[id].createdAt == e[id].createdAt;
      }
    }
  }

  lemma ExtendsItself(c: CommentTable)
    ensures Extends(c, c)
  {
  }

  lemma LaterSnapshot(c: CommentTable, batches: seq<seq<CommentOp>>, i: nat)
    requires 0 < i <= |batches|
    ensures Snapshots(c, batches)[i] == Snapshots(RunComments(c, batches[0]), batches[1..])[i - 1]
  {
    assert Snapshots(c, batches)[1..] == Snapshots(RunComments(c, batches[0]), batches[1..]);
  }

  lemma {:induction false} SnapshotExtendsFirst(c: CommentTable, batches: seq<seq<CommentOp>>, j: nat)
    requires AppendingBatches(c, batches)
    requires j <= |batches|
    ensures Extends(c, Snapshots(c, batches)[j])
    decreases j
  {
    if j == 0 {
      ExtendsItself(c);
    } else {
      var next := RunComments(c, batches[0]);
      LaterSnapshot(c, batches, j);
      RunExtends(c, batches[0]);
      SnapshotExtendsFirst(next, batches[1..], j - 1);
      ExtendsTransitively(c, next, Snapshots(c, batches)[j]);
    }
  }

  lemma {:induction false} SnapshotExtends(c: CommentTable, batches: seq<seq<CommentOp>>, i: nat, j: nat)
    requires AppendingBatches(c, batches)
    requires i <= j <= |batches|
    ensures Extends(Snapshots(c, batches)[i], Snapshots(c, batches)[j])
    decreases j
  {
    if i == 0 {
      SnapshotExtendsFirst(c, batches, j);
    } else {
      LaterSnapshot(c, batches, i);
      LaterSnapshot(c, batches, j);
      SnapshotExtends(RunComments(c, batches[0]), batches[1..], i - 1, j - 1);
    }
  }

  lemma ExtensionGoesBehind(c: CommentTable, e: CommentTable, org: nat, task: nat)
    requires Extends(c, e)
    ensures OnlyBehind(Asc, Thread(c, org, task), Thread(e, org, task))
  {
    var a, b := Thread(c, org, task), Thread(e, org, task);
    forall k | k in a ensures k in b {
      var id :| id in c && c[id].org == org && c[id].task == task && KeyOf(c[id]) == k;
      assert KeyOf(e[id]) == k;
    }
    forall k, n | k in a && n in b && n !in a
      ensures Before(Asc, k, n)
    {
      var kid :| kid in c && KeyOf(c[kid]) == k;
      var nid :| nid in e && e[nid].org == org && e[nid].task == task && KeyOf(e[nid]) == n;
      assert nid in c ==> KeyOf(c[nid]) == n;
    }
  }

  function ThreadViews(tables: seq<CommentTable>, org: nat, task: nat): (views: seq<set<Key>>)
    ensures |views| == |tables|
    ensures forall i :: 0 <= i < |views| ==> views[i] == Thread(tables[i], org, task)
  {
    seq(|tables|, i requires 0 <= i < |tables| => Thread(tables[i], org, task))
  }

  lemma SnapshotsGrowBehind(c: CommentTable, batches: seq<seq<CommentOp>>, org: nat, task: nat)
    requires AppendingBatches(c, batches)
    ensures GrowsBehind(Asc, ThreadViews(Snapshots(c, batches), org, task))
  {
    var tables := Snapshots(c, batches);
    var views := ThreadViews(tables, org, task);
    forall i, j | 0 <= i < j < |views|
      ensures OnlyBehind(Asc, views[i], views[j])
    {
      SnapshotExtends(c, batches, i, j);
      ExtensionGoesBehind(tables[i], tables[j], org, task);
    }
  }

  /** The pages that a client reads of one discussion, with `batches[i]` running between fetch `i` and fetch `i + 1`. */
  function ThreadWalk(c: CommentTable, batches: seq<seq<CommentOp>>, org: nat, task: nat, limit: nat): seq<Page>
    requires limit >= 1
  {
    Walk(Asc, ThreadViews(Snapshots(c, batches), org, task), None, limit)
  }

  /**
   Reading a discussion to its end while it goes on shows exactly the comments that are there at
   the last fetch, oldest first, each once.
   */
  lemma ThreadWalkShowsTheThread(c: CommentTable, batches: seq<seq<CommentOp>>, org: nat, task: nat, limit: nat, pages: seq<Page>)
    requires limit >= 1
    requires AppendingBatches(c, batches)
    requires pages == ThreadWalk(c, batches, org, task, limit) && Finished(pages)
    ensures |pages| <= |batches| + 1
    ensures Flat(pages) == Sort(Asc, Thread(Snapshots(c, batches)[|pages| - 1], org, task))
  {
    SnapshotsGrowBehind(c, batches, org, task);
    WalkOfGrowingTable(Asc, ThreadViews(Snapshots(c, batches), org, task), limit, pages);
  }
}
