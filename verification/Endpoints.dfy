/** The listing endpoints: what a client sees who follows the cursor strings that the server hands out. */
module Endpoints {
  import opened Wrappers
  import opened Keys
  import opened Walks
  import opened Cursor
  import Base64
  import TaskStore
  import TaskApi
  import Text
  import TaskRepositories
  import Comments
  import Iso8601
  import Uuid

  /** How the database driver presents a stored instant. */
  type Clock = int -> Iso8601.DateTime

  /** Keys of rows as they are stored: a proper id, and a timestamp of the years 1 to 9999. */
  predicate Presents(clock: Clock, k: Key) {
    Uuid.IsUuid(k.id) && Iso8601.Instant(clock(k.ts)) == k.ts && Iso8601.ToUtc(clock(k.ts)).Some?
  }

  /** A missing, empty or malformed cursor means the first page. */
  function ReadCursor(cursor: Option<string>): Option<Key> {
    if cursor.None? || cursor.value == "" then None
    else
      var d := DecodeCursor(cursor.value);
      if d.None? then None else Some(Key(Iso8601.Instant(d.value.0), d.value.1))
  }

  /** The cursor after a row; none if its timestamp cannot be printed. */
  function CursorAfter(clock: Clock, k: Key): Option<string> {
    EncodeCursor(clock(k.ts), k.id)
  }

  lemma CursorNamesItsKey(clock: Clock, k: Key)
    requires Presents(clock, k)
    ensures CursorAfter(clock, k).Some?
    ensures ReadCursor(CursorAfter(clock, k)) == Some(k)
  {
    CursorRoundTrip(clock(k.ts), k.id);
  }

  /** The client loop over the endpoint: it knows nothing of keys and sends back the string it was given. */
  function CursorWalk(clock: Clock, d: Dir, views: seq<set<Key>>, cursor: Option<string>, limit: nat): seq<Page>
    requires limit >= 1
    decreases |views|
  {
    if views == [] then []
    else
      var p := Fetch(d, views[0], ReadCursor(cursor), limit);
      var next := if p.more && p.items != [] then CursorAfter(clock, Last(p)) else None;
      if next.None? then [p] else [p] + CursorWalk(clock, d, views[1..], next, limit)
  }

  ghost predicate AllPresent(clock: Clock, views: seq<set<Key>>) {
    forall i, k :: 0 <= i < |views| && k in views[i] ==> Presents(clock, k)
  }

  /** Going by cursor strings is going by keys, so all that is proved of walks holds for the client. */
  lemma {:induction false} CursorWalkIsWalk(clock: Clock, d: Dir, views: seq<set<Key>>, cursor: Option<string>, limit: nat)
    requires limit >= 1 && AllPresent(clock, views)
    ensures CursorWalk(clock, d, views, cursor, limit) == Walk(d, views, ReadCursor(cursor), limit)
    decreases |views|
  {
    if views != [] {
      var p := Fetch(d, views[0], ReadCursor(cursor), limit);
      FetchIsFair(d, views[0], ReadCursor(cursor), limit);
      if p.more {
        assert Last(p) in p.items;
        assert Presents(clock, Last(p));
        CursorNamesItsKey(clock, Last(p));
        CursorWalkIsWalk(clock, d, views[1..], CursorAfter(clock, Last(p)), limit);
      }
    }
  }

  /** A cursor of which the lenient reader skips every character. */
  lemma EmptyPayloadIsMalformed()
    ensures DecodeCursor("!").None?
  {
    assert "!"[1..] == "";
    assert Base64.Decode("!") == Some([]);
    var none: seq<Base64.Byte> := [];
    assert AsciiText(none).Some? && |AsciiText(none).value| == 0;
    assert AsciiText(none).value == "";
    assert ParsePayload("").None?;
  }

  /** A malformed cursor is no error: the walk starts over at the first page. */
  lemma MalformedCursorStartsOver(clock: Clock, d: Dir, views: seq<set<Key>>, cursor: string, limit: nat)
    requires limit >= 1 && AllPresent(clock, views)
    requires DecodeCursor(cursor).None?
    ensures CursorWalk(clock, d, views, Some(cursor), limit) == Walk(d, views, None, limit)
  {
    CursorWalkIsWalk(clock, d, views, Some(cursor), limit);
  }

  /** A page of the feed or of a thread; `Err` is a timestamp that cannot be printed. */
  datatype CursorPage<T> = CursorPage(items: seq<T>, nextCursor: Option<string>, hasMore: bool)

  datatype Unprintable = Unprintable

  datatype MissingTask = MissingTask

  datatype OffsetPageOf<T> = OffsetPageOf(items: seq<T>, total: nat, page: nat, pageSize: nat, totalPages: nat)

  /** The next cursor leads on from the last key of a page, and there is none when no rows follow. */
  ghost predicate LeadsOn(clock: Clock, next: Option<string>, keys: Page) {
    && (next.Some? <==> keys.more)
    && (keys.more ==> keys.items != [] && (Presents(clock, Last(keys)) ==> ReadCursor(next) == Some(Last(keys))))
  }

  method NextCursor(clock: Clock, last: Key, ghost keys: Page) returns (next: Result<string, Unprintable>)
    requires keys.more && keys.items != [] && last == Last(keys)
    ensures next.Ok? ==> LeadsOn(clock, Some(next.value), keys)
    ensures next.Err? ==> !Presents(clock, last)
  {
    var cursor := CursorAfter(clock, last);
    if cursor.None? {
      return Err(Unprintable);
    }
    if Presents(clock, last) {
      CursorNamesItsKey(clock, last);
    }
    return Ok(cursor.value);
  }

  function RowsOfPage(t: TaskStore.Table, org: nat, f: TaskStore.Filters, size: nat, page: nat): seq<TaskStore.Task>
    requires page >= 1
  {
    TaskStore.VisiblePage(t, org, f, TaskStore.DirOf(f), (page - 1) * size, size)
  }

  /** The endpoint's answers are those of the whole-request model. */
  lemma ListingReplies(t: TaskStore.Table, org: nat, f: TaskStore.Filters, cursor: Option<Key>, page: nat, size: nat)
    requires page >= 1 && 1 <= size <= 100
    ensures TaskApi.Exec(t, TaskApi.ListFeed(org, f, cursor, size))
         == (t, TaskApi.FeedReply(TaskStore.VisibleFetch(t, org, f, cursor, size).0, TaskStore.VisibleFetch(t, org, f, cursor, size).1))
    ensures var total := |TaskStore.VisibleKeys(t, org, f)|;
            TaskApi.Exec(t, TaskApi.ListOffset(org, f, page, size))
            == (t, TaskApi.OffsetReply(RowsOfPage(t, org, f, size, page), total, TotalPages(total, size)))
  {
  }

  /** The rows of pages `first` to `last`, put end to end. */
  function RowsOfPages(t: TaskStore.Table, org: nat, f: TaskStore.Filters, size: nat, first: nat, last: nat): seq<TaskStore.Task>
    requires first >= 1
    decreases last + 1 - first
  {
    if first > last then [] else RowsOfPage(t, org, f, size, first) + RowsOfPages(t, org, f, size, first + 1, last)
  }

  /** The keys of an endpoint's page are the page of the listing. */
  lemma PageOfListing(rows: seq<TaskStore.Task>, t: TaskStore.Table, q: seq<Key>, size: nat, page: nat)
    requires page >= 1 && TaskStore.ShowsListing(rows, t, q, (page - 1) * size, size)
    ensures TaskStore.KeysOfRows(rows) == OffsetPage(q, size, page)
  {
  }

  lemma KeysOfPage(t: TaskStore.Table, org: nat, f: TaskStore.Filters, size: nat, page: nat, q: seq<Key>)
    requires page >= 1 && TaskStore.IsListing(q, t, org, f)
    ensures TaskStore.KeysOfRows(RowsOfPage(t, org, f, size, page)) == OffsetPage(q, size, page)
  {
    TaskStore.PageShowsListing(t, org, f, (page - 1) * size, size, q);
    PageOfListing(RowsOfPage(t, org, f, size, page), t, q, size, page);
  }

  lemma KeysOfRowsAppend(a: seq<TaskStore.Task>, b: seq<TaskStore.Task>)
    ensures TaskStore.KeysOfRows(a + b) == TaskStore.KeysOfRows(a) + TaskStore.KeysOfRows(b)
  {
  }

  lemma {:induction false} KeysOfPages(t: TaskStore.Table, org: nat, f: TaskStore.Filters, size: nat, first: nat, last: nat, q: seq<Key>)
    requires first >= 1 && TaskStore.IsListing(q, t, org, f)
    ensures TaskStore.KeysOfRows(RowsOfPages(t, org, f, size, first, last)) == OffsetPages(q, size, first, last)
    decreases last + 1 - first
  {
    if first <= last {
      KeysOfPage(t, org, f, size, first, q);
      KeysOfPages(t, org, f, size, first + 1, last, q);
      KeysOfRowsAppend(RowsOfPage(t, org, f, size, first), RowsOfPages(t, org, f, size, first + 1, last));
    }
  }

  /** Pages 1 to the reported page count, put end to end, are all visible rows, each once and in listing order. */
  lemma OffsetRowsTile(t: TaskStore.Table, org: nat, f: TaskStore.Filters, size: nat, q: seq<Key>)
    requires size >= 1 && TaskStore.IsListing(q, t, org, f)
    ensures TaskStore.KeysOfRows(RowsOfPages(t, org, f, size, 1, TotalPages(|TaskStore.VisibleKeys(t, org, f)|, size))) == q
  {
    TaskStore.ListingIsSort(q, t, org, f);
    SortSorts(TaskStore.DirOf(f), TaskStore.VisibleKeys(t, org, f));
    KeysOfPages(t, org, f, size, 1, TotalPages(|q|, size), q);
    OffsetPagesTile(q, size);
  }

  class TaskEndpoints {
    const repo: TaskRepositories.TaskRepository
    const clock: Clock

    constructor (repo: TaskRepositories.TaskRepository, clock: Clock)
      ensures this.repo == repo && this.clock == clock
    {
      this.repo := repo;
      this.clock := clock;
    }

    /** The tenant's live task, or not found. */
    method GetTask(id: nat) returns (r: Result<TaskStore.Task, MissingTask>)
      ensures r.Ok? <==> id in repo.table && repo.table[id].org == repo.organizationId && !repo.table[id].isDeleted
      ensures r.Ok? ==> r.value == repo.table[id]
      ensures TaskApi.Exec(repo.table, TaskApi.GetTask(repo.organizationId, id))
           == (repo.table, if r.Ok? then TaskApi.Row(r.value) else TaskApi.NotFound)
    {
      var row := repo.GetById(id, false);
      r := if row.Some? then Ok(row.value) else Err(MissingTask);
    }

    /** The page is the repository's, and its next cursor, if any, leads on from its last row. */
    method ListTasksFeed(project: Option<nat>, status: Option<TaskStore.Status>, cursor: Option<string>, limit: nat)
      returns (r: Result<CursorPage<TaskStore.Task>, Unprintable>)
      requires limit >= 1
      ensures r.Ok? ==>
                var f := TaskStore.Filters(project, status, None, None, None, None, false);
                && (limit <= 100 ==>
                      TaskApi.Exec(repo.table, TaskApi.ListFeed(repo.organizationId, f, ReadCursor(cursor), limit))
                      == (repo.table, TaskApi.FeedReply(r.value.items, r.value.hasMore)))
                && TaskStore.ShowsFairly(r.value.items, r.value.hasMore, repo.table, repo.organizationId, f, ReadCursor(cursor), limit)
                && LeadsOn(clock, r.value.nextCursor, Page(TaskStore.KeysOfRows(r.value.items), r.value.hasMore))
      ensures r.Err? ==> exists id :: id in repo.table && !Presents(clock, TaskStore.KeyOf(repo.table[id]))
    {
      var filters := TaskStore.Filters(project, status, None, None, None, None, false);
      var cursorData := ReadCursor(cursor);
      var items, hasMore := repo.ListTasksCursor(filters, cursorData, limit);
      if limit <= 100 {
        ListingReplies(repo.table, repo.organizationId, filters, cursorData, 1, limit);
      }
      var nextCursor := None;
      if hasMore && items != [] {
        var lastItem := items[|items| - 1];
        var next := NextCursor(clock, TaskStore.KeyOf(lastItem), Page(TaskStore.KeysOfRows(items), hasMore));
        if next.Err? {
          return Err(Unprintable);
        }
        nextCursor := Some(next.value);
      }
      return Ok(CursorPage(items, nextCursor, hasMore));
    }

    /** A numbered page of the filtered list, and how many pages there are. */
    method ListTasksOffset(f: TaskStore.Filters, page: nat, pageSize: nat) returns (r: OffsetPageOf<TaskStore.Task>)
      requires page >= 1 && pageSize >= 1
      ensures pageSize <= 100 ==>
                TaskApi.Exec(repo.table, TaskApi.ListOffset(repo.organizationId, f, page, pageSize))
                == (repo.table, TaskApi.OffsetReply(r.items, r.total, r.totalPages))
      ensures exists q :: TaskStore.IsListing(q, repo.table, repo.organizationId, f)
      ensures forall q :: TaskStore.IsListing(q, repo.table, repo.organizationId, f) ==>
                TaskStore.KeysOfRows(r.items) == OffsetPage(q, pageSize, page)
      ensures forall i :: 0 <= i < |r.items| ==> r.items[i].id in repo.table && repo.table[r.items[i].id] == r.items[i]
      ensures r.total == |TaskStore.VisibleKeys(repo.table, repo.organizationId, f)|
      ensures r.totalPages == TotalPages(r.total, pageSize) && r.page == page && r.pageSize == pageSize
      ensures r.total <= r.totalPages * pageSize && (r.total > 0 ==> (r.totalPages - 1) * pageSize < r.total)
      ensures r.total == 0 ==> r.totalPages == 0
    {
      var offset := (page - 1) * pageSize;
      var items, total := repo.ListTasksOffset(f, offset, pageSize);
      var totalPages := if total > 0 then (total + pageSize - 1) / pageSize else 0;
      PageCount(total, pageSize);
      if pageSize <= 100 {
        ListingReplies(repo.table, repo.organizationId, f, None, page, pageSize);
      }
      forall q | TaskStore.IsListing(q, repo.table, repo.organizationId, f)
        ensures TaskStore.KeysOfRows(items) == OffsetPage(q, pageSize, page)
      {
        PageOfListing(items, repo.table, q, pageSize, page);
      }
      r := OffsetPageOf(items, total, page, pageSize, totalPages);
    }
  }

  /** The comment service's listing, with the same cursors. */
  class CommentService {
    const repo: Comments.CommentRepository
    const clock: Clock

    constructor (repo: Comments.CommentRepository, clock: Clock)
      ensures this.repo == repo && this.clock == clock
    {
      this.repo := repo;
      this.clock := clock;
    }

    /** A comment needs a live task of the tenant; it is stored trimmed and unedited. */
    method AddComment(tasks: TaskStore.Table, task: nat, id: nat, author: nat, content: string, now: int)
      returns (r: Result<Comments.Comment, Comments.Failure>)
      requires id !in repo.table
      modifies repo
      ensures r.Ok? <==> task in tasks && tasks[task].org == repo.organizationId && !tasks[task].isDeleted
      ensures r.Err? ==> r.error == Comments.NotFound && repo.table == old(repo.table)
      ensures r.Ok? ==>
                && r.value == Comments.Comment(id, repo.organizationId, task, author, Text.Strip(content), false, now)
                && repo.table == old(repo.table)[id := r.value]
      ensures Comments.ExecComment(old(repo.table), Comments.AddComment(tasks, repo.organizationId, task, id, author, content, now))
           == (repo.table, r)
    {
      if TaskStore.GetById(tasks, repo.organizationId, task, false).None? {
        return Err(Comments.NotFound);
      }
      var row := Comments.Comment(id, repo.organizationId, task, author, Text.Strip(content), false, now);
      repo.table := repo.table[id := row];
      return Ok(row);
    }

    /** Only its author or an administrator edits a comment. */
    method UpdateComment(id: nat, user: nat, isAdmin: bool, content: string) returns (r: Result<Comments.Comment, Comments.Failure>)
      modifies repo
      ensures r == Err(Comments.NotFound) <==> !(id in old(repo.table) && old(repo.table)[id].org == repo.organizationId)
      ensures r == Err(Comments.Forbidden) <==> id in old(repo.table) && old(repo.table)[id].org == repo.organizationId
                                                && old(repo.table)[id].author != user && !isAdmin
      ensures r.Err? ==> repo.table == old(repo.table)
      ensures r.Ok? ==> r.value == old(repo.table)[id].(content := Text.Strip(content), isEdited := true)
                        && repo.table == old(repo.table)[id := r.value]
      ensures Comments.ExecComment(old(repo.table), Comments.EditComment(repo.organizationId, id, user, isAdmin, content))
           == (repo.table, r)
    {
      if id !in repo.table || repo.table[id].org != repo.organizationId {
        return Err(Comments.NotFound);
      }
      var comment := repo.table[id];
      if comment.author != user && !isAdmin {
        return Err(Comments.Forbidden);
      }
      comment := comment.(content := Text.Strip(content));
      comment := comment.(isEdited := true);
      repo.table := repo.table[id := comment];
      return Ok(comment);
    }

    method ListComments(task: nat, cursor: Option<string>, limit: nat)
      returns (r: Result<CursorPage<Comments.Comment>, Unprintable>)
      requires limit >= 1
      ensures r.Ok? ==>
                && (r.value.items, r.value.hasMore)
                   == Comments.ThreadFetch(repo.table, repo.organizationId, task, ReadCursor(cursor), limit)
                && Comments.ShowsFairly(r.value.items, r.value.hasMore, repo.table, repo.organizationId, task, ReadCursor(cursor), limit)
                && LeadsOn(clock, r.value.nextCursor, Page(Comments.KeysOfRows(r.value.items), r.value.hasMore))
      ensures r.Err? ==> exists id :: id in repo.table && !Presents(clock, Comments.KeyOf(repo.table[id]))
    {
      var cursorData := ReadCursor(cursor);
      var items, hasMore := repo.ListCommentsCursor(task, cursorData, limit);
      var nextCursor := None;
      if hasMore && items != [] {
        var lastItem := items[|items| - 1];
        var next := NextCursor(clock, Comments.KeyOf(lastItem), Page(Comments.KeysOfRows(items), hasMore));
        if next.Err? {
          return Err(Unprintable);
        }
        nextCursor := Some(next.value);
      }
      return Ok(CursorPage(items, nextCursor, hasMore));
    }
  }
}
