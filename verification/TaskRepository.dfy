/** The tenant-scoped task repository: it builds its WHERE clauses piece by piece and reads or writes the table. */
module TaskRepositories {
  import opened Wrappers
  import opened Keys
  import opened Walks
  import opened TaskStore

  class TaskRepository {
    const organizationId: nat
    var table: Table

    constructor (organizationId: nat, table: Table)
      ensures this.organizationId == organizationId && this.table == table
    {
      this.organizationId := organizationId;
      this.table := table;
    }

    method GetById(id: nat, includeDeleted: bool) returns (row: Option<Task>)
      ensures row.Some? <==> id in table && table[id].org == organizationId && (table[id].isDeleted ==> includeDeleted)
      ensures row.Some? ==> row.value.id == id && row.value == table[id]
      ensures row == TaskStore.GetById(table, organizationId, id, includeDeleted)
    {
      if id in table && table[id].org == organizationId {
        var live := !table[id].isDeleted;
        if includeDeleted || live {
          return Some(table[id]);
        }
      }
      return None;
    }

    method Count(includeDeleted: bool) returns (n: nat)
      ensures n == CountOf(table, organizationId, includeDeleted)
      ensures !includeDeleted ==> n == |set id | id in table && table[id].org == organizationId && !table[id].isDeleted|
      ensures includeDeleted ==> n == |View(table, organizationId)|
    {
      var criteria := [OrgIs(organizationId)];
      if !includeDeleted {
        criteria := criteria + [NotDeleted];
      }
      n := SelectCount(table, criteria);
      assert (set id | id in table && Satisfies(criteria, table[id]))
          == (set id | id in table && table[id].org == organizationId && (includeDeleted || !table[id].isDeleted)) by {
        forall id | id in table
          ensures Satisfies(criteria, table[id]) <==> table[id].org == organizationId && (includeDeleted || !table[id].isDeleted)
        {
          var task := table[id];
          if Satisfies(criteria, task) {
            assert Holds(criteria[0], task);
            assert !includeDeleted ==> Holds(criteria[1], task);
          }
        }
      }
      CountingEverything(table, organizationId);
      assert !includeDeleted ==>
          (set id | id in table && table[id].org == organizationId && (includeDeleted || !table[id].isDeleted))
          == (set id | id in table && table[id].org == organizationId && !table[id].isDeleted);
    }

    /** Inserts a row; whatever tenant the attributes name, the row belongs to this repository's tenant. */
    method Create(attributes: Task) returns (row: Task)
      requires attributes.id !in table
      modifies this
      ensures row == attributes.(org := organizationId)
      ensures table == old(table)[attributes.id := row]
    {
      row := attributes.(org := organizationId);
      table := table[row.id := row];
    }

    method SoftDelete(id: nat, now: int) returns (deleted: bool)
      modifies this
      ensures (table, deleted) == TaskStore.SoftDelete(old(table), organizationId, id, now)
      ensures deleted <==> id in old(table) && old(table)[id].org == organizationId && !old(table)[id].isDeleted
      ensures table == if deleted then old(table)[id := old(table)[id].(isDeleted := true, deletedAt := Some(now))] else old(table)
    {
      deleted := false;
      if id in table && table[id].org == organizationId && !table[id].isDeleted {
        table := table[id := table[id].(isDeleted := true, deletedAt := Some(now))];
        deleted := true;
      }
    }

    /** The conjuncts are exactly the meaning of the filters for this tenant. */
    method BuildFilterCriteria(f: Filters) returns (criteria: seq<Criterion>)
      ensures forall task :: Satisfies(criteria, task) <==> Visible(organizationId, f, task)
      ensures forall task :: Satisfies(criteria, task) <==>
                && task.org == organizationId && !task.isDeleted
                && (f.project == None || f.project == Some(task.project))
                && (f.status == None || f.status == Some(task.status))
                && (f.priority == None || f.priority == Some(task.priority))
                && (f.assignee == None || f.assignee == task.assignee)
                && (f.reporter == None || f.reporter == Some(task.reporter))
                && (f.search.Some? ==> f.search.value(task))
    {
      criteria := [OrgIs(organizationId), NotDeleted];
      ghost var g := f.(project := None, status := None, priority := None, assignee := None, reporter := None, search := None);
      assert forall task :: Satisfies(criteria, task) ==> Holds(criteria[0], task) && Holds(criteria[1], task);
      assert Means(criteria, organizationId, g);
      if f.project.Some? {
        AddingFilter(criteria, ProjectIs(f.project.value), organizationId, g, g.(project := f.project));
        criteria, g := criteria + [ProjectIs(f.project.value)], g.(project := f.project);
      }
      if f.status.Some? {
        AddingFilter(criteria, StatusIs(f.status.value), organizationId, g, g.(status := f.status));
        criteria, g := criteria + [StatusIs(f.status.value)], g.(status := f.status);
      }
      if f.priority.Some? {
        AddingFilter(criteria, PriorityIs(f.priority.value), organizationId, g, g.(priority := f.priority));
        criteria, g := criteria + [PriorityIs(f.priority.value)], g.(priority := f.priority);
      }
      if f.assignee.Some? {
        AddingFilter(criteria, AssigneeIs(f.assignee.value), organizationId, g, g.(assignee := f.assignee));
        criteria, g := criteria + [AssigneeIs(f.assignee.value)], g.(assignee := f.assignee);
      }
      if f.reporter.Some? {
        AddingFilter(criteria, ReporterIs(f.reporter.value), organizationId, g, g.(reporter := f.reporter));
        criteria, g := criteria + [ReporterIs(f.reporter.value)], g.(reporter := f.reporter);
      }
      if f.search.Some? {
        AddingFilter(criteria, Matches(f.search.value), organizationId, g, g.(search := f.search));
        criteria, g := criteria + [Matches(f.search.value)], g.(search := f.search);
      }
      MeaningSpelledOut(criteria, organizationId, f);
    }

    method ListTasksOffset(f: Filters, offset: nat, limit: nat) returns (items: seq<Task>, total: nat)
      ensures items == VisiblePage(table, organizationId, f, DirOf(f), offset, limit)
      ensures forall q :: IsListing(q, table, organizationId, f) ==> ShowsListing(items, table, q, offset, limit)
      ensures exists q :: IsListing(q, table, organizationId, f)
      ensures total == |VisibleKeys(table, organizationId, f)|
    {
      var criteria := BuildFilterCriteria(f);
      total := SelectCount(table, criteria);
      if f.ascending {
        items := Select(table, criteria, Asc, offset, limit);
      } else {
        items := Select(table, criteria, Desc, offset, limit);
      }
      assert KeysWhere(table, criteria) == VisibleKeys(table, organizationId, f);
      ghost var ids := set id | id in table && Satisfies(criteria, table[id]);
      assert KeysWhere(table, criteria) == set id | id in ids :: KeyOf(table[id]);
      assert total == |ids| by {
        assert ids == set id | id in table && Satisfies(criteria, table[id]);
      }
      KeysCountRows(table, ids, KeysWhere(table, criteria));
      ListingExists(table, organizationId, f);
      forall q | IsListing(q, table, organizationId, f) ensures ShowsListing(items, table, q, offset, limit) {
        PageShowsListing(table, organizationId, f, offset, limit, q);
      }
    }

    method ListTasksCursor(f: Filters, cursor: Option<Key>, limit: nat) returns (items: seq<Task>, hasMore: bool)
      ensures (items, hasMore) == VisibleFetch(table, organizationId, f, cursor, limit)
      ensures limit >= 1 ==> ShowsFairly(items, hasMore, table, organizationId, f, cursor, limit)
    {
      var criteria := BuildFilterCriteria(f);
      ghost var base := criteria;
      if cursor.Some? {
        AddingCriterion(criteria, OlderThan(cursor.value.ts, cursor.value.id));
        criteria := criteria + [OlderThan(cursor.value.ts, cursor.value.id)];
      }
      assert KeysWhere(table, criteria) == Remaining(Desc, VisibleKeys(table, organizationId, f), cursor) by {
        forall id | id in table
          ensures Satisfies(criteria, table[id]) <==>
                  Visible(organizationId, f, table[id]) && Beyond(Desc, cursor, KeyOf(table[id]))
        {
          assert Satisfies(base, table[id]) <==> Visible(organizationId, f, table[id]);
        }
      }
      var records := Select(table, criteria, Desc, 0, limit + 1);
      hasMore := |records| > limit;
      items := if |records| > limit then records[..limit] else records;
      FetchIsStored(table, organizationId, f, cursor, limit);
      ghost var p := Fetch(Desc, VisibleKeys(table, organizationId, f), cursor, limit);
      assert p.more == hasMore && |p.items| == |items|;
      assert items == Rows(table, p.items);
      if limit >= 1 {
        FetchShowsFairly(table, organizationId, f, cursor, limit);
      }
    }
  }

  lemma CountingEverything(t: Table, org: nat)
    ensures CountOf(t, org, true) == |View(t, org)|
  {
    assert View(t, org).Keys == set id | id in t && t[id].org == org && (true || !t[id].isDeleted);
    assert |View(t, org)| == |View(t, org).Keys|;
  }

  ghost predicate Means(criteria: seq<Criterion>, org: nat, f: Filters) {
    forall task :: Satisfies(criteria, task) <==> Visible(org, f, task)
  }

  lemma MeaningSpelledOut(criteria: seq<Criterion>, org: nat, f: Filters)
    requires Means(criteria, org, f)
    ensures forall task :: Satisfies(criteria, task) <==>
              && task.org == org && !task.isDeleted
              && (f.project == None || f.project == Some(task.project))
              && (f.status == None || f.status == Some(task.status))
              && (f.priority == None || f.priority == Some(task.priority))
              && (f.assignee == None || f.assignee == task.assignee)
              && (f.reporter == None || f.reporter == Some(task.reporter))
              && (f.search.Some? ==> f.search.value(task))
  {
  }

  /** Appending the conjunct of one more filter keeps the list in step with the filters. */
  lemma AddingFilter(criteria: seq<Criterion>, c: Criterion, org: nat, f: Filters, g: Filters)
    requires Means(criteria, org, f)
    requires forall task :: Visible(org, g, task) <==> Visible(org, f, task) && Holds(c, task)
    ensures Means(criteria + [c], org, g)
  {
    AddingCriterion(criteria, c);
  }

  /** Appending to the criteria list adds one conjunct. */
  lemma AddingCriterion(criteria: seq<Criterion>, c: Criterion)
    ensures forall task :: Satisfies(criteria + [c], task) <==> Satisfies(criteria, task) && Holds(c, task)
  {
    forall task
      ensures Satisfies(criteria + [c], task) <==> Satisfies(criteria, task) && Holds(c, task)
    {
      if Satisfies(criteria + [c], task) {
        forall i | 0 <= i < |criteria| ensures Holds(criteria[i], task) { assert Holds((criteria + [c])[i], task); }
        assert Holds((criteria + [c])[|criteria|], task);
      }
    }
  }
}
