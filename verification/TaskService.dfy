/** The task service and the clean-up worker: transactions that write rows and audit records step by step. */
module TaskServices {
  import opened Wrappers
  import opened TaskStore
  import opened TaskOcc
  import opened Text
  import TaskApi
  import Sweeper
  import Iso8601

  datatype Failure = NoSuchTask | VersionConflict

  class TaskService {
    const organizationId: nat
    var tasks: Table
    var audit: seq<Audit>

    constructor (organizationId: nat, tasks: Table, audit: seq<Audit>)
      ensures this.organizationId == organizationId && this.tasks == tasks && this.audit == audit
    {
      this.organizationId := organizationId;
      this.tasks := tasks;
      this.audit := audit;
    }

    /** The state that the interleaving model gives to the database of this service. */
    ghost function State(): TaskOcc.State
      reads this
    {
      TaskOcc.State(tasks, audit, map[], [])
    }

    method CreateTask(id: nat, project: nat, reporter: nat, title: string, description: Option<string>,
                      priority: Priority, assignee: Option<nat>, now: int) returns (row: Task)
      requires id !in tasks
      modifies this
      ensures row == Task(id, organizationId, project, None, reporter, assignee, title, description, Backlog, priority,
                          None, 1, now, false, None)
      ensures tasks == old(tasks)[id := row]
      ensures TaskApi.Exec(old(tasks), TaskApi.CreateTask(organizationId, id, project, reporter, assignee, title,
                                                          description, priority, now))
           == (tasks, TaskApi.Row(row))
      ensures audit == old(audit) + [CreateAudit(organizationId, reporter, id, title, Backlog, priority)]
      ensures Enabled(old(State()), Create(row, reporter))
      ensures State() == Next(old(State()), Create(row, reporter))
    {
      row := NewTask(id, organizationId, project, reporter, assignee, title, description, priority, now);
      tasks := tasks[id := row];
      audit := audit + [CreateAudit(organizationId, reporter, row.id, row.title, row.status, row.priority)];
    }

    /**
     Run without interruption, the update is the interleaving model's read followed by its write:
     a conflict or a missing task changes nothing, a success moves the version up by one.
     */
    method UpdateTaskStatusOcc(task: nat, actor: nat, status: Status, expected: int) returns (r: Result<Task, Failure>)
      modifies this
      ensures r == Err(NoSuchTask) <==>
                !(task in old(tasks) && old(tasks)[task].org == organizationId && !old(tasks)[task].isDeleted)
      ensures r == Err(VersionConflict) <==>
                && task in old(tasks) && old(tasks)[task].org == organizationId && !old(tasks)[task].isDeleted
                && old(tasks)[task].version != expected
      ensures r.Err? ==> tasks == old(tasks) && audit == old(audit)
      ensures r.Ok? ==>
                && r.value == old(tasks)[task].(status := status, version := expected + 1)
                && tasks == old(tasks)[task := r.value]
                && audit == old(audit) + [UpdateAudit(organizationId, actor, task,
                     Change(old(tasks)[task].status, expected, status, expected + 1))]
      ensures r != Err(NoSuchTask) ==>
                var read := Next(old(State()), ReadForStatus(0, organizationId, actor, task, status, expected));
                && Enabled(read, WriteStatus(0))
                && tasks == Next(read, WriteStatus(0)).tasks && audit == Next(read, WriteStatus(0)).audit
    {
      var existing := GetById(tasks, organizationId, task, false);
      if existing.None? {
        return Err(NoSuchTask);
      }
      var beforeStatus, beforeVersion := existing.value.status, existing.value.version;
      var (table, updated) := SetStatusWhereVersion(tasks, organizationId, task, status, expected);
      if updated.None? {
        return Err(VersionConflict);
      }
      tasks := table;
      audit := audit + [UpdateAudit(organizationId, actor, updated.value.id,
                          Change(beforeStatus, beforeVersion, updated.value.status, updated.value.version))];
      r := Ok(updated.value);
    }
  }

  /** What the API answers to a service result. */
  function ReplyOf(r: Result<Task, Failure>): TaskApi.Reply {
    match r
    case Ok(row) => TaskApi.Row(row)
    case Err(NoSuchTask) => TaskApi.NotFound
    case Err(VersionConflict) => TaskApi.Conflict
  }

  /** The writing endpoints of tasks. */
  class TaskWriteEndpoints {
    const service: TaskService

    constructor (service: TaskService)
      ensures this.service == service
    {
      this.service := service;
    }

    /** With a status only the status is updated; without one the other fields are, and no audit row is written. */
    method UpdateTask(id: nat, actor: nat, status: Option<Status>, changes: TaskApi.Changes, expected: int)
      returns (r: Result<Task, Failure>)
      modifies service
      ensures var op := if status.Some? then TaskApi.SetStatus(service.organizationId, id, status.value, expected)
                        else TaskApi.EditTask(service.organizationId, id, changes, expected);
              (service.tasks, ReplyOf(r)) == TaskApi.Exec(old(service.tasks), op)
      ensures status.None? || r.Err? ==> service.audit == old(service.audit)
      ensures status.Some? && r.Ok? ==> |service.audit| == |old(service.audit)| + 1
    {
      if status.Some? {
        r := service.UpdateTaskStatusOcc(id, actor, status.value, expected);
      } else {
        r := EditFields(id, changes, expected);
      }
    }

    /** Every field that the payload carries, and one version up. */
    method AssignFields(loaded: Task, changes: TaskApi.Changes) returns (task: Task)
      ensures task == TaskApi.Edited(loaded, changes)
      ensures task.title == (if changes.title.Some? then Strip(changes.title.value) else loaded.title)
      ensures task.description == (if changes.description.Some? then changes.description else loaded.description)
      ensures task.priority == (if changes.priority.Some? then changes.priority.value else loaded.priority)
      ensures task.assignee == (if changes.assignee.Some? then changes.assignee else loaded.assignee)
      ensures task.dueDate == (if changes.dueDate.Some? then changes.dueDate else loaded.dueDate)
      ensures task == loaded.(title := task.title, description := task.description, priority := task.priority,
                              assignee := task.assignee, dueDate := task.dueDate, version := loaded.version + 1)
      ensures task.id == loaded.id && task.status == loaded.status && task.version == loaded.version + 1
    {
      task := loaded;
      if changes.title.Some? {
        task := task.(title := Strip(changes.title.value));
      }
      if changes.description.Some? {
        task := task.(description := changes.description);
      }
      if changes.priority.Some? {
        task := task.(priority := changes.priority.value);
      }
      if changes.assignee.Some? {
        task := task.(assignee := changes.assignee);
      }
      if changes.dueDate.Some? {
        task := task.(dueDate := changes.dueDate);
      }
      task := task.(version := task.version + 1);
    }

    /** The object is loaded, compared and assigned field by field, and committed. */
    method EditFields(id: nat, changes: TaskApi.Changes, expected: int) returns (r: Result<Task, Failure>)
      modifies service
      ensures (service.tasks, ReplyOf(r))
           == TaskApi.Exec(old(service.tasks), TaskApi.EditTask(service.organizationId, id, changes, expected))
      ensures service.audit == old(service.audit)
      ensures r == Err(NoSuchTask) <==> !(id in old(service.tasks) && old(service.tasks)[id].org == service.organizationId
                                          && !old(service.tasks)[id].isDeleted)
      ensures r == Err(VersionConflict) <==> id in old(service.tasks) && old(service.tasks)[id].org == service.organizationId
                                             && !old(service.tasks)[id].isDeleted && old(service.tasks)[id].version != expected
      ensures r.Err? ==> service.tasks == old(service.tasks)
      ensures r.Ok? ==> r.value.version == expected + 1 && service.tasks == old(service.tasks)[id := r.value]
    {
      var found := GetById(service.tasks, service.organizationId, id, false);
      if found.None? {
        return Err(NoSuchTask);
      }
      var task := found.value;
      if task.version != expected {
        return Err(VersionConflict);
      }
      task := AssignFields(task, changes);
      service.tasks := service.tasks[id := task];
      return Ok(task);
    }

    /** A task that is gone by the time of its UPDATE is not found, either. */
    method DeleteTask(id: nat, now: int) returns (deleted: bool)
      modifies service
      ensures (service.tasks, if deleted then TaskApi.NoContent else TaskApi.NotFound)
           == TaskApi.Exec(old(service.tasks), TaskApi.DeleteTask(service.organizationId, id, now))
      ensures deleted <==> id in old(service.tasks) && old(service.tasks)[id].org == service.organizationId
                           && !old(service.tasks)[id].isDeleted
      ensures service.tasks == if deleted then old(service.tasks)[id := old(service.tasks)[id].(isDeleted := true, deletedAt := Some(now))]
                               else old(service.tasks)
      ensures service.audit == old(service.audit)
    {
      if GetById(service.tasks, service.organizationId, id, false).None? {
        return false;
      }
      var (tasks, success) := SoftDelete(service.tasks, service.organizationId, id, now);
      service.tasks := tasks;
      return success;
    }
  }

  class CleanupWorker {
    var tasks: Table

    constructor (tasks: Table)
      ensures this.tasks == tasks
    {
      this.tasks := tasks;
    }

    /** Deletes the expired rows, and reports how many rows the DELETE itself returned. */
    method CleanupSoftDeletedTasksJob(now: int, days: nat) returns (count: nat)
      modifies this
      ensures tasks == Sweeper.Purge(old(tasks), now, days)
      ensures forall id :: id in tasks ==>
                && id in old(tasks) && tasks[id] == old(tasks)[id]
                && !(tasks[id].isDeleted && tasks[id].deletedAt.Some? && tasks[id].deletedAt.value + days * 86_400_000_000 <= now)
      ensures count == |set id | id in old(tasks) && old(tasks)[id].isDeleted && old(tasks)[id].deletedAt.Some?
                                 && old(tasks)[id].deletedAt.value + days * 86_400_000_000 <= now|
      ensures Sweeper.NoSubtasks(old(tasks)) ==> count == |old(tasks)| - |tasks|
      ensures Sweeper.NoSubtasks(old(tasks)) ==> forall id :: id in old(tasks) && id !in tasks ==>
                && old(tasks)[id].isDeleted && old(tasks)[id].deletedAt.Some?
                && old(tasks)[id].deletedAt.value + days * 86_400_000_000 <= now
    {
      var cutoff := now - days * Iso8601.DAY;
      var returned := set id | id in tasks && tasks[id].isDeleted && tasks[id].deletedAt.Some? && tasks[id].deletedAt.value <= cutoff;
      ghost var before := tasks;
      assert returned == Sweeper.Expired(tasks, now, days);
      forall id | id in Sweeper.Purge(tasks, now, days)
        ensures !(tasks[id].isDeleted && tasks[id].deletedAt.Some? && tasks[id].deletedAt.value + days * 86_400_000_000 <= now)
      {
        Sweeper.PurgeLeavesNothingDue(tasks, now, days, id);
      }
      assert returned == set id | id in tasks && tasks[id].isDeleted && tasks[id].deletedAt.Some?
                                  && tasks[id].deletedAt.value + days * 86_400_000_000 <= now;
      tasks := tasks - Sweeper.Cascade(tasks, returned);
      count := |returned|;
      if Sweeper.NoSubtasks(before) {
        Sweeper.PurgeWithoutSubtasks(before, now, days);
        assert tasks.Keys == before.Keys - returned;
        assert |tasks| == |tasks.Keys| && |before| == |before.Keys|;
      }
    }
  }
}
