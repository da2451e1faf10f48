/** The steps of one request, taken without interruption, are the whole request of the task API. */
module TaskSerial {
  import opened Wrappers
  import opened TaskStore
  import opened TaskOcc
  import TaskApi

  /** A status update: not found at its read, or decided at its write, with an audit row for a success. */
  lemma StatusUpdateAlone(s: State, req: nat, org: nat, actor: nat, task: nat, status: Status, expected: int)
    requires req !in s.pending
    ensures var read := Next(s, ReadForStatus(req, org, actor, task, status, expected));
            var (tasks, reply) := TaskApi.Exec(s.tasks, TaskApi.SetStatus(org, task, status, expected));
            if reply == TaskApi.NotFound then read == s.(log := s.log + [NotFound(task)]) && tasks == s.tasks
            else
              && Enabled(read, WriteStatus(req))
              && var end := Next(read, WriteStatus(req));
                 && end.tasks == tasks && end.pending == s.pending
                 && (reply == TaskApi.Conflict ==> end.log == s.log + [Conflict(task)] && end.audit == s.audit)
                 && (reply.Row? ==>
                       && end.log == s.log + [StatusSet(task, expected, status, Seen(s, task))]
                       && end.audit == s.audit + [UpdateAudit(org, actor, task,
                                                    Change(s.tasks[task].status, expected, status, expected + 1))])
                 && (reply.Row? || reply == TaskApi.Conflict)
  {
    var read := Next(s, ReadForStatus(req, org, actor, task, status, expected));
    if GetById(s.tasks, org, task, false).Some? {
      assert read.pending - {req} == s.pending;
    }
  }

  /** An edit: not found or in conflict at its load, else flushed, without an audit row. */
  lemma EditAlone(s: State, req: nat, org: nat, task: nat, changes: TaskApi.Changes, expected: int)
    requires req !in s.pending
    ensures var load := Next(s, LoadForEdit(req, org, task, changes, expected));
            var (tasks, reply) := TaskApi.Exec(s.tasks, TaskApi.EditTask(org, task, changes, expected));
            && s.audit == load.audit
            && (reply == TaskApi.NotFound ==> load == s.(log := s.log + [NotFound(task)]) && tasks == s.tasks)
            && (reply == TaskApi.Conflict ==> load == s.(log := s.log + [Conflict(task)]) && tasks == s.tasks)
            && (reply.Row? ==>
                  && Enabled(load, FlushEdit(req))
                  && var end := Next(load, FlushEdit(req));
                     && end.tasks == tasks && end.pending == s.pending && end.audit == s.audit
                     && end.log == s.log + [FieldsSet(task, expected, Seen(s, task))])
            && (reply.Row? || reply == TaskApi.NotFound || reply == TaskApi.Conflict)
  {
    var row := GetById(s.tasks, org, task, false);
    if row.Some? && row.value.version == expected {
      var load := Next(s, LoadForEdit(req, org, task, changes, expected));
      assert load.pending - {req} == s.pending;
      FlushSetsOnlyTheChanges(row.value, row.value, changes);
    }
  }

  lemma DeletionAlone(s: State, req: nat, org: nat, task: nat, now: int)
    requires req !in s.pending
    ensures var read := Next(s, ReadForDelete(req, org, task));
            var (tasks, reply) := TaskApi.Exec(s.tasks, TaskApi.DeleteTask(org, task, now));
            if reply == TaskApi.NotFound then read == s.(log := s.log + [NotFound(task)]) && tasks == s.tasks
            else
              && reply == TaskApi.NoContent && Enabled(read, WriteDelete(req, now))
              && var end := Next(read, WriteDelete(req, now));
                 end == s.(tasks := tasks, log := s.log + [Deleted(task)])
  {
    var read := Next(s, ReadForDelete(req, org, task));
    if GetById(s.tasks, org, task, false).Some? {
      assert read.pending - {req} == s.pending;
    }
  }
}
