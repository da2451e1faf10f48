/**
 Writes to tasks as they really interleave. A status update reads the task and later sends one
 conditional UPDATE; an edit of other fields compares versions in Python and later flushes the
 changed columns by primary key alone; a deletion reads and later sends its conditional UPDATE.
 Other requests run in between.
 */
module TaskOcc {
  import opened Wrappers
  import opened TaskStore
  import TaskApi

  /** The before and after states that an UPDATE audit row carries. */
  datatype Change = Change(beforeStatus: Status, beforeVersion: int, afterStatus: Status, afterVersion: int)

  datatype Audit =
    | CreateAudit(org: nat, actor: nat, task: nat, title: string, status: Status, priority: Priority)
    | UpdateAudit(org: nat, actor: nat, task: nat, change: Change)

  /** A request that has read its task and not yet written; `readAt` counts the successful writes to the task by then. */
  datatype Pending =
    | PendingStatus(org: nat, actor: nat, task: nat, status: Status, expected: int,
                    beforeStatus: Status, beforeVersion: int, readAt: nat)
    | PendingEdit(task: nat, loaded: Task, changes: TaskApi.Changes, expected: int, readAt: nat)
    | PendingDelete(org: nat, task: nat)

  /** What requests were answered, in commit order. */
  datatype Outcome =
    | StatusSet(task: nat, expected: int, status: Status, readAt: nat)
    | FieldsSet(task: nat, expected: int, readAt: nat)
    | Deleted(task: nat)
    | Conflict(task: nat)
    | NotFound(task: nat)

  datatype State = State(tasks: Table, audit: seq<Audit>, pending: map<nat, Pending>, log: seq<Outcome>)

  datatype Step =
    | Create(row: Task, actor: nat)
    | ReadForStatus(req: nat, org: nat, actor: nat, task: nat, status: Status, expected: int)
    | WriteStatus(req: nat)
    | LoadForEdit(req: nat, org: nat, task: nat, changes: TaskApi.Changes, expected: int)
    | FlushEdit(req: nat)
    | ReadForDelete(req: nat, org: nat, task: nat)
    | WriteDelete(req: nat, now: int)

  const Init := State(map[], [], map[], [])

  /** `create_task` inserts a fresh row at version 1 in the backlog. */
  predicate IsNew(row: Task) {
    row == NewTask(row.id, row.org, row.project, row.reporter, row.assignee, row.title, row.description, row.priority, row.createdAt)
  }

  predicate SucceedsOn(o: Outcome, task: nat) {
    (o.StatusSet? || o.FieldsSet? || o.Deleted?) && o.task == task
  }

  /** The successful writes to a task, in commit order. */
  function Successes(log: seq<Outcome>, task: nat): seq<Outcome> {
    if log == [] then []
    else
      var last := log[|log| - 1];
      Successes(log[..|log| - 1], task) + (if SucceedsOn(last, task) then [last] else [])
  }

  /** The UPDATE rows of a task in the audit trail. */
  function Trail(audit: seq<Audit>, task: nat): seq<Change> {
    if audit == [] then []
    else
      var last := audit[|audit| - 1];
      Trail(audit[..|audit| - 1], task) + (if last.UpdateAudit? && last.task == task then [last.change] else [])
  }

  function Seen(s: State, task: nat): nat {
    |Successes(s.log, task)|
  }

  predicate Enabled(s: State, step: Step) {
    match step
    case Create(row, _) => row.id !in s.tasks && IsNew(row)
    case ReadForStatus(req, _, _, _, _, _) => req !in s.pending
    case LoadForEdit(req, _, _, _, _) => req !in s.pending
    case ReadForDelete(req, _, _) => req !in s.pending
    case WriteStatus(req) => req in s.pending && s.pending[req].PendingStatus?
    case FlushEdit(req) => req in s.pending && s.pending[req].PendingEdit? && s.pending[req].loaded.id in s.tasks
    case WriteDelete(req, _) => req in s.pending && s.pending[req].PendingDelete?
  }

  function AfterReadForStatus(s: State, req: nat, org: nat, actor: nat, task: nat, status: Status, expected: int): State {
    var row := GetById(s.tasks, org, task, false);
    if row.None? then s.(log := s.log + [NotFound(task)])
    else
      var p := PendingStatus(org, actor, task, status, expected, row.value.status, row.value.version, Seen(s, task));
      s.(pending := s.pending[req := p])
  }

  function ChangeOf(p: Pending, row: Task): Change
    requires p.PendingStatus?
  {
    Change(p.beforeStatus, p.beforeVersion, row.status, row.version)
  }

  function AfterWriteStatus(s: State, req: nat): State
    requires req in s.pending && s.pending[req].PendingStatus?
  {
    var p := s.pending[req];
    var (tasks, row) := SetStatusWhereVersion(s.tasks, p.org, p.task, p.status, p.expected);
    if row.None? then s.(pending := s.pending - {req}, log := s.log + [Conflict(p.task)])
    else
      State(tasks,
            s.audit + [UpdateAudit(p.org, p.actor, p.task, ChangeOf(p, row.value))],
            s.pending - {req},
            s.log + [StatusSet(p.task, p.expected, p.status, p.readAt)])
  }

  /** The version is compared with the loaded object, not in the UPDATE. */
  function AfterLoadForEdit(s: State, req: nat, org: nat, task: nat, changes: TaskApi.Changes, expected: int): State {
    var row := GetById(s.tasks, org, task, false);
    if row.None? then s.(log := s.log + [NotFound(task)])
    else if row.value.version != expected then s.(log := s.log + [Conflict(task)])
    else s.(pending := s.pending[req := PendingEdit(task, row.value, changes, expected, Seen(s, task))])
  }

  /** The UPDATE that a commit sends for an edited object: the columns whose loaded value changed, by primary key. */
  function Flushed(row: Task, loaded: Task, dirty: Task): Task {
    row.(title := if dirty.title != loaded.title then dirty.title else row.title,
         description := if dirty.description != loaded.description then dirty.description else row.description,
         priority := if dirty.priority != loaded.priority then dirty.priority else row.priority,
         assignee := if dirty.assignee != loaded.assignee then dirty.assignee else row.assignee,
         dueDate := if dirty.dueDate != loaded.dueDate then dirty.dueDate else row.dueDate,
         version := if dirty.version != loaded.version then dirty.version else row.version)
  }

  /** A flush sets what its request changed and leaves every other column as others have left it. */
  lemma FlushSetsOnlyTheChanges(row: Task, loaded: Task, changes: TaskApi.Changes)
    ensures var r := Flushed(row, loaded, TaskApi.Edited(loaded, changes));
            && r.version == loaded.version + 1
            && r.status == row.status && r.isDeleted == row.isDeleted && r.deletedAt == row.deletedAt
            && r.id == row.id && r.org == row.org && r.createdAt == row.createdAt && r.parent == row.parent
            && r.project == row.project && r.reporter == row.reporter
            && (changes.priority.Some? && changes.priority.value != loaded.priority ==> r.priority == changes.priority.value)
            && (changes.priority == None || changes.priority == Some(loaded.priority) ==> r.priority == row.priority)
            && (changes.assignee.Some? && changes.assignee != loaded.assignee ==> r.assignee == changes.assignee)
            && (changes.assignee == None || changes.assignee == loaded.assignee ==> r.assignee == row.assignee)
            && (changes.description.Some? && changes.description != loaded.description ==> r.description == changes.description)
            && (changes.description == None || changes.description == loaded.description ==> r.description == row.description)
            && (changes.dueDate.Some? && changes.dueDate != loaded.dueDate ==> r.dueDate == changes.dueDate)
            && (changes.dueDate == None || changes.dueDate == loaded.dueDate ==> r.dueDate == row.dueDate)
            && (changes.title == None ==> r.title == row.title)
    ensures row == loaded ==> Flushed(row, loaded, TaskApi.Edited(loaded, changes)) == TaskApi.Edited(loaded, changes)
  {
  }

  /** No version, no deleted flag and no audit row. */
  function AfterFlushEdit(s: State, req: nat): State
    requires req in s.pending && s.pending[req].PendingEdit? && s.pending[req].loaded.id in s.tasks
  {
    var p := s.pending[req];
    var id := p.loaded.id;
    var row := Flushed(s.tasks[id], p.loaded, TaskApi.Edited(p.loaded, p.changes));
    s.(tasks := s.tasks[id := row], pending := s.pending - {req}, log := s.log + [FieldsSet(id, p.expected, p.readAt)])
  }

  function AfterWriteDelete(s: State, req: nat, now: int): State
    requires req in s.pending && s.pending[req].PendingDelete?
  {
    var p := s.pending[req];
    var (tasks, deleted) := SoftDelete(s.tasks, p.org, p.task, now);
    s.(tasks := tasks, pending := s.pending - {req}, log := s.log + [if deleted then Deleted(p.task) else NotFound(p.task)])
  }

  function Next(s: State, step: Step): State
    requires Enabled(s, step)
  {
    match step
    case Create(row, actor) =>
      s.(tasks := s.tasks[row.id := row],
         audit := s.audit + [CreateAudit(row.org, actor, row.id, row.title, row.status, row.priority)])
    case ReadForStatus(req, org, actor, task, status, expected) =>
      AfterReadForStatus(s, req, org, actor, task, status, expected)
    case WriteStatus(req) => AfterWriteStatus(s, req)
    case LoadForEdit(req, org, task, changes, expected) => AfterLoadForEdit(s, req, org, task, changes, expected)
    case FlushEdit(req) => AfterFlushEdit(s, req)
    case ReadForDelete(req, org, task) =>
      if GetById(s.tasks, org, task, false).None? then s.(log := s.log + [NotFound(task)])
      else s.(pending := s.pending[req := PendingDelete(org, task)])
    case WriteDelete(req, now) => AfterWriteDelete(s, req, now)
  }

  ghost predicate Legal(s: State, steps: seq<Step>)
    decreases |steps|
  {
    steps == [] || (Enabled(s, steps[0]) && Legal(Next(s, steps[0]), steps[1..]))
  }

  function Run(s: State, steps: seq<Step>): State
    requires Legal(s, steps)
    decreases |steps|
  {
    if steps == [] then s else Run(Next(s, steps[0]), steps[1..])
  }

  // ----- what a task's successful writes have made of it -----

  predicate IsUpdate(o: Outcome) {
    o.StatusSet? || o.FieldsSet?
  }

  /** The version after these writes: one more than the last update expected. */
  function VersionOf(past: seq<Outcome>): int {
    if past == [] then 1
    else
      var last := past[|past| - 1];
      if IsUpdate(last) then last.expected + 1 else VersionOf(past[..|past| - 1])
  }

  function StatusOf(past: seq<Outcome>): Status {
    if past == [] then Backlog
    else
      var last := past[|past| - 1];
      if last.StatusSet? then last.status else StatusOf(past[..|past| - 1])
  }

  function UpdatesIn(past: seq<Outcome>): nat {
    if past == [] then 0 else UpdatesIn(past[..|past| - 1]) + (if IsUpdate(past[|past| - 1]) then 1 else 0)
  }

  predicate Gone(past: seq<Outcome>) {
    past != [] && (past[|past| - 1].Deleted? || Gone(past[..|past| - 1]))
  }

  /** The first `n` writes. */
  function Upto(writes: seq<Outcome>, n: nat): seq<Outcome> {
    if n <= |writes| then writes[..n] else writes
  }

  /** The audit rows that these writes should have: one for each status update, with the state that its request had read. */
  function RowsOf(writes: seq<Outcome>): seq<Change> {
    if writes == [] then []
    else
      var past, last := writes[..|writes| - 1], writes[|writes| - 1];
      RowsOf(past) +
      (if last.StatusSet? then
         [Change(StatusOf(Upto(past, last.readAt)), VersionOf(Upto(past, last.readAt)), last.status, last.expected + 1)]
       else [])
  }

  /** A status update or deletion was tested against the row it wrote; an edit against the row it had loaded. */
  ghost predicate WriteOk(past: seq<Outcome>, o: Outcome) {
    match o
    case StatusSet(_, expected, _, readAt) => readAt <= |past| && expected == VersionOf(past) && !Gone(past)
    case FieldsSet(_, expected, readAt) => readAt <= |past| && expected == VersionOf(past[..readAt]) && !Gone(past[..readAt])
    case Deleted(_) => !Gone(past)
    case _ => false
  }

  ghost predicate WritesOk(writes: seq<Outcome>) {
    forall j: nat :: j < |writes| ==> WriteOkAt(writes, j)
  }

  ghost predicate WriteOkAt(writes: seq<Outcome>, j: nat)
    requires j < |writes|
  {
    WriteOk(writes[..j], writes[j])
  }

  ghost predicate RowOk(row: Task, writes: seq<Outcome>, rows: seq<Change>) {
    && row.version == VersionOf(writes) && row.status == StatusOf(writes) && row.isDeleted == Gone(writes)
    && rows == RowsOf(writes) && WritesOk(writes)
  }

  ghost predicate TaskOk(s: State, task: nat) {
    if task in s.tasks then RowOk(s.tasks[task], Successes(s.log, task), Trail(s.audit, task))
    else Successes(s.log, task) == [] && Trail(s.audit, task) == []
  }

  /** A pending request remembers its task as it was after the first `readAt` writes. */
  ghost predicate PendingOk(s: State, p: Pending) {
    && p.task in s.tasks
    && var writes := Successes(s.log, p.task);
       match p
       case PendingStatus(_, _, _, _, _, beforeStatus, beforeVersion, readAt) =>
         readAt <= |writes| && beforeStatus == StatusOf(writes[..readAt]) && beforeVersion == VersionOf(writes[..readAt])
       case PendingEdit(task, loaded, _, expected, readAt) =>
         && expected == loaded.version && loaded.id == task
         && readAt <= |writes| && loaded.version == VersionOf(writes[..readAt]) && !Gone(writes[..readAt])
       case PendingDelete(_, _) => true
  }

  ghost predicate Inv(s: State) {
    && (forall task: nat :: TaskOk(s, task))
    && (forall req :: req in s.pending ==> PendingOk(s, s.pending[req]))
  }

  // ----- every step keeps it -----

  lemma LogAppend(log: seq<Outcome>, o: Outcome, task: nat)
    ensures Successes(log + [o], task) == Successes(log, task) + (if SucceedsOn(o, task) then [o] else [])
  {
    assert (log + [o])[..|log|] == log;
  }

  lemma AuditAppend(audit: seq<Audit>, a: Audit, task: nat)
    ensures Trail(audit + [a], task) == Trail(audit, task) + (if a.UpdateAudit? && a.task == task then [a.change] else [])
  {
    assert (audit + [a])[..|audit|] == audit;
  }

  lemma WritesAppend(writes: seq<Outcome>, o: Outcome)
    requires WritesOk(writes) && WriteOk(writes, o)
    ensures WritesOk(writes + [o])
  {
    var all := writes + [o];
    forall j: nat | j < |all| ensures WriteOkAt(all, j) {
      if j < |writes| {
        assert WriteOkAt(writes, j);
        assert all[..j] == writes[..j];
      } else {
        assert all[..j] == writes;
      }
    }
  }

  lemma RowAfterStatus(row: Task, writes: seq<Outcome>, rows: seq<Change>, row': Task, c: Change, o: Outcome)
    requires RowOk(row, writes, rows) && o.StatusSet? && WriteOk(writes, o)
    requires c == Change(StatusOf(writes[..o.readAt]), VersionOf(writes[..o.readAt]), o.status, o.expected + 1)
    requires row' == row.(status := o.status, version := o.expected + 1)
    ensures RowOk(row', writes + [o], rows + [c])
  {
    WritesAppend(writes, o);
    assert (writes + [o])[..|writes|] == writes;
  }

  lemma RowAfterFields(row: Task, writes: seq<Outcome>, rows: seq<Change>, row': Task, o: Outcome)
    requires RowOk(row, writes, rows) && o.FieldsSet? && WriteOk(writes, o)
    requires row'.version == o.expected + 1 && row'.status == row.status && row'.isDeleted == row.isDeleted
    ensures RowOk(row', writes + [o], rows)
  {
    WritesAppend(writes, o);
    assert (writes + [o])[..|writes|] == writes;
  }

  lemma RowAfterDelete(row: Task, writes: seq<Outcome>, rows: seq<Change>, row': Task, o: Outcome)
    requires RowOk(row, writes, rows) && o.Deleted? && !row.isDeleted
    requires row'.version == row.version && row'.status == row.status && row'.isDeleted
    ensures RowOk(row', writes + [o], rows)
  {
    WritesAppend(writes, o);
    assert (writes + [o])[..|writes|] == writes;
  }

  /** What a step may do to a task that it does not write. */
  ghost predicate Unmoved(s: State, s': State, task: nat) {
    && Successes(s'.log, task) == Successes(s.log, task)
    && Trail(s'.audit, task) == Trail(s.audit, task)
    && (task in s.tasks <==> task in s'.tasks)
    && (task in s.tasks ==> s'.tasks[task] == s.tasks[task])
  }

  /** The task stays consistent and its writes are only added to. */
  ghost predicate Kept(s: State, s': State, task: nat) {
    && TaskOk(s', task)
    && (task in s.tasks ==> task in s'.tasks)
    && Successes(s.log, task) <= Successes(s'.log, task)
  }

  lemma StatusWriteKeeps(s: State, req: nat, task: nat)
    requires req in s.pending && s.pending[req].PendingStatus? && PendingOk(s, s.pending[req]) && TaskOk(s, task)
    ensures Kept(s, AfterWriteStatus(s, req), task)
  {
    var p := s.pending[req];
    var s' := AfterWriteStatus(s, req);
    var row := SetStatusWhereVersion(s.tasks, p.org, p.task, p.status, p.expected).1;
    if row.None? {
      LogAppend(s.log, Conflict(p.task), task);
      assert Unmoved(s, s', task);
    } else {
      var o := StatusSet(p.task, p.expected, p.status, p.readAt);
      LogAppend(s.log, o, task);
      AuditAppend(s.audit, UpdateAudit(p.org, p.actor, p.task, ChangeOf(p, row.value)), task);
      if task == p.task {
        RowAfterStatus(s.tasks[task], Successes(s.log, task), Trail(s.audit, task), s'.tasks[task], ChangeOf(p, row.value), o);
      } else {
        assert Unmoved(s, s', task);
      }
    }
  }

  lemma EditKeeps(s: State, req: nat, task: nat)
    requires Enabled(s, FlushEdit(req)) && PendingOk(s, s.pending[req]) && TaskOk(s, task)
    ensures Kept(s, AfterFlushEdit(s, req), task)
  {
    var p := s.pending[req];
    var s' := AfterFlushEdit(s, req);
    var o := FieldsSet(p.loaded.id, p.expected, p.readAt);
    LogAppend(s.log, o, task);
    if task == p.task {
      RowAfterFields(s.tasks[task], Successes(s.log, task), Trail(s.audit, task), s'.tasks[task], o);
    } else {
      assert Unmoved(s, s', task);
    }
  }

  lemma DeleteKeeps(s: State, req: nat, now: int, task: nat)
    requires req in s.pending && s.pending[req].PendingDelete? && TaskOk(s, task)
    ensures Kept(s, AfterWriteDelete(s, req, now), task)
  {
    var p := s.pending[req];
    var s' := AfterWriteDelete(s, req, now);
    var deleted := SoftDelete(s.tasks, p.org, p.task, now).1;
    LogAppend(s.log, if deleted then Deleted(p.task) else NotFound(p.task), task);
    if deleted && task == p.task {
      RowAfterDelete(s.tasks[task], Successes(s.log, task), Trail(s.audit, task), s'.tasks[task], Deleted(task));
    } else {
      assert Unmoved(s, s', task);
    }
  }

  lemma CreateKeeps(s: State, step: Step, task: nat)
    requires Enabled(s, step) && step.Create? && TaskOk(s, task)
    ensures Kept(s, Next(s, step), task)
  {
    var row := step.row;
    AuditAppend(s.audit, CreateAudit(row.org, step.actor, row.id, row.title, row.status, row.priority), task);
    assert task != row.id ==> Unmoved(s, Next(s, step), task);
  }

  lemma ReadLeavesTasks(s: State, step: Step)
    requires Enabled(s, step) && (step.ReadForStatus? || step.LoadForEdit? || step.ReadForDelete?)
    ensures var s' := Next(s, step);
            && s'.tasks == s.tasks && s'.audit == s.audit
            && (s'.log == s.log || s'.log == s.log + [NotFound(step.task)] || s'.log == s.log + [Conflict(step.task)])
  {
  }

  lemma ReadKeeps(s: State, s': State, o: Outcome, task: nat)
    requires TaskOk(s, task) && s'.tasks == s.tasks && s'.audit == s.audit
    requires o.NotFound? || o.Conflict?
    requires s'.log == s.log || s'.log == s.log + [o]
    ensures Kept(s, s', task)
  {
    LogAppend(s.log, o, task);
    assert Unmoved(s, s', task);
  }

  lemma StepKeepsTask(s: State, step: Step, task: nat)
    requires Inv(s) && Enabled(s, step)
    ensures Kept(s, Next(s, step), task)
  {
    assert TaskOk(s, task);
    if step.Create? {
      CreateKeeps(s, step, task);
    } else if step.WriteStatus? {
      StatusWriteKeeps(s, step.req, task);
    } else if step.FlushEdit? {
      EditKeeps(s, step.req, task);
    } else if step.WriteDelete? {
      DeleteKeeps(s, step.req, step.now, task);
    } else {
      var s' := Next(s, step);
      ReadLeavesTasks(s, step);
      ReadKeeps(s, s', if s'.log == s.log + [NotFound(step.task)] then NotFound(step.task) else Conflict(step.task), task);
    }
  }

  lemma PendingStaysOk(s: State, p: Pending, s': State)
    requires PendingOk(s, p)
    requires p.task in s.tasks ==> p.task in s'.tasks
    requires Successes(s.log, p.task) <= Successes(s'.log, p.task)
    ensures PendingOk(s', p)
  {
    var a, b := Successes(s.log, p.task), Successes(s'.log, p.task);
    assert forall n: nat :: n <= |a| ==> a[..n] == b[..n];
  }

  lemma ReadRemembersTruth(s: State, step: Step)
    requires Inv(s) && Enabled(s, step)
    requires step.ReadForStatus? || step.LoadForEdit? || step.ReadForDelete?
    requires step.req in Next(s, step).pending
    ensures PendingOk(Next(s, step), Next(s, step).pending[step.req])
  {
    assert TaskOk(s, step.task);
    var writes := Successes(s.log, step.task);
    assert writes[..|writes|] == writes;
  }

  lemma InvStep(s: State, step: Step)
    requires Inv(s) && Enabled(s, step)
    ensures Inv(Next(s, step))
  {
    var s' := Next(s, step);
    forall task: nat ensures TaskOk(s', task) && Kept(s, s', task) {
      StepKeepsTask(s, step, task);
    }
    forall req | req in s'.pending ensures PendingOk(s', s'.pending[req]) {
      if req in s.pending && s.pending[req] == s'.pending[req] {
        assert Kept(s, s', s.pending[req].task);
        PendingStaysOk(s, s.pending[req], s');
      } else {
        ReadRemembersTruth(s, step);
      }
    }
  }

  lemma {:induction false} InvHolds(s: State, steps: seq<Step>)
    requires Inv(s) && Legal(s, steps)
    ensures Inv(Run(s, steps))
    decreases |steps|
  {
    if steps != [] {
      InvStep(s, steps[0]);
      InvHolds(Next(s, steps[0]), steps[1..]);
    }
  }
}
