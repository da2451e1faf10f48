/** Noninterference between tenants when their requests interleave, read by read and write by write. */
module TaskIsolation {
  import opened Wrappers
  import opened TaskStore
  import opened TaskOcc
  import TaskApi

  function PendingOrg(p: Pending): nat {
    match p
    case PendingStatus(org, _, _, _, _, _, _, _) => org
    case PendingEdit(_, loaded, _, _, _) => loaded.org
    case PendingDelete(org, _) => org
  }

  /** The tenant whose request takes the step. */
  function TenantOf(s: State, step: Step): nat
    requires Enabled(s, step)
  {
    match step
    case Create(row, _) => row.org
    case ReadForStatus(_, org, _, _, _, _) => org
    case LoadForEdit(_, org, _, _, _) => org
    case ReadForDelete(_, org, _) => org
    case WriteStatus(req) => PendingOrg(s.pending[req])
    case FlushEdit(req) => PendingOrg(s.pending[req])
    case WriteDelete(req, _) => PendingOrg(s.pending[req])
  }

  function PendingOf(pending: map<nat, Pending>, org: nat): map<nat, Pending> {
    map req | req in pending && PendingOrg(pending[req]) == org :: pending[req]
  }

  function AuditOf(audit: seq<Audit>, org: nat): seq<Audit> {
    if audit == [] then []
    else
      var last := audit[|audit| - 1];
      AuditOf(audit[..|audit| - 1], org) + (if last.org == org then [last] else [])
  }

  /** The tenant's own steps of a run. */
  function Mine(s: State, steps: seq<Step>, org: nat): seq<Step>
    requires Legal(s, steps)
    decreases |steps|
  {
    if steps == [] then []
    else (if TenantOf(s, steps[0]) == org then [steps[0]] else []) + Mine(Next(s, steps[0]), steps[1..], org)
  }

  /** What a step is answered, if it ends a request with an outcome. */
  function Answer(s: State, step: Step): seq<Outcome>
    requires Enabled(s, step)
  {
    var log := Next(s, step).log;
    if |s.log| <= |log| then log[|s.log|..] else []
  }

  /** The outcomes of the tenant's requests, in order. */
  function Answers(s: State, steps: seq<Step>, org: nat): seq<Outcome>
    requires Legal(s, steps)
    decreases |steps|
  {
    if steps == [] then []
    else (if TenantOf(s, steps[0]) == org then Answer(s, steps[0]) else []) + Answers(Next(s, steps[0]), steps[1..], org)
  }

  /** Both logs have grown by the same outcomes. */
  predicate SameAnswer(s: State, s': State, u: State, u': State) {
    |s.log| <= |s'.log| && |u.log| <= |u'.log| && s'.log[|s.log|..] == u'.log[|u.log|..]
  }

  predicate SameWrites(s: State, u: State, task: nat) {
    Successes(s.log, task) == Successes(u.log, task)
  }

  /** `u` is what `s` is to the tenant: its rows, its audit records, its requests under way and the writes to its tasks. */
  ghost predicate Matches(s: State, u: State, org: nat) {
    && u.tasks == View(s.tasks, org)
    && u.pending == PendingOf(s.pending, org)
    && u.audit == AuditOf(s.audit, org)
    && forall task: nat :: task in u.tasks ==> SameWrites(s, u, task)
  }

  /** An edit under way is of the tenant that its row belongs to. */
  ghost predicate EditsAreOwn(s: State) {
    forall req :: req in s.pending && s.pending[req].PendingEdit? ==>
      s.pending[req].loaded.id in s.tasks && s.tasks[s.pending[req].loaded.id].org == s.pending[req].loaded.org
  }

  /** Rows keep their tenant. */
  lemma StepKeepsOrgs(s: State, step: Step)
    requires Enabled(s, step)
    ensures forall id :: id in s.tasks ==> id in Next(s, step).tasks && Next(s, step).tasks[id].org == s.tasks[id].org
  {
  }

  lemma StepKeepsEditsOwn(s: State, step: Step)
    requires Enabled(s, step) && EditsAreOwn(s)
    ensures EditsAreOwn(Next(s, step))
  {
    StepKeepsOrgs(s, step);
  }

  lemma AuditOfAppend(audit: seq<Audit>, a: Audit, org: nat)
    ensures AuditOf(audit + [a], org) == AuditOf(audit, org) + (if a.org == org then [a] else [])
  {
    assert (audit + [a])[..|audit|] == audit;
  }

  lemma ViewOfPut(t: Table, row: Task, org: nat)
    requires row.id in t ==> t[row.id].org == row.org
    ensures View(t[row.id := row], org) == if row.org == org then View(t, org)[row.id := row] else View(t, org)
  {
  }

  lemma SameRow(s: State, u: State, org: nat, task: nat)
    requires Matches(s, u, org)
    ensures GetById(u.tasks, org, task, false) == GetById(s.tasks, org, task, false)
  {
  }

  // ----- the kinds of steps, put alike -----

  /** A step that writes one row, with its audit record, outcome and the end of its request. */
  ghost predicate Writes(s: State, s': State, req: nat, row: Task, a: seq<Audit>, o: Outcome) {
    && (row.id in s.tasks ==> s.tasks[row.id].org == row.org)
    && s'.tasks == s.tasks[row.id := row]
    && s'.pending == s.pending - {req}
    && (s'.audit == s.audit + a && |a| <= 1 && forall x :: x in a ==> x.org == row.org)
    && s'.log == s.log + [o] && SucceedsOn(o, row.id)
  }

  /** A step that writes nothing: it starts a request, or ends it without success. */
  ghost predicate Reads(s: State, s': State, o: seq<Outcome>) {
    && s'.tasks == s.tasks && s'.audit == s.audit
    && s'.log == s.log + o && |o| <= 1 && forall x :: x in o ==> x.NotFound? || x.Conflict?
  }

  lemma ReadLeavesWrites(s: State, s': State, o: seq<Outcome>, task: nat)
    requires Reads(s, s', o)
    ensures Successes(s'.log, task) == Successes(s.log, task)
  {
    if o == [] {
      assert s'.log == s.log;
    } else {
      assert o == [o[0]] && o[0] in o;
      assert s'.log == s.log + [o[0]];
      LogAppend(s.log, o[0], task);
    }
  }

  lemma OwnReadMatches(s: State, s': State, u: State, u': State, org: nat, o: seq<Outcome>)
    requires Matches(s, u, org) && Reads(s, s', o) && Reads(u, u', o)
    requires u'.pending == PendingOf(s'.pending, org)
    ensures Matches(s', u', org) && SameAnswer(s, s', u, u')
  {
    forall task: nat | task in u'.tasks ensures SameWrites(s', u', task) {
      assert SameWrites(s, u, task);
      ReadLeavesWrites(s, s', o, task);
      ReadLeavesWrites(u, u', o, task);
    }
  }

  lemma ForeignReadMatches(s: State, s': State, u: State, org: nat, o: seq<Outcome>)
    requires Matches(s, u, org) && Reads(s, s', o)
    requires PendingOf(s'.pending, org) == PendingOf(s.pending, org)
    ensures Matches(s', u, org)
  {
    forall task: nat | task in u.tasks ensures SameWrites(s', u, task) {
      assert SameWrites(s, u, task);
      ReadLeavesWrites(s, s', o, task);
    }
  }

  lemma AuditOfRecords(audit: seq<Audit>, a: seq<Audit>, row: Task, org: nat)
    requires |a| <= 1 && forall x :: x in a ==> x.org == row.org
    ensures AuditOf(audit + a, org) == if row.org == org then AuditOf(audit, org) + a else AuditOf(audit, org)
  {
    if a == [] {
      assert audit + a == audit;
    } else {
      assert a == [a[0]];
      AuditOfAppend(audit, a[0], org);
    }
  }

  lemma OwnWriteMatches(s: State, s': State, u: State, u': State, org: nat, req: nat, row: Task, a: seq<Audit>, o: Outcome)
    requires Matches(s, u, org) && row.org == org && row.id in s.tasks
    requires Writes(s, s', req, row, a, o) && Writes(u, u', req, row, a, o)
    ensures Matches(s', u', org) && SameAnswer(s, s', u, u')
  {
    ViewOfPut(s.tasks, row, org);
    AuditOfRecords(s.audit, a, row, org);
    assert u'.pending == PendingOf(s'.pending, org);
    forall task: nat | task in u'.tasks ensures SameWrites(s', u', task) {
      assert SameWrites(s, u, task);
      LogAppend(s.log, o, task);
      LogAppend(u.log, o, task);
    }
  }

  lemma ForeignWriteMatches(s: State, s': State, u: State, org: nat, req: nat, row: Task, a: seq<Audit>, o: Outcome)
    requires Matches(s, u, org) && row.org != org && row.id in s.tasks
    requires req in s.pending && PendingOrg(s.pending[req]) != org
    requires Writes(s, s', req, row, a, o)
    ensures Matches(s', u, org)
  {
    ViewOfPut(s.tasks, row, org);
    AuditOfRecords(s.audit, a, row, org);
    assert u.pending == PendingOf(s'.pending, org);
    forall task: nat | task in u.tasks ensures SameWrites(s', u, task) {
      assert SameWrites(s, u, task);
      LogAppend(s.log, o, task);
    }
  }

  // ----- each step -----

  /** The tenant's own step does to its part alone what it does in the company of others. */
  ghost predicate StepsAlike(s: State, u: State, step: Step, org: nat)
    requires Enabled(s, step) && Enabled(u, step)
  {
    Matches(Next(s, step), Next(u, step), org) && SameAnswer(s, Next(s, step), u, Next(u, step))
  }

  lemma CreateMatches(s: State, u: State, step: Step, org: nat)
    requires Matches(s, u, org) && Inv(s) && Inv(u) && Enabled(s, step) && step.Create?
    ensures step.row.org == org ==> Enabled(u, step) && StepsAlike(s, u, step, org)
    ensures step.row.org != org ==> Matches(Next(s, step), u, org)
  {
    var row := step.row;
    var a := CreateAudit(row.org, step.actor, row.id, row.title, row.status, row.priority);
    var s' := Next(s, step);
    ViewOfPut(s.tasks, row, org);
    AuditOfAppend(s.audit, a, org);
    assert TaskOk(s, row.id) && TaskOk(u, row.id);
    if row.org == org {
      var u' := Next(u, step);
      forall task: nat | task in u'.tasks ensures SameWrites(s', u', task) {
        assert task != row.id ==> SameWrites(s, u, task);
      }
    } else {
      forall task: nat | task in u.tasks ensures SameWrites(s', u, task) {
        assert SameWrites(s, u, task);
      }
    }
  }

  predicate IsRead(step: Step) {
    step.ReadForStatus? || step.LoadForEdit? || step.ReadForDelete?
  }

  /** How a reading step ends: with an outcome at once, or with a request under way. */
  function ReadOutcome(s: State, step: Step): seq<Outcome>
    requires IsRead(step)
  {
    var row := GetById(s.tasks, step.org, step.task, false);
    if row.None? then [NotFound(step.task)]
    else if step.LoadForEdit? && row.value.version != step.expected then [Conflict(step.task)]
    else []
  }

  lemma ReadStep(s: State, step: Step)
    requires Enabled(s, step) && IsRead(step)
    ensures var s' := Next(s, step); var o := ReadOutcome(s, step);
            && Reads(s, s', o)
            && (o != [] ==> s'.pending == s.pending)
            && (o == [] ==> step.req in s'.pending && s'.pending == s.pending[step.req := s'.pending[step.req]]
                            && PendingOrg(s'.pending[step.req]) == step.org)
  {
    if ReadOutcome(s, step) == [] {
      assert s.log + [] == s.log;
    }
  }

  lemma ForeignRead(s: State, u: State, step: Step, org: nat)
    requires Matches(s, u, org) && Enabled(s, step) && IsRead(step) && step.org != org
    ensures Matches(Next(s, step), u, org)
  {
    ReadStep(s, step);
    ForeignReadMatches(s, Next(s, step), u, org, ReadOutcome(s, step));
  }

  lemma SamePending(s: State, u: State, step: Step, org: nat)
    requires Matches(s, u, org) && Enabled(s, step) && Enabled(u, step) && IsRead(step) && step.org == org
    requires ReadOutcome(s, step) == [] && ReadOutcome(u, step) == []
    requires step.req in Next(s, step).pending && step.req in Next(u, step).pending
    ensures Next(s, step).pending[step.req] == Next(u, step).pending[step.req]
  {
    SameRow(s, u, org, step.task);
    assert SameWrites(s, u, step.task);
  }

  lemma OwnRead(s: State, u: State, step: Step, org: nat)
    requires Matches(s, u, org) && Enabled(s, step) && IsRead(step) && step.org == org
    ensures Enabled(u, step) && StepsAlike(s, u, step, org)
  {
    var o := ReadOutcome(s, step);
    SameRow(s, u, org, step.task);
    ReadStep(s, step);
    ReadStep(u, step);
    if o == [] {
      SamePending(s, u, step, org);
    }
    OwnReadMatches(s, Next(s, step), u, Next(u, step), org, o);
  }

  // ----- writing steps -----

  lemma StatusWrite(s: State, req: nat)
    requires Enabled(s, WriteStatus(req))
    ensures var p := s.pending[req]; var s' := Next(s, WriteStatus(req));
            var row := GetById(s.tasks, p.org, p.task, false);
            if row.Some? && row.value.version == p.expected then
              var new_row := row.value.(status := p.status, version := p.expected + 1);
              Writes(s, s', req, new_row, [UpdateAudit(p.org, p.actor, p.task, ChangeOf(p, new_row))],
                     StatusSet(p.task, p.expected, p.status, p.readAt))
            else Reads(s, s', [Conflict(p.task)]) && s'.pending == s.pending - {req}
  {
  }

  lemma DeleteWrite(s: State, req: nat, now: int)
    requires Enabled(s, WriteDelete(req, now))
    ensures var p := s.pending[req]; var s' := Next(s, WriteDelete(req, now));
            var row := GetById(s.tasks, p.org, p.task, false);
            if row.Some? then
              Writes(s, s', req, row.value.(isDeleted := true, deletedAt := Some(now)), [], Deleted(p.task))
            else Reads(s, s', [NotFound(p.task)]) && s'.pending == s.pending - {req}
  {
    assert s.audit + [] == s.audit;
  }

  lemma EditWrite(s: State, req: nat)
    requires Enabled(s, FlushEdit(req)) && EditsAreOwn(s)
    ensures var p := s.pending[req]; var s' := Next(s, FlushEdit(req));
            Writes(s, s', req, Flushed(s.tasks[p.loaded.id], p.loaded, TaskApi.Edited(p.loaded, p.changes)), [],
                   FieldsSet(p.loaded.id, p.expected, p.readAt))
  {
    assert s.audit + [] == s.audit;
  }

  lemma OwnFailureMatches(s: State, s': State, u: State, u': State, org: nat, req: nat, o: seq<Outcome>)
    requires Matches(s, u, org) && Reads(s, s', o) && Reads(u, u', o)
    requires s'.pending == s.pending - {req} && u'.pending == u.pending - {req}
    ensures Matches(s', u', org) && SameAnswer(s, s', u, u')
  {
    assert u'.pending == PendingOf(s'.pending, org);
    OwnReadMatches(s, s', u, u', org, o);
  }

  lemma ForeignFailureMatches(s: State, s': State, u: State, org: nat, req: nat, o: seq<Outcome>)
    requires Matches(s, u, org) && Reads(s, s', o)
    requires req in s.pending && PendingOrg(s.pending[req]) != org && s'.pending == s.pending - {req}
    ensures Matches(s', u, org)
  {
    assert PendingOf(s'.pending, org) == PendingOf(s.pending, org);
    ForeignReadMatches(s, s', u, org, o);
  }

  lemma StatusWriteMatches(s: State, u: State, req: nat, org: nat)
    requires Matches(s, u, org) && Enabled(s, WriteStatus(req))
    ensures PendingOrg(s.pending[req]) == org ==> Enabled(u, WriteStatus(req)) && StepsAlike(s, u, WriteStatus(req), org)
    ensures PendingOrg(s.pending[req]) != org ==> Matches(Next(s, WriteStatus(req)), u, org)
  {
    var p := s.pending[req];
    var s' := Next(s, WriteStatus(req));
    var row := GetById(s.tasks, p.org, p.task, false);
    var wins := row.Some? && row.value.version == p.expected;
    StatusWrite(s, req);
    if p.org == org {
      var u' := Next(u, WriteStatus(req));
      SameRow(s, u, org, p.task);
      StatusWrite(u, req);
      if wins {
        var new_row := row.value.(status := p.status, version := p.expected + 1);
        OwnWriteMatches(s, s', u, u', org, req, new_row, [UpdateAudit(p.org, p.actor, p.task, ChangeOf(p, new_row))],
                        StatusSet(p.task, p.expected, p.status, p.readAt));
      } else {
        OwnFailureMatches(s, s', u, u', org, req, [Conflict(p.task)]);
      }
    } else if wins {
      var new_row := row.value.(status := p.status, version := p.expected + 1);
      ForeignWriteMatches(s, s', u, org, req, new_row, [UpdateAudit(p.org, p.actor, p.task, ChangeOf(p, new_row))],
                          StatusSet(p.task, p.expected, p.status, p.readAt));
    } else {
      ForeignFailureMatches(s, s', u, org, req, [Conflict(p.task)]);
    }
  }

  lemma DeleteWriteMatches(s: State, u: State, req: nat, now: int, org: nat)
    requires Matches(s, u, org) && Enabled(s, WriteDelete(req, now))
    ensures PendingOrg(s.pending[req]) == org ==>
              Enabled(u, WriteDelete(req, now)) && StepsAlike(s, u, WriteDelete(req, now), org)
    ensures PendingOrg(s.pending[req]) != org ==> Matches(Next(s, WriteDelete(req, now)), u, org)
  {
    var p := s.pending[req];
    var s' := Next(s, WriteDelete(req, now));
    var row := GetById(s.tasks, p.org, p.task, false);
    DeleteWrite(s, req, now);
    if p.org == org {
      var u' := Next(u, WriteDelete(req, now));
      SameRow(s, u, org, p.task);
      DeleteWrite(u, req, now);
      if row.Some? {
        OwnWriteMatches(s, s', u, u', org, req, row.value.(isDeleted := true, deletedAt := Some(now)), [], Deleted(p.task));
      } else {
        OwnFailureMatches(s, s', u, u', org, req, [NotFound(p.task)]);
      }
    } else if row.Some? {
      ForeignWriteMatches(s, s', u, org, req, row.value.(isDeleted := true, deletedAt := Some(now)), [], Deleted(p.task));
    } else {
      ForeignFailureMatches(s, s', u, org, req, [NotFound(p.task)]);
    }
  }

  lemma EditWriteMatches(s: State, u: State, req: nat, org: nat)
    requires Matches(s, u, org) && EditsAreOwn(s) && EditsAreOwn(u) && Enabled(s, FlushEdit(req))
    ensures PendingOrg(s.pending[req]) == org ==> Enabled(u, FlushEdit(req)) && StepsAlike(s, u, FlushEdit(req), org)
    ensures PendingOrg(s.pending[req]) != org ==> Matches(Next(s, FlushEdit(req)), u, org)
  {
    var p := s.pending[req];
    var id := p.loaded.id;
    var row := Flushed(s.tasks[id], p.loaded, TaskApi.Edited(p.loaded, p.changes));
    var o := FieldsSet(id, p.expected, p.readAt);
    EditWrite(s, req);
    if p.loaded.org == org {
      assert u.tasks[id] == s.tasks[id];
      EditWrite(u, req);
      OwnWriteMatches(s, Next(s, FlushEdit(req)), u, Next(u, FlushEdit(req)), org, req, row, [], o);
    } else {
      ForeignWriteMatches(s, Next(s, FlushEdit(req)), u, org, req, row, [], o);
    }
  }

  lemma StepMatches(s: State, u: State, step: Step, org: nat)
    requires Matches(s, u, org) && Inv(s) && Inv(u) && EditsAreOwn(s) && EditsAreOwn(u) && Enabled(s, step)
    ensures TenantOf(s, step) == org ==> Enabled(u, step) && StepsAlike(s, u, step, org)
    ensures TenantOf(s, step) != org ==> Matches(Next(s, step), u, org)
  {
    if step.Create? {
      CreateMatches(s, u, step, org);
    } else if step.WriteStatus? {
      StatusWriteMatches(s, u, step.req, org);
    } else if step.FlushEdit? {
      EditWriteMatches(s, u, step.req, org);
    } else if step.WriteDelete? {
      DeleteWriteMatches(s, u, step.req, step.now, org);
    } else if step.org == org {
      OwnRead(s, u, step, org);
    } else {
      ForeignRead(s, u, step, org);
    }
  }

  lemma AnswersAlike(s: State, u: State, step: Step, org: nat)
    requires Enabled(s, step) && Enabled(u, step) && StepsAlike(s, u, step, org)
    ensures Answer(s, step) == Answer(u, step)
  {
  }

  lemma TenantStaysAlike(s: State, u: State, step: Step, org: nat)
    requires Matches(s, u, org) && Enabled(s, step) && Enabled(u, step) && TenantOf(s, step) == org
    ensures TenantOf(u, step) == org
  {
  }

  lemma {:induction false} MatchingRuns(s: State, u: State, steps: seq<Step>, org: nat)
    requires Matches(s, u, org) && Inv(s) && Inv(u) && EditsAreOwn(s) && EditsAreOwn(u) && Legal(s, steps)
    ensures Legal(u, Mine(s, steps, org))
    ensures Matches(Run(s, steps), Run(u, Mine(s, steps, org)), org)
    ensures Answers(s, steps, org) == Answers(u, Mine(s, steps, org), org)
    decreases |steps|
  {
    if steps != [] {
      var step := steps[0];
      StepMatches(s, u, step, org);
      InvStep(s, step);
      StepKeepsEditsOwn(s, step);
      if TenantOf(s, step) == org {
        InvStep(u, step);
        StepKeepsEditsOwn(u, step);
        MatchingRuns(Next(s, step), Next(u, step), steps[1..], org);
        OwnStepFirst(s, u, steps, org);
      } else {
        MatchingRuns(Next(s, step), u, steps[1..], org);
        assert Mine(s, steps, org) == Mine(Next(s, step), steps[1..], org);
      }
    }
  }

  lemma OwnStepFirst(s: State, u: State, steps: seq<Step>, org: nat)
    requires Matches(s, u, org) && steps != [] && Legal(s, steps) && TenantOf(s, steps[0]) == org
    requires Enabled(u, steps[0]) && StepsAlike(s, u, steps[0], org)
    requires var s', u' := Next(s, steps[0]), Next(u, steps[0]); var rest := Mine(s', steps[1..], org);
             Legal(u', rest) && Answers(s', steps[1..], org) == Answers(u', rest, org)
    ensures var mine := Mine(s, steps, org);
            && Legal(u, mine) && Answers(s, steps, org) == Answers(u, mine, org)
            && Run(u, mine) == Run(Next(u, steps[0]), Mine(Next(s, steps[0]), steps[1..], org))
  {
    var rest := Mine(Next(s, steps[0]), steps[1..], org);
    var mine := Mine(s, steps, org);
    assert mine == [steps[0]] + rest && mine[0] == steps[0] && mine[1..] == rest;
    AnswersAlike(s, u, steps[0], org);
    TenantStaysAlike(s, u, steps[0], org);
  }

  /**
   Noninterference in every interleaving: take all other tenants' steps out of a run, read by read and
   write by write, and what is left is a legal run in which the tenant gets the same outcomes in the
   same order and ends with the same rows, audit records and requests under way.
   */
  lemma InterleavedTenantIsolation(steps: seq<Step>, org: nat)
    requires Legal(Init, steps)
    ensures var mine := Mine(Init, steps, org);
            && Legal(Init, mine)
            && Answers(Init, steps, org) == Answers(Init, mine, org)
            && var s, u := Run(Init, steps), Run(Init, mine);
               u.tasks == View(s.tasks, org) && u.audit == AuditOf(s.audit, org) && u.pending == PendingOf(s.pending, org)
  {
    MatchingRuns(Init, Init, steps, org);
  }
}
