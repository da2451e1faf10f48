/** Sockets whose sending failed are out of the room when the fan-out ends. */
module HubFailures {
  import opened Hub
  import opened HubRooms
  import opened HubDelivery

  /** A fan-out in progress remembers the sockets that have failed it. */
  ghost predicate DeadOk(s: State, t: nat) {
    Runs(s, t) && s.tasks[t].pc.Sending? ==>
      forall d: nat :: (s.tasks[t].project, s.tasks[t].pc.index, d) in s.failed <==> d in s.tasks[t].pc.dead
  }

  ghost predicate FailuresInv(s: State) {
    && (forall p: nat, index: nat, d: nat :: (p, index, d) in s.failed ==> d in Attempts(s.sent, p, index))
    && (forall t: nat :: DeadOk(s, t))
  }

  lemma {:induction false} AttemptsGrow(sent: seq<Send>, more: seq<Send>, p: nat, index: nat)
    requires sent <= more
    ensures Attempts(sent, p, index) <= Attempts(more, p, index)
    decreases |more|
  {
    if |sent| < |more| {
      assert sent <= more[..|more| - 1];
      AttemptsGrow(sent, more[..|more| - 1], p, index);
    } else {
      assert sent == more;
    }
  }

  lemma FailuresStay(s: State, s': State)
    requires FailuresInv(s) && s.sent <= s'.sent && s'.failed == s.failed
    requires forall t: nat :: Runs(s', t) && s'.tasks[t].pc.Sending? ==> Runs(s, t) && s'.tasks[t] == s.tasks[t]
    ensures FailuresInv(s')
  {
    forall p: nat, index: nat, d: nat | (p, index, d) in s'.failed ensures d in Attempts(s'.sent, p, index) {
      AttemptsGrow(s.sent, s'.sent, p, index);
    }
    forall t: nat ensures DeadOk(s', t) {
      assert DeadOk(s, t);
    }
  }

  lemma TakingKeepsFailures(s: State, t: nat, order: seq<nat>)
    requires FailuresInv(s) && TraceInv(s) && RoomsInv(s) && Enabled(s, Receive(t, order))
    ensures FailuresInv(Next(s, Receive(t, order)))
  {
    var s' := Next(s, Receive(t, order));
    var l := s.tasks[t];
    assert TaskOk(s, t) && PosOk(s, l.project);
    NoAttemptsYet(s.sent, l.project, l.pos, l.pos);
    forall p: nat, index: nat, d: nat | (p, index, d) in s'.failed ensures d in Attempts(s'.sent, p, index) {
      AttemptsGrow(s.sent, s'.sent, p, index);
    }
    forall u: nat ensures DeadOk(s', u) {
      assert DeadOk(s, u);
    }
  }

  lemma RecordingKeepsFailures(s: State, t: nat, ok: bool)
    requires FailuresInv(s) && TraceInv(s) && RoomsInv(s) && Enabled(s, SendDone(t, ok))
    ensures var s' := Recorded(s, t, ok); var l := s.tasks[t];
            && (forall p: nat, index: nat, d: nat :: (p, index, d) in s'.failed ==> d in Attempts(s'.sent, p, index))
            && (forall u: nat :: u != t ==> DeadOk(s', u))
            && (forall d: nat :: (l.project, l.pc.index, d) in s'.failed <==> d in DeadAfter(l.pc, ok))
  {
    var s' := Recorded(s, t, ok);
    var l := s.tasks[t];
    assert TaskOk(s, t) && PosOk(s, l.project) && DeadOk(s, t);
    assert l.pc.order[l.pc.next] in l.pc.order[..l.pc.next + 1];
    forall u: nat | u != t ensures DeadOk(s', u) {
      assert TaskOk(s, u) && DeadOk(s, u);
    }
  }

  lemma LastSendKeepsFailures(s: State, t: nat, dead: seq<nat>)
    requires TraceInv(s) && RoomsInv(s) && Runs(s, t) && s.tasks[t].pc.Sending?
    requires forall p: nat, index: nat, d: nat :: (p, index, d) in s.failed ==> d in Attempts(s.sent, p, index)
    requires forall u: nat :: u != t ==> DeadOk(s, u)
    ensures FailuresInv(AfterLastSend(s, t, dead))
  {
    var l := s.tasks[t];
    var s1 := Moved(s.(finished := s.finished + {(l.project, l.pc.index)}), t, Sleeping);
    MovingKeeps(s, s1, t);
    forall u: nat ensures DeadOk(s1, u) {
      assert u != t ==> DeadOk(s, u);
    }
    DropAllLeaves(s1, l.project, dead);
    FailuresStay(s1, DropAll(s1, l.project, dead));
  }

  lemma NextSendKeepsFailures(s: State, t: nat, ok: bool)
    requires Runs(s, t) && s.tasks[t].pc.Sending? && s.tasks[t].pc.next + 1 < |s.tasks[t].pc.order|
    requires forall p: nat, index: nat, d: nat :: (p, index, d) in s.failed ==> d in Attempts(s.sent, p, index)
    requires forall u: nat :: u != t ==> DeadOk(s, u)
    requires var l := s.tasks[t]; forall d: nat :: (l.project, l.pc.index, d) in s.failed <==> d in DeadAfter(l.pc, ok)
    ensures FailuresInv(AfterSend(s, t, ok))
  {
    var s' := AfterSend(s, t, ok);
    forall p: nat, index: nat, d: nat | (p, index, d) in s'.failed ensures d in Attempts(s'.sent, p, index) {
      AttemptsGrow(s.sent, s'.sent, p, index);
    }
    forall u: nat ensures DeadOk(s', u) {
      assert u != t ==> DeadOk(s, u);
    }
  }

  lemma StepKeepsFailures(s: State, step: Step)
    requires FailuresInv(s) && TraceInv(s) && RoomsInv(s) && Enabled(s, step)
    ensures FailuresInv(Next(s, step))
  {
    if step.Receive? {
      TakingKeepsFailures(s, step.task, step.order);
    } else if step.SendDone? {
      var s1 := Recorded(s, step.task, step.ok);
      RecordingKeepsFailures(s, step.task, step.ok);
      if s.tasks[step.task].pc.next + 1 < |s.tasks[step.task].pc.order| {
        NextSendKeepsFailures(s1, step.task, step.ok);
      } else {
        RecordingKeeps(s, s1);
        RecordingKeepsTrace(s, s1);
        LastSendKeepsFailures(s1, step.task, DeadAfter(s1.tasks[step.task].pc, step.ok));
      }
    } else {
      if step.Disconnect? {
        DisconnectOnlyLeaves(s, step.project, step.socket);
      }
      FailuresStay(s, Next(s, step));
    }
  }

  lemma {:induction false} FailuresHold(s: State, steps: seq<Step>)
    requires FailuresInv(s) && TraceInv(s) && RoomsInv(s) && Legal(s, steps)
    ensures FailuresInv(Run(s, steps)) && TraceInv(Run(s, steps)) && RoomsInv(Run(s, steps))
    decreases |steps|
  {
    if steps != [] {
      StepKeepsRooms(s, steps[0]);
      StepKeepsTrace(s, steps[0]);
      StepKeepsFailures(s, steps[0]);
      FailuresHold(Next(s, steps[0]), steps[1..]);
    }
  }

  /**
   In every run, at the step that ends a fan-out: every socket whose sending of that message failed,
   at whatever point of the fan-out, leaves the room, and no other socket does.
   */
  lemma FailedSocketsLeave(steps: seq<Step>, t: nat, ok: bool)
    requires Legal(Init, steps) && Enabled(Run(Init, steps), SendDone(t, ok))
    requires Run(Init, steps).tasks[t].pc.next + 1 == |Run(Init, steps).tasks[t].pc.order|
    ensures var s := Run(Init, steps); var s' := Next(s, SendDone(t, ok));
            var p, index := s.tasks[t].project, s.tasks[t].pc.index;
            && (p, index) in s'.finished
            && (forall d: nat :: d in Room(s'.rooms, p) <==> d in Room(s.rooms, p) && (p, index, d) !in s'.failed)
            && (!ok ==> (p, index, s.tasks[t].pc.order[s.tasks[t].pc.next]) in s'.failed)
  {
    FailuresHold(Init, steps);
    var s := Run(Init, steps);
    EndingDropsDead(s, t, ok);
    RecordingKeepsFailures(s, t, ok);
  }

  lemma EndingDropsDead(s: State, t: nat, ok: bool)
    requires RoomsInv(s) && Enabled(s, SendDone(t, ok))
    requires s.tasks[t].pc.next + 1 == |s.tasks[t].pc.order|
    ensures var s' := Next(s, SendDone(t, ok)); var l := s.tasks[t];
            && (l.project, l.pc.index) in s'.finished && s'.failed == Recorded(s, t, ok).failed
            && (forall d :: d in Room(s'.rooms, l.project) <==> d in Room(s.rooms, l.project) && d !in DeadAfter(l.pc, ok))
  {
    var l := s.tasks[t];
    var s0 := Recorded(s, t, ok);
    var s1 := Moved(s0.(finished := s0.finished + {(l.project, l.pc.index)}), t, Sleeping);
    RecordingKeeps(s, s0);
    MovingKeeps(s0, s1, t);
    DropAllLeaves(s1, l.project, DeadAfter(l.pc, ok));
  }
}
