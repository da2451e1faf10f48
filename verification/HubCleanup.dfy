/** Listeners clean up after themselves: whoever has subscribed unsubscribes before it ends. */
module HubCleanup {
  import opened Hub

  /** How often a listener's subscription came about. */
  function Subscriptions(steps: seq<Step>, t: nat): nat {
    if steps == [] then 0
    else (if steps[0].Subscribed? && steps[0].task == t then 1 else 0) + Subscriptions(steps[1..], t)
  }

  function Unsubscriptions(steps: seq<Step>, t: nat): nat {
    if steps == [] then 0
    else (if steps[0].Unsubscribed? && steps[0].task == t then 1 else 0) + Unsubscriptions(steps[1..], t)
  }

  datatype Phase = Before | Within | After

  function PhaseOf(pc: Pc): Phase {
    match pc
    case NotStarted => Before
    case Subscribing => Before
    case Finished => After
    case _ => Within
  }

  lemma {:induction false} DroppingMovesNobody(s: State, p: nat, dead: seq<nat>)
    ensures var s' := DropAll(s, p, dead);
            s'.tasks.Keys == s.tasks.Keys && forall t :: t in s.tasks ==> s'.tasks[t].pc == s.tasks[t].pc
    decreases |dead|
  {
    if dead != [] {
      DroppingMovesNobody(AfterDisconnect(s, p, dead[0]), p, dead[1..]);
    }
  }

  lemma SendingStaysWithin(s: State, t: nat, ok: bool, u: nat)
    requires Enabled(s, SendDone(t, ok)) && u in s.tasks
    ensures var s' := Next(s, SendDone(t, ok)); u in s'.tasks && PhaseOf(s'.tasks[u].pc) == PhaseOf(s.tasks[u].pc)
    ensures Next(s, SendDone(t, ok)).tasks.Keys == s.tasks.Keys
  {
    var s1 := Recorded(s, t, ok);
    var l := s1.tasks[t];
    if l.pc.next + 1 == |l.pc.order| {
      var s2 := Moved(s1.(finished := s1.finished + {(l.project, l.pc.index)}), t, Sleeping);
      DroppingMovesNobody(s2, l.project, DeadAfter(l.pc, ok));
    }
  }

  /** A listener enters its loop by subscribing and ends by unsubscribing, or is cancelled before. */
  lemma PhaseAfter(s: State, step: Step, t: nat)
    requires Enabled(s, step) && t in s.tasks
    ensures t in Next(s, step).tasks
    ensures var was, now := PhaseOf(s.tasks[t].pc), PhaseOf(Next(s, step).tasks[t].pc);
            if step.Subscribed? && step.task == t then was == Before && now == Within
            else if step.Unsubscribed? && step.task == t then was == Within && now == After
            else now == was || (was == Before && now == After)
  {
    if step.SendDone? {
      SendingStaysWithin(s, step.task, step.ok, t);
    }
  }

  lemma {:induction false} EndsCleanFrom(s: State, steps: seq<Step>, t: nat)
    requires Legal(s, steps) && t in s.tasks
    ensures t in Run(s, steps).tasks
    ensures var ends := Run(s, steps).tasks[t].pc.Finished?;
            match PhaseOf(s.tasks[t].pc)
            case Before => Subscriptions(steps, t) <= 1 && Unsubscriptions(steps, t) == if ends then Subscriptions(steps, t) else 0
            case Within => Subscriptions(steps, t) == 0 && Unsubscriptions(steps, t) == if ends then 1 else 0
            case After => Subscriptions(steps, t) == 0 && Unsubscriptions(steps, t) == 0 && ends
    decreases |steps|
  {
    if steps != [] {
      PhaseAfter(s, steps[0], t);
      EndsCleanFrom(Next(s, steps[0]), steps[1..], t);
    }
  }

  lemma NewTaskIsBefore(s: State, step: Step, t: nat)
    requires Enabled(s, step) && t !in s.tasks
    ensures t in Next(s, step).tasks ==> PhaseOf(Next(s, step).tasks[t].pc) == Before
    ensures !(step.Subscribed? && step.task == t) && !(step.Unsubscribed? && step.task == t)
  {
    if step.SendDone? {
      SendingStaysWithin(s, step.task, step.ok, step.task);
    }
  }

  /**
   In every run a listener subscribes at most once; one that has ended has unsubscribed exactly as often
   as it subscribed, however it was cancelled; and none unsubscribes that goes on.
   */
  lemma {:induction false} ListenersCleanUp(s: State, steps: seq<Step>, t: nat)
    requires Legal(s, steps) && t !in s.tasks
    ensures Subscriptions(steps, t) <= 1
    ensures Unsubscriptions(steps, t)
         == if t in Run(s, steps).tasks && Run(s, steps).tasks[t].pc.Finished? then Subscriptions(steps, t) else 0
    decreases |steps|
  {
    if steps != [] {
      var s' := Next(s, steps[0]);
      NewTaskIsBefore(s, steps[0], t);
      if t in s'.tasks {
        EndsCleanFrom(s', steps[1..], t);
      } else {
        ListenersCleanUp(s', steps[1..], t);
      }
    }
  }
}
