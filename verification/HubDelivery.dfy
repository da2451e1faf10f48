/** What the sockets of a room are sent, over any interleaving of joins, leaves and listener steps. */
module HubDelivery {
  import opened Hub
  import opened HubRooms

  /** The sockets that message `index` of a project was sent to, in the order of the calls. */
  function Attempts(sent: seq<Send>, p: nat, index: nat): seq<nat> {
    if sent == [] then []
    else
      var last := sent[|sent| - 1];
      Attempts(sent[..|sent| - 1], p, index) + (if last.project == p && last.index == index then [last.socket] else [])
  }

  lemma OneMoreAttempt(sent: seq<Send>, e: Send, p: nat, index: nat)
    ensures Attempts(sent + [e], p, index) == Attempts(sent, p, index) + (if e.project == p && e.index == index then [e.socket] else [])
  {
    assert (sent + [e])[..|sent|] == sent;
  }

  lemma {:induction false} AttemptsListSends(sent: seq<Send>, p: nat, index: nat, k: nat)
    requires k < |sent| && sent[k].project == p && sent[k].index == index
    ensures sent[k].socket in Attempts(sent, p, index)
    decreases |sent|
  {
    if k < |sent| - 1 {
      AttemptsListSends(sent[..|sent| - 1], p, index, k);
    }
  }

  ghost predicate SentBelow(sent: seq<Send>, p: nat, pos: nat) {
    forall k :: 0 <= k < |sent| && sent[k].project == p ==> sent[k].index < pos
  }

  lemma {:induction false} NoAttemptsYet(sent: seq<Send>, p: nat, pos: nat, index: nat)
    requires SentBelow(sent, p, pos) && pos <= index
    ensures Attempts(sent, p, index) == []
    decreases |sent|
  {
    if sent != [] {
      NoAttemptsYet(sent[..|sent| - 1], p, pos, index);
    }
  }

  // ----- the invariant -----

  /** In one room messages are sent in published order, and no socket gets one twice. */
  predicate Earlier(a: Send, b: Send) {
    a.project == b.project ==> a.index <= b.index && (a.socket == b.socket ==> a.index < b.index)
  }

  ghost predicate InOrder(sent: seq<Send>) {
    forall i, j :: 0 <= i < j < |sent| ==> Earlier(sent[i], sent[j])
  }

  /** What is sent is what was published. */
  predicate SendOk(channels: map<nat, seq<string>>, e: Send) {
    var channel := Channel(channels, e.project);
    e.index < |channel| && channel[e.index] == e.data && e.data != ""
  }

  /** Every socket of the room at the time that the message was taken, exactly once, and no other. */
  ghost predicate FinishedOk(s: State, p: nat, index: nat) {
    && (p, index) in s.taken && Lists(Attempts(s.sent, p, index), s.taken[(p, index)])
    && index < |Channel(s.channels, p)|
  }

  ghost predicate FinishedBelow(finished: set<(nat, nat)>, p: nat, pos: nat) {
    forall index: nat :: (p, index) in finished ==> index < pos
  }

  ghost predicate SendingOk(s: State, p: nat, pc: Pc, pos: nat)
    requires pc.Sending?
  {
    && pc.index + 1 == pos && SendOk(s.channels, Send(p, pc.index, pc.data, 0))
    && pc.next < |pc.order| && Attempts(s.sent, p, pc.index) == pc.order[..pc.next + 1]
    && (p, pc.index) in s.taken && Lists(pc.order, s.taken[(p, pc.index)])
    && (p, pc.index) !in s.finished
  }

  /** A message that a listener has taken was empty, or is fanned out, or is being fanned out. */
  ghost predicate Settled(s: State, p: nat, pc: Pc, index: nat) {
    && index < |Channel(s.channels, p)|
    && (Channel(s.channels, p)[index] == "" || (p, index) in s.finished || (pc.Sending? && pc.index == index))
  }

  ghost predicate ListenerOk(s: State, l: Listener) {
    l.pc.NotStarted?
    || (&& l.start <= l.pos <= |Channel(s.channels, l.project)|
        && SentBelow(s.sent, l.project, l.pos) && FinishedBelow(s.finished, l.project, l.pos)
        && (l.pc.Sending? ==> SendingOk(s, l.project, l.pc, l.pos))
        && (forall index: nat :: l.start <= index < l.pos ==> Settled(s, l.project, l.pc, index)))
  }

  ghost predicate PosOk(s: State, p: nat) {
    p in s.registered ==>
      s.registered[p] in s.tasks && s.tasks[s.registered[p]].project == p && ListenerOk(s, s.tasks[s.registered[p]])
  }

  ghost predicate TraceInv(s: State) {
    && (forall k :: 0 <= k < |s.sent| ==> SendOk(s.channels, s.sent[k]))
    && InOrder(s.sent)
    && (forall p: nat, index: nat :: (p, index) in s.finished ==> FinishedOk(s, p, index))
    && (forall p: nat :: PosOk(s, p))
  }

  // ----- steps that send nothing -----

  lemma ConnectKeepsTrace(s: State, p: nat, ws: nat, t: nat)
    requires TraceInv(s) && t !in s.tasks
    ensures TraceInv(AfterConnect(s, p, ws, t))
  {
    var s' := AfterConnect(s, p, ws, t);
    forall q: nat ensures PosOk(s', q) {
      assert PosOk(s, q);
      if q in s.registered && !(q == p && p !in s.rooms) {
        ListenerStays(s, s', s.tasks[s.registered[q]]);
      }
    }
    FinishedStays(s, s');
  }

  /** Listeners depend on the channels and the trace alone. */
  lemma ListenerStays(s: State, s': State, l: Listener)
    requires ListenerOk(s, l)
    requires s'.channels == s.channels && s'.sent == s.sent && s'.taken == s.taken && s'.finished == s.finished
    ensures ListenerOk(s', l)
    ensures ListenerOk(s', l.(cancelled := true))
  {
    forall index: nat | l.start <= index < l.pos && !l.pc.NotStarted? ensures Settled(s', l.project, l.pc, index) {
      assert Settled(s, l.project, l.pc, index);
    }
  }

  lemma FinishedStays(s: State, s': State)
    requires TraceInv(s)
    requires s'.channels == s.channels && s'.sent == s.sent && s'.taken == s.taken && s'.finished == s.finished
    ensures forall p: nat, index: nat :: (p, index) in s'.finished ==> FinishedOk(s', p, index)
  {
    forall p: nat, index: nat | (p, index) in s'.finished ensures FinishedOk(s', p, index) {
      assert FinishedOk(s, p, index);
    }
  }

  lemma LeavingKeepsTrace(s: State, s': State)
    requires TraceInv(s) && OnlyLeaves(s, s')
    ensures TraceInv(s')
  {
    FinishedStays(s, s');
    forall p: nat ensures PosOk(s', p) {
      assert PosOk(s, p);
      if p in s'.registered {
        ListenerStays(s, s', s.tasks[s.registered[p]]);
      }
    }
  }

  lemma PublishKeepsTrace(s: State, p: nat, data: string)
    requires TraceInv(s)
    ensures TraceInv(Next(s, Publish(p, data)))
  {
    var s' := Next(s, Publish(p, data));
    assert forall q: nat :: Channel(s.channels, q) <= Channel(s'.channels, q);
    forall q: nat, index: nat | (q, index) in s'.finished ensures FinishedOk(s', q, index) {
      assert FinishedOk(s, q, index);
    }
    forall q: nat ensures PosOk(s', q) {
      assert PosOk(s, q);
      if q in s.registered {
        var l := s.tasks[s.registered[q]];
        forall index: nat | l.start <= index < l.pos && !l.pc.NotStarted? ensures Settled(s', q, l.pc, index) {
          assert Settled(s, q, l.pc, index);
        }
      }
    }
  }

  /** A step of one listener that sends nothing. */
  lemma MovingKeepsTrace(s: State, s': State, t: nat)
    requires TraceInv(s) && RoomsInv(s) && t in s.tasks && t in s'.tasks
    requires s'.registered == s.registered && s'.tasks == s.tasks[t := s'.tasks[t]]
    requires s'.channels == s.channels && s'.sent == s.sent && s'.taken == s.taken && s'.finished == s.finished
    requires s'.tasks[t].project == s.tasks[t].project
    requires Runs(s, t) && ListenerOk(s, s.tasks[t]) ==> ListenerOk(s', s'.tasks[t])
    ensures TraceInv(s')
  {
    FinishedStays(s, s');
    forall p: nat ensures PosOk(s', p) {
      assert PosOk(s, p) && RoomOk(s, p);
      if p in s.registered && s.registered[p] != t {
        ListenerStays(s, s', s.tasks[s.registered[p]]);
      }
    }
  }

  lemma SubscribingIsOk(s: State, t: nat)
    requires TraceInv(s) && RoomsInv(s) && Enabled(s, Start(t))
    ensures ListenerOk(Next(s, Start(t)), Next(s, Start(t)).tasks[t])
  {
    var p := s.tasks[t].project;
    assert forall k :: 0 <= k < |s.sent| ==> SendOk(s.channels, s.sent[k]);
    assert forall index: nat :: (p, index) in s.finished ==> FinishedOk(s, p, index);
  }

  // ----- steps that send -----

  /** What appending a send leaves as it was, for all projects but the sender's own. */
  lemma SendKeepsOthers(s: State, s': State, e: Send, t: nat)
    requires TraceInv(s) && RoomsInv(s) && Runs(s, t) && s.tasks[t].project == e.project
    requires s'.registered == s.registered && t in s'.tasks && s'.tasks == s.tasks[t := s'.tasks[t]]
    requires s'.tasks[t].project == e.project
    requires s'.channels == s.channels && s'.sent == s.sent + [e] && s'.finished == s.finished
    requires forall key :: key in s.taken && key != (e.project, e.index) ==> key in s'.taken && s'.taken[key] == s.taken[key]
    requires (e.project, e.index) !in s.finished
    ensures forall p: nat, index: nat :: (p, index) in s'.finished ==> FinishedOk(s', p, index)
    ensures forall p: nat :: p != e.project ==> PosOk(s', p)
  {
    forall p: nat, index: nat | (p, index) in s'.finished ensures FinishedOk(s', p, index) {
      assert FinishedOk(s, p, index);
      OneMoreAttempt(s.sent, e, p, index);
    }
    forall p: nat | p != e.project ensures PosOk(s', p) {
      assert PosOk(s, p) && RoomOk(s, p);
      if p in s.registered {
        OtherListenerStays(s, s', e, s.tasks[s.registered[p]]);
      }
    }
  }

  lemma OtherListenerStays(s: State, s': State, e: Send, l: Listener)
    requires ListenerOk(s, l) && l.project != e.project
    requires s'.channels == s.channels && s'.sent == s.sent + [e] && s'.finished == s.finished
    requires forall key :: key in s.taken && key != (e.project, e.index) ==> key in s'.taken && s'.taken[key] == s.taken[key]
    ensures ListenerOk(s', l)
  {
    if l.pc.Sending? {
      OneMoreAttempt(s.sent, e, l.project, l.pc.index);
    }
    forall index: nat | l.start <= index < l.pos && !l.pc.NotStarted? ensures Settled(s', l.project, l.pc, index) {
      assert Settled(s, l.project, l.pc, index);
    }
  }

  lemma SettledStays(s: State, s': State, p: nat, pc: Pc, pc': Pc, start: nat, pos: nat)
    requires s'.channels == s.channels && s'.finished == s.finished
    requires pc.Sending? ==> pc'.Sending? && pc'.index == pc.index
    requires forall index: nat :: start <= index < pos ==> Settled(s, p, pc, index)
    ensures forall index: nat :: start <= index < pos ==> Settled(s', p, pc', index)
  {
    forall index: nat | start <= index < pos ensures Settled(s', p, pc', index) {
      assert Settled(s, p, pc, index);
    }
  }

  lemma SkippingKeepsTrace(s: State, t: nat, order: seq<nat>)
    requires TraceInv(s) && RoomsInv(s) && Enabled(s, Receive(t, order))
    requires Channel(s.channels, s.tasks[t].project)[s.tasks[t].pos] == ""
    ensures TraceInv(Next(s, Receive(t, order)))
  {
    var s' := Next(s, Receive(t, order));
    var l := s.tasks[t];
    assert TaskOk(s, t) && PosOk(s, l.project);
    SettledStays(s, s', l.project, l.pc, Sleeping, l.start, l.pos);
    assert Settled(s', l.project, Sleeping, l.pos);
    assert ListenerOk(s', s'.tasks[t]);
    MovingKeepsTrace(s, s', t);
  }

  lemma FirstSendIsSending(s: State, s': State, t: nat, order: seq<nat>)
    requires TraceInv(s) && RoomsInv(s) && Enabled(s, Receive(t, order)) && order != []
    requires Channel(s.channels, s.tasks[t].project)[s.tasks[t].pos] != ""
    requires s' == Next(s, Receive(t, order))
    ensures SendingOk(s', s.tasks[t].project, s'.tasks[t].pc, s'.tasks[t].pos)
  {
    var l := s.tasks[t];
    assert TaskOk(s, t) && PosOk(s, l.project);
    var data := Channel(s.channels, l.project)[l.pos];
    assert s'.tasks[t].pc == Sending(l.pos, data, order, 0, []);
    NoAttemptsYet(s.sent, l.project, l.pos, l.pos);
    OneMoreAttempt(s.sent, Send(l.project, l.pos, data, order[0]), l.project, l.pos);
    assert Attempts(s'.sent, l.project, l.pos) == [order[0]] == order[..1];
  }

  lemma FirstSendIsOk(s: State, s': State, t: nat, order: seq<nat>)
    requires TraceInv(s) && RoomsInv(s) && Enabled(s, Receive(t, order)) && order != []
    requires Channel(s.channels, s.tasks[t].project)[s.tasks[t].pos] != ""
    requires s' == Next(s, Receive(t, order))
    ensures ListenerOk(s', s'.tasks[t])
  {
    var l := s.tasks[t];
    var p, pc := l.project, s'.tasks[t].pc;
    assert TaskOk(s, t) && PosOk(s, p);
    FirstSendIsSending(s, s', t, order);
    SettledStays(s, s', p, l.pc, pc, l.start, l.pos);
    forall index: nat | l.start <= index < l.pos + 1 ensures Settled(s', p, pc, index) {
      assert index < l.pos || index == pc.index;
    }
  }

  lemma RoomIsListed(s: State, t: nat, order: seq<nat>)
    requires RoomsInv(s) && Runs(s, t) && Lists(order, Room(s.rooms, s.tasks[t].project))
    ensures order != []
  {
    LoopTestHolds(s, t);
    var x :| x in Room(s.rooms, s.tasks[t].project);
    assert x in order;
  }

  lemma FirstSendKeepsTrace(s: State, t: nat, order: seq<nat>)
    requires TraceInv(s) && RoomsInv(s) && Enabled(s, Receive(t, order))
    requires Channel(s.channels, s.tasks[t].project)[s.tasks[t].pos] != ""
    ensures TraceInv(Next(s, Receive(t, order)))
  {
    var s' := Next(s, Receive(t, order));
    var l := s.tasks[t];
    RoomIsListed(s, t, order);
    assert TaskOk(s, t) && PosOk(s, l.project);
    FirstSendIsOk(s, s', t, order);
    SendKeepsOthers(s, s', Send(l.project, l.pos, Channel(s.channels, l.project)[l.pos], order[0]), t);
    assert PosOk(s', l.project);
  }

  lemma NextSendIsOk(s: State, s': State, t: nat, ok: bool)
    requires TraceInv(s) && RoomsInv(s) && Runs(s, t) && s.tasks[t].pc.Sending?
    requires s.tasks[t].pc.next + 1 < |s.tasks[t].pc.order|
    requires s' == AfterSend(s, t, ok)
    ensures ListenerOk(s', s'.tasks[t])
  {
    var l := s.tasks[t];
    var p, pc, pc' := l.project, l.pc, s'.tasks[t].pc;
    assert TaskOk(s, t) && PosOk(s, p);
    OneMoreAttempt(s.sent, s'.sent[|s.sent|], p, pc.index);
    assert pc.order[..pc.next + 1] + [pc.order[pc.next + 1]] == pc.order[..pc.next + 2];
    assert SendingOk(s', p, pc', l.pos);
    SettledStays(s, s', p, pc, pc', l.start, l.pos);
  }

  /** The next socket has not had the message yet, and no socket has had a later one. */
  lemma NextSendIsInOrder(s: State, t: nat)
    requires TraceInv(s) && RoomsInv(s) && Runs(s, t) && s.tasks[t].pc.Sending?
    requires s.tasks[t].pc.next + 1 < |s.tasks[t].pc.order|
    ensures var pc := s.tasks[t].pc; forall k :: 0 <= k < |s.sent| ==>
              Earlier(s.sent[k], Send(s.tasks[t].project, pc.index, pc.data, pc.order[pc.next + 1]))
  {
    var p, pc := s.tasks[t].project, s.tasks[t].pc;
    assert TaskOk(s, t) && PosOk(s, p);
    forall k | 0 <= k < |s.sent| ensures Earlier(s.sent[k], Send(p, pc.index, pc.data, pc.order[pc.next + 1])) {
      if s.sent[k].project == p && s.sent[k].index == pc.index {
        AttemptsListSends(s.sent, p, pc.index, k);
      }
    }
  }

  lemma NextSendKeepsTrace(s: State, t: nat, ok: bool)
    requires TraceInv(s) && RoomsInv(s) && Runs(s, t) && s.tasks[t].pc.Sending?
    requires s.tasks[t].pc.next + 1 < |s.tasks[t].pc.order|
    ensures TraceInv(AfterSend(s, t, ok))
  {
    var s' := AfterSend(s, t, ok);
    var p, pc := s.tasks[t].project, s.tasks[t].pc;
    assert TaskOk(s, t) && PosOk(s, p);
    NextSendIsOk(s, s', t, ok);
    NextSendIsInOrder(s, t);
    SendKeepsOthers(s, s', Send(p, pc.index, pc.data, pc.order[pc.next + 1]), t);
    assert PosOk(s', p);
  }

  lemma FinishingKeepsTrace(s: State, t: nat)
    requires TraceInv(s) && RoomsInv(s) && Runs(s, t) && s.tasks[t].pc.Sending? && s.tasks[t].pc.next + 1 == |s.tasks[t].pc.order|
    ensures TraceInv(Moved(s.(finished := s.finished + {(s.tasks[t].project, s.tasks[t].pc.index)}), t, Sleeping))
  {
    var l := s.tasks[t];
    var p, pc := l.project, l.pc;
    var s' := Moved(s.(finished := s.finished + {(p, pc.index)}), t, Sleeping);
    assert TaskOk(s, t) && PosOk(s, p);
    assert pc.order[..pc.next + 1] == pc.order;
    forall q: nat, index: nat | (q, index) in s'.finished ensures FinishedOk(s', q, index) {
      assert (q, index) in s.finished ==> FinishedOk(s, q, index);
    }
    forall q: nat ensures PosOk(s', q) {
      assert PosOk(s, q) && RoomOk(s, q);
      if q in s.registered {
        var m := s.tasks[s.registered[q]];
        forall index: nat | m.start <= index < m.pos && !m.pc.NotStarted?
          ensures Settled(s', q, s'.tasks[s.registered[q]].pc, index)
        {
          assert Settled(s, q, m.pc, index);
        }
      }
    }
  }

  lemma RecordingKeepsTrace(s: State, s': State)
    requires TraceInv(s) && s' == s.(failed := s'.failed)
    ensures TraceInv(s')
  {
    FinishedStays(s, s');
    forall p: nat ensures PosOk(s', p) {
      assert PosOk(s, p);
      if p in s.registered {
        ListenerStays(s, s', s.tasks[s.registered[p]]);
      }
    }
  }

  lemma LastSendKeepsTrace(s: State, t: nat, ok: bool)
    requires TraceInv(s) && RoomsInv(s) && Runs(s, t) && s.tasks[t].pc.Sending? && s.tasks[t].pc.next + 1 == |s.tasks[t].pc.order|
    ensures TraceInv(AfterSend(s, t, ok))
  {
    var l := s.tasks[t];
    var s1 := Moved(s.(finished := s.finished + {(l.project, l.pc.index)}), t, Sleeping);
    FinishingKeepsTrace(s, t);
    MovingKeeps(s, s1, t);
    DropAllLeaves(s1, l.project, DeadAfter(l.pc, ok));
    LeavingKeepsTrace(s1, DropAll(s1, l.project, DeadAfter(l.pc, ok)));
  }

  lemma SendDoneKeepsTrace(s: State, t: nat, ok: bool)
    requires TraceInv(s) && RoomsInv(s) && Enabled(s, SendDone(t, ok))
    ensures TraceInv(Next(s, SendDone(t, ok)))
  {
    var s1 := Recorded(s, t, ok);
    RecordingKeeps(s, s1);
    RecordingKeepsTrace(s, s1);
    if s.tasks[t].pc.next + 1 < |s.tasks[t].pc.order| {
      NextSendKeepsTrace(s1, t, ok);
    } else {
      LastSendKeepsTrace(s1, t, ok);
    }
  }

  /** Moving within the loop, outside a fan-out. */
  lemma LoopingIsOk(s: State, s': State, t: nat)
    requires TraceInv(s) && RoomsInv(s) && Runs(s, t) && (s.tasks[t].pc.Polling? || s.tasks[t].pc.Sleeping?)
    requires t in s'.tasks && s'.tasks[t] == s.tasks[t].(pc := s'.tasks[t].pc)
    requires s'.tasks[t].pc.Polling? || s'.tasks[t].pc.Sleeping?
    requires s'.channels == s.channels && s'.sent == s.sent && s'.taken == s.taken && s'.finished == s.finished
    ensures ListenerOk(s', s'.tasks[t])
  {
    var l := s.tasks[t];
    assert TaskOk(s, t) && PosOk(s, l.project);
    SettledStays(s, s', l.project, l.pc, s'.tasks[t].pc, l.start, l.pos);
  }

  lemma SubscribedIsOk(s: State, t: nat, from: nat)
    requires TraceInv(s) && RoomsInv(s) && Enabled(s, Subscribed(t, from))
    ensures ListenerOk(Next(s, Subscribed(t, from)), Next(s, Subscribed(t, from)).tasks[t])
  {
    LoopTestHolds(s, t);
    assert TaskOk(s, t) && PosOk(s, s.tasks[t].project);
  }

  lemma StepKeepsTrace(s: State, step: Step)
    requires TraceInv(s) && RoomsInv(s) && Enabled(s, step)
    ensures TraceInv(Next(s, step))
  {
    match step {
      case Connect(p, ws, t) => ConnectKeepsTrace(s, p, ws, t);
      case Disconnect(p, ws) =>
        DisconnectOnlyLeaves(s, p, ws);
        LeavingKeepsTrace(s, Next(s, step));
      case Publish(p, data) => PublishKeepsTrace(s, p, data);
      case Start(t) =>
        SubscribingIsOk(s, t);
        MovingKeepsTrace(s, Next(s, step), t);
      case Subscribed(t, from) =>
        SubscribedIsOk(s, t, from);
        MovingKeepsTrace(s, Next(s, step), t);
      case Receive(t, order) =>
        if Channel(s.channels, s.tasks[t].project)[s.tasks[t].pos] == "" {
          SkippingKeepsTrace(s, t, order);
        } else {
          FirstSendKeepsTrace(s, t, order);
        }
      case ReceiveNothing(t) =>
        LoopingIsOk(s, Next(s, step), t);
        MovingKeepsTrace(s, Next(s, step), t);
      case SendDone(t, ok) => SendDoneKeepsTrace(s, t, ok);
      case Slept(t) =>
        LoopTestHolds(s, t);
        LoopingIsOk(s, Next(s, step), t);
        MovingKeepsTrace(s, Next(s, step), t);
      case Cancelled(t) => MovingKeepsTrace(s, Next(s, step), t);
      case Unsubscribed(t) =>
        UnsubscribingIsCancelled(s, t);
        MovingKeepsTrace(s, Next(s, step), t);
    }
  }

  lemma {:induction false} TraceHolds(s: State, steps: seq<Step>)
    requires TraceInv(s) && RoomsInv(s) && Legal(s, steps)
    ensures TraceInv(Run(s, steps)) && RoomsInv(Run(s, steps))
    decreases |steps|
  {
    if steps != [] {
      StepKeepsRooms(s, steps[0]);
      StepKeepsTrace(s, steps[0]);
      TraceHolds(Next(s, steps[0]), steps[1..]);
    }
  }

  // ----- what follows for every run -----

  /** The payloads that were published for a project, one for each publication, in the order of these. */
  function Published(steps: seq<Step>, p: nat): seq<string> {
    if steps == [] then []
    else (if steps[0].Publish? && steps[0].project == p then [steps[0].data] else []) + Published(steps[1..], p)
  }

  lemma {:induction false} DroppingPublishesNothing(s: State, p: nat, dead: seq<nat>)
    ensures DropAll(s, p, dead).channels == s.channels
    decreases |dead|
  {
    if dead != [] {
      DroppingPublishesNothing(AfterDisconnect(s, p, dead[0]), p, dead[1..]);
    }
  }

  lemma StepPublishes(s: State, step: Step, p: nat)
    requires Enabled(s, step)
    ensures Channel(Next(s, step).channels, p)
         == Channel(s.channels, p) + (if step.Publish? && step.project == p then [step.data] else [])
  {
    if step.SendDone? {
      var s1 := Recorded(s, step.task, step.ok);
      var l := s1.tasks[step.task];
      if l.pc.next + 1 == |l.pc.order| {
        var s2 := Moved(s1.(finished := s1.finished + {(l.project, l.pc.index)}), step.task, Sleeping);
        DroppingPublishesNothing(s2, l.project, DeadAfter(l.pc, step.ok));
      }
    }
  }

  lemma SeqAssoc<T>(a: seq<T>, b: seq<T>, c: seq<T>)
    ensures (a + b) + c == a + (b + c)
  {
  }

  /** A channel holds exactly what was published for its project. */
  lemma {:induction false} ChannelIsPublished(s: State, steps: seq<Step>, p: nat)
    requires Legal(s, steps)
    ensures Channel(Run(s, steps).channels, p) == Channel(s.channels, p) + Published(steps, p)
    decreases |steps|
  {
    if steps != [] {
      var s', rest := Next(s, steps[0]), Published(steps[1..], p);
      var first := if steps[0].Publish? && steps[0].project == p then [steps[0].data] else [];
      StepPublishes(s, steps[0], p);
      ChannelIsPublished(s', steps[1..], p);
      SeqAssoc(Channel(s.channels, p), first, rest);
    }
  }

  /**
   In every run, whatever is sent to a socket for a project is what was published for it, in the order
   of publication, and no publication is sent to it twice: not by one listener, and not by two when a
   room empties and is opened again.
   */
  lemma SocketsSeePublishedOrder(steps: seq<Step>, i: nat, j: nat)
    requires Legal(Init, steps)
    requires i < j < |Run(Init, steps).sent|
    requires var sent := Run(Init, steps).sent; sent[i].project == sent[j].project
    ensures var s := Run(Init, steps); var published := Published(steps, s.sent[i].project);
            && s.sent[i].index <= s.sent[j].index < |published|
            && (s.sent[i].socket == s.sent[j].socket ==> s.sent[i].index < s.sent[j].index)
            && s.sent[i].data == published[s.sent[i].index] && s.sent[j].data == published[s.sent[j].index]
  {
    TraceHolds(Init, steps);
    var s := Run(Init, steps);
    ChannelIsPublished(Init, steps, s.sent[i].project);
    assert [] + Published(steps, s.sent[i].project) == Published(steps, s.sent[i].project);
    assert SendOk(s.channels, s.sent[i]) && SendOk(s.channels, s.sent[j]) && Earlier(s.sent[i], s.sent[j]);
  }

  /**
   In every run, a message whose fan-out was carried through was sent exactly once to each socket that
   was in the room when the message was taken, and to no other, whoever joined or left meanwhile.
   */
  lemma FanOutReachesTheRoom(steps: seq<Step>, p: nat, index: nat)
    requires Legal(Init, steps) && (p, index) in Run(Init, steps).finished
    ensures var s := Run(Init, steps); (p, index) in s.taken && Lists(Attempts(s.sent, p, index), s.taken[(p, index)])
  {
    TraceHolds(Init, steps);
    assert FinishedOk(Run(Init, steps), p, index);
  }

  /**
   And no message is left out: of the messages that a room's listener has taken since its subscription,
   each one that is not empty is fanned out, but for the one that is being fanned out just now.
   */
  lemma ListenerSkipsNothing(steps: seq<Step>, p: nat, index: nat)
    requires Legal(Init, steps) && p in Run(Init, steps).rooms
    ensures var s := Run(Init, steps);
            && p in s.registered && s.registered[p] in s.tasks
            && var l := s.tasks[s.registered[p]];
               !l.pc.NotStarted? && l.start <= index < l.pos ==>
                 && index < |Channel(s.channels, p)|
                 && (Channel(s.channels, p)[index] == "" || (p, index) in s.finished || (l.pc.Sending? && l.pc.index == index))
  {
    TraceHolds(Init, steps);
    var s := Run(Init, steps);
    assert RoomOk(s, p) && PosOk(s, p);
    var l := s.tasks[s.registered[p]];
    if !l.pc.NotStarted? && l.start <= index < l.pos {
      assert Settled(s, p, l.pc, index);
    }
  }

  /** The taken room is the room itself, at the step that takes the message. */
  lemma TakenIsTheRoom(s: State, t: nat, order: seq<nat>)
    requires RoomsInv(s) && Enabled(s, Receive(t, order))
    requires Channel(s.channels, s.tasks[t].project)[s.tasks[t].pos] != ""
    ensures var s' := Next(s, Receive(t, order)); var key := (s.tasks[t].project, s.tasks[t].pos);
            && key in s'.taken && key.0 in s.rooms && s'.taken[key] == s.rooms[key.0]
            && s'.tasks[t].pc == Sending(key.1, s.channels[key.0][key.1], order, 0, [])
  {
    LoopTestHolds(s, t);
    RoomIsListed(s, t, order);
  }
}
