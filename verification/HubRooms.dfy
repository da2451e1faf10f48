/** Rooms and their listeners: what holds at every suspension point of every interleaving. */
module HubRooms {
  import opened Hub

  /** A room is never empty and its registered listener is its own, not cancelled and inside its loop. */
  ghost predicate RoomOk(s: State, p: nat) {
    && (p in s.rooms <==> p in s.registered)
    && (p in s.rooms ==> s.rooms[p] != {} && Serves(s, s.registered[p], p))
  }

  ghost predicate Serves(s: State, t: nat, p: nat) {
    && t in s.tasks && s.tasks[t].project == p && !s.tasks[t].cancelled
    && !s.tasks[t].pc.Unsubscribing? && !s.tasks[t].pc.Finished?
  }

  /** Only registered listeners are not cancelled. */
  ghost predicate TaskOk(s: State, t: nat) {
    Runs(s, t) ==> s.tasks[t].project in s.registered && s.registered[s.tasks[t].project] == t
  }

  ghost predicate RoomsInv(s: State) {
    && (forall p :: RoomOk(s, p))
    && (forall t :: TaskOk(s, t))
  }

  lemma ConnectKeeps(s: State, p: nat, ws: nat, t: nat)
    requires RoomsInv(s) && t !in s.tasks
    ensures RoomsInv(AfterConnect(s, p, ws, t))
    ensures ws in Room(AfterConnect(s, p, ws, t).rooms, p)
  {
    var s' := AfterConnect(s, p, ws, t);
    forall q: nat ensures RoomOk(s', q) {
      assert RoomOk(s, q);
    }
    forall u: nat ensures TaskOk(s', u) {
      assert TaskOk(s, u) && RoomOk(s, p);
    }
  }

  lemma DisconnectKeeps(s: State, p: nat, ws: nat)
    requires RoomsInv(s)
    ensures RoomsInv(AfterDisconnect(s, p, ws))
  {
    var s' := AfterDisconnect(s, p, ws);
    assert RoomOk(s, p);
    forall q: nat ensures RoomOk(s', q) {
      assert RoomOk(s, q);
    }
    forall u: nat ensures TaskOk(s', u) {
      assert TaskOk(s, u);
    }
  }

  /** What disconnecting may do: sockets leave, listeners are cancelled, and no other listener is touched. */
  ghost predicate OnlyLeaves(s: State, s': State) {
    && s'.channels == s.channels && s'.sent == s.sent && s'.taken == s.taken && s'.failed == s.failed && s'.finished == s.finished
    && s'.tasks.Keys == s.tasks.Keys
    && (forall t :: t in s.tasks ==> s'.tasks[t] == s.tasks[t] || s'.tasks[t] == s.tasks[t].(cancelled := true))
    && (forall p :: p in s'.registered ==> p in s.registered && s'.registered[p] == s.registered[p])
    && (forall p :: Room(s'.rooms, p) <= Room(s.rooms, p))
  }

  lemma DisconnectOnlyLeaves(s: State, p: nat, ws: nat)
    ensures OnlyLeaves(s, AfterDisconnect(s, p, ws))
    ensures RoomsInv(s) ==> Room(AfterDisconnect(s, p, ws).rooms, p) == Room(s.rooms, p) - {ws}
  {
  }

  lemma LeavingIsTransitive(a: State, b: State, c: State)
    requires OnlyLeaves(a, b) && OnlyLeaves(b, c)
    ensures OnlyLeaves(a, c)
  {
  }

  /** The loop over dead sockets takes exactly these out of the room. */
  lemma {:induction false} DropAllLeaves(s: State, p: nat, dead: seq<nat>)
    requires RoomsInv(s)
    ensures RoomsInv(DropAll(s, p, dead))
    ensures OnlyLeaves(s, DropAll(s, p, dead))
    ensures forall d :: d in Room(DropAll(s, p, dead).rooms, p) <==> d in Room(s.rooms, p) && d !in dead
    decreases |dead|
  {
    if dead != [] {
      var s1 := AfterDisconnect(s, p, dead[0]);
      DisconnectKeeps(s, p, dead[0]);
      DisconnectOnlyLeaves(s, p, dead[0]);
      DropAllLeaves(s1, p, dead[1..]);
      LeavingIsTransitive(s, s1, DropAll(s, p, dead));
      assert forall d :: d in dead <==> d == dead[0] || d in dead[1..];
    }
  }

  /** A listener moves on within its loop, or a cancelled one moves anywhere. */
  lemma MovingKeeps(s: State, s': State, t: nat)
    requires RoomsInv(s) && t in s.tasks && t in s'.tasks
    requires s'.rooms == s.rooms && s'.registered == s.registered
    requires s'.tasks == s.tasks[t := s'.tasks[t]]
    requires s'.tasks[t].project == s.tasks[t].project && s'.tasks[t].cancelled == s.tasks[t].cancelled
    requires s.tasks[t].cancelled || (!s'.tasks[t].pc.Unsubscribing? && !s'.tasks[t].pc.Finished?)
    ensures RoomsInv(s')
  {
    forall p: nat ensures RoomOk(s', p) {
      assert RoomOk(s, p);
    }
    forall u: nat ensures TaskOk(s', u) {
      assert TaskOk(s, u);
    }
  }

  /** So the test at the top of the loop never fails for a listener that was not cancelled. */
  lemma LoopTestHolds(s: State, t: nat)
    requires RoomsInv(s) && Runs(s, t)
    ensures s.tasks[t].project in s.rooms && s.rooms[s.tasks[t].project] != {}
  {
    assert TaskOk(s, t) && RoomOk(s, s.tasks[t].project);
  }

  lemma RecordingKeeps(s: State, s': State)
    requires RoomsInv(s)
    requires s'.rooms == s.rooms && s'.registered == s.registered && s'.tasks == s.tasks
    ensures RoomsInv(s')
  {
    forall p: nat ensures RoomOk(s', p) {
      assert RoomOk(s, p);
    }
    forall t: nat ensures TaskOk(s', t) {
      assert TaskOk(s, t);
    }
  }

  lemma LastSendKeeps(s: State, t: nat, dead: seq<nat>)
    requires RoomsInv(s) && Runs(s, t) && s.tasks[t].pc.Sending?
    ensures RoomsInv(AfterLastSend(s, t, dead))
  {
    var s1 := Moved(s.(finished := s.finished + {(s.tasks[t].project, s.tasks[t].pc.index)}), t, Sleeping);
    MovingKeeps(s, s1, t);
    DropAllLeaves(s1, s.tasks[t].project, dead);
  }

  lemma StepKeepsRooms(s: State, step: Step)
    requires RoomsInv(s) && Enabled(s, step)
    ensures RoomsInv(Next(s, step))
  {
    match step {
      case Connect(p, ws, t) => ConnectKeeps(s, p, ws, t);
      case Disconnect(p, ws) => DisconnectKeeps(s, p, ws);
      case Publish(_, _) => RecordingKeeps(s, Next(s, step));
      case SendDone(t, ok) =>
        var pc := s.tasks[t].pc;
        RecordingKeeps(s, Recorded(s, t, ok));
        if pc.next + 1 < |pc.order| {
          MovingKeeps(Recorded(s, t, ok), Next(s, step), t);
        } else {
          LastSendKeeps(Recorded(s, t, ok), t, DeadAfter(pc, ok));
        }
      case Subscribed(t, _) =>
        LoopTestHolds(s, t);
        MovingKeeps(s, Next(s, step), t);
      case Slept(t) =>
        LoopTestHolds(s, t);
        MovingKeeps(s, Next(s, step), t);
      case Unsubscribed(t) =>
        UnsubscribingIsCancelled(s, t);
        MovingKeeps(s, Next(s, step), t);
      case _ => MovingKeeps(s, Next(s, step), step.task);
    }
  }

  lemma UnsubscribingIsCancelled(s: State, t: nat)
    requires RoomsInv(s) && t in s.tasks && s.tasks[t].pc.Unsubscribing?
    ensures s.tasks[t].cancelled
  {
    assert TaskOk(s, t) && RoomOk(s, s.tasks[t].project);
  }

  lemma {:induction false} RoomsHold(s: State, steps: seq<Step>)
    requires RoomsInv(s) && Legal(s, steps)
    ensures RoomsInv(Run(s, steps))
    decreases |steps|
  {
    if steps != [] {
      StepKeepsRooms(s, steps[0]);
      RoomsHold(Next(s, steps[0]), steps[1..]);
    }
  }

  /**
   At every suspension point of every interleaving: rooms and registered listeners belong to the same
   projects, every room is non-empty, and a listener that is not cancelled is the registered one of
   its project, so that there is exactly one for every room and none without a room.
   */
  lemma OneListenerPerRoom(steps: seq<Step>)
    requires Legal(Init, steps)
    ensures var s := Run(Init, steps);
            && s.rooms.Keys == s.registered.Keys
            && (forall p :: p in s.rooms ==> s.rooms[p] != {} && Serves(s, s.registered[p], p))
            && (forall t :: Runs(s, t) ==> s.tasks[t].project in s.rooms && s.registered[s.tasks[t].project] == t)
            && (forall t, u :: Runs(s, t) && Runs(s, u) && s.tasks[t].project == s.tasks[u].project ==> t == u)
  {
    RoomsHold(Init, steps);
    var s := Run(Init, steps);
    forall p: nat ensures p in s.rooms <==> p in s.registered
      ensures p in s.rooms ==> s.rooms[p] != {} && Serves(s, s.registered[p], p)
    {
      assert RoomOk(s, p);
    }
    forall t: nat | Runs(s, t) ensures s.tasks[t].project in s.rooms && s.registered[s.tasks[t].project] == t {
      LoopTestHolds(s, t);
      assert TaskOk(s, t);
    }
  }
}
