/** The hub object itself: its methods, and its listener coroutine cut at its suspension points. */
module WebSocketHubs {
  import opened Hub
  import opened HubRooms

  class WebSocketHub {
    var rooms: map<nat, set<nat>>
    var listenerTasks: map<nat, nat>

    // the event loop's tasks and the Redis channels
    var tasks: map<nat, Listener>
    var channels: map<nat, seq<string>>

    // history
    ghost var sent: seq<Send>
    ghost var taken: map<(nat, nat), set<nat>>
    ghost var failed: set<(nat, nat, nat)>
    ghost var finished: set<(nat, nat)>

    ghost function Now(): State
      reads this
    {
      State(rooms, listenerTasks, tasks, channels, sent, taken, failed, finished)
    }

    constructor ()
      ensures Now() == Init && RoomsInv(Now())
    {
      rooms, listenerTasks, tasks, channels := map[], map[], map[], map[];
      sent, taken, failed, finished := [], map[], {}, {};
      new;
      assert forall p: nat :: RoomOk(Init, p);
    }

    /** The first socket of a room starts its listener. */
    method Connect(project: nat, socket: nat, task: nat)
      requires RoomsInv(Now()) && task !in tasks
      modifies this
      ensures Now() == AfterConnect(old(Now()), project, socket, task)
      ensures RoomsInv(Now()) && project in rooms && rooms[project] == Room(old(rooms), project) + {socket}
      ensures forall p :: p != project && p in old(rooms) ==> p in rooms && rooms[p] == old(rooms)[p]
    {
      ConnectKeeps(Now(), project, socket, task);
      if project !in rooms {
        rooms := rooms[project := {}];
        tasks := tasks[task := Listener(project, NotStarted, 0, 0, false)];
        listenerTasks := listenerTasks[project := task];
      }
      rooms := rooms[project := rooms[project] + {socket}];
      assert rooms[project] == Room(old(rooms), project) + {socket};
      assert {} + {socket} == {socket};
      assert project !in old(rooms) ==> rooms == old(rooms)[project := {socket}];
    }

    /** The last socket of a room cancels its listener and closes the room. */
    method Disconnect(project: nat, socket: nat)
      requires RoomsInv(Now())
      modifies this
      ensures Now() == AfterDisconnect(old(Now()), project, socket)
      ensures RoomsInv(Now()) && Room(rooms, project) == Room(old(rooms), project) - {socket}
      ensures forall p :: p != project && p in old(rooms) ==> p in rooms && rooms[p] == old(rooms)[p]
      ensures project in old(rooms) && project !in rooms ==>
                project in old(listenerTasks) && old(listenerTasks)[project] in tasks && tasks[old(listenerTasks)[project]].cancelled
    {
      DisconnectKeeps(Now(), project, socket);
      DisconnectOnlyLeaves(Now(), project, socket);
      assert RoomOk(Now(), project);
      if project in rooms {
        rooms := rooms[project := rooms[project] - {socket}];
        if rooms[project] == {} {
          rooms := rooms - {project};
          if project in listenerTasks {
            var task := listenerTasks[project];
            tasks := tasks[task := tasks[task].(cancelled := true)];
            listenerTasks := listenerTasks - {project};
          }
        }
      }
    }

    /** A publication that fails is logged and lost. */
    method BroadcastToRoom(project: nat, payload: string, up: bool)
      requires RoomsInv(Now())
      modifies this
      ensures Now() == if up then Next(old(Now()), Publish(project, payload)) else old(Now())
      ensures Channel(channels, project) == Channel(old(channels), project) + (if up then [payload] else [])
      ensures forall p: nat :: p != project ==> Channel(channels, p) == Channel(old(channels), p)
      ensures rooms == old(rooms) && listenerTasks == old(listenerTasks) && tasks == old(tasks) && sent == old(sent)
      ensures RoomsInv(Now())
    {
      if up {
        StepKeepsRooms(Now(), Publish(project, payload));
        channels := channels[project := Channel(channels, project) + [payload]];
      }
    }

    // ----- _listen_redis_channel, from one suspension to the next -----

    method StartListener(task: nat)
      requires RoomsInv(Now()) && Enabled(Now(), Start(task))
      modifies this
      ensures Now() == Next(old(Now()), Start(task)) && RoomsInv(Now())
      ensures tasks[task].pc.Subscribing? && tasks[task].pos == |Channel(channels, tasks[task].project)|
    {
      StepKeepsRooms(Now(), Start(task));
      var position := |Channel(channels, tasks[task].project)|;
      tasks := tasks[task := tasks[task].(pc := Subscribing, start := position, pos := position)];
    }

    /** The subscription took effect at message `from`. */
    method OnSubscribed(task: nat, from: nat)
      requires RoomsInv(Now()) && Enabled(Now(), Subscribed(task, from))
      modifies this
      ensures Now() == Next(old(Now()), Subscribed(task, from)) && RoomsInv(Now())
      ensures tasks[task] == Listener(old(tasks[task].project), Polling, from, from, false)
    {
      StepKeepsRooms(Now(), Subscribed(task, from));
      LoopTestHolds(Now(), task);
      tasks := tasks[task := tasks[task].(start := from, pos := from)];
      TestLoop(task);
    }

    method TestLoop(task: nat)
      requires task in tasks
      modifies this`tasks
      ensures Now() == AtLoopHead(old(Now()), task)
    {
      if tasks[task].project in rooms {
        tasks := tasks[task := tasks[task].(pc := Polling)];
      } else {
        tasks := tasks[task := tasks[task].(pc := Unsubscribing)];
      }
    }

    /** A message has come: the first send is made to the first socket of a copy of the room. */
    method OnMessage(task: nat, order: seq<nat>)
      requires RoomsInv(Now()) && Enabled(Now(), Receive(task, order))
      modifies this
      ensures Now() == Next(old(Now()), Receive(task, order)) && RoomsInv(Now())
    {
      StepKeepsRooms(Now(), Receive(task, order));
      var l := tasks[task];
      var data := Channel(channels, l.project)[l.pos];
      if data == "" || order == [] {
        tasks := tasks[task := l.(pc := Sleeping, pos := l.pos + 1)];
      } else {
        taken := taken[(l.project, l.pos) := Room(rooms, l.project)];
        sent := sent + [Send(l.project, l.pos, data, order[0])];
        tasks := tasks[task := l.(pc := Sending(l.pos, data, order, 0, []), pos := l.pos + 1)];
      }
    }

    method OnNoMessage(task: nat)
      requires RoomsInv(Now()) && Enabled(Now(), ReceiveNothing(task))
      modifies this
      ensures Now() == Next(old(Now()), ReceiveNothing(task)) && RoomsInv(Now())
    {
      StepKeepsRooms(Now(), ReceiveNothing(task));
      tasks := tasks[task := tasks[task].(pc := Sleeping)];
    }

    /** A send returned or raised; after the last one the dead sockets are disconnected. */
    method OnSent(task: nat, ok: bool)
      requires RoomsInv(Now()) && Enabled(Now(), SendDone(task, ok))
      modifies this
      ensures Now() == Next(old(Now()), SendDone(task, ok)) && RoomsInv(Now())
    {
      StepKeepsRooms(Now(), SendDone(task, ok));
      RecordingKeeps(Now(), Recorded(Now(), task, ok));
      var l := tasks[task];
      var pc := l.pc;
      var deadSockets := pc.dead;
      if !ok {
        deadSockets := deadSockets + [pc.order[pc.next]];
        failed := failed + {(l.project, pc.index, pc.order[pc.next])};
      }
      if pc.next + 1 < |pc.order| {
        sent := sent + [Send(l.project, pc.index, pc.data, pc.order[pc.next + 1])];
        tasks := tasks[task := l.(pc := pc.(next := pc.next + 1, dead := deadSockets))];
      } else {
        ghost var before := Now();
        finished := finished + {(l.project, pc.index)};
        tasks := tasks[task := l.(pc := Sleeping)];
        MovingKeeps(before, Now(), task);
        DisconnectAll(l.project, deadSockets);
      }
    }

    method DisconnectAll(project: nat, deadSockets: seq<nat>)
      requires RoomsInv(Now())
      modifies this
      ensures Now() == DropAll(old(Now()), project, deadSockets) && RoomsInv(Now())
      ensures forall d :: d in Room(rooms, project) <==> d in Room(old(rooms), project) && d !in deadSockets
    {
      ghost var before := Now();
      DropAllLeaves(before, project, deadSockets);
      var i := 0;
      while i < |deadSockets|
        invariant 0 <= i <= |deadSockets|
        invariant RoomsInv(Now())
        invariant DropAll(Now(), project, deadSockets[i..]) == DropAll(before, project, deadSockets)
      {
        assert deadSockets[i..][1..] == deadSockets[i + 1..];
        Disconnect(project, deadSockets[i]);
        i := i + 1;
      }
    }

    method OnWoken(task: nat)
      requires RoomsInv(Now()) && Enabled(Now(), Slept(task))
      modifies this
      ensures Now() == Next(old(Now()), Slept(task)) && RoomsInv(Now())
      ensures tasks[task].pc.Polling?
    {
      StepKeepsRooms(Now(), Slept(task));
      LoopTestHolds(Now(), task);
      TestLoop(task);
    }

    /** Cancellation before or during the subscription ends the task; later it leads to the clean-up. */
    method OnCancelled(task: nat)
      requires RoomsInv(Now()) && Enabled(Now(), Cancelled(task))
      modifies this
      ensures Now() == Next(old(Now()), Cancelled(task)) && RoomsInv(Now())
      ensures tasks[task].pc == if old(tasks[task].pc.NotStarted? || tasks[task].pc.Subscribing?) then Finished else Unsubscribing
      ensures sent == old(sent) && rooms == old(rooms)
    {
      StepKeepsRooms(Now(), Cancelled(task));
      if tasks[task].pc.NotStarted? || tasks[task].pc.Subscribing? {
        tasks := tasks[task := tasks[task].(pc := Finished)];
      } else {
        tasks := tasks[task := tasks[task].(pc := Unsubscribing)];
      }
    }

    method OnUnsubscribed(task: nat)
      requires RoomsInv(Now()) && Enabled(Now(), Unsubscribed(task))
      modifies this
      ensures Now() == Next(old(Now()), Unsubscribed(task)) && RoomsInv(Now())
    {
      StepKeepsRooms(Now(), Unsubscribed(task));
      tasks := tasks[task := tasks[task].(pc := Finished)];
    }
  }
}
