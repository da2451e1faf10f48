/**
 The room hub as a state machine over the points where its coroutines are suspended. `Connect` is
 the part of `connect` after the handshake; it and `disconnect` run without suspension. A cancelled
 task wakes only to clean up, and one that cancels itself runs on to its next suspension.
 */
module Hub {
  /** Where a listener is suspended; a fan-out is just sending to `order[next]`. */
  datatype Pc =
    | NotStarted
    | Subscribing
    | Polling
    | Sending(index: nat, data: string, order: seq<nat>, next: nat, dead: seq<nat>)
    | Sleeping
    | Unsubscribing
    | Finished

  /** A listener task, subscribed from message `start` on; it has taken all messages before `pos`. */
  datatype Listener = Listener(project: nat, pc: Pc, start: nat, pos: nat, cancelled: bool)

  /** A call of `send_text` with message `index` of the project's channel. */
  datatype Send = Send(project: nat, index: nat, data: string, socket: nat)

  /** History: all sends, the room at the time a message was taken, failed sends, and fan-outs carried through. */
  datatype State = State(
    rooms: map<nat, set<nat>>,
    registered: map<nat, nat>,
    tasks: map<nat, Listener>,
    channels: map<nat, seq<string>>,
    sent: seq<Send>,
    taken: map<(nat, nat), set<nat>>,
    failed: set<(nat, nat, nat)>,
    finished: set<(nat, nat)>)

  datatype Step =
    | Connect(project: nat, socket: nat, task: nat)
    | Disconnect(project: nat, socket: nat)
    | Publish(project: nat, data: string)
    | Start(task: nat)
    | Subscribed(task: nat, from: nat)
    | Receive(task: nat, order: seq<nat>)
    | ReceiveNothing(task: nat)
    | SendDone(task: nat, ok: bool)
    | Slept(task: nat)
    | Cancelled(task: nat)
    | Unsubscribed(task: nat)

  const Init := State(map[], map[], map[], map[], [], map[], {}, {})

  function Channel(channels: map<nat, seq<string>>, project: nat): seq<string> {
    if project in channels then channels[project] else []
  }

  function Room(rooms: map<nat, set<nat>>, project: nat): set<nat> {
    if project in rooms then rooms[project] else {}
  }

  /** An enumeration of a room, in any order. */
  ghost predicate Lists(order: seq<nat>, room: set<nat>) {
    && (forall x :: x in order <==> x in room)
    && (forall i, j :: 0 <= i < j < |order| ==> order[i] != order[j])
  }

  predicate Runs(s: State, task: nat) {
    task in s.tasks && !s.tasks[task].cancelled
  }

  ghost predicate Enabled(s: State, step: Step) {
    match step
    case Connect(_, _, t) => t !in s.tasks
    case Disconnect(_, _) => true
    case Publish(_, _) => true
    case Start(t) => Runs(s, t) && s.tasks[t].pc.NotStarted?
    case Subscribed(t, from) =>
      Runs(s, t) && s.tasks[t].pc.Subscribing? && s.tasks[t].pos <= from <= |Channel(s.channels, s.tasks[t].project)|
    case Receive(t, order) =>
      && Runs(s, t) && s.tasks[t].pc.Polling? && s.tasks[t].pos < |Channel(s.channels, s.tasks[t].project)|
      && Lists(order, Room(s.rooms, s.tasks[t].project))
    case ReceiveNothing(t) => Runs(s, t) && s.tasks[t].pc.Polling?
    case SendDone(t, _) => Runs(s, t) && s.tasks[t].pc.Sending? && s.tasks[t].pc.next < |s.tasks[t].pc.order|
    case Slept(t) => Runs(s, t) && s.tasks[t].pc.Sleeping?
    case Cancelled(t) => t in s.tasks && s.tasks[t].cancelled && !s.tasks[t].pc.Unsubscribing? && !s.tasks[t].pc.Finished?
    case Unsubscribed(t) => t in s.tasks && s.tasks[t].pc.Unsubscribing?
  }

  function AfterConnect(s: State, project: nat, socket: nat, t: nat): State {
    if project in s.rooms then s.(rooms := s.rooms[project := s.rooms[project] + {socket}])
    else
      s.(rooms := s.rooms[project := {socket}],
         registered := s.registered[project := t],
         tasks := s.tasks[t := Listener(project, NotStarted, 0, 0, false)])
  }

  function WithoutListener(s: State, project: nat): State {
    if project !in s.registered then s
    else
      var t := s.registered[project];
      s.(registered := s.registered - {project},
         tasks := if t in s.tasks then s.tasks[t := s.tasks[t].(cancelled := true)] else s.tasks)
  }

  function AfterDisconnect(s: State, project: nat, socket: nat): State {
    if project !in s.rooms then s
    else
      var rest := s.rooms[project] - {socket};
      if rest != {} then s.(rooms := s.rooms[project := rest])
      else WithoutListener(s.(rooms := s.rooms - {project}), project)
  }

  /** The loop over dead sockets at the end of a fan-out. */
  function DropAll(s: State, project: nat, dead: seq<nat>): State
    decreases |dead|
  {
    if dead == [] then s else DropAll(AfterDisconnect(s, project, dead[0]), project, dead[1..])
  }

  function Moved(s: State, t: nat, pc: Pc): State
    requires t in s.tasks
  {
    s.(tasks := s.tasks[t := s.tasks[t].(pc := pc)])
  }

  /** The test at the top of the listener's loop. */
  function AtLoopHead(s: State, t: nat): State
    requires t in s.tasks
  {
    Moved(s, t, if s.tasks[t].project in s.rooms then Polling else Unsubscribing)
  }

  function AfterReceive(s: State, t: nat, order: seq<nat>): State
    requires t in s.tasks && s.tasks[t].pos < |Channel(s.channels, s.tasks[t].project)|
  {
    var l := s.tasks[t];
    var data := Channel(s.channels, l.project)[l.pos];
    if data == "" || order == [] then s.(tasks := s.tasks[t := l.(pc := Sleeping, pos := l.pos + 1)])
    else
      s.(tasks := s.tasks[t := l.(pc := Sending(l.pos, data, order, 0, []), pos := l.pos + 1)],
         sent := s.sent + [Send(l.project, l.pos, data, order[0])],
         taken := s.taken[(l.project, l.pos) := Room(s.rooms, l.project)])
  }

  function DeadAfter(pc: Pc, ok: bool): seq<nat>
    requires pc.Sending? && pc.next < |pc.order|
  {
    if ok then pc.dead else pc.dead + [pc.order[pc.next]]
  }

  function AfterLastSend(s: State, t: nat, dead: seq<nat>): State
    requires t in s.tasks && s.tasks[t].pc.Sending?
  {
    var l := s.tasks[t];
    DropAll(Moved(s.(finished := s.finished + {(l.project, l.pc.index)}), t, Sleeping), l.project, dead)
  }

  /** The history notes a failed send. */
  function Recorded(s: State, t: nat, ok: bool): State
    requires t in s.tasks && s.tasks[t].pc.Sending? && s.tasks[t].pc.next < |s.tasks[t].pc.order|
  {
    var l := s.tasks[t];
    if ok then s else s.(failed := s.failed + {(l.project, l.pc.index, l.pc.order[l.pc.next])})
  }

  /** On to the next socket, or out of the loops over sockets. */
  function AfterSend(s: State, t: nat, ok: bool): State
    requires t in s.tasks && s.tasks[t].pc.Sending? && s.tasks[t].pc.next < |s.tasks[t].pc.order|
  {
    var l := s.tasks[t];
    var pc := l.pc;
    if pc.next + 1 < |pc.order| then
      Moved(s, t, pc.(next := pc.next + 1, dead := DeadAfter(pc, ok)))
        .(sent := s.sent + [Send(l.project, pc.index, pc.data, pc.order[pc.next + 1])])
    else AfterLastSend(s, t, DeadAfter(pc, ok))
  }

  ghost function Next(s: State, step: Step): State
    requires Enabled(s, step)
  {
    match step
    case Connect(p, ws, t) => AfterConnect(s, p, ws, t)
    case Disconnect(p, ws) => AfterDisconnect(s, p, ws)
    case Publish(p, data) => s.(channels := s.channels[p := Channel(s.channels, p) + [data]])
    case Start(t) =>
      var n := |Channel(s.channels, s.tasks[t].project)|;
      s.(tasks := s.tasks[t := s.tasks[t].(pc := Subscribing, start := n, pos := n)])
    case Subscribed(t, from) => AtLoopHead(s.(tasks := s.tasks[t := s.tasks[t].(start := from, pos := from)]), t)
    case Receive(t, order) => AfterReceive(s, t, order)
    case ReceiveNothing(t) => Moved(s, t, Sleeping)
    case SendDone(t, ok) => AfterSend(Recorded(s, t, ok), t, ok)
    case Slept(t) => AtLoopHead(s, t)
    case Cancelled(t) => Moved(s, t, if s.tasks[t].pc.NotStarted? || s.tasks[t].pc.Subscribing? then Finished else Unsubscribing)
    case Unsubscribed(t) => Moved(s, t, Finished)
  }

  ghost predicate Legal(s: State, steps: seq<Step>)
    decreases |steps|
  {
    steps == [] || (Enabled(s, steps[0]) && Legal(Next(s, steps[0]), steps[1..]))
  }

  ghost function Run(s: State, steps: seq<Step>): State
    requires Legal(s, steps)
    decreases |steps|
  {
    if steps == [] then s else Run(Next(s, steps[0]), steps[1..])
  }
}
