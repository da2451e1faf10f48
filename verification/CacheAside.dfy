/**
 The cached project endpoint under concurrency. A GET looks in the cache, then reads the database,
 then fills the cache; a PATCH commits, then deletes the cache entry; any other steps may run in
 between. Steps are stamped with the time at which they take effect.
 */
module CacheAside {
  import FiniteSets
  import ProjectOcc
  import Uuid

  /** Seconds that `get_project` asks the cache to keep an entry. */
  const TTL := 300.0

  /** How the endpoints name the cache entry of a tenant's project. */
  type Keying = (nat, nat) -> string

  predicate Named(org: nat, id: nat) {
    Uuid.IsUuid(org) && Uuid.IsUuid(id)
  }

  /** Entries of different projects have different names. */
  ghost predicate Distinguishes(key: Keying) {
    forall org, id, org', id' ::
      Named(org, id) && Named(org', id') && key(org, id) == key(org', id') ==> org == org' && id == id'
  }

  /** A committed state of a project row and the time of its commit. */
  datatype Committed = Committed(row: ProjectOcc.Project, at: real)

  /** What a GET read, and when: state number `index` of the project, read at `readAt`. */
  datatype Reading = Reading(row: ProjectOcc.Project, index: nat, readAt: real)

  /** A cache entry; Redis keeps the row and the expiry, the rest is where the model says it came from. */
  datatype Entry = Entry(reading: Reading, storedAt: real, expireAt: real)

  datatype Getting = Missed(org: nat, id: nat) | Fetched(org: nat, id: nat, reading: Reading)

  /** An answered GET: `storedAt` is when the row that it shows was put into the cache or sent. */
  datatype Served = Served(req: nat, org: nat, id: nat, reading: Reading, storedAt: real, at: real)

  /** A PATCH that has committed state number `index` of its project and not yet evicted the cache entry. */
  datatype Patch = Patch(org: nat, id: nat, index: nat)

  datatype State = State(
    now: real,
    db: map<nat, seq<Committed>>,
    cache: map<string, Entry>,
    gets: map<nat, Getting>,
    patches: map<nat, Patch>,
    served: seq<Served>)

  /** `ok` says whether the cache answered; a failing cache call is logged and skipped. */
  datatype Step =
    | CreateProject(at: real, row: ProjectOcc.Project)
    | Lookup(at: real, req: nat, org: nat, id: nat, ok: bool)
    | ReadRow(at: real, req: nat)
    | Store(at: real, req: nat, ok: bool)
    | Commit(at: real, req: nat, row: ProjectOcc.Project)
    | Evict(at: real, req: nat, ok: bool)

  const Init := State(0.0, map[], map[], map[], map[], [])

  predicate Enabled(s: State, step: Step) {
    && step.at >= s.now
    && match step
       case CreateProject(_, row) => row.id !in s.db && Named(row.org, row.id)
       case Lookup(_, req, org, id, _) => req !in s.gets && Named(org, id)
       case ReadRow(_, req) => req in s.gets && s.gets[req].Missed?
       case Store(_, req, _) => req in s.gets && s.gets[req].Fetched?
       case Commit(_, req, row) =>
         req !in s.patches && row.id in s.db && s.db[row.id] != [] && s.db[row.id][0].row.org == row.org
       case Evict(_, req, _) => req in s.patches
  }

  predicate Hit(s: State, at: real, name: string, ok: bool) {
    ok && name in s.cache && at < s.cache[name].expireAt
  }

  function Latest(s: State, id: nat): nat
    requires id in s.db && s.db[id] != []
  {
    |s.db[id]| - 1
  }

  function Next(key: Keying, s: State, step: Step): State
    requires Enabled(s, step)
  {
    match step
    case CreateProject(at, row) => s.(now := at, db := s.db[row.id := [Committed(row, at)]])
    case Lookup(at, req, org, id, ok) =>
      var name := key(org, id);
      if Hit(s, at, name, ok) then
        s.(now := at, served := s.served + [Served(req, org, id, s.cache[name].reading, s.cache[name].storedAt, at)])
      else s.(now := at, gets := s.gets[req := Missed(org, id)])
    case ReadRow(at, req) =>
      var g := s.gets[req];
      if g.id in s.db && s.db[g.id] != [] && s.db[g.id][0].row.org == g.org then
        var n := Latest(s, g.id);
        s.(now := at, gets := s.gets[req := Fetched(g.org, g.id, Reading(s.db[g.id][n].row, n, at))])
      else s.(now := at, gets := s.gets - {req})
    case Store(at, req, ok) =>
      var g := s.gets[req];
      s.(now := at,
         gets := s.gets - {req},
         cache := if ok then s.cache[key(g.org, g.id) := Entry(g.reading, at, at + TTL)] else s.cache,
         served := s.served + [Served(req, g.org, g.id, g.reading, at, at)])
    case Commit(at, req, row) =>
      s.(now := at,
         db := s.db[row.id := s.db[row.id] + [Committed(row, at)]],
         patches := s.patches[req := Patch(row.org, row.id, |s.db[row.id]|)])
    case Evict(at, req, ok) =>
      var p := s.patches[req];
      s.(now := at, patches := s.patches - {req}, cache := if ok then s.cache - {key(p.org, p.id)} else s.cache)
  }

  ghost predicate Legal(key: Keying, s: State, steps: seq<Step>)
    decreases |steps|
  {
    steps == [] || (Enabled(s, steps[0]) && Legal(key, Next(key, s, steps[0]), steps[1..]))
  }

  function Run(key: Keying, s: State, steps: seq<Step>): State
    requires Legal(key, s, steps)
    decreases |steps|
  {
    if steps == [] then s else Run(key, Next(key, s, steps[0]), steps[1..])
  }

  // ----- what every interleaving keeps -----

  /** State `index` was the project's current state at time `t`: committed by then, its successor not yet. */
  ghost predicate CurrentAt(history: seq<Committed>, index: nat, t: real) {
    && index < |history|
    && history[index].at <= t
    && (index + 1 < |history| ==> t <= history[index + 1].at)
  }

  /** A reading shows a state of the right project that was current when it was read. */
  ghost predicate Genuine(s: State, org: nat, id: nat, r: Reading) {
    && id in s.db
    && CurrentAt(s.db[id], r.index, r.readAt)
    && s.db[id][r.index].row == r.row
    && r.row.id == id && r.row.org == org
    && r.readAt <= s.now
  }

  ghost predicate HistoryOk(s: State, id: nat)
    requires id in s.db
  {
    var history := s.db[id];
    && history != [] && Named(history[0].row.org, id)
    && (forall i :: 0 <= i < |history| ==> history[i].row.id == id && history[i].row.org == history[0].row.org)
    && history[|history| - 1].at <= s.now
  }

  ghost predicate EntryOk(key: Keying, s: State, name: string)
    requires name in s.cache
  {
    var e := s.cache[name];
    var row := e.reading.row;
    && Named(row.org, row.id) && name == key(row.org, row.id)
    && Genuine(s, row.org, row.id, e.reading)
    && e.reading.readAt <= e.storedAt <= s.now
    && e.expireAt == e.storedAt + TTL
  }

  ghost predicate GettingOk(s: State, req: nat)
    requires req in s.gets
  {
    var g := s.gets[req];
    && Named(g.org, g.id)
    && (g.Fetched? ==> Genuine(s, g.org, g.id, g.reading))
  }

  ghost predicate ServedOk(s: State, v: Served) {
    && Genuine(s, v.org, v.id, v.reading)
    && v.reading.readAt <= v.storedAt <= v.at <= s.now
    && v.at < v.storedAt + TTL
  }

  ghost predicate PatchOk(s: State, p: Patch) {
    Named(p.org, p.id) && p.id in s.db && p.index < |s.db[p.id]| && s.db[p.id][p.index].row.org == p.org
  }

  ghost predicate Inv(key: Keying, s: State) {
    && (forall id :: id in s.db ==> HistoryOk(s, id))
    && (forall name :: name in s.cache ==> EntryOk(key, s, name))
    && (forall req :: req in s.gets ==> GettingOk(s, req))
    && (forall i :: 0 <= i < |s.served| ==> ServedOk(s, s.served[i]))
    && (forall req :: req in s.patches ==> PatchOk(s, s.patches[req]))
  }

  /** Histories only grow, and only at their end, at the present time. */
  ghost predicate Grows(s: State, s': State) {
    && s.now <= s'.now
    && forall id :: id in s.db ==> id in s'.db && Extends(s.db[id], s'.db[id], s.now)
  }

  ghost predicate Extends(h: seq<Committed>, h': seq<Committed>, now: real) {
    h <= h' && forall i :: |h| <= i < |h'| ==> h'[i].at >= now
  }

  lemma GenuineStays(s: State, s': State, org: nat, id: nat, r: Reading)
    requires Genuine(s, org, id, r) && Grows(s, s')
    ensures Genuine(s', org, id, r)
  {
  }

  lemma TableStays(s: State, s': State)
    requires forall id :: id in s.db ==> HistoryOk(s, id)
    requires s'.db == s.db && s.now <= s'.now
    ensures Grows(s, s') && forall id :: id in s'.db ==> HistoryOk(s', id)
  {
    forall id | id in s'.db ensures HistoryOk(s', id) {
      assert HistoryOk(s, id);
    }
  }

  lemma AllStay(key: Keying, s: State, s': State)
    requires Inv(key, s) && Grows(s, s')
    ensures forall name :: name in s.cache && name in s'.cache && s'.cache[name] == s.cache[name] ==> EntryOk(key, s', name)
    ensures forall req :: req in s.gets && req in s'.gets && s'.gets[req] == s.gets[req] ==> GettingOk(s', req)
    ensures forall i :: 0 <= i < |s.served| ==> ServedOk(s', s.served[i])
    ensures forall req :: req in s.patches ==> PatchOk(s', s.patches[req])
  {
    forall name | name in s.cache && name in s'.cache && s'.cache[name] == s.cache[name] ensures EntryOk(key, s', name) {
      assert EntryOk(key, s, name);
      var r := s.cache[name].reading;
      GenuineStays(s, s', r.row.org, r.row.id, r);
    }
    forall req | req in s.gets && req in s'.gets && s'.gets[req] == s.gets[req] ensures GettingOk(s', req) {
      assert GettingOk(s, req);
      var g := s.gets[req];
      if g.Fetched? {
        GenuineStays(s, s', g.org, g.id, g.reading);
      }
    }
    forall i | 0 <= i < |s.served| ensures ServedOk(s', s.served[i]) {
      assert ServedOk(s, s.served[i]);
      GenuineStays(s, s', s.served[i].org, s.served[i].id, s.served[i].reading);
    }
  }

  lemma CreateKeeps(key: Keying, s: State, step: Step)
    requires Inv(key, s) && Enabled(s, step) && step.CreateProject?
    ensures Grows(s, Next(key, s, step)) && Inv(key, Next(key, s, step))
  {
    var s' := Next(key, s, step);
    AllStay(key, s, s');
    forall id | id in s'.db ensures HistoryOk(s', id) {
      assert id in s.db ==> HistoryOk(s, id);
    }
  }

  lemma CommitExtends(key: Keying, s: State, step: Step)
    requires (forall id :: id in s.db ==> HistoryOk(s, id)) && Enabled(s, step) && step.Commit?
    ensures Grows(s, Next(key, s, step))
    ensures forall id :: id in Next(key, s, step).db ==> HistoryOk(Next(key, s, step), id)
    ensures PatchOk(Next(key, s, step), Next(key, s, step).patches[step.req])
  {
    var s' := Next(key, s, step);
    forall id | id in s'.db ensures HistoryOk(s', id) {
      assert HistoryOk(s, id);
    }
  }

  lemma CommitKeeps(key: Keying, s: State, step: Step)
    requires Inv(key, s) && Enabled(s, step) && step.Commit?
    ensures Grows(s, Next(key, s, step)) && Inv(key, Next(key, s, step))
  {
    CommitExtends(key, s, step);
    AllStay(key, s, Next(key, s, step));
  }

  /** A cache hit shows a row of the requested project: keys of different projects differ. */
  lemma HitIsGenuine(key: Keying, s: State, step: Step)
    requires Distinguishes(key)
    requires Inv(key, s) && Enabled(s, step) && step.Lookup?
    requires Hit(s, step.at, key(step.org, step.id), step.ok)
    ensures var e := s.cache[key(step.org, step.id)];
            && Genuine(s, step.org, step.id, e.reading)
            && e.reading.readAt <= e.storedAt <= s.now && e.expireAt == e.storedAt + TTL
  {
    var name := key(step.org, step.id);
    assert EntryOk(key, s, name);
    var row := s.cache[name].reading.row;
    assert key(step.org, step.id) == key(row.org, row.id);
  }

  lemma HitKeeps(key: Keying, s: State, step: Step)
    requires Distinguishes(key)
    requires Inv(key, s) && Enabled(s, step) && step.Lookup?
    requires Hit(s, step.at, key(step.org, step.id), step.ok)
    ensures Grows(s, Next(key, s, step)) && Inv(key, Next(key, s, step))
  {
    var s' := Next(key, s, step);
    TableStays(s, s');
    AllStay(key, s, s');
    HitIsGenuine(key, s, step);
    var e := s.cache[key(step.org, step.id)];
    assert ServedOk(s', Served(step.req, step.org, step.id, e.reading, e.storedAt, step.at));
  }

  lemma MissKeeps(key: Keying, s: State, step: Step)
    requires Inv(key, s) && Enabled(s, step) && step.Lookup?
    requires !Hit(s, step.at, key(step.org, step.id), step.ok)
    ensures Grows(s, Next(key, s, step)) && Inv(key, Next(key, s, step))
  {
    TableStays(s, Next(key, s, step));
    AllStay(key, s, Next(key, s, step));
  }

  lemma ReadingIsGenuine(s: State, at: real, org: nat, id: nat)
    requires id in s.db && HistoryOk(s, id) && s.db[id][0].row.org == org && s.now <= at
    ensures var n := Latest(s, id); Genuine(s.(now := at), org, id, Reading(s.db[id][n].row, n, at))
  {
  }

  lemma ReadGivesGetting(key: Keying, s: State, step: Step)
    requires Inv(key, s) && Enabled(s, step) && step.ReadRow? && step.req in Next(key, s, step).gets
    ensures GettingOk(Next(key, s, step), step.req)
  {
    assert GettingOk(s, step.req);
    var g := s.gets[step.req];
    assert HistoryOk(s, g.id);
    ReadingIsGenuine(s, step.at, g.org, g.id);
  }

  lemma ReadKeeps(key: Keying, s: State, step: Step)
    requires Inv(key, s) && Enabled(s, step) && step.ReadRow?
    ensures Grows(s, Next(key, s, step)) && Inv(key, Next(key, s, step))
  {
    var s' := Next(key, s, step);
    TableStays(s, s');
    AllStay(key, s, s');
    if step.req in s'.gets {
      ReadGivesGetting(key, s, step);
    }
  }

  lemma StoreKeeps(key: Keying, s: State, step: Step)
    requires Inv(key, s) && Enabled(s, step) && step.Store?
    ensures Grows(s, Next(key, s, step)) && Inv(key, Next(key, s, step))
  {
    var s' := Next(key, s, step);
    TableStays(s, s');
    AllStay(key, s, s');
    assert GettingOk(s, step.req);
    var g := s.gets[step.req];
    GenuineStays(s, s', g.org, g.id, g.reading);
    assert step.ok ==> EntryOk(key, s', key(g.org, g.id));
    assert ServedOk(s', Served(step.req, g.org, g.id, g.reading, step.at, step.at));
  }

  lemma EvictKeeps(key: Keying, s: State, step: Step)
    requires Inv(key, s) && Enabled(s, step) && step.Evict?
    ensures Grows(s, Next(key, s, step)) && Inv(key, Next(key, s, step))
  {
    TableStays(s, Next(key, s, step));
    AllStay(key, s, Next(key, s, step));
  }

  lemma StepKeeps(key: Keying, s: State, step: Step)
    requires Distinguishes(key)
    requires Inv(key, s) && Enabled(s, step)
    ensures Grows(s, Next(key, s, step)) && Inv(key, Next(key, s, step))
  {
    match step {
      case CreateProject(_, _) => CreateKeeps(key, s, step);
      case Lookup(_, _, org, id, ok) =>
        if Hit(s, step.at, key(org, id), ok) {
          HitKeeps(key, s, step);
        } else {
          MissKeeps(key, s, step);
        }
      case ReadRow(_, _) => ReadKeeps(key, s, step);
      case Store(_, _, _) => StoreKeeps(key, s, step);
      case Commit(_, _, _) => CommitKeeps(key, s, step);
      case Evict(_, _, _) => EvictKeeps(key, s, step);
    }
  }

  lemma {:induction false} InvHolds(key: Keying, s: State, steps: seq<Step>)
    requires Distinguishes(key)
    requires Inv(key, s) && Legal(key, s, steps)
    ensures Inv(key, Run(key, s, steps))
    decreases |steps|
  {
    if steps != [] {
      StepKeeps(key, s, steps[0]);
      InvHolds(key, Next(key, s, steps[0]), steps[1..]);
    }
  }

  /**
   In every interleaving, with any cache failures: an answered GET shows a committed state of the
   project and tenant that were asked for, and that state was the current one at some time less than
   300 seconds, plus the delay between that reading and its storing, before the answer.
   */
  lemma AnswersAreRecent(key: Keying, steps: seq<Step>, i: nat)
    requires Distinguishes(key)
    requires Legal(key, Init, steps)
    requires i < |Run(key, Init, steps).served|
    ensures var s := Run(key, Init, steps); var v := s.served[i];
            && v.id in s.db
            && v.reading.index < |s.db[v.id]|
            && s.db[v.id][v.reading.index].row == v.reading.row
            && v.reading.row.id == v.id && v.reading.row.org == v.org
            && CurrentAt(s.db[v.id], v.reading.index, v.reading.readAt)
            && v.at >= v.reading.readAt > v.at - (300.0 + (v.storedAt - v.reading.readAt))
  {
    InvHolds(key, Init, steps);
    var s := Run(key, Init, steps);
    assert ServedOk(s, s.served[i]);
  }

  /** The same for what lies in the cache: every entry is a committed state of the project that its name says. */
  lemma EntriesAreCommitted(key: Keying, steps: seq<Step>, org: nat, id: nat)
    requires Distinguishes(key) && Named(org, id)
    requires Legal(key, Init, steps)
    requires key(org, id) in Run(key, Init, steps).cache
    ensures var s := Run(key, Init, steps); var r := s.cache[key(org, id)].reading;
            && r.row.org == org && r.row.id == id
            && id in s.db && r.index < |s.db[id]| && s.db[id][r.index].row == r.row
  {
    InvHolds(key, Init, steps);
    assert EntryOk(key, Run(key, Init, steps), key(org, id));
  }

  // ----- freshness after a PATCH -----

  /** Requests that have read a state older than number `c` of the project and not yet stored it. */
  function Overtaken(s: State, id: nat, c: nat): set<nat> {
    set req | req in s.gets && s.gets[req].Fetched? && s.gets[req].id == id && s.gets[req].reading.index < c
  }

  predicate Stores(step: Step, late: set<nat>) {
    step.Store? && step.ok && step.req in late
  }

  /** None of these requests stores what it has read. */
  predicate NoneStores(steps: seq<Step>, late: set<nat>) {
    forall i :: 0 <= i < |steps| ==> !Stores(steps[i], late)
  }

  lemma NoneStoresLater(steps: seq<Step>, late: set<nat>)
    requires steps != [] && NoneStores(steps, late)
    ensures !Stores(steps[0], late) && NoneStores(steps[1..], late)
  {
  }

  /** From here on nothing older than state `c` of the project can come out of the cache. */
  ghost predicate FreshFrom(key: Keying, s: State, org: nat, id: nat, c: nat, late: set<nat>) {
    && Named(org, id)
    && id in s.db && c < |s.db[id]|
    && (key(org, id) in s.cache ==> s.cache[key(org, id)].reading.index >= c)
    && Overtaken(s, id, c) <= late
  }

  lemma FreshStore(key: Keying, s: State, step: Step, org: nat, id: nat, c: nat, late: set<nat>)
    requires Distinguishes(key)
    requires Inv(key, s) && Enabled(s, step) && step.Store? && !Stores(step, late)
    requires FreshFrom(key, s, org, id, c, late)
    ensures FreshFrom(key, Next(key, s, step), org, id, c, late)
  {
    assert GettingOk(s, step.req);
    var g := s.gets[step.req];
    assert key(g.org, g.id) == key(org, id) ==> g.org == org && g.id == id;
    assert step.req in Overtaken(s, id, c) ==> step.req in late;
  }

  lemma FreshRead(key: Keying, s: State, step: Step, org: nat, id: nat, c: nat, late: set<nat>)
    requires Inv(key, s) && Enabled(s, step) && step.ReadRow?
    requires FreshFrom(key, s, org, id, c, late)
    ensures FreshFrom(key, Next(key, s, step), org, id, c, late)
  {
    var s' := Next(key, s, step);
    forall req | req in Overtaken(s', id, c) ensures req in late {
      assert req != step.req;
      assert req in Overtaken(s, id, c);
    }
  }

  lemma FreshStep(key: Keying, s: State, step: Step, org: nat, id: nat, c: nat, late: set<nat>)
    requires Distinguishes(key)
    requires Inv(key, s) && Enabled(s, step) && !Stores(step, late)
    requires FreshFrom(key, s, org, id, c, late)
    ensures FreshFrom(key, Next(key, s, step), org, id, c, late)
  {
    if step.Store? {
      FreshStore(key, s, step, org, id, c, late);
    } else if step.ReadRow? {
      FreshRead(key, s, step, org, id, c, late);
    } else {
      assert Overtaken(Next(key, s, step), id, c) <= Overtaken(s, id, c);
    }
  }

  lemma AnswerIsFresh(key: Keying, s: State, step: Step, org: nat, id: nat, c: nat, late: set<nat>)
    requires Enabled(s, step) && FreshFrom(key, s, org, id, c, late)
    requires |Next(key, s, step).served| > |s.served|
    ensures var v := Next(key, s, step).served[|s.served|]; v.org == org && v.id == id ==> v.reading.index >= c || v.req in late
  {
    if step.Store? {
      assert step.req in Overtaken(s, id, c) ==> step.req in late;
    }
  }

  lemma {:induction false} ServedGrows(key: Keying, s: State, steps: seq<Step>)
    requires Legal(key, s, steps)
    ensures s.served <= Run(key, s, steps).served
    decreases |steps|
  {
    if steps != [] {
      assert s.served <= Next(key, s, steps[0]).served;
      ServedGrows(key, Next(key, s, steps[0]), steps[1..]);
    }
  }

  /**
   From a state just after a PATCH has committed state `c` and evicted the key: if none of the
   requests that were overtaken by the commit stores its old reading, every later answer for the
   project, other than to those requests themselves, shows state `c` or a later one.
   */
  lemma {:induction false} PatchedStateIsSeen(key: Keying, s: State, steps: seq<Step>, org: nat, id: nat, c: nat, late: set<nat>, i: nat)
    requires Distinguishes(key)
    requires Inv(key, s) && Legal(key, s, steps)
    requires FreshFrom(key, s, org, id, c, late)
    requires NoneStores(steps, late)
    requires |s.served| <= i < |Run(key, s, steps).served|
    ensures var v := Run(key, s, steps).served[i];
            v.org == org && v.id == id && v.req !in late ==> v.reading.index >= c
    decreases |steps|
  {
    if steps != [] {
      var step := steps[0];
      var s' := Next(key, s, step);
      NoneStoresLater(steps, late);
      FreshStep(key, s, step, org, id, c, late);
      StepKeeps(key, s, step);
      ServedGrows(key, s', steps[1..]);
      if i < |s'.served| {
        AnswerIsFresh(key, s, step, org, id, c, late);
        assert i == |s.served|;
      } else {
        PatchedStateIsSeen(key, s', steps[1..], org, id, c, late, i);
      }
    }
  }

  lemma {:induction false} LegalParts(key: Keying, s: State, a: seq<Step>, b: seq<Step>)
    requires Legal(key, s, a + b)
    ensures Legal(key, s, a) && Legal(key, Run(key, s, a), b) && Run(key, Run(key, s, a), b) == Run(key, s, a + b)
    decreases |a|
  {
    if a == [] {
      assert a + b == b;
    } else {
      assert (a + b)[1..] == a[1..] + b;
      LegalParts(key, Next(key, s, a[0]), a[1..], b);
    }
  }

  /** A successful eviction leaves nothing older than its PATCH in the cache. */
  lemma EvictionEstablishesFreshness(key: Keying, s: State, at: real, req: nat)
    requires Inv(key, s) && Enabled(s, Evict(at, req, true))
    ensures var p := s.patches[req];
            FreshFrom(key, Next(key, s, Evict(at, req, true)), p.org, p.id, p.index, Overtaken(s, p.id, p.index))
  {
    assert PatchOk(s, s.patches[req]);
  }

  /**
   In every run from the start: if a PATCH evicts its project's entry with success, and none of the
   requests that had by then read a state older than the one it committed stores it later, then every
   later answer for the project, other than to those requests themselves, shows a state at least as
   new as the one that the PATCH committed.
   */
  lemma PatchedStateIsServed(key: Keying, before: seq<Step>, at: real, req: nat, after: seq<Step>, i: nat)
    requires Distinguishes(key)
    requires Legal(key, Init, before + [Evict(at, req, true)] + after)
    requires Legal(key, Init, before) && req in Run(key, Init, before).patches
    requires var s := Run(key, Init, before); var p := s.patches[req];
             && NoneStores(after, Overtaken(s, p.id, p.index))
             && |s.served| <= i < |Run(key, Init, before + [Evict(at, req, true)] + after).served|
    ensures var s := Run(key, Init, before); var p := s.patches[req];
            var v := Run(key, Init, before + [Evict(at, req, true)] + after).served[i];
            && v.at >= at
            && (v.org == p.org && v.id == p.id && v.req !in Overtaken(s, p.id, p.index) ==> v.reading.index >= p.index)
  {
    var s, evict := Run(key, Init, before), Evict(at, req, true);
    InvHolds(key, Init, before);
    LegalParts(key, Init, before + [evict], after);
    LegalParts(key, Init, before, [evict]);
    var s' := Next(key, s, evict);
    assert [evict][1..] == [] && Legal(key, s', []) && Run(key, s', []) == s';
    EvictionEstablishesFreshness(key, s, at, req);
    StepKeeps(key, s, evict);
    var p := s.patches[req];
    PatchedStateIsSeen(key, s', after, p.org, p.id, p.index, Overtaken(s, p.id, p.index), i);
    ServedLater(key, s', after, i);
  }

  lemma {:induction false} ServedLater(key: Keying, s: State, steps: seq<Step>, i: nat)
    requires Legal(key, s, steps)
    requires |s.served| <= i < |Run(key, s, steps).served|
    ensures Run(key, s, steps).served[i].at >= s.now
    decreases |steps|
  {
    if steps != [] {
      var s' := Next(key, s, steps[0]);
      ServedGrows(key, s', steps[1..]);
      if i >= |s'.served| {
        ServedLater(key, s', steps[1..], i);
      }
    }
  }

  // ----- the exact condition -----

  ghost predicate Leads(key: Keying, s: State, steps: seq<Step>, s': State) {
    Legal(key, s, steps) && Run(key, s, steps) == s'
  }

  lemma LeadsOn(key: Keying, s: State, step: Step, rest: seq<Step>, s': State)
    requires Enabled(s, step) && Leads(key, Next(key, s, step), rest, s')
    ensures Leads(key, s, [step] + rest, s')
  {
    assert ([step] + rest)[1..] == rest;
  }

  ghost predicate AnswersFresh(key: Keying, s: State, steps: seq<Step>, org: nat, id: nat, c: nat, late: set<nat>)
    requires Legal(key, s, steps)
  {
    forall i :: |s.served| <= i < |Run(key, s, steps).served| ==> AnswerFresh(Run(key, s, steps).served[i], org, id, c, late)
  }

  predicate AnswerFresh(v: Served, org: nat, id: nat, c: nat, late: set<nat>) {
    v.org == org && v.id == id && v.req !in late ==> v.reading.index >= c
  }

  /** An overtaken request that stores makes the next GET within the time to live stale. */
  lemma OvertakenStoreSpoils(key: Keying, s: State, late: nat, newcomer: nat, c: nat)
    requires late in s.gets && s.gets[late].Fetched? && s.gets[late].reading.index < c
    requires Named(s.gets[late].org, s.gets[late].id) && newcomer !in s.gets
    ensures var g := s.gets[late]; var steps := [Store(s.now, late, true)] + ([Lookup(s.now, newcomer, g.org, g.id, true)] + []);
            && Legal(key, s, steps)
            && |Run(key, s, steps).served| == |s.served| + 2
            && Run(key, s, steps).served[|s.served| + 1] == Served(newcomer, g.org, g.id, g.reading, s.now, s.now)
  {
    var g := s.gets[late];
    var store, lookup := Store(s.now, late, true), Lookup(s.now, newcomer, g.org, g.id, true);
    var s1 := Next(key, s, store);
    var s2 := Next(key, s1, lookup);
    assert Hit(s1, s.now, key(g.org, g.id), true);
    assert Legal(key, s2, []) && Run(key, s2, []) == s2;
    LeadsOn(key, s1, lookup, [], s2);
    LeadsOn(key, s, store, [lookup] + [], s2);
  }

  lemma OvertakenSameProject(key: Keying, s: State, late: nat, p: Patch)
    requires Inv(key, s) && PatchOk(s, p) && late in Overtaken(s, p.id, p.index)
    ensures s.gets[late].org == p.org && s.gets[late].id == p.id && Named(p.org, p.id)
  {
    assert GettingOk(s, late) && HistoryOk(s, p.id);
  }

  lemma NothingOvertakenIsFresh(key: Keying, s: State, steps: seq<Step>, org: nat, id: nat, c: nat)
    requires Distinguishes(key)
    requires Inv(key, s) && FreshFrom(key, s, org, id, c, {}) && Legal(key, s, steps)
    ensures AnswersFresh(key, s, steps, org, id, c, {})
  {
    forall i | |s.served| <= i < |Run(key, s, steps).served| ensures AnswerFresh(Run(key, s, steps).served[i], org, id, c, {}) {
      PatchedStateIsSeen(key, s, steps, org, id, c, {}, i);
    }
  }

  lemma OvertakenIsStale(key: Keying, s: State, late: nat, newcomer: nat, c: nat, all: set<nat>) returns (steps: seq<Step>)
    requires late in s.gets && s.gets[late].Fetched? && s.gets[late].reading.index < c
    requires Named(s.gets[late].org, s.gets[late].id) && newcomer !in s.gets && newcomer !in all
    ensures Legal(key, s, steps) && !AnswersFresh(key, s, steps, s.gets[late].org, s.gets[late].id, c, all)
  {
    OvertakenStoreSpoils(key, s, late, newcomer, c);
    var g := s.gets[late];
    steps := [Store(s.now, late, true)] + ([Lookup(s.now, newcomer, g.org, g.id, true)] + []);
    assert !AnswerFresh(Run(key, s, steps).served[|s.served| + 1], g.org, g.id, c, all);
  }

  /**
   The exact condition for a PATCH to be seen, at the time of its eviction: whatever runs afterwards,
   all answers for the project, to requests other than the overtaken ones, are at least as new as
   what it committed, if and only if no request is overtaken.
   */
  lemma PatchIsSeenIffNothingIsOvertaken(key: Keying, before: seq<Step>, at: real, req: nat)
    requires Distinguishes(key)
    requires Legal(key, Init, before) && Enabled(Run(key, Init, before), Evict(at, req, true))
    ensures var s := Run(key, Init, before); var p := s.patches[req];
            var late, s' := Overtaken(s, p.id, p.index), Next(key, s, Evict(at, req, true));
            (forall steps :: Legal(key, s', steps) ==> AnswersFresh(key, s', steps, p.org, p.id, p.index, late)) <==> late == {}
  {
    var s, evict := Run(key, Init, before), Evict(at, req, true);
    InvHolds(key, Init, before);
    var p := s.patches[req];
    var late, s' := Overtaken(s, p.id, p.index), Next(key, s, evict);
    EvictionEstablishesFreshness(key, s, at, req);
    StepKeeps(key, s, evict);
    if late == {} {
      forall steps | Legal(key, s', steps) ensures AnswersFresh(key, s', steps, p.org, p.id, p.index, late) {
        NothingOvertakenIsFresh(key, s', steps, p.org, p.id, p.index);
      }
    } else {
      var r :| r in late;
      assert PatchOk(s, p);
      OvertakenSameProject(key, s, r, p);
      var largest := FiniteSets.HasLargest(s.gets.Keys);
      var steps := OvertakenIsStale(key, s', r, largest + 1, p.index, late);
    }
  }

  // ----- the failing case -----

  /** A GET of project version 0 that is overtaken by a PATCH to version 1 and its eviction. */
  function Overtaking(row: ProjectOcc.Project, row': ProjectOcc.Project): seq<Step> {
    [CreateProject(0.0, row)] + ([Lookup(1.0, 0, row.org, row.id, true)] + ([ReadRow(2.0, 0)]
    + ([Commit(3.0, 9, row')] + ([Evict(4.0, 9, true)] + []))))
  }

  function WhenOvertaken(row: ProjectOcc.Project, row': ProjectOcc.Project): State {
    State(4.0, map[row.id := [Committed(row, 0.0), Committed(row', 3.0)]], map[],
          map[0 := Fetched(row.org, row.id, Reading(row, 0, 2.0))], map[], [])
  }

  lemma OvertakingIsLegal(key: Keying, row: ProjectOcc.Project, row': ProjectOcc.Project)
    requires Named(row.org, row.id) && row'.id == row.id && row'.org == row.org
    ensures Leads(key, Init, Overtaking(row, row'), WhenOvertaken(row, row'))
  {
    var s1 := State(0.0, map[row.id := [Committed(row, 0.0)]], map[], map[], map[], []);
    var s2 := s1.(now := 1.0, gets := map[0 := Missed(row.org, row.id)]);
    var s3 := s1.(now := 2.0, gets := map[0 := Fetched(row.org, row.id, Reading(row, 0, 2.0))]);
    var s4 := s3.(now := 3.0,
                  db := map[row.id := [Committed(row, 0.0), Committed(row', 3.0)]],
                  patches := map[9 := Patch(row.org, row.id, 1)]);
    var s5 := WhenOvertaken(row, row');
    assert Next(key, Init, CreateProject(0.0, row)) == s1;
    assert Next(key, s1, Lookup(1.0, 0, row.org, row.id, true)) == s2;
    assert Next(key, s2, ReadRow(2.0, 0)) == s3;
    assert s3.db[row.id] + [Committed(row', 3.0)] == [Committed(row, 0.0), Committed(row', 3.0)];
    assert Next(key, s3, Commit(3.0, 9, row')) == s4;
    assert Next(key, s4, Evict(4.0, 9, true)) == s5;
    assert Legal(key, s5, []) && Run(key, s5, []) == s5;
    LeadsOn(key, s4, Evict(4.0, 9, true), [], s5);
    LeadsOn(key, s3, Commit(3.0, 9, row'), [Evict(4.0, 9, true)] + [], s5);
    LeadsOn(key, s2, ReadRow(2.0, 0), [Commit(3.0, 9, row')] + ([Evict(4.0, 9, true)] + []), s5);
    LeadsOn(key, s1, Lookup(1.0, 0, row.org, row.id, true),
            [ReadRow(2.0, 0)] + ([Commit(3.0, 9, row')] + ([Evict(4.0, 9, true)] + [])), s5);
    LeadsOn(key, Init, CreateProject(0.0, row),
            [Lookup(1.0, 0, row.org, row.id, true)] + ([ReadRow(2.0, 0)] + ([Commit(3.0, 9, row')] + ([Evict(4.0, 9, true)] + []))), s5);
  }

  /**
   The condition is needed. A run from the start: a GET reads the project, a PATCH commits a new state
   and evicts, the GET stores what it had read, and a GET that starts two seconds after the PATCH is
   answered, like every one in the next 300 seconds, with the state from before.
   */
  lemma OvertakenStoreIsServed(key: Keying, row: ProjectOcc.Project, row': ProjectOcc.Project, t: real)
    requires Named(row.org, row.id) && row'.id == row.id && row'.org == row.org
    requires 6.0 <= t < 5.0 + 300.0
    ensures var steps := Overtaking(row, row') + ([Store(5.0, 0, true)] + ([Lookup(t, 1, row.org, row.id, true)] + []));
            && Legal(key, Init, steps)
            && Run(key, Init, steps).db == map[row.id := [Committed(row, 0.0), Committed(row', 3.0)]]
            && Run(key, Init, steps).served == [Served(0, row.org, row.id, Reading(row, 0, 2.0), 5.0, 5.0),
                                                Served(1, row.org, row.id, Reading(row, 0, 2.0), 5.0, t)]
  {
    var s := WhenOvertaken(row, row');
    var store, lookup := Store(5.0, 0, true), Lookup(t, 1, row.org, row.id, true);
    var s1 := Next(key, s, store);
    var s2 := Next(key, s1, lookup);
    assert Hit(s1, t, key(row.org, row.id), true);
    assert Legal(key, s2, []) && Run(key, s2, []) == s2;
    LeadsOn(key, s1, lookup, [], s2);
    LeadsOn(key, s, store, [lookup] + [], s2);
    OvertakingIsLegal(key, row, row');
    LeadsTogether(key, Init, Overtaking(row, row'), s, [store] + ([lookup] + []), s2);
  }

  lemma {:induction false} LeadsTogether(key: Keying, s: State, a: seq<Step>, mid: State, b: seq<Step>, end: State)
    requires Leads(key, s, a, mid) && Leads(key, mid, b, end)
    ensures Leads(key, s, a + b, end)
    decreases |a|
  {
    if a == [] {
      assert a + b == b;
    } else {
      LeadsTogether(key, Next(key, s, a[0]), a[1..], mid, b, end);
      assert (a + b)[1..] == a[1..] + b;
    }
  }
}
