/** The cached project endpoint when requests run one after another: the cache cannot be told from the table. */
module CacheSerial {
  import opened CacheAside
  import ProjectOcc

  /** A whole request, with the times of its steps; evictions succeed, other cache calls may fail. */
  datatype Request =
    | Create(at: real, row: ProjectOcc.Project)
    | Get(looked: real, read: real, stored: real, req: nat, org: nat, id: nat, getUp: bool, setUp: bool)
    | Patch(committed: real, evicted: real, req: nat, row: ProjectOcc.Project)

  /** The tenant's row as the uncached GET would find it. */
  predicate Visible(s: State, org: nat, id: nat) {
    id in s.db && s.db[id] != [] && s.db[id][0].row.org == org
  }

  predicate Possible(s: State, r: Request) {
    match r
    case Create(at, row) => s.now <= at && row.id !in s.db && Named(row.org, row.id)
    case Get(looked, read, stored, _, org, id, _, _) => s.now <= looked <= read <= stored && Named(org, id)
    case Patch(committed, evicted, _, row) => s.now <= committed <= evicted && Visible(s, row.org, row.id)
  }

  function StepsOf(key: Keying, s: State, r: Request): seq<Step> {
    match r
    case Create(at, row) => [CreateProject(at, row)] + []
    case Get(looked, read, stored, req, org, id, getUp, setUp) =>
      [Lookup(looked, req, org, id, getUp)]
      + (if Hit(s, looked, key(org, id), getUp) then []
         else [ReadRow(read, req)] + (if Visible(s, org, id) then [Store(stored, req, setUp)] + [] else []))
    case Patch(committed, evicted, req, row) => [Commit(committed, req, row)] + ([Evict(evicted, req, true)] + [])
  }

  /** No request is under way, and every cache entry is the latest state of its project. */
  ghost predicate Settled(key: Keying, s: State) {
    && Inv(key, s) && s.gets == map[] && s.patches == map[]
    && forall name :: name in s.cache ==> IsLatest(s, s.cache[name].reading)
  }

  predicate IsLatest(s: State, r: Reading) {
    r.row.id in s.db && r.index + 1 == |s.db[r.row.id]|
  }

  lemma CreateStaysSettled(key: Keying, s: State, r: Request, s': State)
    requires Settled(key, s) && Possible(s, r) && r.Create?
    requires s' == Next(key, s, CreateProject(r.at, r.row))
    ensures Settled(key, s')
  {
    CreateKeeps(key, s, CreateProject(r.at, r.row));
    forall name | name in s'.cache ensures IsLatest(s', s'.cache[name].reading) {
      assert IsLatest(s, s.cache[name].reading);
    }
  }

  lemma CreateRuns(key: Keying, s: State, r: Request)
    requires Settled(key, s) && Possible(s, r) && r.Create?
    ensures Legal(key, s, StepsOf(key, s, r)) && Settled(key, Run(key, s, StepsOf(key, s, r)))
  {
    var s' := Next(key, s, CreateProject(r.at, r.row));
    CreateStaysSettled(key, s, r, s');
    assert Leads(key, s', [], s');
    LeadsOn(key, s, CreateProject(r.at, r.row), [], s');
  }

  /** The commit spoils no other project's entry. */
  lemma CommitSpoilsOne(key: Keying, s: State, r: Request, s1: State)
    requires Settled(key, s) && Possible(s, r) && r.Patch?
    requires Enabled(s, Commit(r.committed, r.req, r.row)) && s1 == Next(key, s, Commit(r.committed, r.req, r.row))
    ensures forall name :: name in s1.cache && name != key(r.row.org, r.row.id) ==> IsLatest(s1, s1.cache[name].reading)
  {
    forall name | name in s1.cache && name != key(r.row.org, r.row.id) ensures IsLatest(s1, s1.cache[name].reading) {
      assert IsLatest(s, s.cache[name].reading) && EntryOk(key, s, name);
      assert HistoryOk(s, r.row.id);
    }
  }

  /** Its own entry is evicted. */
  lemma EvictSettles(key: Keying, s: State, org: nat, id: nat, evict: Step, s': State)
    requires Inv(key, s) && s.gets == map[] && evict.Evict? && evict.ok && Enabled(s, evict) && s' == Next(key, s, evict)
    requires s.patches.Keys == {evict.req} && s.patches[evict.req].org == org && s.patches[evict.req].id == id
    requires forall name :: name in s.cache && name != key(org, id) ==> IsLatest(s, s.cache[name].reading)
    ensures Settled(key, s')
  {
    EvictKeeps(key, s, evict);
    assert s'.patches == map[];
    forall name | name in s'.cache ensures IsLatest(s', s'.cache[name].reading) {
      assert IsLatest(s, s.cache[name].reading);
    }
  }

  lemma PatchRuns(key: Keying, s: State, r: Request)
    requires Settled(key, s) && Possible(s, r) && r.Patch?
    ensures Legal(key, s, StepsOf(key, s, r)) && Settled(key, Run(key, s, StepsOf(key, s, r)))
  {
    var commit, evict := Commit(r.committed, r.req, r.row), Evict(r.evicted, r.req, true);
    var s1 := Next(key, s, commit);
    CommitKeeps(key, s, commit);
    CommitSpoilsOne(key, s, r, s1);
    var s2 := Next(key, s1, evict);
    EvictSettles(key, s1, r.row.org, r.row.id, evict, s2);
    assert Leads(key, s2, [], s2);
    LeadsOn(key, s1, evict, [], s2);
    LeadsOn(key, s, commit, [evict] + [], s2);
  }

  /** One answer, with the project's latest state, if the tenant has the project, and none otherwise; nothing is written. */
  ghost predicate AnswersLikeUncached(s: State, r: Request, s': State)
    requires r.Get?
  {
    && s'.db == s.db
    && if Visible(s, r.org, r.id) then
         && |s'.served| == |s.served| + 1 && s.served <= s'.served
         && var v := s'.served[|s.served|];
            && v.req == r.req && v.org == r.org && v.id == r.id
            && v.reading.index + 1 == |s.db[r.id]|
            && v.reading.row == s.db[r.id][|s.db[r.id]| - 1].row
       else s'.served == s.served
  }

  lemma HitRuns(key: Keying, s: State, r: Request)
    requires Distinguishes(key) && Settled(key, s) && Possible(s, r) && r.Get?
    requires Hit(s, r.looked, key(r.org, r.id), r.getUp)
    ensures Legal(key, s, StepsOf(key, s, r)) && Settled(key, Run(key, s, StepsOf(key, s, r)))
    ensures AnswersLikeUncached(s, r, Run(key, s, StepsOf(key, s, r)))
  {
    var lookup := Lookup(r.looked, r.req, r.org, r.id, r.getUp);
    var s' := Next(key, s, lookup);
    HitKeeps(key, s, lookup);
    HitIsGenuine(key, s, lookup);
    assert HistoryOk(s, r.id) && IsLatest(s, s.cache[key(r.org, r.id)].reading);
    forall name | name in s'.cache ensures IsLatest(s', s'.cache[name].reading) {
      assert IsLatest(s, s.cache[name].reading);
    }
    assert Leads(key, s', [], s');
    LeadsOn(key, s, lookup, [], s');
  }

  /** The states that a missing GET passes through. */
  function AfterMiss(s: State, r: Request): State
    requires r.Get?
  {
    s.(now := r.looked, gets := map[r.req := Missed(r.org, r.id)])
  }

  function AfterRead(s: State, r: Request): State
    requires r.Get? && Visible(s, r.org, r.id)
  {
    var n := Latest(s, r.id);
    s.(now := r.read, gets := map[r.req := Fetched(r.org, r.id, Reading(s.db[r.id][n].row, n, r.read))])
  }

  lemma MissStep(key: Keying, s: State, r: Request)
    requires Settled(key, s) && Possible(s, r) && r.Get? && !Hit(s, r.looked, key(r.org, r.id), r.getUp)
    ensures var lookup := Lookup(r.looked, r.req, r.org, r.id, r.getUp);
            Enabled(s, lookup) && Next(key, s, lookup) == AfterMiss(s, r) && Inv(key, AfterMiss(s, r))
  {
    MissKeeps(key, s, Lookup(r.looked, r.req, r.org, r.id, r.getUp));
  }

  lemma AbsentRuns(key: Keying, s: State, r: Request)
    requires Settled(key, s) && Possible(s, r) && r.Get? && !Hit(s, r.looked, key(r.org, r.id), r.getUp)
    requires !Visible(s, r.org, r.id)
    ensures Legal(key, s, StepsOf(key, s, r)) && Settled(key, Run(key, s, StepsOf(key, s, r)))
    ensures AnswersLikeUncached(s, r, Run(key, s, StepsOf(key, s, r)))
  {
    var lookup, read := Lookup(r.looked, r.req, r.org, r.id, r.getUp), ReadRow(r.read, r.req);
    MissStep(key, s, r);
    var s1 := AfterMiss(s, r);
    var s2 := Next(key, s1, read);
    ReadKeeps(key, s1, read);
    assert s2 == s.(now := r.read, gets := map[]);
    forall name | name in s2.cache ensures IsLatest(s2, s2.cache[name].reading) {
      assert IsLatest(s, s.cache[name].reading);
    }
    assert Leads(key, s2, [], s2);
    LeadsOn(key, s1, read, [], s2);
    LeadsOn(key, s, lookup, [read] + [], s2);
  }

  lemma StoreStaysSettled(key: Keying, s: State, r: Request, s3: State)
    requires Settled(key, s) && Possible(s, r) && r.Get? && Visible(s, r.org, r.id)
    requires Inv(key, AfterRead(s, r)) && s3 == Next(key, AfterRead(s, r), Store(r.stored, r.req, r.setUp))
    ensures Settled(key, s3) && AnswersLikeUncached(s, r, s3)
  {
    var s2 := AfterRead(s, r);
    StoreKeeps(key, s2, Store(r.stored, r.req, r.setUp));
    assert s3.gets == map[];
    assert HistoryOk(s, r.id);
    forall name | name in s3.cache ensures IsLatest(s3, s3.cache[name].reading) {
      assert name in s.cache ==> IsLatest(s, s.cache[name].reading);
    }
  }

  lemma MissRuns(key: Keying, s: State, r: Request)
    requires Settled(key, s) && Possible(s, r) && r.Get? && !Hit(s, r.looked, key(r.org, r.id), r.getUp)
    requires Visible(s, r.org, r.id)
    ensures Legal(key, s, StepsOf(key, s, r)) && Settled(key, Run(key, s, StepsOf(key, s, r)))
    ensures AnswersLikeUncached(s, r, Run(key, s, StepsOf(key, s, r)))
  {
    var lookup, read, store := Lookup(r.looked, r.req, r.org, r.id, r.getUp), ReadRow(r.read, r.req), Store(r.stored, r.req, r.setUp);
    MissStep(key, s, r);
    var s1, s2 := AfterMiss(s, r), AfterRead(s, r);
    assert Next(key, s1, read) == s2;
    ReadKeeps(key, s1, read);
    var s3 := Next(key, s2, store);
    StoreStaysSettled(key, s, r, s3);
    assert Leads(key, s3, [], s3);
    LeadsOn(key, s2, store, [], s3);
    LeadsOn(key, s1, read, [store] + [], s3);
    LeadsOn(key, s, lookup, [read] + ([store] + []), s3);
  }

  lemma RequestRuns(key: Keying, s: State, r: Request)
    requires Distinguishes(key) && Settled(key, s) && Possible(s, r)
    ensures Legal(key, s, StepsOf(key, s, r)) && Settled(key, Run(key, s, StepsOf(key, s, r)))
    ensures r.Get? ==> AnswersLikeUncached(s, r, Run(key, s, StepsOf(key, s, r)))
  {
    match r {
      case Create(_, _) => CreateRuns(key, s, r);
      case Patch(_, _, _, _) => PatchRuns(key, s, r);
      case Get(looked, _, _, _, org, id, getUp, _) =>
        if Hit(s, looked, key(org, id), getUp) {
          HitRuns(key, s, r);
        } else if Visible(s, org, id) {
          MissRuns(key, s, r);
        } else {
          AbsentRuns(key, s, r);
        }
    }
  }

  /** `states[n]` is the state before request `n`; each request runs to its end before the next one starts. */
  ghost predicate IsSerialRun(key: Keying, requests: seq<Request>, states: seq<State>) {
    && |states| == |requests| + 1 && states[0] == Init
    && forall n: nat :: n < |requests| ==> RunsFrom(key, requests, states, n)
  }

  ghost predicate RunsFrom(key: Keying, requests: seq<Request>, states: seq<State>, n: nat)
    requires n < |requests| && |states| == |requests| + 1
  {
    Possible(states[n], requests[n]) && Leads(key, states[n], StepsOf(key, states[n], requests[n]), states[n + 1])
  }

  lemma {:induction false} SerialStatesAreSettled(key: Keying, requests: seq<Request>, states: seq<State>, n: nat)
    requires Distinguishes(key) && IsSerialRun(key, requests, states) && n <= |requests|
    ensures Settled(key, states[n])
    decreases n
  {
    if n > 0 {
      SerialStatesAreSettled(key, requests, states, n - 1);
      assert RunsFrom(key, requests, states, n - 1);
      RequestRuns(key, states[n - 1], requests[n - 1]);
    }
  }

  /**
   In every run from the empty cache in which requests do not overlap and evictions succeed, whatever
   time passes and whichever other cache calls fail: each GET answers exactly what the uncached GET
   would, the latest committed state of the tenant's project, or nothing if there is none.
   */
  lemma SerialGetsAreUncached(key: Keying, requests: seq<Request>, states: seq<State>, n: nat)
    requires Distinguishes(key) && IsSerialRun(key, requests, states)
    requires n < |requests| && requests[n].Get?
    ensures AnswersLikeUncached(states[n], requests[n], states[n + 1])
  {
    SerialStatesAreSettled(key, requests, states, n);
    assert RunsFrom(key, requests, states, n);
    RequestRuns(key, states[n], requests[n]);
  }

  /** Any request that is possible may come next: nothing else holds up a serial run. */
  lemma SerialRunGoesOn(key: Keying, requests: seq<Request>, states: seq<State>, r: Request) returns (s': State)
    requires Distinguishes(key) && IsSerialRun(key, requests, states)
    requires Possible(states[|requests|], r)
    ensures IsSerialRun(key, requests + [r], states + [s'])
  {
    var s := states[|requests|];
    SerialStatesAreSettled(key, requests, states, |requests|);
    RequestRuns(key, s, r);
    s' := Run(key, s, StepsOf(key, s, r));
    var all, more := requests + [r], states + [s'];
    forall n: nat | n < |all| ensures RunsFrom(key, all, more, n) {
      if n < |requests| {
        assert RunsFrom(key, requests, states, n);
      }
    }
  }
}
