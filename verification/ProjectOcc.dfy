/**
 Project updates: the service reads the row, compares versions in Python, and later writes the
 changed columns with no version test in the UPDATE. Run one after another they behave like
 compare-and-swap; interleaved they may lose updates, and this module says exactly when.
 */
module ProjectOcc {
  import opened Wrappers
  import opened Text

  datatype Project = Project(id: nat, org: nat, team: Option<nat>, name: string, key: string,
                             description: Option<string>, isArchived: bool, version: int)

  datatype Payload = Payload(name: Option<string>, description: Option<string>, team: Option<nat>,
                             isArchived: Option<bool>, expected: int)

  /** The fields that an audit record of a project shows. */
  datatype Shown = Shown(name: string, description: Option<string>, isArchived: bool, version: int)

  function ShownOf(p: Project): Shown {
    Shown(p.name, p.description, p.isArchived, p.version)
  }

  /** The loaded object after the service assigned the payload's fields and bumped the version. */
  function Changed(p: Project, w: Payload): Project {
    p.(name := if w.name.Some? then Strip(w.name.value) else p.name,
       description := if w.description.Some? then w.description else p.description,
       team := if w.team.Some? then w.team else p.team,
       isArchived := if w.isArchived.Some? then w.isArchived.value else p.isArchived,
       version := p.version + 1)
  }

  /** The UPDATE that a flush sends: the columns whose loaded value changed, by primary key alone. */
  function Flushed(row: Project, loaded: Project, dirty: Project): Project {
    row.(name := if dirty.name != loaded.name then dirty.name else row.name,
         description := if dirty.description != loaded.description then dirty.description else row.description,
         team := if dirty.team != loaded.team then dirty.team else row.team,
         isArchived := if dirty.isArchived != loaded.isArchived then dirty.isArchived else row.isArchived,
         version := if dirty.version != loaded.version then dirty.version else row.version)
  }

  datatype Commit = Commit(before: Shown, after: Shown, readAt: nat)

  /** One project row, the updates committed on it, and the requests that have loaded it. */
  datatype State = State(row: Project, commits: seq<Commit>, pending: map<nat, Pending>)

  /** `readAt` counts the commits that had happened when the row was loaded. */
  datatype Pending = Pending(loaded: Project, payload: Payload, readAt: nat)

  datatype Step = Load(req: nat, payload: Payload) | Flush(req: nat)

  function Start(row: Project): State {
    State(row, [], map[])
  }

  predicate Enabled(s: State, step: Step) {
    match step
    case Load(req, _) => req !in s.pending
    case Flush(req) => req in s.pending
  }

  /** A load that finds another version than expected is answered with a conflict and forgotten. */
  function Next(s: State, step: Step): State
    requires Enabled(s, step)
  {
    match step
    case Load(req, payload) =>
      if s.row.version != payload.expected then s
      else s.(pending := s.pending[req := Pending(s.row, payload, |s.commits|)])
    case Flush(req) =>
      var p := s.pending[req];
      var dirty := Changed(p.loaded, p.payload);
      State(Flushed(s.row, p.loaded, dirty),
            s.commits + [Commit(ShownOf(p.loaded), ShownOf(dirty), p.readAt)],
            s.pending - {req})
  }

  ghost predicate Legal(s: State, steps: seq<Step>)
    decreases |steps|
  {
    steps == [] || (Enabled(s, steps[0]) && Legal(Next(s, steps[0]), steps[1..]))
  }

  function Run(s: State, steps: seq<Step>): State
    requires Legal(s, steps)
    decreases |steps|
  {
    if steps == [] then s else Run(Next(s, steps[0]), steps[1..])
  }

  /** The version of the row after its first `n` commits. */
  function VersionAfter(commits: seq<Commit>, n: nat): int
    requires n <= |commits|
  {
    if n == 0 then 1 else commits[n - 1].after.version
  }

  /** Commit `j` was computed from the row as the previous commit left it. */
  ghost predicate FreshAt(commits: seq<Commit>, j: nat)
    requires j < |commits|
  {
    commits[j].readAt == j
  }

  ghost predicate AllFresh(commits: seq<Commit>) {
    forall j: nat :: j < |commits| ==> FreshAt(commits, j)
  }

  /** Commit `j` saw the version that the row had when it was read, and wrote the next one. */
  ghost predicate CommitOk(commits: seq<Commit>, j: nat)
    requires j < |commits|
  {
    && commits[j].readAt <= j
    && commits[j].before.version == VersionAfter(commits, commits[j].readAt)
    && commits[j].after.version == commits[j].before.version + 1
  }

  ghost predicate CommitsOk(commits: seq<Commit>) {
    forall j: nat :: j < |commits| ==> CommitOk(commits, j)
  }

  ghost predicate PendingOk(s: State, p: Pending) {
    && p.readAt <= |s.commits|
    && p.loaded.version == VersionAfter(s.commits, p.readAt) == p.payload.expected
    && (p.readAt == |s.commits| ==> p.loaded == s.row)
  }

  /** If every commit was fresh, each record's before-state is the previous record's after-state. */
  ghost predicate ChainFrom(first: Shown, commits: seq<Commit>) {
    forall j: nat :: j < |commits| ==> commits[j].before == StateAfter(first, commits, j)
  }

  /** What the audit trail shows after its first `n` records. */
  function StateAfter(first: Shown, commits: seq<Commit>, n: nat): Shown
    requires n <= |commits|
  {
    if n == 0 then first else commits[n - 1].after
  }

  ghost predicate Inv(first: Shown, s: State) {
    && CommitsOk(s.commits)
    && s.row.version == VersionAfter(s.commits, |s.commits|)
    && (forall req :: req in s.pending ==> PendingOk(s, s.pending[req]))
    && (AllFresh(s.commits) ==>
          && ChainFrom(first, s.commits)
          && ShownOf(s.row) == StateAfter(first, s.commits, |s.commits|))
  }

  lemma CommitsAppend(commits: seq<Commit>, c: Commit)
    requires CommitsOk(commits)
    requires c.readAt <= |commits| && c.before.version == VersionAfter(commits, c.readAt)
    requires c.after.version == c.before.version + 1
    ensures CommitsOk(commits + [c])
    ensures forall n: nat :: n <= |commits| ==> VersionAfter(commits + [c], n) == VersionAfter(commits, n)
    ensures AllFresh(commits + [c]) <==> AllFresh(commits) && c.readAt == |commits|
  {
    var all := commits + [c];
    forall j: nat | j < |all| ensures CommitOk(all, j) {
      if j < |commits| {
        assert CommitOk(commits, j);
      }
    }
    assert FreshAt(all, |commits|) <==> c.readAt == |commits|;
    assert forall j: nat :: j < |commits| ==> (FreshAt(all, j) <==> FreshAt(commits, j));
  }

  lemma FreshFlushKeepsChain(first: Shown, s: State, p: Pending, c: Commit)
    requires p.readAt == |s.commits| && p.loaded == s.row
    requires c == Commit(ShownOf(p.loaded), ShownOf(Changed(p.loaded, p.payload)), p.readAt)
    requires ChainFrom(first, s.commits)
    requires ShownOf(s.row) == StateAfter(first, s.commits, |s.commits|)
    ensures ChainFrom(first, s.commits + [c])
    ensures Flushed(s.row, p.loaded, Changed(p.loaded, p.payload)) == Changed(s.row, p.payload)
  {
    var all := s.commits + [c];
    forall j: nat | j < |all|
      ensures all[j].before == StateAfter(first, all, j)
    {
      assert StateAfter(first, all, j) == StateAfter(first, s.commits, j);
    }
  }

  lemma FlushKeepsInv(first: Shown, s: State, req: nat)
    requires Inv(first, s) && req in s.pending
    ensures Inv(first, Next(s, Flush(req)))
  {
    var p := s.pending[req];
    var c := Commit(ShownOf(p.loaded), ShownOf(Changed(p.loaded, p.payload)), p.readAt);
    assert PendingOk(s, p);
    CommitsAppend(s.commits, c);
    if AllFresh(s.commits + [c]) {
      FreshFlushKeepsChain(first, s, p, c);
    }
  }

  lemma {:induction false} InvHolds(first: Shown, s: State, steps: seq<Step>)
    requires Inv(first, s) && Legal(s, steps)
    ensures Inv(first, Run(s, steps))
    decreases |steps|
  {
    if steps != [] {
      if steps[0].Flush? {
        FlushKeepsInv(first, s, steps[0].req);
      }
      InvHolds(first, Next(s, steps[0]), steps[1..]);
    }
  }

  /** The successful updates expected the versions 1, 2, 3, ... in commit order. */
  ghost predicate OneWinnerPerVersion(commits: seq<Commit>) {
    forall j: nat :: j < |commits| ==> commits[j].before.version == j + 1
  }

  lemma {:induction false} VersionsLag(commits: seq<Commit>, n: nat)
    requires CommitsOk(commits) && n <= |commits|
    ensures VersionAfter(commits, n) <= n + 1
    ensures VersionAfter(commits, n) == n + 1 ==> forall j: nat :: j < n ==> FreshAt(commits, j)
    decreases n
  {
    if n > 0 {
      var c := commits[n - 1];
      assert CommitOk(commits, n - 1);
      VersionsLag(commits, c.readAt);
      VersionsLag(commits, n - 1);
    }
  }

  lemma {:induction false} FreshVersions(commits: seq<Commit>, n: nat)
    requires CommitsOk(commits) && n <= |commits|
    requires AllFresh(commits)
    ensures VersionAfter(commits, n) == n + 1
    decreases n
  {
    if n > 0 {
      FreshVersions(commits, n - 1);
      assert FreshAt(commits, n - 1) && CommitOk(commits, n - 1);
    }
  }

  /**
   Exactly when the version guard works: in every interleaving, the successes used up the versions
   1, 2, 3, ... one each, if and only if the stored version counts them, if and only if no update
   was committed between the read and the write of another.
   */
  lemma GuardWorksIffNoWriteIsStale(row: Project, steps: seq<Step>)
    requires row.version == 1
    requires Legal(Start(row), steps)
    ensures var s := Run(Start(row), steps);
            && (OneWinnerPerVersion(s.commits) <==> AllFresh(s.commits))
            && (s.row.version == 1 + |s.commits| <==> AllFresh(s.commits))
            && s.row.version <= 1 + |s.commits|
  {
    InvHolds(ShownOf(row), Start(row), steps);
    var commits := Run(Start(row), steps).commits;
    VersionsLag(commits, |commits|);
    if AllFresh(commits) {
      FreshVersions(commits, |commits|);
      forall j: nat | j < |commits|
        ensures commits[j].before.version == j + 1
      {
        assert FreshAt(commits, j) && CommitOk(commits, j);
        FreshVersions(commits, j);
      }
    }
    if OneWinnerPerVersion(commits) {
      forall j: nat | j < |commits| ensures FreshAt(commits, j) {
        assert CommitOk(commits, j);
        VersionsLag(commits, commits[j].readAt);
      }
    }
  }

  lemma {:induction false} ChainCounts(first: Shown, commits: seq<Commit>, n: nat)
    requires CommitsOk(commits) && ChainFrom(first, commits) && first.version == 1 && n <= |commits|
    ensures StateAfter(first, commits, n).version == n + 1
    decreases n
  {
    if n > 0 {
      ChainCounts(first, commits, n - 1);
      assert CommitOk(commits, n - 1);
    }
  }

  /**
   The audit records form one unbroken chain of states if and only if no write is stale; and then the
   chain ends in the stored row.
   */
  lemma AuditIsChainIffNoWriteIsStale(row: Project, steps: seq<Step>)
    requires row.version == 1
    requires Legal(Start(row), steps)
    ensures var s := Run(Start(row), steps);
            && (ChainFrom(ShownOf(row), s.commits) <==> AllFresh(s.commits))
            && (AllFresh(s.commits) ==> ShownOf(s.row) == StateAfter(ShownOf(row), s.commits, |s.commits|))
  {
    var commits := Run(Start(row), steps).commits;
    InvHolds(ShownOf(row), Start(row), steps);
    GuardWorksIffNoWriteIsStale(row, steps);
    if ChainFrom(ShownOf(row), commits) {
      forall j: nat | j < |commits| ensures commits[j].before.version == j + 1 {
        ChainCounts(ShownOf(row), commits, j);
      }
    }
  }

  /** The schedule in which requests run one after another: each load is followed at once by its own write. */
  function Serial(s: State, payloads: seq<Payload>): seq<Step>
    requires s.pending == map[]
    decreases |payloads|
  {
    if payloads == [] then []
    else
      var load := Load(0, payloads[0]);
      if s.row.version != payloads[0].expected then [load] + Serial(s, payloads[1..])
      else [load, Flush(0)] + Serial(Next(Next(s, load), Flush(0)), payloads[1..])
  }

  lemma {:induction false} SerialWritesAreFresh(s: State, payloads: seq<Payload>)
    requires s.pending == map[] && AllFresh(s.commits)
    ensures Legal(s, Serial(s, payloads))
    ensures AllFresh(Run(s, Serial(s, payloads)).commits)
    decreases |payloads|
  {
    if payloads != [] {
      var load := Load(0, payloads[0]);
      var steps := Serial(s, payloads);
      if s.row.version != payloads[0].expected {
        SerialWritesAreFresh(s, payloads[1..]);
        assert steps[1..] == Serial(s, payloads[1..]);
      } else {
        var s' := Next(Next(s, load), Flush(0));
        FreshAppend(s, payloads[0]);
        SerialWritesAreFresh(s', payloads[1..]);
        assert steps[1..][1..] == Serial(s', payloads[1..]);
        assert steps[1..][0] == Flush(0);
      }
    }
  }

  lemma FreshAppend(s: State, payload: Payload)
    requires s.pending == map[] && AllFresh(s.commits)
    requires s.row.version == payload.expected
    ensures var s' := Next(Next(s, Load(0, payload)), Flush(0)); s'.pending == map[] && AllFresh(s'.commits)
  {
    var s' := Next(Next(s, Load(0, payload)), Flush(0));
    forall j: nat | j < |s'.commits| ensures FreshAt(s'.commits, j) {
      if j < |s.commits| {
        assert FreshAt(s.commits, j);
      }
    }
  }

  /** Requests that do not overlap: one winner per version, an exact version count and an unbroken audit chain. */
  lemma SerialUpdatesAreGuarded(row: Project, payloads: seq<Payload>)
    requires row.version == 1
    ensures Legal(Start(row), Serial(Start(row), payloads))
    ensures var s := Run(Start(row), Serial(Start(row), payloads));
            && OneWinnerPerVersion(s.commits)
            && s.row.version == 1 + |s.commits|
            && ChainFrom(ShownOf(row), s.commits)
  {
    var steps := Serial(Start(row), payloads);
    SerialWritesAreFresh(Start(row), payloads);
    GuardWorksIffNoWriteIsStale(row, steps);
    AuditIsChainIffNoWriteIsStale(row, steps);
  }

  /**
   The failing case: two requests that both expect version 1 and both load before either writes are
   both accepted; the row ends at version 2, and the first request's name is silently overwritten.
   */
  lemma TwoOverlappingUpdatesBothWin(row: Project, a: Payload, b: Payload)
    requires row.version == 1 && a.expected == 1 && b.expected == 1
    requires a.name.Some? && b.name.Some? && Strip(b.name.value) != row.name
    ensures var steps := [Load(0, a), Load(1, b), Flush(0), Flush(1)];
            && Legal(Start(row), steps)
            && |Run(Start(row), steps).commits| == 2
            && Run(Start(row), steps).row.version == 2
            && Run(Start(row), steps).row.name == Strip(b.name.value)
  {
    var s0 := Start(row);
    var s1 := Next(s0, Load(0, a));
    var s2 := Next(s1, Load(1, b));
    var s3 := Next(s2, Flush(0));
    var s4 := Next(s3, Flush(1));
    var steps := [Load(0, a), Load(1, b), Flush(0), Flush(1)];
    assert steps[1..] == [Load(1, b), Flush(0), Flush(1)];
    assert steps[1..][1..] == [Flush(0), Flush(1)];
    assert steps[1..][1..][1..] == [Flush(1)];
    assert Legal(s4, []) && Run(s4, []) == s4;
    assert Legal(s3, [Flush(1)]) && Run(s3, [Flush(1)]) == s4 by { assert [Flush(1)][1..] == []; }
    assert Legal(s2, steps[1..][1..]) && Run(s2, steps[1..][1..]) == s4;
    assert Legal(s1, steps[1..]) && Run(s1, steps[1..]) == s4;
  }
}
