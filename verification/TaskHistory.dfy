/** What the interleavings of `TaskOcc` mean for a task's versions, its deletion and its audit trail. */
module TaskHistory {
  import opened TaskStore
  import opened TaskOcc
  import TaskApi

  // ----- versions -----

  /** No update of the task was committed between the load and the flush of an edit. */
  ghost predicate FreshAt(writes: seq<Outcome>, j: nat)
    requires j < |writes|
  {
    writes[j].FieldsSet? ==> UpdatesIn(Upto(writes, writes[j].readAt)) == UpdatesIn(writes[..j])
  }

  ghost predicate NoEditIsStale(writes: seq<Outcome>) {
    forall j: nat :: j < |writes| ==> FreshAt(writes, j)
  }

  /** The update at `j`, if it is one, expected one more than there were updates before it. */
  ghost predicate InOrderAt(writes: seq<Outcome>, j: nat)
    requires j < |writes|
  {
    IsUpdate(writes[j]) ==> writes[j].expected == UpdatesIn(writes[..j]) + 1
  }

  /** The successful updates expected 1, 2, 3, ... in commit order. */
  ghost predicate VersionsInOrder(writes: seq<Outcome>) {
    forall j: nat :: j < |writes| ==> InOrderAt(writes, j)
  }

  predicate Rivals(writes: seq<Outcome>, i: nat, j: nat)
    requires i < |writes| && j < |writes|
  {
    IsUpdate(writes[i]) && IsUpdate(writes[j]) && writes[i].expected == writes[j].expected
  }

  /** No two updates won the same version. */
  ghost predicate OneWinnerPerVersion(writes: seq<Outcome>) {
    forall i: nat, j: nat :: i < j < |writes| ==> !Rivals(writes, i, j)
  }

  lemma PrefixStep(writes: seq<Outcome>, n: nat)
    requires n < |writes|
    ensures writes[..n + 1][..n] == writes[..n] && writes[..n + 1][n] == writes[n] && |writes[..n + 1]| == n + 1
  {
  }

  lemma UpdatesStep(writes: seq<Outcome>, n: nat)
    requires n < |writes|
    ensures UpdatesIn(writes[..n + 1]) == UpdatesIn(writes[..n]) + (if IsUpdate(writes[n]) then 1 else 0)
  {
    PrefixStep(writes, n);
  }

  lemma VersionStep(writes: seq<Outcome>, n: nat)
    requires n < |writes|
    ensures VersionOf(writes[..n + 1]) == if IsUpdate(writes[n]) then writes[n].expected + 1 else VersionOf(writes[..n])
  {
    PrefixStep(writes, n);
  }

  lemma {:induction false} UpdatesGrow(writes: seq<Outcome>, m: nat, n: nat)
    requires m <= n <= |writes|
    ensures UpdatesIn(writes[..m]) <= UpdatesIn(writes[..n])
    decreases n
  {
    if m < n {
      UpdatesGrow(writes, m, n - 1);
      UpdatesStep(writes, n - 1);
    }
  }

  /** What write `j` was tested against. */
  lemma Tested(writes: seq<Outcome>, j: nat)
    requires WritesOk(writes) && j < |writes|
    ensures writes[j].StatusSet? || writes[j].FieldsSet? || writes[j].Deleted?
    ensures writes[j].StatusSet? ==> writes[j].readAt <= j && writes[j].expected == VersionOf(writes[..j])
    ensures writes[j].FieldsSet? ==>
              writes[j].readAt <= j && writes[j].expected == VersionOf(writes[..writes[j].readAt]) && !Gone(writes[..writes[j].readAt])
    ensures !writes[j].FieldsSet? ==> !Gone(writes[..j])
  {
    assert WriteOkAt(writes, j);
    assert forall n: nat :: n <= j ==> writes[..j][..n] == writes[..n];
  }

  /** The version lags behind the number of updates, by more than one as soon as an edit was stale. */
  lemma {:induction false} VersionLags(writes: seq<Outcome>, n: nat)
    requires WritesOk(writes) && n <= |writes|
    ensures VersionOf(writes[..n]) <= UpdatesIn(writes[..n]) + 1
    decreases n
  {
    if n > 0 {
      var o := writes[n - 1];
      Tested(writes, n - 1);
      VersionStep(writes, n - 1);
      UpdatesStep(writes, n - 1);
      VersionLags(writes, n - 1);
      if o.FieldsSet? {
        VersionLags(writes, o.readAt);
        UpdatesGrow(writes, o.readAt, n - 1);
      }
    }
  }

  lemma {:induction false} FreshVersions(writes: seq<Outcome>, n: nat)
    requires WritesOk(writes) && n <= |writes|
    requires forall j: nat :: j < n ==> FreshAt(writes, j)
    ensures VersionOf(writes[..n]) == UpdatesIn(writes[..n]) + 1
    decreases n
  {
    if n > 0 {
      var o := writes[n - 1];
      Tested(writes, n - 1);
      assert FreshAt(writes, n - 1);
      VersionStep(writes, n - 1);
      UpdatesStep(writes, n - 1);
      FreshVersions(writes, n - 1);
      if o.FieldsSet? {
        FreshVersions(writes, o.readAt);
      }
    }
  }

  lemma FreshIsInOrder(writes: seq<Outcome>, j: nat)
    requires WritesOk(writes) && NoEditIsStale(writes) && j < |writes|
    ensures InOrderAt(writes, j)
  {
    Tested(writes, j);
    assert FreshAt(writes, j);
    if IsUpdate(writes[j]) {
      FreshVersions(writes, if writes[j].FieldsSet? then writes[j].readAt else j);
    }
  }

  lemma {:induction false} FirstUpdate(writes: seq<Outcome>, m: nat, n: nat) returns (i: nat)
    requires m <= n <= |writes| && UpdatesIn(writes[..m]) < UpdatesIn(writes[..n])
    ensures m <= i < n && IsUpdate(writes[i]) && UpdatesIn(writes[..i]) == UpdatesIn(writes[..m])
    decreases n
  {
    UpdatesStep(writes, n - 1);
    UpdatesGrow(writes, m, n - 1);
    if UpdatesIn(writes[..m]) < UpdatesIn(writes[..n - 1]) {
      i := FirstUpdate(writes, m, n - 1);
    } else {
      i := n - 1;
    }
  }

  lemma {:induction false} FirstStale(writes: seq<Outcome>, n: nat) returns (j: nat)
    requires n <= |writes| && exists k: nat :: k < n && !FreshAt(writes, k)
    ensures j < n && !FreshAt(writes, j) && forall k: nat :: k < j ==> FreshAt(writes, k)
    decreases n
  {
    if k: nat :| k < n - 1 && !FreshAt(writes, k) {
      j := FirstStale(writes, n - 1);
    } else {
      j := n - 1;
    }
  }

  /** A stale edit wins a version that another update has won before. */
  lemma StaleEditHasRival(writes: seq<Outcome>)
    requires WritesOk(writes) && !NoEditIsStale(writes)
    ensures !OneWinnerPerVersion(writes)
  {
    var j := FirstStale(writes, |writes|);
    var m := writes[j].readAt;
    Tested(writes, j);
    UpdatesGrow(writes, m, j);
    var i := FirstUpdate(writes, m, j);
    FreshVersions(writes, m);
    FreshVersions(writes, i + 1);
    VersionStep(writes, i);
    UpdatesStep(writes, i);
    assert Rivals(writes, i, j);
  }

  lemma OrderedHaveNoRivals(writes: seq<Outcome>)
    requires VersionsInOrder(writes)
    ensures OneWinnerPerVersion(writes)
  {
    forall i: nat, j: nat | i < j < |writes| ensures !Rivals(writes, i, j) {
      assert InOrderAt(writes, i) && InOrderAt(writes, j);
      UpdatesStep(writes, i);
      UpdatesGrow(writes, i + 1, j);
    }
  }

  /** A stale edit loses its count for good: the version stays behind the number of updates. */
  lemma {:induction false} StaleEditLosesCount(writes: seq<Outcome>, n: nat, j: nat)
    requires WritesOk(writes) && j < n <= |writes| && !FreshAt(writes, j)
    ensures VersionOf(writes[..n]) <= UpdatesIn(writes[..n])
    decreases n
  {
    var o := writes[n - 1];
    Tested(writes, n - 1);
    VersionStep(writes, n - 1);
    UpdatesStep(writes, n - 1);
    if o.FieldsSet? {
      VersionLags(writes, o.readAt);
      UpdatesGrow(writes, o.readAt, n - 1);
      if j < n - 1 && UpdatesIn(writes[..o.readAt]) == UpdatesIn(writes[..n - 1]) {
        UpdatesStep(writes, j);
        if o.readAt <= j {
          UpdatesGrow(writes, o.readAt, j);
          UpdatesGrow(writes, j + 1, n - 1);
        }
        StaleEditLosesCount(writes, o.readAt, j);
      }
    } else {
      StaleEditLosesCount(writes, n - 1, j);
    }
  }

  /**
   Exactly when versions guard a task: in every interleaving of status updates, edits and deletions,
   the successful updates expected 1, 2, 3, ... in commit order, if and only if no version was won
   twice, if and only if the stored version counts the updates, if and only if no edit was flushed
   after an update that came after its load.
   */
  lemma VersionsGuardIffNoEditIsStale(steps: seq<Step>, task: nat)
    requires Legal(Init, steps)
    requires task in Run(Init, steps).tasks
    ensures var s := Run(Init, steps); var writes := Successes(s.log, task);
            && (VersionsInOrder(writes) <==> NoEditIsStale(writes))
            && (OneWinnerPerVersion(writes) <==> NoEditIsStale(writes))
            && (s.tasks[task].version == 1 + UpdatesIn(writes) <==> NoEditIsStale(writes))
            && s.tasks[task].version <= 1 + UpdatesIn(writes)
  {
    InvHolds(Init, steps);
    var s := Run(Init, steps);
    assert TaskOk(s, task);
    var writes := Successes(s.log, task);
    assert writes[..|writes|] == writes;
    VersionLags(writes, |writes|);
    if NoEditIsStale(writes) {
      forall j: nat | j < |writes| ensures InOrderAt(writes, j) {
        FreshIsInOrder(writes, j);
      }
      FreshVersions(writes, |writes|);
    } else {
      StaleEditHasRival(writes);
      var j: nat :| j < |writes| && !FreshAt(writes, j);
      StaleEditLosesCount(writes, |writes|, j);
    }
    if VersionsInOrder(writes) {
      OrderedHaveNoRivals(writes);
    }
  }

  // ----- races -----

  /** How many of these writes are updates that expected `version`. */
  function Winners(writes: seq<Outcome>, version: int): nat {
    if writes == [] then 0
    else
      var last := writes[|writes| - 1];
      Winners(writes[..|writes| - 1], version) + (if IsUpdate(last) && last.expected == version then 1 else 0)
  }

  lemma WinnersStep(writes: seq<Outcome>, n: nat, version: int)
    requires n < |writes|
    ensures Winners(writes[..n + 1], version)
         == Winners(writes[..n], version) + (if IsUpdate(writes[n]) && writes[n].expected == version then 1 else 0)
  {
    PrefixStep(writes, n);
  }

  lemma {:induction false} OrderedWinners(writes: seq<Outcome>, n: nat, version: int)
    requires VersionsInOrder(writes) && n <= |writes|
    ensures Winners(writes[..n], version) == if 1 <= version <= UpdatesIn(writes[..n]) then 1 else 0
    decreases n
  {
    if n > 0 {
      OrderedWinners(writes, n - 1, version);
      WinnersStep(writes, n - 1, version);
      UpdatesStep(writes, n - 1);
      assert InOrderAt(writes, n - 1);
    }
  }

  lemma {:induction false} WinnersGrow(writes: seq<Outcome>, m: nat, n: nat, version: int)
    requires m <= n <= |writes|
    ensures Winners(writes[..m], version) <= Winners(writes[..n], version)
    decreases n
  {
    if m < n {
      WinnersGrow(writes, m, n - 1, version);
      WinnersStep(writes, n - 1, version);
    }
  }

  lemma RivalsCountTwice(writes: seq<Outcome>, i: nat, j: nat)
    requires i < j < |writes| && Rivals(writes, i, j)
    ensures Winners(writes, writes[i].expected) >= 2
  {
    var version := writes[i].expected;
    WinnersStep(writes, i, version);
    WinnersGrow(writes, i + 1, j, version);
    WinnersStep(writes, j, version);
    WinnersGrow(writes, j + 1, |writes|, version);
    assert writes[..|writes|] == writes;
  }

  predicate WonOnce(writes: seq<Outcome>, version: int, stored: int) {
    Winners(writes, version) == if 1 <= version < stored then 1 else 0
  }

  lemma OrderedAreWonOnce(writes: seq<Outcome>, stored: int)
    requires VersionsInOrder(writes) && stored == 1 + UpdatesIn(writes)
    ensures forall version :: WonOnce(writes, version, stored)
  {
    assert writes[..|writes|] == writes;
    forall version ensures WonOnce(writes, version, stored) {
      OrderedWinners(writes, |writes|, version);
    }
  }

  lemma SomeVersionWonTwice(writes: seq<Outcome>, stored: int) returns (version: int)
    requires !OneWinnerPerVersion(writes)
    ensures !WonOnce(writes, version, stored)
  {
    var i: nat, j: nat :| i < j < |writes| && Rivals(writes, i, j);
    RivalsCountTwice(writes, i, j);
    version := writes[i].expected;
  }

  /**
   The race: of all the updates ever sent that expect one version, exactly one has won once the task
   has moved past it and none before, for every version, if and only if no edit was stale; so always
   where all updates are status updates.
   */
  lemma RaceHasOneWinnerIffNoEditIsStale(steps: seq<Step>, task: nat)
    requires Legal(Init, steps)
    requires task in Run(Init, steps).tasks
    ensures var s := Run(Init, steps); var writes := Successes(s.log, task);
            && ((forall version :: WonOnce(writes, version, s.tasks[task].version)) <==> NoEditIsStale(writes))
            && ((forall o :: o in writes ==> !o.FieldsSet?) ==> NoEditIsStale(writes))
  {
    VersionsGuardIffNoEditIsStale(steps, task);
    var s := Run(Init, steps);
    var writes, stored := Successes(s.log, task), s.tasks[task].version;
    if NoEditIsStale(writes) {
      OrderedAreWonOnce(writes, stored);
    } else {
      var version := SomeVersionWonTwice(writes, stored);
    }
  }

  // ----- deletion -----

  lemma {:induction false} GoneAfterDelete(writes: seq<Outcome>, n: nat)
    requires n <= |writes|
    ensures Gone(writes[..n]) <==> exists i: nat :: i < n && writes[i].Deleted?
    decreases n
  {
    if n > 0 {
      GoneAfterDelete(writes, n - 1);
      PrefixStep(writes, n - 1);
    }
  }

  /**
   In every interleaving at most one soft delete of a task succeeds, no status update succeeds after
   it, and an edit does only if it had loaded the task before.
   */
  lemma OnlyLoadedEditsFollowADelete(steps: seq<Step>, task: nat, i: nat, j: nat)
    requires Legal(Init, steps)
    requires task in Run(Init, steps).tasks
    requires i < j < |Successes(Run(Init, steps).log, task)|
    requires Successes(Run(Init, steps).log, task)[i].Deleted?
    ensures var s := Run(Init, steps); var writes := Successes(s.log, task);
            && writes[j].FieldsSet? && writes[j].readAt <= i
            && s.tasks[task].isDeleted
  {
    InvHolds(Init, steps);
    var s := Run(Init, steps);
    assert TaskOk(s, task);
    var writes := Successes(s.log, task);
    assert writes[..|writes|] == writes;
    Tested(writes, j);
    GoneAfterDelete(writes, j);
    GoneAfterDelete(writes, |writes|);
    if writes[j].FieldsSet? {
      GoneAfterDelete(writes, writes[j].readAt);
    }
  }

  lemma {:induction false} DeleteIsLogged(log: seq<Outcome>, task: nat)
    ensures Gone(Successes(log, task)) <==> Deleted(task) in Successes(log, task)
    decreases |log|
  {
    if log != [] {
      var before, last := log[..|log| - 1], log[|log| - 1];
      DeleteIsLogged(before, task);
      var writes := Successes(before, task);
      if SucceedsOn(last, task) {
        assert Successes(log, task) == writes + [last] && (writes + [last])[..|writes|] == writes;
        assert last.Deleted? ==> last == Deleted(task);
      } else {
        assert Successes(log, task) == writes;
      }
    }
  }

  /** A task is marked as deleted exactly if a soft delete of it succeeded. */
  lemma DeletedExactlyByADelete(steps: seq<Step>, task: nat)
    requires Legal(Init, steps)
    requires task in Run(Init, steps).tasks
    ensures Run(Init, steps).tasks[task].isDeleted <==> Deleted(task) in Successes(Run(Init, steps).log, task)
  {
    InvHolds(Init, steps);
    assert TaskOk(Run(Init, steps), task);
    DeleteIsLogged(Run(Init, steps).log, task);
  }

  // ----- the audit trail -----

  /** The status updates among these writes. */
  function StatusWrites(writes: seq<Outcome>): seq<Outcome> {
    if writes == [] then []
    else
      var last := writes[|writes| - 1];
      StatusWrites(writes[..|writes| - 1]) + (if last.StatusSet? then [last] else [])
  }

  /** The audit row of a status update: what its request had read, and what the update made of the task. */
  function RowFor(writes: seq<Outcome>, o: Outcome): Change
    requires o.StatusSet?
  {
    Change(StatusOf(Upto(writes, o.readAt)), VersionOf(Upto(writes, o.readAt)), o.status, o.expected + 1)
  }

  lemma {:induction false} RowsMatchWrites(writes: seq<Outcome>, n: nat)
    requires WritesOk(writes) && n <= |writes|
    ensures var rows, updates := RowsOf(writes[..n]), StatusWrites(writes[..n]);
            && |rows| == |updates|
            && forall k: nat :: k < |rows| ==> updates[k].StatusSet? && rows[k] == RowFor(writes, updates[k])
    decreases n
  {
    if n > 0 {
      RowsMatchWrites(writes, n - 1);
      PrefixStep(writes, n - 1);
      Tested(writes, n - 1);
      assert writes[n - 1].StatusSet? ==> Upto(writes[..n - 1], writes[n - 1].readAt) == Upto(writes, writes[n - 1].readAt);
    }
  }

  lemma {:induction false} LastRowHasStatus(writes: seq<Outcome>, n: nat)
    requires n <= |writes|
    ensures var rows := RowsOf(writes[..n]); StatusOf(writes[..n]) == if rows == [] then Backlog else rows[|rows| - 1].afterStatus
    decreases n
  {
    if n > 0 {
      LastRowHasStatus(writes, n - 1);
      PrefixStep(writes, n - 1);
    }
  }

  /**
   In every interleaving the UPDATE rows of a task are its successful status updates, one for one in
   commit order, with the version and status that each wrote, and before-states that the task really
   had when the request read it; the stored status is the last one in the trail.
   */
  lemma AuditTrailIsStatusHistory(steps: seq<Step>, task: nat)
    requires Legal(Init, steps)
    requires task in Run(Init, steps).tasks
    ensures var s := Run(Init, steps); var writes := Successes(s.log, task);
            var rows, updates := Trail(s.audit, task), StatusWrites(writes);
            && |rows| == |updates|
            && (forall k: nat :: k < |rows| ==> updates[k].StatusSet? && rows[k] == RowFor(writes, updates[k]))
            && s.tasks[task].status == if rows == [] then Backlog else rows[|rows| - 1].afterStatus
  {
    InvHolds(Init, steps);
    var s := Run(Init, steps);
    assert TaskOk(s, task);
    var writes := Successes(s.log, task);
    assert writes[..|writes|] == writes;
    RowsMatchWrites(writes, |writes|);
    LastRowHasStatus(writes, |writes|);
  }

  lemma {:induction false} SameStatusWithoutUpdates(writes: seq<Outcome>, m: nat, n: nat)
    requires m <= n <= |writes| && UpdatesIn(writes[..m]) == UpdatesIn(writes[..n])
    ensures StatusOf(writes[..m]) == StatusOf(writes[..n])
    decreases n
  {
    if m < n {
      UpdatesStep(writes, n - 1);
      UpdatesGrow(writes, m, n - 1);
      PrefixStep(writes, n - 1);
      SameStatusWithoutUpdates(writes, m, n - 1);
    }
  }

  lemma BeforeStateIsPrevious(writes: seq<Outcome>, j: nat)
    requires WritesOk(writes) && NoEditIsStale(writes)
    requires j < |writes| && writes[j].StatusSet?
    ensures writes[j].readAt <= j
    ensures var row := RowFor(writes, writes[j]); var readAt := writes[j].readAt;
            && row.beforeVersion <= row.afterVersion - 1
            && (row.beforeVersion == row.afterVersion - 1 <==> row.beforeVersion == writes[j].expected)
            && (row.beforeVersion == row.afterVersion - 1 <==> UpdatesIn(writes[..readAt]) == UpdatesIn(writes[..j]))
            && (row.beforeVersion == row.afterVersion - 1 ==> row.beforeStatus == StatusOf(writes[..j]))
  {
    Tested(writes, j);
    var readAt := writes[j].readAt;
    FreshVersions(writes, readAt);
    FreshVersions(writes, j);
    UpdatesGrow(writes, readAt, j);
    if UpdatesIn(writes[..readAt]) == UpdatesIn(writes[..j]) {
      SameStatusWithoutUpdates(writes, readAt, j);
    }
  }

  /**
   In every interleaving where no edit of the task is stale, the before-version of a status update's
   audit row is the one just before its after-version, if and only if the request had read the version
   that it expected, if and only if no update came between its read and its write; and then the
   before-status is the status just before, too.
   */
  lemma BeforeStateIsPreviousIffNothingCameBetween(steps: seq<Step>, task: nat, j: nat)
    requires Legal(Init, steps)
    requires task in Run(Init, steps).tasks && NoEditIsStale(Successes(Run(Init, steps).log, task))
    requires j < |Successes(Run(Init, steps).log, task)| && Successes(Run(Init, steps).log, task)[j].StatusSet?
    ensures var writes := Successes(Run(Init, steps).log, task); var row := RowFor(writes, writes[j]); var readAt := writes[j].readAt;
            && readAt <= j
            && row.beforeVersion <= row.afterVersion - 1
            && (row.beforeVersion == row.afterVersion - 1 <==> row.beforeVersion == writes[j].expected)
            && (row.beforeVersion == row.afterVersion - 1 <==> UpdatesIn(writes[..readAt]) == UpdatesIn(writes[..j]))
            && (row.beforeVersion == row.afterVersion - 1 ==> row.beforeStatus == StatusOf(writes[..j]))
  {
    InvHolds(Init, steps);
    assert TaskOk(Run(Init, steps), task);
    BeforeStateIsPrevious(Successes(Run(Init, steps).log, task), j);
  }

  predicate Shows(rows: seq<Change>, version: int) {
    exists k: nat :: k < |rows| && rows[k].afterVersion == version
  }

  /** An edit made this version. */
  predicate Edited(writes: seq<Outcome>, version: int) {
    exists j: nat :: j < |writes| && writes[j].FieldsSet? && writes[j].expected + 1 == version
  }

  lemma {:induction false} RowShows(writes: seq<Outcome>, n: nat, j: nat)
    requires j < n <= |writes| && writes[j].StatusSet?
    ensures Shows(RowsOf(writes[..n]), writes[j].expected + 1)
    decreases n
  {
    var rows := RowsOf(writes[..n]);
    PrefixStep(writes, n - 1);
    if j < n - 1 {
      RowShows(writes, n - 1, j);
      var before := RowsOf(writes[..n - 1]);
      var k: nat :| k < |before| && before[k].afterVersion == writes[j].expected + 1;
      assert rows[k] == before[k];
    } else {
      assert rows[|rows| - 1].afterVersion == writes[j].expected + 1;
    }
  }

  lemma {:induction false} ShownByRow(writes: seq<Outcome>, n: nat, version: int)
    requires n <= |writes| && Shows(RowsOf(writes[..n]), version)
    ensures exists j: nat :: j < n && writes[j].StatusSet? && writes[j].expected + 1 == version
    decreases n
  {
    if n > 0 {
      PrefixStep(writes, n - 1);
      var rows, before := RowsOf(writes[..n]), RowsOf(writes[..n - 1]);
      var k: nat :| k < |rows| && rows[k].afterVersion == version;
      if k < |before| {
        assert before[k] == rows[k];
        ShownByRow(writes, n - 1, version);
      } else {
        assert writes[n - 1].StatusSet?;
      }
    }
  }

  lemma ShownIsNoEdit(writes: seq<Outcome>, version: int)
    requires VersionsInOrder(writes) && OneWinnerPerVersion(writes) && Shows(RowsOf(writes), version)
    ensures 2 <= version <= 1 + UpdatesIn(writes) && !Edited(writes, version)
  {
    assert writes[..|writes|] == writes;
    ShownByRow(writes, |writes|, version);
    var j: nat :| j < |writes| && writes[j].StatusSet? && writes[j].expected + 1 == version;
    assert InOrderAt(writes, j);
    UpdatesStep(writes, j);
    UpdatesGrow(writes, j + 1, |writes|);
    forall i: nat | i < |writes| && writes[i].FieldsSet? ensures writes[i].expected + 1 != version {
      assert if i < j then !Rivals(writes, i, j) else i != j && !Rivals(writes, j, i);
    }
  }

  lemma {:induction false} UpdateNumber(writes: seq<Outcome>, n: nat, k: nat) returns (i: nat)
    requires n <= |writes| && k < UpdatesIn(writes[..n])
    ensures i < n && IsUpdate(writes[i]) && UpdatesIn(writes[..i]) == k
    decreases n
  {
    UpdatesStep(writes, n - 1);
    if k < UpdatesIn(writes[..n - 1]) {
      i := UpdateNumber(writes, n - 1, k);
    } else {
      i := n - 1;
    }
  }

  lemma MissingIsEdit(writes: seq<Outcome>, version: int)
    requires VersionsInOrder(writes) && !Shows(RowsOf(writes), version) && 2 <= version <= 1 + UpdatesIn(writes)
    ensures Edited(writes, version)
  {
    assert writes[..|writes|] == writes;
    var i := UpdateNumber(writes, |writes|, version - 2);
    assert InOrderAt(writes, i);
    if writes[i].StatusSet? {
      RowShows(writes, |writes|, i);
    }
  }

  /**
   Where no edit is stale, the after-versions of the trail run through 2, 3, ... up to the stored
   version, with gaps exactly at the versions that edits made: an edit leaves no audit row.
   */
  lemma TrailHasGapsAtEdits(steps: seq<Step>, task: nat, version: int)
    requires Legal(Init, steps)
    requires task in Run(Init, steps).tasks && NoEditIsStale(Successes(Run(Init, steps).log, task))
    ensures var s := Run(Init, steps); var writes := Successes(s.log, task);
            && (Shows(Trail(s.audit, task), version) ==> 2 <= version <= s.tasks[task].version)
            && (2 <= version <= s.tasks[task].version ==> (Shows(Trail(s.audit, task), version) <==> !Edited(writes, version)))
  {
    InvHolds(Init, steps);
    VersionsGuardIffNoEditIsStale(steps, task);
    var s := Run(Init, steps);
    assert TaskOk(s, task);
    if Shows(Trail(s.audit, task), version) {
      ShownIsNoEdit(Successes(s.log, task), version);
    } else if 2 <= version <= s.tasks[task].version {
      MissingIsEdit(Successes(s.log, task), version);
    }
  }

  // ----- the failing cases -----

  ghost predicate Leads(s: State, steps: seq<Step>, s': State) {
    Legal(s, steps) && Run(s, steps) == s'
  }

  lemma {:induction false} LeadsOn(s: State, a: seq<Step>, mid: State, b: seq<Step>, end: State)
    requires Leads(s, a, mid) && Leads(mid, b, end)
    ensures Leads(s, a + b, end)
    decreases |a|
  {
    if a == [] {
      assert a + b == b;
    } else {
      LeadsOn(Next(s, a[0]), a[1..], mid, b, end);
      assert (a + b)[1..] == a[1..] + b;
    }
  }

  lemma LeadsOneStep(s: State, step: Step)
    requires Enabled(s, step)
    ensures Leads(s, [step], Next(s, step))
  {
    assert [step][1..] == [];
    assert Legal(Next(s, step), []) && Run(Next(s, step), []) == Next(s, step);
  }

  /** A status update whose read and write follow each other. */
  function WholeUpdate(req: nat, row: Task, status: Status): seq<Step> {
    [ReadForStatus(req, row.org, row.reporter, row.id, status, row.version), WriteStatus(req)]
  }

  function AfterWholeUpdate(s: State, row: Task, status: Status): State
    requires row.id in s.tasks
  {
    State(s.tasks[row.id := row.(status := status, version := row.version + 1)],
          s.audit + [UpdateAudit(row.org, row.reporter, row.id, Change(row.status, row.version, status, row.version + 1))],
          s.pending,
          s.log + [StatusSet(row.id, row.version, status, Seen(s, row.id))])
  }

  lemma WholeUpdateSucceeds(s: State, req: nat, row: Task, status: Status)
    requires req !in s.pending && row.id in s.tasks && s.tasks[row.id] == row && !row.isDeleted
    ensures Leads(s, WholeUpdate(req, row, status), AfterWholeUpdate(s, row, status))
  {
    var read, write := WholeUpdate(req, row, status)[0], WholeUpdate(req, row, status)[1];
    var s1 := Next(s, read);
    assert s1.pending - {req} == s.pending;
    assert Next(s1, write) == AfterWholeUpdate(s, row, status);
    LeadsOneStep(s, read);
    LeadsOneStep(s1, write);
    LeadsOn(s, [read], s1, [write], Next(s1, write));
    assert [read] + [write] == WholeUpdate(req, row, status);
  }

  function NextRow(row: Task, status: Status): Task {
    row.(status := status, version := row.version + 1)
  }

  /** A new task, just loaded by an edit. */
  function JustLoaded(row: Task, changes: TaskApi.Changes): State {
    State(map[row.id := row], [CreateAudit(row.org, row.reporter, row.id, row.title, row.status, row.priority)],
          map[0 := PendingEdit(row.id, row, changes, row.version, 0)], [])
  }

  function CreateAndLoad(row: Task, changes: TaskApi.Changes): seq<Step> {
    [Create(row, row.reporter)] + [LoadForEdit(0, row.org, row.id, changes, 1)]
  }

  lemma LoadingANewTask(row: Task, changes: TaskApi.Changes)
    requires IsNew(row)
    ensures Leads(Init, CreateAndLoad(row, changes), JustLoaded(row, changes))
  {
    var create, load := Create(row, row.reporter), LoadForEdit(0, row.org, row.id, changes, 1);
    var s1 := Next(Init, create);
    assert s1 == State(map[row.id := row], JustLoaded(row, changes).audit, map[], []);
    assert Next(s1, load) == JustLoaded(row, changes);
    LeadsOneStep(Init, create);
    LeadsOneStep(s1, load);
    LeadsOn(Init, [create], s1, [load], Next(s1, load));
  }

  /** What the guard should exclude: two updates of a task have won its version 2. */
  ghost predicate TwoWinners(s: State, id: nat) {
    && id in s.tasks && s.tasks[id].version == 3
    && Successes(s.log, id) ==
         [StatusSet(id, 1, Todo, 0), StatusSet(id, 2, InProgress, 1), FieldsSet(id, 1, 0), StatusSet(id, 2, InReview, 3)]
  }

  lemma TwoUpdates(s: State, row: Task, s': State)
    requires row.id in s.tasks && s.tasks[row.id] == row && !row.isDeleted && 1 !in s.pending
    requires s' == AfterWholeUpdate(AfterWholeUpdate(s, row, Todo), NextRow(row, Todo), InProgress)
    ensures Leads(s, WholeUpdate(1, row, Todo) + WholeUpdate(1, NextRow(row, Todo), InProgress), s')
  {
    var s1 := AfterWholeUpdate(s, row, Todo);
    WholeUpdateSucceeds(s, 1, row, Todo);
    WholeUpdateSucceeds(s1, 1, NextRow(row, Todo), InProgress);
    LeadsOn(s, WholeUpdate(1, row, Todo), s1, WholeUpdate(1, NextRow(row, Todo), InProgress), s');
  }

  /** The stale flush sets the version back to the one after its load. */
  lemma StaleFlush(s: State, row: Task, changes: TaskApi.Changes)
    requires row.id in s.tasks && s.tasks[row.id].id == row.id && !s.tasks[row.id].isDeleted
    requires s.pending == map[0 := PendingEdit(row.id, row, changes, row.version, 0)]
    ensures Enabled(s, FlushEdit(0))
    ensures var s' := Next(s, FlushEdit(0));
            && row.id in s'.tasks && s'.tasks[row.id].id == row.id && s'.tasks[row.id].version == row.version + 1
            && !s'.tasks[row.id].isDeleted && s'.pending == map[]
            && s'.log == s.log + [FieldsSet(row.id, row.version, 0)]
  {
  }

  lemma {:induction false} AllSucceed(log: seq<Outcome>, task: nat)
    requires forall o :: o in log ==> SucceedsOn(o, task)
    ensures Successes(log, task) == log
    decreases |log|
  {
    if log != [] {
      AllSucceed(log[..|log| - 1], task);
      assert log == log[..|log| - 1] + [log[|log| - 1]];
    }
  }

  lemma FlushAndUpdate(s: State, row: Task, changes: TaskApi.Changes, s': State)
    requires row.version == 1 && row.id in s.tasks && s.tasks[row.id].id == row.id && !s.tasks[row.id].isDeleted
    requires s.pending == map[0 := PendingEdit(row.id, row, changes, row.version, 0)]
    requires s.log == [StatusSet(row.id, 1, Todo, 0), StatusSet(row.id, 2, InProgress, 1)]
    requires Enabled(s, FlushEdit(0)) && row.id in Next(s, FlushEdit(0)).tasks
    requires s' == AfterWholeUpdate(Next(s, FlushEdit(0)), Next(s, FlushEdit(0)).tasks[row.id], InReview)
    ensures Leads(s, [FlushEdit(0)] + WholeUpdate(1, Next(s, FlushEdit(0)).tasks[row.id], InReview), s')
    ensures TwoWinners(s', row.id)
  {
    StaleFlush(s, row, changes);
    var s1 := Next(s, FlushEdit(0));
    AllSucceed(s1.log, row.id);
    LeadsOneStep(s, FlushEdit(0));
    WholeUpdateSucceeds(s1, 1, s1.tasks[row.id], InReview);
    LeadsOn(s, [FlushEdit(0)], s1, WholeUpdate(1, s1.tasks[row.id], InReview), s');
    AllSucceed(s'.log, row.id);
  }

  function TwiceUpdated(row: Task, changes: TaskApi.Changes): State {
    AfterWholeUpdate(AfterWholeUpdate(JustLoaded(row, changes), row, Todo), NextRow(row, Todo), InProgress)
  }

  lemma TwiceUpdatedIsReached(row: Task, changes: TaskApi.Changes) returns (steps: seq<Step>)
    requires IsNew(row)
    ensures Leads(Init, steps, TwiceUpdated(row, changes))
  {
    var s := JustLoaded(row, changes);
    LoadingANewTask(row, changes);
    TwoUpdates(s, row, TwiceUpdated(row, changes));
    var two := WholeUpdate(1, row, Todo) + WholeUpdate(1, NextRow(row, Todo), InProgress);
    LeadsOn(Init, CreateAndLoad(row, changes), s, two, TwiceUpdated(row, changes));
    steps := CreateAndLoad(row, changes) + two;
  }

  lemma WhenTwiceUpdated(row: Task, changes: TaskApi.Changes)
    requires IsNew(row)
    ensures var s := TwiceUpdated(row, changes);
            && row.id in s.tasks && s.tasks[row.id].id == row.id && !s.tasks[row.id].isDeleted
            && s.pending == map[0 := PendingEdit(row.id, row, changes, row.version, 0)]
            && s.log == [StatusSet(row.id, 1, Todo, 0), StatusSet(row.id, 2, InProgress, 1)]
  {
    assert AfterWholeUpdate(JustLoaded(row, changes), row, Todo).log == [StatusSet(row.id, 1, Todo, 0)];
    AllSucceed([StatusSet(row.id, 1, Todo, 0)], row.id);
  }

  /**
   A run from the empty table in which the guard fails: an edit loaded at version 1 is flushed after
   two status updates and sets the version back to 2, so that two status updates win version 2.
   */
  lemma StaleEditGivesTwoWinners(row: Task, changes: TaskApi.Changes) returns (steps: seq<Step>)
    requires IsNew(row)
    ensures Legal(Init, steps) && TwoWinners(Run(Init, steps), row.id)
  {
    var s := TwiceUpdated(row, changes);
    WhenTwiceUpdated(row, changes);
    var before := TwiceUpdatedIsReached(row, changes);
    StaleFlush(s, row, changes);
    var s1 := Next(s, FlushEdit(0));
    var now := s1.tasks[row.id];
    var end := AfterWholeUpdate(s1, now, InReview);
    FlushAndUpdate(s, row, changes, end);
    var after := [FlushEdit(0)] + WholeUpdate(1, now, InReview);
    LeadsOn(Init, before, s, after, end);
    steps := before + after;
  }

  lemma FlushAfterDelete(s: State, row: Task, changes: TaskApi.Changes, now: int, s': State)
    requires row.id in s.tasks && s.tasks[row.id] == row && !row.isDeleted && s.log == []
    requires s.pending == map[0 := PendingEdit(row.id, row, changes, row.version, 0)]
    requires Enabled(s, ReadForDelete(1, row.org, row.id))
    requires Enabled(Next(s, ReadForDelete(1, row.org, row.id)), WriteDelete(1, now))
    requires Enabled(Next(Next(s, ReadForDelete(1, row.org, row.id)), WriteDelete(1, now)), FlushEdit(0))
    requires s' == Next(Next(Next(s, ReadForDelete(1, row.org, row.id)), WriteDelete(1, now)), FlushEdit(0))
    ensures Leads(s, [ReadForDelete(1, row.org, row.id)] + ([WriteDelete(1, now)] + [FlushEdit(0)]), s')
    ensures s'.log == [Deleted(row.id), FieldsSet(row.id, row.version, 0)]
    ensures row.id in s'.tasks && s'.tasks[row.id].isDeleted
  {
    var read, write, flush := ReadForDelete(1, row.org, row.id), WriteDelete(1, now), FlushEdit(0);
    var s1 := Next(s, read);
    var s2 := Next(s1, write);
    LeadsOneStep(s, read);
    LeadsOneStep(s1, write);
    LeadsOneStep(s2, flush);
    LeadsOn(s1, [write], s2, [flush], s');
    LeadsOn(s, [read], s1, [write] + [flush], s');
  }

  lemma DeleteThenFlushIsLegal(s: State, row: Task, changes: TaskApi.Changes, now: int)
    requires row.id in s.tasks && s.tasks[row.id] == row && !row.isDeleted
    requires s.pending == map[0 := PendingEdit(row.id, row, changes, row.version, 0)]
    ensures Enabled(s, ReadForDelete(1, row.org, row.id))
    ensures Enabled(Next(s, ReadForDelete(1, row.org, row.id)), WriteDelete(1, now))
    ensures Enabled(Next(Next(s, ReadForDelete(1, row.org, row.id)), WriteDelete(1, now)), FlushEdit(0))
  {
  }

  /** A run from the empty table in which an edit succeeds on a task that was deleted after its load. */
  lemma EditOfADeletedTask(row: Task, changes: TaskApi.Changes, now: int)
    requires IsNew(row)
    ensures var steps := [Create(row, row.reporter), LoadForEdit(0, row.org, row.id, changes, 1),
                          ReadForDelete(1, row.org, row.id), WriteDelete(1, now), FlushEdit(0)];
            && Legal(Init, steps)
            && Successes(Run(Init, steps).log, row.id) == [Deleted(row.id), FieldsSet(row.id, 1, 0)]
            && row.id in Run(Init, steps).tasks && Run(Init, steps).tasks[row.id].isDeleted
  {
    var s := JustLoaded(row, changes);
    LoadingANewTask(row, changes);
    DeleteThenFlushIsLegal(s, row, changes, now);
    var end := Next(Next(Next(s, ReadForDelete(1, row.org, row.id)), WriteDelete(1, now)), FlushEdit(0));
    FlushAfterDelete(s, row, changes, now, end);
    var rest := [ReadForDelete(1, row.org, row.id)] + ([WriteDelete(1, now)] + [FlushEdit(0)]);
    LeadsOn(Init, CreateAndLoad(row, changes), s, rest, end);
    assert CreateAndLoad(row, changes) + rest
        == [Create(row, row.reporter), LoadForEdit(0, row.org, row.id, changes, 1),
            ReadForDelete(1, row.org, row.id), WriteDelete(1, now), FlushEdit(0)];
    AllSucceed(end.log, row.id);
  }
}
