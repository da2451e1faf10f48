/** Versions of the projects that the cached endpoint answers with, where no project update is stale. */
module CacheVersions {
  import opened CacheAside
  import ProjectOcc

  /** The committed states of a project are those that a run of updates gave its row. */
  ghost predicate Records(history: seq<Committed>, commits: seq<ProjectOcc.Commit>) {
    && |history| == |commits| + 1 && history[0].row.version == 1
    && forall j: nat :: j < |commits| ==> history[j + 1].row.version == commits[j].after.version
  }

  /** Where no update is stale, state number `i` has version `i + 1`. */
  lemma VersionsCountStates(row: ProjectOcc.Project, updates: seq<ProjectOcc.Step>, history: seq<Committed>, i: nat)
    requires row.version == 1 && ProjectOcc.Legal(ProjectOcc.Start(row), updates)
    requires var commits := ProjectOcc.Run(ProjectOcc.Start(row), updates).commits;
             ProjectOcc.AllFresh(commits) && Records(history, commits)
    requires i < |history|
    ensures history[i].row.version == i + 1
  {
    var commits := ProjectOcc.Run(ProjectOcc.Start(row), updates).commits;
    ProjectOcc.GuardWorksIffNoWriteIsStale(row, updates);
    ProjectOcc.InvHolds(ProjectOcc.ShownOf(row), ProjectOcc.Start(row), updates);
    if i > 0 {
      assert ProjectOcc.CommitOk(commits, i - 1);
      assert history[(i - 1) + 1].row.version == commits[i - 1].after.version;
    }
  }

  /**
   After a PATCH has evicted with success, and if no request overtaken by it stores, every later answer
   for the project, other than to those requests, shows at least the version that the PATCH made,
   provided that the project's updates were not stale.
   */
  lemma PatchedVersionIsServed(key: Keying, before: seq<Step>, at: real, req: nat, after: seq<Step>, i: nat,
                               row: ProjectOcc.Project, updates: seq<ProjectOcc.Step>)
    requires Distinguishes(key)
    requires Legal(key, Init, before + [Evict(at, req, true)] + after)
    requires Legal(key, Init, before) && req in Run(key, Init, before).patches
    requires var s := Run(key, Init, before); var p := s.patches[req];
             var end := Run(key, Init, before + [Evict(at, req, true)] + after);
             && NoneStores(after, Overtaken(s, p.id, p.index))
             && |s.served| <= i < |end.served|
             && end.served[i].org == p.org && end.served[i].id == p.id && end.served[i].req !in Overtaken(s, p.id, p.index)
             && p.id in end.db
             && row.version == 1 && ProjectOcc.Legal(ProjectOcc.Start(row), updates)
             && var commits := ProjectOcc.Run(ProjectOcc.Start(row), updates).commits;
                ProjectOcc.AllFresh(commits) && Records(end.db[p.id], commits)
    ensures var p := Run(key, Init, before).patches[req];
            var end := Run(key, Init, before + [Evict(at, req, true)] + after);
            && p.index < |end.db[p.id]|
            && end.served[i].reading.row.version >= end.db[p.id][p.index].row.version == p.index + 1
  {
    var p := Run(key, Init, before).patches[req];
    var steps := before + [Evict(at, req, true)] + after;
    PatchedStateIsServed(key, before, at, req, after, i);
    AnswersAreRecent(key, steps, i);
    var history, v := Run(key, Init, steps).db[p.id], Run(key, Init, steps).served[i];
    VersionsCountStates(row, updates, history, p.index);
    VersionsCountStates(row, updates, history, v.reading.index);
  }
}
