/** The project service: loads an object, assigns its fields one by one, and records the change. */
module ProjectServices {
  import opened Wrappers
  import opened Text
  import opened ProjectOcc

  datatype Failure = NoSuchProject | VersionConflict | KeyTaken

  /** An audit record: creation shows name and key, an update the fields before and after it. */
  datatype Record =
    | Created(org: nat, actor: Option<nat>, project: nat, name: string, key: string)
    | Updated(org: nat, actor: Option<nat>, project: nat, before: Shown, after: Shown)

  /** `str.upper()` on the letters a to z. */
  function Upper(s: string): (r: string)
    ensures |r| == |s| && forall i :: 0 <= i < |s| ==> !('a' <= r[i] <= 'z')
    ensures forall i :: 0 <= i < |s| ==> if 97 <= s[i] as int <= 122 then r[i] as int == s[i] as int - 32 else r[i] == s[i]
  {
    seq(|s|, i requires 0 <= i < |s| => if 'a' <= s[i] <= 'z' then s[i] - 'a' + 'A' else s[i])
  }

  function CleanKey(key: string): string {
    Strip(Upper(key))
  }

  /** A cleaned key stays as it is, so looking a key up by cleaning it again finds it. */
  lemma CleaningTwiceIsCleaning(key: string)
    ensures CleanKey(CleanKey(key)) == CleanKey(key)
  {
    var clean := CleanKey(key);
    var front, back := StripTakesEnds(Upper(key));
    assert forall i :: 0 <= i < |clean| ==> clean[i] == Upper(key)[|front| + i];
    assert Upper(clean) == clean;
    StripKeepsTrimmed(clean);
  }

  ghost predicate KeysUnique(rows: map<nat, Project>) {
    forall a, b :: a in rows && b in rows && rows[a].org == rows[b].org && rows[a].key == rows[b].key ==> a == b
  }

  lemma LoadThenFlush(row: Project, payload: Payload)
    requires row.version == payload.expected
    ensures Enabled(Next(Start(row), Load(0, payload)), Flush(0))
    ensures Next(Next(Start(row), Load(0, payload)), Flush(0)).row == Changed(row, payload)
  {
  }

  lemma EditKeepsKeys(rows: map<nat, Project>, id: nat, project: Project)
    requires id in rows && project.org == rows[id].org && project.key == rows[id].key
    ensures KeysUnique(rows) ==> KeysUnique(rows[id := project])
  {
  }

  class ProjectService {
    const organizationId: nat
    var rows: map<nat, Project>
    var audit: seq<Record>

    constructor (organizationId: nat, rows: map<nat, Project>, audit: seq<Record>)
      ensures this.organizationId == organizationId && this.rows == rows && this.audit == audit
    {
      this.organizationId := organizationId;
      this.rows := rows;
      this.audit := audit;
    }

    /** A cleaned key is used once per tenant; a taken key is refused and changes nothing. */
    method CreateProject(id: nat, name: string, key: string, description: Option<string>, team: Option<nat>, actor: Option<nat>)
      returns (r: Result<Project, Failure>)
      requires id !in rows
      modifies this
      ensures r.Err? <==> exists i :: i in old(rows) && old(rows)[i].org == organizationId && old(rows)[i].key == Strip(Upper(key))
      ensures r.Err? ==> r.error == KeyTaken && rows == old(rows) && audit == old(audit)
      ensures r.Ok? ==>
                && r.value == Project(id, organizationId, team, Strip(name), Strip(Upper(key)), description, false, 1)
                && rows == old(rows)[id := r.value]
                && audit == old(audit) + [Created(organizationId, actor, id, r.value.name, r.value.key)]
      ensures KeysUnique(old(rows)) ==> KeysUnique(rows)
    {
      var cleanKey := CleanKey(key);
      if exists i :: i in rows && rows[i].org == organizationId && rows[i].key == cleanKey {
        return Err(KeyTaken);
      }
      var project := Project(id, organizationId, team, Strip(name), cleanKey, description, false, 1);
      rows := rows[id := project];
      audit := audit + [Created(organizationId, actor, id, project.name, project.key)];
      r := Ok(project);
    }

    /** Every field that the payload carries, and one version up. */
    method AssignFields(loaded: Project, payload: Payload) returns (project: Project)
      ensures project == Changed(loaded, payload)
      ensures project.name == (if payload.name.Some? then Strip(payload.name.value) else loaded.name)
      ensures project.description == (if payload.description.Some? then payload.description else loaded.description)
      ensures project.team == (if payload.team.Some? then payload.team else loaded.team)
      ensures project.isArchived == (if payload.isArchived.Some? then payload.isArchived.value else loaded.isArchived)
      ensures project.version == loaded.version + 1
      ensures project.id == loaded.id && project.org == loaded.org && project.key == loaded.key
    {
      project := loaded;
      if payload.name.Some? {
        project := project.(name := Strip(payload.name.value));
      }
      if payload.description.Some? {
        project := project.(description := payload.description);
      }
      if payload.team.Some? {
        project := project.(team := payload.team);
      }
      if payload.isArchived.Some? {
        project := project.(isArchived := payload.isArchived.value);
      }
      project := project.(version := project.version + 1);
    }

    /** Run without interruption, an update is a load and its flush: it succeeds exactly on the expected version. */
    method UpdateProject(id: nat, payload: Payload, actor: Option<nat>) returns (r: Result<Project, Failure>)
      modifies this
      ensures r == Err(NoSuchProject) <==> !(id in old(rows) && old(rows)[id].org == organizationId)
      ensures r == Err(VersionConflict) <==>
                id in old(rows) && old(rows)[id].org == organizationId && old(rows)[id].version != payload.expected
      ensures r.Err? ==> rows == old(rows) && audit == old(audit) && r.error != KeyTaken
      ensures r.Ok? ==>
                && r.value == Next(Next(Start(old(rows)[id]), Load(0, payload)), Flush(0)).row
                && r.value.version == payload.expected + 1
                && r.value.name == (if payload.name.Some? then Strip(payload.name.value) else old(rows)[id].name)
                && r.value.description == (if payload.description.Some? then payload.description else old(rows)[id].description)
                && r.value.team == (if payload.team.Some? then payload.team else old(rows)[id].team)
                && r.value.isArchived == (if payload.isArchived.Some? then payload.isArchived.value else old(rows)[id].isArchived)
                && r.value.id == old(rows)[id].id && r.value.org == old(rows)[id].org && r.value.key == old(rows)[id].key
                && rows == old(rows)[id := r.value]
                && audit == old(audit) + [Updated(organizationId, actor, id,
                     Shown(old(rows)[id].name, old(rows)[id].description, old(rows)[id].isArchived, payload.expected),
                     Shown(r.value.name, r.value.description, r.value.isArchived, payload.expected + 1))]
      ensures KeysUnique(old(rows)) ==> KeysUnique(rows)
    {
      if id !in rows || rows[id].org != organizationId {
        return Err(NoSuchProject);
      }
      var project := rows[id];
      if project.version != payload.expected {
        return Err(VersionConflict);
      }
      var beforeState := ShownOf(project);
      project := AssignFields(project, payload);
      LoadThenFlush(rows[id], payload);
      EditKeepsKeys(rows, id, project);
      rows := rows[id := project];
      audit := audit + [Updated(organizationId, actor, id, beforeState, ShownOf(project))];
      r := Ok(project);
    }
  }
}
