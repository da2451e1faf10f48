/** The keys of the project cache, and the cached endpoints run one request at a time. */
module ProjectCache {
  import opened Wrappers
  import opened Text
  import opened CacheKey
  import opened ProjectServices
  import CacheAside
  import ProjectOcc
  import Uuid

  function KeyParts(org: nat, id: nat): seq<Option<string>> {
    [Some(Uuid.Print(org)), Some("projects"), Some(Uuid.Print(id))]
  }

  function KeyFor(org: nat, id: nat): string {
    BuildKey("tenant", KeyParts(org, id))
  }

  // ----- keys of different projects never collide -----

  lemma PrintedIsTrimmed(u: nat)
    ensures Trimmed(Uuid.Print(u))
  {
    var h := Uuid.Hex(u, 32);
    assert Uuid.Print(u)[0] == h[0] && Uuid.Print(u)[35] == h[31];
    assert Uuid.DigitOf(h[0]).Some? && Uuid.DigitOf(h[31]).Some?;
  }

  lemma ThreePartsCleaned(a: string, b: string, c: string)
    requires Trimmed(a) && Trimmed(b) && Trimmed(c)
    ensures Clean([Some(a), Some(b), Some(c)]) == [a, b, c]
  {
    StripKeepsTrimmed(a);
    StripKeepsTrimmed(b);
    StripKeepsTrimmed(c);
    var parts := [Some(a), Some(b), Some(c)];
    assert Clean(parts[3..]) == [];
    assert parts[2..][0] == Some(c) && parts[2..][1..] == parts[3..];
    assert Clean(parts[2..]) == [c];
    assert parts[1..][0] == Some(b) && parts[1..][1..] == parts[2..];
    assert Clean(parts[1..]) == [b] + [c];
  }

  lemma PartsCleaned(org: nat, id: nat)
    ensures Clean(KeyParts(org, id)) == [Uuid.Print(org), "projects", Uuid.Print(id)]
  {
    PrintedIsTrimmed(org);
    PrintedIsTrimmed(id);
    ThreePartsCleaned(Uuid.Print(org), "projects", Uuid.Print(id));
  }

  lemma PartsAreColonFree(org: nat, id: nat)
    ensures ColonFree(Clean(KeyParts(org, id)))
  {
    PartsCleaned(org, id);
  }

  lemma KeysAreDistinct(org: nat, id: nat, org': nat, id': nat)
    requires CacheAside.Named(org, id) && CacheAside.Named(org', id')
    requires KeyFor(org, id) == KeyFor(org', id')
    ensures org == org' && id == id'
  {
    var a, b := KeyParts(org, id), KeyParts(org', id');
    PartsAreColonFree(org, id);
    PartsAreColonFree(org', id');
    KeysCollideOnlyWhenEqual("tenant", a, "tenant", b);
    PartsCleaned(org, id);
    PartsCleaned(org', id');
    assert Clean(a)[0] == Clean(b)[0] && Clean(a)[2] == Clean(b)[2];
    Uuid.PrintIsInjective(org, org');
    Uuid.PrintIsInjective(id, id');
  }

  lemma KeyIsText(org: nat, id: nat)
    ensures KeyFor(org, id) == "tenant:" + Uuid.Print(org) + ":projects:" + Uuid.Print(id)
  {
    PartsCleaned(org, id);
    var parts := Clean(KeyParts(org, id));
    assert parts[1..] == ["projects", Uuid.Print(id)] && parts[1..][1..] == [Uuid.Print(id)];
    assert Join(parts[1..]) == "projects" + ":" + Uuid.Print(id);
    assert Join(parts) == Uuid.Print(org) + ":" + Join(parts[1..]);
  }

  /** `build_key` keeps projects apart, so all of `CacheAside` holds with the keys that are really used. */
  lemma TenantKeysDistinguish()
    ensures CacheAside.Distinguishes(KeyFor)
  {
    forall org, id, org', id' | CacheAside.Named(org, id) && CacheAside.Named(org', id') && KeyFor(org, id) == KeyFor(org', id')
      ensures org == org' && id == id'
    {
      KeysAreDistinct(org, id, org', id');
    }
  }

  // ----- the service and the endpoints -----

  datatype Cached = Cached(row: ProjectOcc.Project, expireAt: real)

  class CacheService {
    var entries: map<string, Cached>

    constructor ()
      ensures entries == map[]
    {
      entries := map[];
    }

    ghost predicate Live(key: string, now: real)
      reads this
    {
      key in entries && now < entries[key].expireAt
    }

    /** A failing call is logged and looks like a miss. */
    method Get(key: string, now: real, up: bool) returns (r: Option<ProjectOcc.Project>)
      ensures r == if up && Live(key, now) then Some(entries[key].row) else None
    {
      if up && key in entries && now < entries[key].expireAt {
        return Some(entries[key].row);
      }
      return None;
    }

    method Set(key: string, row: ProjectOcc.Project, ttl: real, now: real, up: bool)
      modifies this
      ensures entries == if up then old(entries)[key := Cached(row, now + ttl)] else old(entries)
    {
      if up {
        entries := entries[key := Cached(row, now + ttl)];
      }
    }

    method Delete(key: string, up: bool)
      modifies this
      ensures entries == if up then old(entries) - {key} else old(entries)
    {
      if up {
        entries := entries - {key};
      }
    }
  }

  /** What the cache answers from now on is what the table holds. */
  ghost predicate Coherent(entries: map<string, Cached>, rows: map<nat, ProjectOcc.Project>, now: real) {
    forall org, id :: CacheAside.Named(org, id) && KeyFor(org, id) in entries && now < entries[KeyFor(org, id)].expireAt
                      ==> Shows(rows, org, id, entries[KeyFor(org, id)].row)
  }

  /** Time only lets entries expire. */
  lemma CoherenceLasts(entries: map<string, Cached>, rows: map<nat, ProjectOcc.Project>, now: real, later: real)
    requires Coherent(entries, rows, now) && now <= later
    ensures Coherent(entries, rows, later)
  {
  }

  ghost predicate Shows(rows: map<nat, ProjectOcc.Project>, org: nat, id: nat, row: ProjectOcc.Project) {
    id in rows && rows[id].org == org && row == rows[id]
  }

  lemma SettingKeepsCoherence(entries: map<string, Cached>, rows: map<nat, ProjectOcc.Project>, now: real, org: nat, id: nat, ttl: real)
    requires Coherent(entries, rows, now) && CacheAside.Named(org, id)
    requires id in rows && rows[id].org == org
    ensures Coherent(entries[KeyFor(org, id) := Cached(rows[id], now + ttl)], rows, now)
  {
    TenantKeysDistinguish();
  }

  /** After an update, the only entry that may be wrong is the updated project's own. */
  lemma UpdateSpoilsOneEntry(entries: map<string, Cached>, rows: map<nat, ProjectOcc.Project>, now: real, id: nat, row: ProjectOcc.Project)
    requires Coherent(entries, rows, now)
    requires id in rows && row.org == rows[id].org && row != rows[id] && CacheAside.Named(row.org, id)
    ensures Coherent(entries - {KeyFor(row.org, id)}, rows[id := row], now)
    ensures Coherent(entries, rows[id := row], now)
            <==> !(KeyFor(row.org, id) in entries && now < entries[KeyFor(row.org, id)].expireAt)
  {
    var key := KeyFor(row.org, id);
    TenantKeysDistinguish();
    if key in entries && now < entries[key].expireAt {
      assert Shows(rows, row.org, id, entries[key].row);
      assert !Shows(rows[id := row], row.org, id, entries[key].row);
    }
  }

  class ProjectEndpoints {
    const cache: CacheService
    const service: ProjectService

    constructor (cache: CacheService, service: ProjectService)
      ensures this.cache == cache && this.service == service
    {
      this.cache := cache;
      this.service := service;
    }

    /** With a coherent cache the cached GET answers what the uncached GET would. */
    method GetProject(id: nat, now: real, getUp: bool, setUp: bool) returns (r: Result<ProjectOcc.Project, Failure>)
      requires CacheAside.Named(service.organizationId, id)
      requires Coherent(cache.entries, service.rows, now)
      modifies cache
      ensures r == if id in service.rows && service.rows[id].org == service.organizationId then Ok(service.rows[id]) else Err(NoSuchProject)
      ensures var key := KeyFor(service.organizationId, id);
              var hit := getUp && key in old(cache.entries) && now < old(cache.entries)[key].expireAt;
              cache.entries == if r.Ok? && !hit && setUp then old(cache.entries)[key := Cached(r.value, now + 300.0)]
                               else old(cache.entries)
      ensures forall later :: later >= now ==> Coherent(cache.entries, service.rows, later)
    {
      var key := KeyFor(service.organizationId, id);
      forall later | later >= now ensures Coherent(cache.entries, service.rows, later) {
        CoherenceLasts(cache.entries, service.rows, now, later);
      }
      var cached := cache.Get(key, now, getUp);
      if cached.Some? {
        assert Shows(service.rows, service.organizationId, id, cached.value);
        return Ok(cached.value);
      }
      if id !in service.rows || service.rows[id].org != service.organizationId {
        return Err(NoSuchProject);
      }
      SettingKeepsCoherence(cache.entries, service.rows, now, service.organizationId, id, CacheAside.TTL);
      cache.Set(key, service.rows[id], CacheAside.TTL, now, setUp);
      forall later | later >= now ensures Coherent(cache.entries, service.rows, later) {
        CoherenceLasts(cache.entries, service.rows, now, later);
      }
      return Ok(service.rows[id]);
    }

    /** An update leaves the cache coherent unless its eviction failed while an entry was alive. */
    method UpdateProject(id: nat, payload: ProjectOcc.Payload, now: real, deleteUp: bool) returns (r: Result<ProjectOcc.Project, Failure>)
      requires CacheAside.Named(service.organizationId, id)
      requires Coherent(cache.entries, service.rows, now)
      modifies cache, service
      ensures r.Ok? <==> id in old(service.rows) && old(service.rows)[id].org == service.organizationId
                         && old(service.rows)[id].version == payload.expected
      ensures r.Ok? ==> service.rows == old(service.rows)[id := r.value] && r.value == ProjectOcc.Changed(old(service.rows)[id], payload)
      ensures r.Err? ==> service.rows == old(service.rows)
      ensures cache.entries == if r.Ok? && deleteUp then old(cache.entries) - {KeyFor(service.organizationId, id)} else old(cache.entries)
      ensures Coherent(cache.entries, service.rows, now)
              <==> r.Err? || deleteUp || !old(cache.Live(KeyFor(service.organizationId, id), now))
    {
      r := service.UpdateProject(id, payload, None);
      if r.Ok? {
        LoadThenFlush(old(service.rows)[id], payload);
        UpdateSpoilsOneEntry(cache.entries, old(service.rows), now, id, r.value);
        cache.Delete(KeyFor(service.organizationId, id), deleteUp);
      }
    }
  }
}
