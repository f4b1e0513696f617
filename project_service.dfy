/**
 * `ProjectService`: the business rules for projects on top of the
 * session — listing newest first, creation in DRAFT, merge-patch update,
 * the deep cascading delete and the project-with-features query.
 */
module ProjectServices {
  import opened Wrappers
  import opened Base
  import opened Enums
  import opened ProjectModel
  import opened FeatureModel
  import opened ProjectSchema
  import opened Store

  // -------------------------------------------------------------- listing

  /** The `ORDER BY created_at DESC` of the project listing, as a total preorder. */
  predicate NewerOrSame(a: Project, b: Project) {
    a.meta.createdAt >= b.meta.createdAt
  }

  predicate SortedNewestFirst(r: seq<Project>) {
    forall i, j :: 0 <= i < j < |r| ==> NewerOrSame(r[i], r[j])
  }

  ghost function KeysOf(r: seq<Project>): set<Id> {
    set i | 0 <= i < |r| :: r[i].meta.id
  }

  /** Every nonempty set of projects has a newest one. */
  lemma {:induction false} NewestProjectExists(projects: map<Id, Project>, s: set<Id>)
    requires s != {} && s <= projects.Keys
    ensures exists m :: m in s && forall o :: o in s ==> NewerOrSame(projects[m], projects[o])
  {
    IdSetHasElement(s);
    var x :| x in s;
    if s == {x} {
      assert forall o :: o in s ==> NewerOrSame(projects[x], projects[o]);
    } else {
      var rest := s - {x};
      NewestProjectExists(projects, rest);
      var m :| m in rest && forall o :: o in rest ==> NewerOrSame(projects[m], projects[o]);
      if NewerOrSame(projects[x], projects[m]) {
        forall o | o in s ensures NewerOrSame(projects[x], projects[o]) {
          if o != x {
            assert NewerOrSame(projects[m], projects[o]);
          }
        }
      } else {
        forall o | o in s ensures NewerOrSame(projects[m], projects[o]) {
          if o != x {
            assert o in rest;
          }
        }
      }
    }
  }

  lemma KeysOfAppend(r: seq<Project>, p: Project)
    ensures KeysOf(r + [p]) == KeysOf(r) + {p.meta.id}
  {
    var r' := r + [p];
    forall k | k in KeysOf(r') ensures k in KeysOf(r) + {p.meta.id} {
      var i :| 0 <= i < |r'| && r'[i].meta.id == k;
      if i < |r| {
        assert r[i] == r'[i];
      }
    }
    forall k | k in KeysOf(r) + {p.meta.id} ensures k in KeysOf(r') {
      if k == p.meta.id {
        assert r'[|r|].meta.id == k;
      } else {
        var i :| 0 <= i < |r| && r[i].meta.id == k;
        assert r'[i].meta.id == k;
      }
    }
  }

  /**
   * The state of the selection loop: `r` lists, in order, the rows of
   * `all` that are no longer `remaining`, each once and as stored, and
   * every listed row sorts before every remaining one.
   */
  ghost predicate Listing(projects: map<Id, Project>, all: set<Id>, r: seq<Project>, remaining: set<Id>) {
    && remaining <= all <= projects.Keys
    && KeysOf(r) + remaining == all
    && KeysOf(r) !! remaining
    && (forall i :: 0 <= i < |r| ==> r[i].meta.id in projects && projects[r[i].meta.id] == r[i])
    && (forall i, j :: 0 <= i < j < |r| ==> r[i].meta.id != r[j].meta.id)
    && SortedNewestFirst(r)
    && (forall i, o :: 0 <= i < |r| && o in remaining ==> NewerOrSame(r[i], projects[o]))
  }

  /** Moving a first remaining row to the end of the listing keeps the loop state. */
  lemma ListingStep(projects: map<Id, Project>, all: set<Id>, r: seq<Project>, remaining: set<Id>, m: Id)
    requires Listing(projects, all, r, remaining)
    requires m in remaining && projects[m].meta.id == m
    requires forall o :: o in remaining ==> NewerOrSame(projects[m], projects[o])
    ensures Listing(projects, all, r + [projects[m]], remaining - {m})
  {
    KeysOfAppend(r, projects[m]);
  }

  // --------------------------------------------------------- merge patches

  /** `setattr(project, field, value)` for one dumped pair. */
  function Assign(p: Project, a: ProjectAssignment): Project {
    match a
    case SetName(n) => p.(name := n)
    case SetEpic(e) => p.(epic := e)
    case SetStatus(s) => p.(status := s)
  }

  /** The `setattr` loop over a prefix of the dumped pairs. */
  function AssignAll(p: Project, assignments: seq<ProjectAssignment>): Project {
    if assignments == [] then p
    else Assign(AssignAll(p, assignments[..|assignments| - 1]), assignments[|assignments| - 1])
  }

  /**
   * The merge patch as a reference definition: each supplied field takes
   * the patch's value; the key, timestamps, type and repository columns
   * are out of the patch's reach.
   */
  function Merge(p: Project, u: ProjectUpdate): (r: Project)
    ensures r.meta == p.meta && r.kind == p.kind
    ensures r.githubRepoUrl == p.githubRepoUrl && r.githubRepoName == p.githubRepoName
  {
    Project(
      p.meta,
      u.name.GetOr(p.name),
      u.epic.GetOr(p.epic),
      p.kind,
      u.status.GetOr(p.status),
      p.githubRepoUrl,
      p.githubRepoName)
  }

  lemma {:induction false} AssignAllAppend(p: Project, xs: seq<ProjectAssignment>, ys: seq<ProjectAssignment>)
    ensures AssignAll(p, xs + ys) == AssignAll(AssignAll(p, xs), ys)
    decreases |ys|
  {
    if ys == [] {
      assert xs + ys == xs;
    } else {
      assert (xs + ys)[..|xs + ys| - 1] == xs + ys[..|ys| - 1];
      AssignAllAppend(p, xs, ys[..|ys| - 1]);
    }
  }

  /** Running the `setattr` loop over `model_dump(exclude_unset=True)` applies the merge patch. */
  lemma DumpThenAssignIsMerge(p: Project, u: ProjectUpdate)
    ensures AssignAll(p, ModelDump(u)) == Merge(p, u)
  {
    var p0 := if u.name.Some? then [SetName(u.name.value)] else [];
    var p1 := if u.epic.Some? then [SetEpic(u.epic.value)] else [];
    var p2 := if u.status.Some? then [SetStatus(u.status.value)] else [];
    assert ModelDump(u) == p0 + p1 + p2;
    AssignAllAppend(p, p0 + p1, p2);
    AssignAllAppend(p, p0, p1);
    assert AssignAll(p, p0) == p.(name := u.name.GetOr(p.name));
  }

  /** Applying the same patch twice has the effect of applying it once. */
  lemma MergeIdempotent(p: Project, u: ProjectUpdate)
    ensures Merge(Merge(p, u), u) == Merge(p, u)
  {
  }

  /** The empty patch changes nothing. */
  lemma EmptyMergeIsIdentity(p: Project)
    ensures Merge(p, ProjectUpdate()) == p
  {
  }

  /** The `setattr` loop of `update`, over the pairs of `model_dump(exclude_unset=True)`. */
  method ApplyPatch(before: Project, data: ProjectUpdate) returns (project: Project)
    ensures project == Merge(before, data)
  {
    project := before;
    var updates := ModelDump(data);
    for i := 0 to |updates|
      invariant project == AssignAll(before, updates[..i])
    {
      assert updates[..i + 1][..i] == updates[..i];
      project := Assign(project, updates[i]);
    }
    assert updates[..|updates|] == updates;
    DumpThenAssignIsMerge(before, data);
  }

  // ------------------------------------------------------------- new rows

  /** The row `create` builds: name, epic and type from the request, status DRAFT, no repository. */
  function CreatedProject(id: Id, now: Time, data: ProjectCreate): (p: Project)
    ensures p.meta == NewMeta(id, now)
    ensures p.name == data.name && p.epic == data.epic && p.kind == data.kind
    ensures p.status == ProjectStatus.Draft
    ensures p.githubRepoUrl == None && p.githubRepoName == None
  {
    NewProjectRow(NewMeta(id, now), data.name, data.epic).(kind := data.kind)
  }

  /** A project row together with the features that reference it, keyed by id. */
  datatype ProjectWithFeatures = ProjectWithFeatures(project: Project, features: map<Id, Feature>)

  class ProjectService {
    const db: Database

    constructor (db: Database)
      ensures this.db == db
    {
      this.db := db;
    }

    /** `list_all`: every project exactly once, newest first. */
    method ListAll() returns (r: seq<Project>)
      requires db.ProjectsKeyed()
      ensures SortedNewestFirst(r)
      ensures KeysOf(r) == db.projects.Keys
      ensures forall i :: 0 <= i < |r| ==> r[i].meta.id in db.projects && db.projects[r[i].meta.id] == r[i]
      ensures forall i, j :: 0 <= i < j < |r| ==> r[i].meta.id != r[j].meta.id
    {
      var remaining := db.projects.Keys;
      r := [];
      while remaining != {}
        invariant Listing(db.projects, db.projects.Keys, r, remaining)
        decreases remaining
      {
        NewestProjectExists(db.projects, remaining);
        var m :| m in remaining && forall o :: o in remaining ==> NewerOrSame(db.projects[m], db.projects[o]);
        ListingStep(db.projects, db.projects.Keys, r, remaining, m);
        r := r + [db.projects[m]];
        remaining := remaining - {m};
      }
    }

    /** `get_by_id`: the project with that key, or nothing. */
    function GetById(projectId: Id): (r: Option<Project>)
      reads db
      ensures r.None? <==> projectId !in db.projects
      ensures r.Some? ==> r.value == db.projects[projectId]
    {
      if projectId in db.projects then Some(db.projects[projectId]) else None
    }

    /** `create`: one new DRAFT project under a fresh key; nothing else is written. */
    method Create(data: ProjectCreate) returns (p: Project)
      requires db.Valid()
      modifies db
      ensures db.Valid()
      ensures p == CreatedProject(old(db.nextId), db.clock, data)
      ensures p.meta.id !in old(db.projects)
      ensures db.projects == old(db.projects)[p.meta.id := p]
      ensures db.nextId == old(db.nextId) + 1 && db.clock == old(db.clock) + 1
      ensures db.features == old(db.features) && db.pbis == old(db.pbis) && db.logs == old(db.logs)
    {
      db.Tick();
      p := CreatedProject(db.nextId, db.clock, data);
      db.AddProject(p);
    }

    /**
     * `update`: nothing for an unknown key; otherwise the `setattr` loop
     * over the supplied fields. Every other column and every other row
     * keeps its value; `updatedAt` is refreshed when a column changed.
     */
    method Update(projectId: Id, data: ProjectUpdate) returns (r: Option<Project>)
      requires db.Valid()
      modifies db
      ensures db.Valid()
      ensures r.None? <==> projectId !in old(db.projects)
      ensures r.None? ==> unchanged(db)
      ensures r.Some? ==>
        var before := old(db.projects)[projectId];
        var merged := Merge(before, data);
        && r.value == merged.(meta := OnUpdate(before.meta, merged != before, db.clock))
        && db.projects == old(db.projects)[projectId := r.value]
        && db.clock == old(db.clock) + (if merged != before then 1 else 0)
        && db.nextId == old(db.nextId)
        && db.features == old(db.features) && db.pbis == old(db.pbis) && db.logs == old(db.logs)
    {
      var found := GetById(projectId);
      if found.None? {
        return None;
      }
      var before := found.value;
      var project := ApplyPatch(before, data);
      if project != before {
        db.Tick();
        project := project.(meta := OnUpdate(project.meta, true, db.clock));
        db.SaveProject(project);
      }
      r := Some(project);
    }

    /**
     * `delete`: false for an unknown key; otherwise true, and the project,
     * its features, their PBIs and its logs are gone while every other row
     * stays.
     */
    method Delete(projectId: Id) returns (deleted: bool)
      requires db.Valid()
      modifies db
      ensures db.Valid()
      ensures deleted <==> projectId in old(db.projects)
      ensures projectId !in db.projects
      ensures !deleted ==> unchanged(db)
      ensures deleted ==>
        var owned := FeatureIdsOf(old(db.features), projectId);
        && db.projects == old(db.projects) - {projectId}
        && (forall k :: k in db.features <==> k in old(db.features) && old(db.features)[k].projectId != projectId)
        && (forall k :: k in db.pbis <==> k in old(db.pbis) && old(db.pbis)[k].featureId !in owned)
        && (forall k :: k in db.logs <==> k in old(db.logs) && old(db.logs)[k].projectId != projectId)
        && db.features == old(db.features) - owned
        && db.pbis == old(db.pbis) - PbiIdsUnder(old(db.pbis), owned)
        && db.logs == old(db.logs) - LogIdsOf(old(db.logs), projectId)
        && db.nextId == old(db.nextId) && db.clock == old(db.clock)
    {
      var found := GetById(projectId);
      if found.None? {
        return false;
      }
      db.DeleteProject(projectId);
      deleted := true;
    }

    /** `get_with_features`: the project and exactly the features whose `projectId` is its key. */
    function GetWithFeatures(projectId: Id): (r: Option<ProjectWithFeatures>)
      reads db
      ensures r.None? <==> projectId !in db.projects
      ensures r.Some? ==> r.value.project == db.projects[projectId]
      ensures r.Some? ==> r.value.features.Keys == FeatureIdsOf(db.features, projectId)
      ensures r.Some? ==> forall k :: k in r.value.features ==>
        k in db.features && r.value.features[k] == db.features[k] && db.features[k].projectId == projectId
    {
      if projectId !in db.projects then None
      else
        var owned := FeatureIdsOf(db.features, projectId);
        Some(ProjectWithFeatures(db.projects[projectId], map k | k in owned :: db.features[k]))
    }
  }
}
