/**
 * `FeatureService`: the business rules for features on top of the
 * session — listing in display order, the next-order policy, creation
 * (single and bulk), merge-patch update, status update and cascading
 * delete.
 */
module FeatureServices {
  import opened Wrappers
  import opened Base
  import opened Enums
  import opened ProjectModel
  import opened FeatureModel
  import opened PbiModel
  import opened FeatureSchema
  import opened Store

  /** The `ValueError` raised when the project of a request does not exist. */
  datatype ServiceError = ProjectNotFound(projectId: Id)

  // ------------------------------------------------------------ next order

  /** SQL `max(order)`: nothing for an empty set, otherwise its largest element. */
  ghost function MaxOrder(s: set<int>): (r: Option<int>)
    ensures r.None? <==> s == {}
    ensures r.Some? ==> r.value in s && forall o :: o in s ==> o <= r.value
  {
    if s == {} then None
    else
      IntSetHasElement(s);
      var x :| x in s;
      var rest := MaxOrder(s - {x});
      assert forall o :: o in s ==> o == x || o in s - {x};
      if rest.None? || rest.value < x then Some(x) else rest
  }

  /**
   * `(max_order or -1) + 1`. Python treats a maximum of 0 as false, so a
   * maximum of 0 gives 0 again, not 1.
   */
  function NextOrderAfter(maxOrder: Option<int>): (r: int)
    ensures maxOrder.None? ==> r == 0
    ensures maxOrder == Some(0) ==> r == 0
    ensures maxOrder.Some? && maxOrder.value != 0 ==> r == maxOrder.value + 1
  {
    (if maxOrder.None? || maxOrder.value == 0 then -1 else maxOrder.value) + 1
  }

  /**
   * What the policy gives for a project whose orders are all
   * non-negative: 0 for the first feature; max + 1 above every existing
   * order, except when every existing order is 0, where the next order is
   * 0 again and collides.
   */
  lemma NextOrderPolicy(s: set<int>)
    requires forall o :: o in s ==> o >= 0
    ensures var next := NextOrderAfter(MaxOrder(s));
      && next >= 0
      && (s == {} ==> next == 0)
      && (s != {} && s != {0} ==> next == MaxOrder(s).value + 1)
      && (s != {0} ==> forall o :: o in s ==> o < next)
      && (next in s <==> s == {0})
  {
    var m := MaxOrder(s);
    if m.Some? && m.value == 0 {
      assert forall o :: o in s ==> o == 0;
      assert s == {0};
    }
  }

  /** In a valid store the next order of any project is a valid order. */
  lemma NextOrderIsValid(db: Database, projectId: Id)
    requires db.Valid()
    ensures NextOrderAfter(MaxOrder(OrdersOf(db.features, projectId))) >= 0
  {
    db.OrdersNonNegative(projectId);
    NextOrderPolicy(OrdersOf(db.features, projectId));
  }

  // -------------------------------------------------------------- listing

  /** The `ORDER BY order ASC, created_at ASC` of a feature listing, as a total preorder. */
  predicate ListedBefore(a: Feature, b: Feature) {
    a.order < b.order || (a.order == b.order && a.meta.createdAt <= b.meta.createdAt)
  }

  predicate SortedForListing(r: seq<Feature>) {
    forall i, j :: 0 <= i < j < |r| ==> ListedBefore(r[i], r[j])
  }

  ghost function KeysOf(r: seq<Feature>): set<Id> {
    set i | 0 <= i < |r| :: r[i].meta.id
  }

  /** Every nonempty set of features has one that sorts before all the others. */
  lemma {:induction false} FirstFeatureExists(features: map<Id, Feature>, s: set<Id>)
    requires s != {} && s <= features.Keys
    ensures exists m :: m in s && forall o :: o in s ==> ListedBefore(features[m], features[o])
  {
    IdSetHasElement(s);
    var x :| x in s;
    if s == {x} {
      assert forall o :: o in s ==> ListedBefore(features[x], features[o]);
    } else {
      var rest := s - {x};
      FirstFeatureExists(features, rest);
      var m :| m in rest && forall o :: o in rest ==> ListedBefore(features[m], features[o]);
      if ListedBefore(features[x], features[m]) {
        forall o | o in s ensures ListedBefore(features[x], features[o]) {
          if o != x {
            assert ListedBefore(features[m], features[o]);
          }
        }
      } else {
        forall o | o in s ensures ListedBefore(features[m], features[o]) {
          if o != x {
            assert o in rest;
          }
        }
      }
    }
  }

  lemma KeysOfAppend(r: seq<Feature>, f: Feature)
    ensures KeysOf(r + [f]) == KeysOf(r) + {f.meta.id}
  {
    var r' := r + [f];
    forall k | k in KeysOf(r') ensures k in KeysOf(r) + {f.meta.id} {
      var i :| 0 <= i < |r'| && r'[i].meta.id == k;
      if i < |r| {
        assert r[i] == r'[i];
      }
    }
    forall k | k in KeysOf(r) + {f.meta.id} ensures k in KeysOf(r') {
      if k == f.meta.id {
        assert r'[|r|].meta.id == k;
      } else {
        var i :| 0 <= i < |r| && r[i].meta.id == k;
        assert r'[i].meta.id == k;
      }
    }
  }

  /**
   * The state of the selection loop: `r` lists, in order, the rows of
   * `all` that are no longer `remaining`, each once and as stored, and
   * every listed row sorts before every remaining one.
   */
  ghost predicate Listing(features: map<Id, Feature>, all: set<Id>, r: seq<Feature>, remaining: set<Id>) {
    && remaining <= all <= features.Keys
    && KeysOf(r) + remaining == all
    && KeysOf(r) !! remaining
    && (forall i :: 0 <= i < |r| ==> r[i].meta.id in features && features[r[i].meta.id] == r[i])
    && (forall i, j :: 0 <= i < j < |r| ==> r[i].meta.id != r[j].meta.id)
    && SortedForListing(r)
    && (forall i, o :: 0 <= i < |r| && o in remaining ==> ListedBefore(r[i], features[o]))
  }

  /** Moving a first remaining row to the end of the listing keeps the loop state. */
  lemma ListingStep(features: map<Id, Feature>, all: set<Id>, r: seq<Feature>, remaining: set<Id>, m: Id)
    requires Listing(features, all, r, remaining)
    requires m in remaining && features[m].meta.id == m
    requires forall o :: o in remaining ==> ListedBefore(features[m], features[o])
    ensures Listing(features, all, r + [features[m]], remaining - {m})
  {
    KeysOfAppend(r, features[m]);
  }

  // --------------------------------------------------------- merge patches

  /** `setattr(feature, field, value)` for one dumped pair. */
  function Assign(f: Feature, a: FeatureAssignment): Feature {
    match a
    case SetName(n) => f.(name := n)
    case SetDescription(d) => f.(description := d)
    case SetStatus(s) => f.(status := s)
    case SetBranchName(b) => f.(branchName := b)
    case SetOrder(o) => f.(order := o)
  }

  /** The `setattr` loop over a prefix of the dumped pairs. */
  function AssignAll(f: Feature, assignments: seq<FeatureAssignment>): Feature {
    if assignments == [] then f
    else Assign(AssignAll(f, assignments[..|assignments| - 1]), assignments[|assignments| - 1])
  }

  /**
   * The merge patch as a reference definition: each supplied field takes
   * the patch's value, every other column keeps its value.
   */
  function Merge(f: Feature, u: FeatureUpdate): (r: Feature)
    ensures r.meta == f.meta && r.projectId == f.projectId
  {
    Feature(
      f.meta, f.projectId,
      u.name.GetOr(f.name),
      u.description.GetOr(f.description),
      u.status.GetOr(f.status),
      u.branchName.GetOr(f.branchName),
      u.order.GetOr(f.order))
  }

  lemma {:induction false} AssignAllAppend(f: Feature, xs: seq<FeatureAssignment>, ys: seq<FeatureAssignment>)
    ensures AssignAll(f, xs + ys) == AssignAll(AssignAll(f, xs), ys)
    decreases |ys|
  {
    if ys == [] {
      assert xs + ys == xs;
    } else {
      assert (xs + ys)[..|xs + ys| - 1] == xs + ys[..|ys| - 1];
      AssignAllAppend(f, xs, ys[..|ys| - 1]);
    }
  }

  /** Running the `setattr` loop over `model_dump(exclude_unset=True)` applies the merge patch. */
  lemma DumpThenAssignIsMerge(f: Feature, u: FeatureUpdate)
    ensures AssignAll(f, ModelDump(u)) == Merge(f, u)
  {
    var p0 := if u.name.Some? then [SetName(u.name.value)] else [];
    var p1 := if u.description.Some? then [SetDescription(u.description.value)] else [];
    var p2 := if u.status.Some? then [SetStatus(u.status.value)] else [];
    var p3 := if u.branchName.Some? then [SetBranchName(u.branchName.value)] else [];
    var p4 := if u.order.Some? then [SetOrder(u.order.value)] else [];
    assert ModelDump(u) == p0 + p1 + p2 + p3 + p4;
    AssignAllAppend(f, p0 + p1 + p2 + p3, p4);
    AssignAllAppend(f, p0 + p1 + p2, p3);
    AssignAllAppend(f, p0 + p1, p2);
    AssignAllAppend(f, p0, p1);
    assert AssignAll(f, p0) == f.(name := u.name.GetOr(f.name));
  }

  /** Applying the same patch twice has the effect of applying it once. */
  lemma MergeIdempotent(f: Feature, u: FeatureUpdate)
    ensures Merge(Merge(f, u), u) == Merge(f, u)
  {
  }

  /** The empty patch changes nothing. */
  lemma EmptyMergeIsIdentity(f: Feature)
    ensures Merge(f, FeatureUpdate()) == f
  {
  }

  /** A patch that supplies only the status has the effect of `update_status`. */
  lemma StatusPatchIsStatusUpdate(f: Feature, s: FeatureStatus)
    ensures Merge(f, FeatureUpdate(status := Some(s))) == f.(status := s)
  {
  }

  // ------------------------------------------------------------- new rows

  /** The row the service builds: status PENDING, no branch, and the given order and project. */
  function NewFeature(id: Id, now: Time, projectId: Id, data: FeatureCreate, order: int): (f: Feature)
    ensures f.meta == NewMeta(id, now) && f.projectId == projectId
    ensures f.name == data.name && f.description == data.description
    ensures f.status == FeatureStatus.FeaturePending && f.branchName == None && f.order == order
  {
    NewFeatureRow(NewMeta(id, now), projectId, data.name, data.description).(order := order)
  }

  /** The `setattr` loop of `update`, over the pairs of `model_dump(exclude_unset=True)`. */
  method ApplyPatch(before: Feature, data: FeatureUpdate) returns (feature: Feature)
    ensures feature == Merge(before, data)
  {
    feature := before;
    var updates := ModelDump(data);
    for i := 0 to |updates|
      invariant feature == AssignAll(before, updates[..i])
    {
      assert updates[..i + 1][..i] == updates[..i];
      feature := Assign(feature, updates[i]);
    }
    assert updates[..|updates|] == updates;
    DumpThenAssignIsMerge(before, data);
  }

  class FeatureService {
    const db: Database

    constructor (db: Database)
      ensures this.db == db
    {
      this.db := db;
    }

    /**
     * `list_by_project`: exactly the project's features, each once, sorted
     * by order and then by creation time. An unknown project lists nothing.
     */
    method ListByProject(projectId: Id) returns (r: seq<Feature>)
      requires db.FeaturesKeyed()
      ensures SortedForListing(r)
      ensures KeysOf(r) == FeatureIdsOf(db.features, projectId)
      ensures forall i :: 0 <= i < |r| ==> r[i].meta.id in db.features && db.features[r[i].meta.id] == r[i]
      ensures forall i, j :: 0 <= i < j < |r| ==> r[i].meta.id != r[j].meta.id
    {
      var remaining := FeatureIdsOf(db.features, projectId);
      r := [];
      while remaining != {}
        invariant Listing(db.features, FeatureIdsOf(db.features, projectId), r, remaining)
        decreases remaining
      {
        FirstFeatureExists(db.features, remaining);
        var m :| m in remaining && forall o :: o in remaining ==> ListedBefore(db.features[m], db.features[o]);
        ListingStep(db.features, FeatureIdsOf(db.features, projectId), r, remaining, m);
        r := r + [db.features[m]];
        remaining := remaining - {m};
      }
    }

    /** `get_by_id`: the feature with that key, or nothing. */
    function GetById(featureId: Id): (r: Option<Feature>)
      reads db
      ensures r.None? <==> featureId !in db.features
      ensures r.Some? ==> r.value == db.features[featureId]
    {
      if featureId in db.features then Some(db.features[featureId]) else None
    }

    /** `_get_next_order`: scans the project's features for the largest order. */
    method NextOrder(projectId: Id) returns (next: int)
      ensures next == NextOrderAfter(MaxOrder(OrdersOf(db.features, projectId)))
    {
      var remaining := FeatureIdsOf(db.features, projectId);
      var maxOrder: Option<int> := None;
      ghost var seen: set<int> := {};
      while remaining != {}
        invariant remaining <= FeatureIdsOf(db.features, projectId)
        invariant forall k :: k in FeatureIdsOf(db.features, projectId) && k !in remaining ==> db.features[k].order in seen
        invariant seen <= OrdersOf(db.features, projectId)
        invariant maxOrder.None? <==> seen == {}
        invariant maxOrder.Some? ==> maxOrder.value in seen && forall o :: o in seen ==> o <= maxOrder.value
        decreases remaining
      {
        IdSetHasElement(remaining);
        var k :| k in remaining;
        var o := db.features[k].order;
        if maxOrder.None? || maxOrder.value < o {
          maxOrder := Some(o);
        }
        seen := seen + {o};
        remaining := remaining - {k};
      }
      assert seen == OrdersOf(db.features, projectId);
      var m := MaxOrder(seen);
      assert maxOrder == m;
      next := NextOrderAfter(maxOrder);
    }

    /** `_verify_project_exists`: the project, or the not-found error. */
    function VerifyProjectExists(projectId: Id): (r: Result<Project, ServiceError>)
      reads db
      ensures r.Success? <==> projectId in db.projects
      ensures r.Success? ==> r.value == db.projects[projectId]
      ensures r.Failure? ==> r.error == ProjectNotFound(projectId)
    {
      if projectId in db.projects then Success(db.projects[projectId]) else Failure(ProjectNotFound(projectId))
    }

    /**
     * `create`: fails with nothing written when the project is unknown;
     * otherwise adds one PENDING feature under a fresh key, whose order is
     * the supplied one, or the next order when the supplied one is 0.
     */
    method Create(data: FeatureCreate) returns (r: Result<Feature, ServiceError>)
      requires db.Valid() && ValidFeatureCreate(data)
      modifies db
      ensures db.Valid()
      ensures r.Failure? <==> data.projectId !in old(db.projects)
      ensures r.Failure? ==> r.error == ProjectNotFound(data.projectId) && unchanged(db)
      ensures r.Success? ==>
        var order := if data.order == 0
          then NextOrderAfter(MaxOrder(OrdersOf(old(db.features), data.projectId)))
          else data.order;
        && r.value == NewFeature(old(db.nextId), db.clock, data.projectId, data, order)
        && r.value.meta.id !in old(db.features)
        && db.features == old(db.features)[r.value.meta.id := r.value]
        && db.nextId == old(db.nextId) + 1 && db.clock == old(db.clock) + 1
        && db.projects == old(db.projects) && db.pbis == old(db.pbis) && db.logs == old(db.logs)
    {
      var project := VerifyProjectExists(data.projectId);
      if project.Failure? {
        return Failure(project.error);
      }
      var order := data.order;
      if order == 0 {
        order := NextOrder(data.projectId);
        NextOrderIsValid(db, data.projectId);
      }
      db.Tick();
      var feature := NewFeature(db.nextId, db.clock, data.projectId, data, order);
      db.AddFeature(feature);
      r := Success(feature);
    }

    /**
     * `create_many`: fails with nothing written when the project is
     * unknown; otherwise adds one PENDING feature per item, in item order,
     * with consecutive orders from the next order on. The items' own orders
     * and project ids are ignored. The rows share one commit, so one
     * timestamp.
     */
    method CreateMany(projectId: Id, items: seq<FeatureCreate>) returns (r: Result<seq<Feature>, ServiceError>)
      requires db.Valid()
      modifies db
      ensures db.Valid()
      ensures r.Failure? <==> projectId !in old(db.projects)
      ensures r.Failure? ==> r.error == ProjectNotFound(projectId) && unchanged(db)
      ensures r.Success? ==>
        var next := NextOrderAfter(MaxOrder(OrdersOf(old(db.features), projectId)));
        var created := r.value;
        && |created| == |items|
        && (forall i :: 0 <= i < |items| ==>
              created[i] == NewFeature(old(db.nextId) + i, db.clock, projectId, items[i], next + i))
        && (forall k :: k in db.features <==> k in old(db.features) || old(db.nextId) <= k < old(db.nextId) + |items|)
        && (forall k :: k in old(db.features) ==> db.features[k] == old(db.features)[k])
        && (forall i :: 0 <= i < |items| ==> db.features[old(db.nextId) + i] == created[i])
        && db.nextId == old(db.nextId) + |items|
        && db.clock == old(db.clock) + (if |items| == 0 then 0 else 1)
        && db.projects == old(db.projects) && db.pbis == old(db.pbis) && db.logs == old(db.logs)
    {
      var project := VerifyProjectExists(projectId);
      if project.Failure? {
        return Failure(project.error);
      }
      var next := NextOrder(projectId);
      NextOrderIsValid(db, projectId);
      var created := AddBatch(projectId, items, next);
      r := Success(created);
    }

    /**
     * The loop of `create_many` and its single commit: one row per item, in
     * item order, all stamped with the time of that commit.
     */
    method AddBatch(projectId: Id, items: seq<FeatureCreate>, next: int) returns (created: seq<Feature>)
      requires db.Valid() && projectId in db.projects && next >= 0
      modifies db
      ensures db.Valid()
      ensures |created| == |items|
      ensures forall i :: 0 <= i < |items| ==>
        created[i] == NewFeature(old(db.nextId) + i, db.clock, projectId, items[i], next + i)
      ensures forall k :: k in db.features <==> k in old(db.features) || old(db.nextId) <= k < old(db.nextId) + |items|
      ensures forall k :: k in old(db.features) ==> db.features[k] == old(db.features)[k]
      ensures forall i :: 0 <= i < |items| ==> db.features[old(db.nextId) + i] == created[i]
      ensures db.nextId == old(db.nextId) + |items|
      ensures db.clock == old(db.clock) + (if |items| == 0 then 0 else 1)
      ensures db.projects == old(db.projects) && db.pbis == old(db.pbis) && db.logs == old(db.logs)
    {
      if |items| > 0 {
        db.Tick();
      }
      created := [];
      for i := 0 to |items|
        invariant db.Valid()
        invariant |created| == i
        invariant db.nextId == old(db.nextId) + i
        invariant db.clock == old(db.clock) + (if |items| == 0 then 0 else 1)
        invariant forall j :: 0 <= j < i ==>
          created[j] == NewFeature(old(db.nextId) + j, db.clock, projectId, items[j], next + j)
        invariant forall k :: k in db.features <==> k in old(db.features) || old(db.nextId) <= k < old(db.nextId) + i
        invariant forall k :: k in old(db.features) ==> db.features[k] == old(db.features)[k]
        invariant forall j :: 0 <= j < i ==> db.features[old(db.nextId) + j] == created[j]
        invariant db.projects == old(db.projects) && db.pbis == old(db.pbis) && db.logs == old(db.logs)
      {
        var feature := NewFeature(db.nextId, db.clock, projectId, items[i], next + i);
        db.AddFeature(feature);
        created := created + [feature];
      }
    }

    /**
     * `update`: nothing for an unknown key; otherwise the `setattr` loop
     * over the supplied fields. Every other column and every other feature
     * keeps its value; `updatedAt` is refreshed when a column changed.
     */
    method Update(featureId: Id, data: FeatureUpdate) returns (r: Option<Feature>)
      requires db.Valid() && ValidFeatureUpdate(data)
      modifies db
      ensures db.Valid()
      ensures r.None? <==> featureId !in old(db.features)
      ensures r.None? ==> unchanged(db)
      ensures r.Some? ==>
        var before := old(db.features)[featureId];
        var merged := Merge(before, data);
        && r.value == merged.(meta := OnUpdate(before.meta, merged != before, db.clock))
        && db.features == old(db.features)[featureId := r.value]
        && db.clock == old(db.clock) + (if merged != before then 1 else 0)
        && db.nextId == old(db.nextId)
        && db.projects == old(db.projects) && db.pbis == old(db.pbis) && db.logs == old(db.logs)
    {
      if featureId !in db.features {
        return None;
      }
      var before := db.features[featureId];
      var feature := ApplyPatch(before, data);
      if feature != before {
        db.Tick();
        feature := feature.(meta := OnUpdate(feature.meta, true, db.clock));
        db.SaveFeature(feature);
      }
      r := Some(feature);
    }

    /**
     * `delete`: false for an unknown key; otherwise true, and the feature
     * and every PBI it owns are gone while all other rows stay.
     */
    method Delete(featureId: Id) returns (deleted: bool)
      requires db.Valid()
      modifies db
      ensures db.Valid()
      ensures deleted <==> featureId in old(db.features)
      ensures featureId !in db.features
      ensures !deleted ==> unchanged(db)
      ensures deleted ==>
        && db.features == old(db.features) - {featureId}
        && db.pbis == old(db.pbis) - PbiIdsUnder(old(db.pbis), {featureId})
        && (forall k :: k in db.pbis <==> k in old(db.pbis) && old(db.pbis)[k].featureId != featureId)
        && db.projects == old(db.projects) && db.logs == old(db.logs)
        && db.nextId == old(db.nextId) && db.clock == old(db.clock)
    {
      if featureId !in db.features {
        return false;
      }
      db.DeleteFeature(featureId);
      deleted := true;
    }

    /**
     * `update_status`: nothing for an unknown key; otherwise only the
     * status is written, with any value at all.
     */
    method UpdateStatus(featureId: Id, status: FeatureStatus) returns (r: Option<Feature>)
      requires db.Valid()
      modifies db
      ensures db.Valid()
      ensures r.None? <==> featureId !in old(db.features)
      ensures r.None? ==> unchanged(db)
      ensures r.Some? ==>
        var before := old(db.features)[featureId];
        var changed := before.status != status;
        && r.value == before.(status := status, meta := OnUpdate(before.meta, changed, db.clock))
        && db.features == old(db.features)[featureId := r.value]
        && db.clock == old(db.clock) + (if changed then 1 else 0)
        && db.nextId == old(db.nextId)
        && db.projects == old(db.projects) && db.pbis == old(db.pbis) && db.logs == old(db.logs)
    {
      if featureId !in db.features {
        return None;
      }
      var feature := db.features[featureId];
      if feature.status != status {
        db.Tick();
        feature := feature.(status := status, meta := OnUpdate(feature.meta, true, db.clock));
        db.SaveFeature(feature);
      }
      r := Some(feature);
    }
  }
}
