/**
 * The database session the services share: one table per entity, each a
 * map from primary key to row, a source of fresh keys and a monotone
 * clock. Every service call is one atomic step against it.
 */
module Store {
  import opened Wrappers
  import opened Base
  import opened Enums
  import opened ProjectModel
  import opened FeatureModel
  import opened PbiModel
  import opened AgentLogModel

  // ----------------------------------------------------- queries on the tables

  /** The keys of the features a project owns. */
  function FeatureIdsOf(features: map<Id, Feature>, projectId: Id): (r: set<Id>)
    ensures forall k :: k in r <==> k in features && features[k].projectId == projectId
  {
    set k | k in features && features[k].projectId == projectId
  }

  /** The keys of the PBIs owned by any of the given features. */
  function PbiIdsUnder(pbis: map<Id, Pbi>, featureIds: set<Id>): (r: set<Id>)
    ensures forall k :: k in r <==> k in pbis && pbis[k].featureId in featureIds
  {
    set k | k in pbis && pbis[k].featureId in featureIds
  }

  /** The keys of the logs a project owns. */
  function LogIdsOf(logs: map<Id, AgentLog>, projectId: Id): (r: set<Id>)
    ensures forall k :: k in r <==> k in logs && logs[k].projectId == projectId
  {
    set k | k in logs && logs[k].projectId == projectId
  }

  /** The `order` values among a project's features. */
  ghost function OrdersOf(features: map<Id, Feature>, projectId: Id): (r: set<int>)
    ensures forall k :: k in features && features[k].projectId == projectId ==> features[k].order in r
    ensures forall o :: o in r ==> exists k :: k in features && features[k].projectId == projectId && features[k].order == o
  {
    set k | k in features && features[k].projectId == projectId :: features[k].order
  }

  class Database {
    var projects: map<Id, Project>
    var features: map<Id, Feature>
    var pbis: map<Id, Pbi>
    var logs: map<Id, AgentLog>
    /** Every key handed out so far is below `nextId`. */
    var nextId: Id
    /** The current time; every row's timestamps are at most this. */
    var clock: Time

    /** Every project row is stored under its own key (part of `ProjectsValid`). */
    ghost predicate ProjectsKeyed()
      reads this
    {
      forall k :: k in projects ==> projects[k].meta.id == k
    }

    /** Every feature row is stored under its own key (part of `FeaturesValid`). */
    ghost predicate FeaturesKeyed()
      reads this
    {
      forall k :: k in features ==> features[k].meta.id == k
    }

    ghost predicate ProjectsValid()
      reads this
    {
      forall k :: k in projects ==>
        projects[k].meta.id == k && k < nextId && StampedBy(projects[k].meta, clock)
    }

    /** Features are keyed by their id, belong to an existing project and have a non-negative order. */
    ghost predicate FeaturesValid()
      reads this
    {
      forall k :: k in features ==>
        && features[k].meta.id == k && k < nextId && StampedBy(features[k].meta, clock)
        && features[k].projectId in projects
        && features[k].order >= 0
    }

    /** PBIs are keyed by their id and belong to an existing feature. */
    ghost predicate PbisValid()
      reads this
    {
      forall k :: k in pbis ==>
        pbis[k].meta.id == k && k < nextId && StampedBy(pbis[k].meta, clock)
        && pbis[k].featureId in features
    }

    /** Logs are keyed by their id and belong to an existing project. */
    ghost predicate LogsValid()
      reads this
    {
      forall k :: k in logs ==>
        logs[k].meta.id == k && k < nextId && StampedBy(logs[k].meta, clock)
        && logs[k].projectId in projects
    }

    ghost predicate Valid()
      reads this
    {
      ProjectsValid() && FeaturesValid() && PbisValid() && LogsValid()
    }

    constructor ()
      ensures Valid()
      ensures projects == map[] && features == map[] && pbis == map[] && logs == map[]
      ensures nextId == 0 && clock == 0
    {
      projects, features, pbis, logs := map[], map[], map[], map[];
      nextId, clock := 0, 0;
    }

    /**
     * Inserts a PBI row with its column defaults. The foreign key on
     * `feature_id` refuses an unknown feature, and then nothing is written.
     */
    method AddPbi(featureId: Id, title: string, description: string, kind: PbiType) returns (r: Option<Pbi>)
      requires Valid()
      modifies this
      ensures Valid()
      ensures r.None? <==> featureId !in old(features)
      ensures r.None? ==> unchanged(this)
      ensures r.Some? ==>
        && r.value == NewPbiRow(NewMeta(old(nextId), clock), featureId, title, description, kind)
        && r.value.meta.id !in old(pbis)
        && pbis == old(pbis)[r.value.meta.id := r.value]
        && nextId == old(nextId) + 1 && clock == old(clock) + 1
        && projects == old(projects) && features == old(features) && logs == old(logs)
    {
      if featureId !in features {
        return None;
      }
      clock := clock + 1;
      var pbi := NewPbiRow(NewMeta(nextId, clock), featureId, title, description, kind);
      pbis := pbis[nextId := pbi];
      nextId := nextId + 1;
      r := Some(pbi);
    }

    /**
     * Inserts an agent log with an empty `extra_data`. The foreign keys
     * refuse an unknown project, or a `pbi_id` that names no PBI.
     */
    method AddLog(projectId: Id, pbiId: Option<Id>, agentName: string, messageType: AgentMessageType,
                  content: string) returns (r: Option<AgentLog>)
      requires Valid()
      modifies this
      ensures Valid()
      ensures r.None? <==> projectId !in old(projects) || (pbiId.Some? && pbiId.value !in old(pbis))
      ensures r.None? ==> unchanged(this)
      ensures r.Some? ==>
        && r.value == NewAgentLogRow(NewMeta(old(nextId), clock), projectId, pbiId, agentName, messageType, content)
        && r.value.meta.id !in old(logs)
        && logs == old(logs)[r.value.meta.id := r.value]
        && nextId == old(nextId) + 1 && clock == old(clock) + 1
        && projects == old(projects) && features == old(features) && pbis == old(pbis)
    {
      if projectId !in projects || (pbiId.Some? && pbiId.value !in pbis) {
        return None;
      }
      clock := clock + 1;
      var log := NewAgentLogRow(NewMeta(nextId, clock), projectId, pbiId, agentName, messageType, content);
      logs := logs[nextId := log];
      nextId := nextId + 1;
      r := Some(log);
    }

    /**
     * Assigns `blocked_by_id` of PBI `pbiId`. The foreign key refuses a
     * blocker that names no PBI; nothing checks for cycles or for the two
     * PBIs sharing a feature.
     */
    method SetBlocker(pbiId: Id, blocker: Option<Id>) returns (r: Option<Pbi>)
      requires Valid()
      modifies this
      ensures Valid()
      ensures r.None? <==> pbiId !in old(pbis) || (blocker.Some? && blocker.value !in old(pbis))
      ensures r.None? ==> unchanged(this)
      ensures r.Some? ==>
        var before := old(pbis)[pbiId];
        var changed := before.blockedById != blocker;
        && r.value == before.(blockedById := blocker, meta := OnUpdate(before.meta, changed, clock))
        && pbis == old(pbis)[pbiId := r.value]
        && clock == old(clock) + (if changed then 1 else 0)
        && nextId == old(nextId)
        && projects == old(projects) && features == old(features) && logs == old(logs)
      ensures r.Some? ==> forall x: Id ::
        Blocking(pbis, x) == (if blocker == Some(x) then Blocking(old(pbis), x) + {pbiId} else Blocking(old(pbis), x) - {pbiId})
    {
      if pbiId !in pbis || (blocker.Some? && blocker.value !in pbis) {
        return None;
      }
      var pbi := pbis[pbiId];
      RelinkMovesBetweenViews(pbis, pbiId, blocker, OnUpdate(pbi.meta, pbi.blockedById != blocker, clock + 1));
      if pbi.blockedById != blocker {
        Tick();
        pbi := pbi.(blockedById := blocker, meta := OnUpdate(pbi.meta, true, clock));
        SavePbi(pbi);
      } else {
        assert pbis == pbis[pbiId := pbi.(blockedById := blocker, meta := pbi.meta)];
      }
      r := Some(pbi);
    }

    /** The orders of a valid table are non-negative. */
    lemma OrdersNonNegative(projectId: Id)
      requires Valid()
      ensures forall o :: o in OrdersOf(features, projectId) ==> o >= 0
    {
    }

    // ------------------------------------------- session writes, one table at a time

    /** A commit reads the clock once; the rows it writes are stamped with the new time. */
    method Tick()
      requires Valid()
      modifies this
      ensures Valid()
      ensures clock == old(clock) + 1 && nextId == old(nextId)
      ensures projects == old(projects) && features == old(features) && pbis == old(pbis) && logs == old(logs)
    {
      clock := clock + 1;
    }

    /** Writes back a changed PBI row under its own key, in the same feature. */
    method SavePbi(p: Pbi)
      requires Valid()
      requires p.meta.id in pbis && StampedBy(p.meta, clock) && p.featureId in features
      modifies this
      ensures Valid()
      ensures pbis == old(pbis)[p.meta.id := p] && nextId == old(nextId) && clock == old(clock)
      ensures projects == old(projects) && features == old(features) && logs == old(logs)
    {
      pbis := pbis[p.meta.id := p];
    }

    /** `session.add` of a new project row under the next fresh key. */
    method AddProject(p: Project)
      requires Valid()
      requires p.meta.id == nextId && StampedBy(p.meta, clock)
      modifies this
      ensures Valid()
      ensures p.meta.id !in old(projects)
      ensures projects == old(projects)[p.meta.id := p] && nextId == old(nextId) + 1 && clock == old(clock)
      ensures features == old(features) && pbis == old(pbis) && logs == old(logs)
    {
      projects := projects[nextId := p];
      nextId := nextId + 1;
    }

    /** Writes back a changed project row under its own key. */
    method SaveProject(p: Project)
      requires Valid()
      requires p.meta.id in projects && StampedBy(p.meta, clock)
      modifies this
      ensures Valid()
      ensures projects == old(projects)[p.meta.id := p] && nextId == old(nextId) && clock == old(clock)
      ensures features == old(features) && pbis == old(pbis) && logs == old(logs)
    {
      projects := projects[p.meta.id := p];
    }

    /**
     * `session.delete` of a project: the `all, delete-orphan` cascades
     * remove its features, their PBIs, and its logs.
     */
    method DeleteProject(projectId: Id)
      requires Valid() && projectId in projects
      modifies this
      ensures Valid()
      ensures projects == old(projects) - {projectId}
      ensures features == old(features) - FeatureIdsOf(old(features), projectId)
      ensures pbis == old(pbis) - PbiIdsUnder(old(pbis), FeatureIdsOf(old(features), projectId))
      ensures logs == old(logs) - LogIdsOf(old(logs), projectId)
      ensures nextId == old(nextId) && clock == old(clock)
    {
      var owned := FeatureIdsOf(features, projectId);
      pbis := pbis - PbiIdsUnder(pbis, owned);
      features := features - owned;
      logs := logs - LogIdsOf(logs, projectId);
      projects := projects - {projectId};
    }

    /** `session.add` of a new feature row under the next fresh key. */
    method AddFeature(f: Feature)
      requires Valid()
      requires f.meta.id == nextId && StampedBy(f.meta, clock)
      requires f.projectId in projects && f.order >= 0
      modifies this
      ensures Valid()
      ensures f.meta.id !in old(features)
      ensures features == old(features)[f.meta.id := f] && nextId == old(nextId) + 1 && clock == old(clock)
      ensures projects == old(projects) && pbis == old(pbis) && logs == old(logs)
    {
      features := features[nextId := f];
      nextId := nextId + 1;
    }

    /** Writes back a changed feature row under its own key. */
    method SaveFeature(f: Feature)
      requires Valid()
      requires f.meta.id in features && StampedBy(f.meta, clock)
      requires f.projectId in projects && f.order >= 0
      modifies this
      ensures Valid()
      ensures features == old(features)[f.meta.id := f] && nextId == old(nextId) && clock == old(clock)
      ensures projects == old(projects) && pbis == old(pbis) && logs == old(logs)
    {
      features := features[f.meta.id := f];
    }

    /** `session.delete` of a feature: the cascade removes its PBIs. */
    method DeleteFeature(featureId: Id)
      requires Valid() && featureId in features
      modifies this
      ensures Valid()
      ensures features == old(features) - {featureId}
      ensures pbis == old(pbis) - PbiIdsUnder(old(pbis), {featureId})
      ensures projects == old(projects) && logs == old(logs)
      ensures nextId == old(nextId) && clock == old(clock)
    {
      pbis := pbis - PbiIdsUnder(pbis, {featureId});
      features := features - {featureId};
    }
  }
}
