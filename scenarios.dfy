/**
 * Whole-call consequences of the service contracts: what a second delete
 * reports, and the order collision the next-order rule produces in a
 * fresh store.
 */
module Scenarios {
  import opened Wrappers
  import opened Base
  import opened Enums
  import opened FeatureModel
  import opened FeatureSchema
  import opened ProjectModel
  import opened ProjectSchema
  import opened Store
  import opened FeatureServices
  import opened ProjectServices

  /** Deleting a feature twice: the first call reports whether it existed, the second reports false. */
  method DeleteFeatureTwice(service: FeatureService, featureId: Id) returns (first: bool, second: bool)
    requires service.db.Valid()
    modifies service.db
    ensures service.db.Valid()
    ensures first <==> featureId in old(service.db.features)
    ensures !second
  {
    first := service.Delete(featureId);
    second := service.Delete(featureId);
  }

  /** Deleting a project twice: the first call reports whether it existed, the second reports false. */
  method DeleteProjectTwice(service: ProjectService, projectId: Id) returns (first: bool, second: bool)
    requires service.db.Valid()
    modifies service.db
    ensures service.db.Valid()
    ensures first <==> projectId in old(service.db.projects)
    ensures !second
  {
    first := service.Delete(projectId);
    second := service.Delete(projectId);
  }

  /**
   * In a fresh store, two features created without an order both get
   * order 0: the first because the project has none, the second because
   * the maximum 0 counts as "no maximum". A third one, created with an
   * explicit order 5, keeps it.
   */
  method ZeroOrderCollision() returns (a: Feature, b: Feature, c: Feature)
    ensures a.order == 0 && b.order == 0 && c.order == 5
    ensures a.projectId == b.projectId == c.projectId
    ensures a.meta.id != b.meta.id
    ensures a.status == b.status == c.status == FeatureStatus.FeaturePending
  {
    var db := new Database();
    var projects := new ProjectService(db);
    var features := new FeatureService(db);
    var p := projects.Create(ProjectCreate("geonosis", "Build the tracker"));
    var pid := p.meta.id;
    assert OrdersOf(db.features, pid) == {};
    var ra := features.Create(FeatureCreate(pid, "Store", "Entity store"));
    a := ra.value;
    assert OrdersOf(db.features, pid) == {0};
    var rb := features.Create(FeatureCreate(pid, "Services", "Business rules"));
    b := rb.value;
    var rc := features.Create(FeatureCreate(pid, "Listing", "Display order", 5));
    c := rc.value;
  }
}
