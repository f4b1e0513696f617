/** The `features` table. */
module FeatureModel {
  import opened Wrappers
  import opened Base
  import opened Enums

  /** One row of `features`; `projectId` is a required reference to its owning project. */
  datatype Feature = Feature(
    meta: Meta,
    projectId: Id,
    name: string,
    description: string,
    status: FeatureStatus := FeatureStatus.FeaturePending,
    branchName: Option<string> := None,
    order: int := 0)

  /** A row built from the required columns alone gets the column defaults. */
  function NewFeatureRow(meta: Meta, projectId: Id, name: string, description: string): (f: Feature)
    ensures f.meta == meta && f.projectId == projectId
    ensures f.name == name && f.description == description
    ensures f.status == FeatureStatus.FeaturePending && f.branchName == None && f.order == 0
  {
    Feature(meta, projectId, name, description)
  }
}
