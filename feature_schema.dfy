/**
 * The request bodies for features and the constraints they declare.
 * A body that breaks a constraint is refused before any service runs, so
 * the services take only bodies for which the validity predicate holds.
 */
module FeatureSchema {
  import opened Wrappers
  import opened Base
  import opened Enums
  import opened Text

  /** A request to create one feature; `order` 0 is the default. */
  datatype FeatureCreate = FeatureCreate(projectId: Id, name: string, description: string, order: int := 0)

  /** A valid create body, read as a patch of the same fields, is a valid patch. */
  predicate ValidFeatureCreate(c: FeatureCreate)
    ensures ValidFeatureCreate(c) ==>
      ValidFeatureUpdate(FeatureUpdate(Some(c.name), Some(c.description), None, None, Some(c.order)))
  {
    LengthBetween(c.name, 1, 255) && |c.description| >= 1 && c.order >= 0
  }

  /**
   * A merge patch for a feature: `None` means the field was not supplied.
   * `branchName` is itself nullable, so supplying it can also clear it.
   */
  datatype FeatureUpdate = FeatureUpdate(
    name: Option<string> := None,
    description: Option<string> := None,
    status: Option<FeatureStatus> := None,
    branchName: Option<Option<string>> := None,
    order: Option<int> := None)

  /** A patch is valid exactly when every field it supplies meets that column's constraint. */
  predicate ValidFeatureUpdate(u: FeatureUpdate)
    ensures ValidFeatureUpdate(u) <==> forall a :: a in ModelDump(u) ==> ValidFeatureAssignment(a)
  {
    assert u.name.Some? ==> SetName(u.name.value) in ModelDump(u);
    assert u.description.Some? ==> SetDescription(u.description.value) in ModelDump(u);
    assert u.order.Some? ==> SetOrder(u.order.value) in ModelDump(u);
    && (u.name.Some? ==> LengthBetween(u.name.value, 1, 255))
    && (u.description.Some? ==> |u.description.value| >= 1)
    && (u.order.Some? ==> u.order.value >= 0)
  }

  /** One item of a bulk request; its order is optional. */
  datatype FeatureBulkCreateItem = FeatureBulkCreateItem(name: string, description: string, order: Option<int> := None)

  /** An item obeys the rules of a single create body whose order is the item's, or the default. */
  predicate ValidBulkItem(item: FeatureBulkCreateItem)
    ensures forall p: Id :: ValidBulkItem(item) <==>
      ValidFeatureCreate(FeatureCreate(p, item.name, item.description, item.order.GetOr(0)))
  {
    LengthBetween(item.name, 1, 255) && |item.description| >= 1 && (item.order.Some? ==> item.order.value >= 0)
  }

  datatype FeatureBulkCreate = FeatureBulkCreate(projectId: Id, features: seq<FeatureBulkCreateItem>)

  /**
   * The list of items must not be empty, and every item must be valid:
   * a valid bulk request is a nonempty list of valid single creates.
   */
  predicate ValidBulkCreate(b: FeatureBulkCreate)
    ensures ValidBulkCreate(b) <==> b.features != [] && forall item :: item in b.features ==>
      ValidFeatureCreate(FeatureCreate(b.projectId, item.name, item.description, item.order.GetOr(0)))
  {
    |b.features| >= 1 && forall i :: 0 <= i < |b.features| ==> ValidBulkItem(b.features[i])
  }

  /** One `(field, value)` pair of a dumped patch. */
  datatype FeatureAssignment =
    | SetName(name: string)
    | SetDescription(description: string)
    | SetStatus(status: FeatureStatus)
    | SetBranchName(branchName: Option<string>)
    | SetOrder(order: int)

  /** Names the column an assignment writes. */
  function FieldOf(a: FeatureAssignment): nat {
    match a
    case SetName(_) => 0
    case SetDescription(_) => 1
    case SetStatus(_) => 2
    case SetBranchName(_) => 3
    case SetOrder(_) => 4
  }

  /**
   * `model_dump(exclude_unset=True)`: the supplied fields, in declaration
   * order, each exactly once.
   */
  function ModelDump(u: FeatureUpdate): (r: seq<FeatureAssignment>)
    ensures forall a :: a in r <==> Supplies(u, a)
    ensures forall i, j :: 0 <= i < j < |r| ==> FieldOf(r[i]) < FieldOf(r[j])
  {
    (if u.name.Some? then [SetName(u.name.value)] else [])
    + (if u.description.Some? then [SetDescription(u.description.value)] else [])
    + (if u.status.Some? then [SetStatus(u.status.value)] else [])
    + (if u.branchName.Some? then [SetBranchName(u.branchName.value)] else [])
    + (if u.order.Some? then [SetOrder(u.order.value)] else [])
  }

  /** The constraint the schema puts on the column an assignment writes. */
  predicate ValidFeatureAssignment(a: FeatureAssignment) {
    match a
    case SetName(n) => LengthBetween(n, 1, 255)
    case SetDescription(d) => |d| >= 1
    case SetStatus(_) => true
    case SetBranchName(_) => true
    case SetOrder(o) => o >= 0
  }

  /** The patch supplies the value that the assignment writes. */
  predicate Supplies(u: FeatureUpdate, a: FeatureAssignment) {
    match a
    case SetName(n) => u.name == Some(n)
    case SetDescription(d) => u.description == Some(d)
    case SetStatus(s) => u.status == Some(s)
    case SetBranchName(b) => u.branchName == Some(b)
    case SetOrder(o) => u.order == Some(o)
  }

  /** Every field of a valid patch is checked only when it is supplied: the empty patch is valid. */
  lemma EmptyPatchIsValid()
    ensures ValidFeatureUpdate(FeatureUpdate())
    ensures ModelDump(FeatureUpdate()) == []
  {
  }

  /** A create body that relies on the default order is valid exactly when its name and description are. */
  lemma DefaultOrderIsValid(projectId: Id, name: string, description: string)
    ensures FeatureCreate(projectId, name, description).order == 0
    ensures ValidFeatureCreate(FeatureCreate(projectId, name, description))
        <==> LengthBetween(name, 1, 255) && |description| >= 1
  {
  }

  /** A bulk request needs at least one item; an item may leave its order out but may not make it negative. */
  lemma BulkRules(projectId: Id, item: FeatureBulkCreateItem)
    ensures !ValidBulkCreate(FeatureBulkCreate(projectId, []))
    ensures ValidBulkCreate(FeatureBulkCreate(projectId, [item])) <==> ValidBulkItem(item)
    ensures ValidBulkItem(item.(order := None)) <==> LengthBetween(item.name, 1, 255) && |item.description| >= 1
    ensures item.order.Some? && item.order.value < 0 ==> !ValidBulkItem(item)
  {
    assert FeatureBulkCreate(projectId, [item]).features[0] == item;
  }
}
