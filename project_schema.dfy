/** The request bodies for projects and the constraints they declare. */
module ProjectSchema {
  import opened Wrappers
  import opened Enums
  import opened Text

  /** A request to create a project; the type defaults to a new project. */
  datatype ProjectCreate = ProjectCreate(name: string, epic: string, kind: ProjectType := ProjectType.NewProject)

  /**
   * On create the name has 1 to 255 characters and the epic is not empty;
   * a valid create body, read as a patch of the same fields, is a valid patch.
   */
  predicate ValidProjectCreate(c: ProjectCreate)
    ensures ValidProjectCreate(c) ==> ValidProjectUpdate(ProjectUpdate(Some(c.name), Some(c.epic), None))
  {
    LengthBetween(c.name, 1, 255) && |c.epic| >= 1
  }

  /** A merge patch for a project: `None` means the field was not supplied. */
  datatype ProjectUpdate = ProjectUpdate(
    name: Option<string> := None,
    epic: Option<string> := None,
    status: Option<ProjectStatus> := None)

  /**
   * On update only a supplied name is checked; the epic has no minimum
   * length. A patch is valid exactly when every field it supplies is.
   */
  predicate ValidProjectUpdate(u: ProjectUpdate)
    ensures ValidProjectUpdate(u) <==> forall a :: a in ModelDump(u) ==> ValidProjectAssignment(a)
  {
    assert u.name.Some? ==> SetName(u.name.value) in ModelDump(u);
    u.name.Some? ==> LengthBetween(u.name.value, 1, 255)
  }

  /** One `(field, value)` pair of a dumped patch. */
  datatype ProjectAssignment =
    | SetName(name: string)
    | SetEpic(epic: string)
    | SetStatus(status: ProjectStatus)

  function FieldOf(a: ProjectAssignment): nat {
    match a
    case SetName(_) => 0
    case SetEpic(_) => 1
    case SetStatus(_) => 2
  }

  /**
   * `model_dump(exclude_unset=True)`: the supplied fields, in declaration
   * order, each exactly once.
   */
  function ModelDump(u: ProjectUpdate): (r: seq<ProjectAssignment>)
    ensures forall a :: a in r <==> Supplies(u, a)
    ensures forall i, j :: 0 <= i < j < |r| ==> FieldOf(r[i]) < FieldOf(r[j])
  {
    (if u.name.Some? then [SetName(u.name.value)] else [])
    + (if u.epic.Some? then [SetEpic(u.epic.value)] else [])
    + (if u.status.Some? then [SetStatus(u.status.value)] else [])
  }

  /** The constraint the schema puts on the column an assignment writes. */
  predicate ValidProjectAssignment(a: ProjectAssignment) {
    match a
    case SetName(n) => LengthBetween(n, 1, 255)
    case SetEpic(_) => true
    case SetStatus(_) => true
  }

  /** The patch supplies the value that the assignment writes. */
  predicate Supplies(u: ProjectUpdate, a: ProjectAssignment) {
    match a
    case SetName(n) => u.name == Some(n)
    case SetEpic(e) => u.epic == Some(e)
    case SetStatus(s) => u.status == Some(s)
  }

  /**
   * Create and update disagree on the epic: an empty epic is refused on
   * create and accepted on update.
   */
  lemma EmptyEpicOnlyOnUpdate(name: string, kind: ProjectType)
    ensures !ValidProjectCreate(ProjectCreate(name, "", kind))
    ensures ValidProjectUpdate(ProjectUpdate(epic := Some("")))
  {
  }

  /** A create body without a type asks for a new project. */
  lemma CreateTypeDefault(name: string, epic: string)
    ensures ProjectCreate(name, epic).kind == ProjectType.NewProject
  {
  }
}
