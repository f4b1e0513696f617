/**
 * The seven string enumerations of the data model. Every member is a
 * `str` enum whose value is spelled exactly like its name, so each type
 * gets a `ToString` (the stored value) and a partial `FromString`.
 */
module Enums {
  import opened Wrappers

  /** The stored value of a member: its name, in capitals with `_` between words. */
  predicate IsStoredValue(s: string) {
    && |s| >= 1
    && s[0] != '_' && s[|s| - 1] != '_'
    && forall i :: 0 <= i < |s| ==> 'A' <= s[i] <= 'Z' || s[i] == '_'
  }

  // ---------------------------------------------------------------- ProjectType

  datatype ProjectType = NewProject | ExistingProjectBug | ExistingProjectFeature

  const AllProjectTypes: seq<ProjectType> := [NewProject, ExistingProjectBug, ExistingProjectFeature]

  function ProjectTypeToString(t: ProjectType): (r: string)
    ensures IsStoredValue(r)
  {
    match t
    case NewProject => "NEW_PROJECT"
    case ExistingProjectBug => "EXISTING_PROJECT_BUG"
    case ExistingProjectFeature => "EXISTING_PROJECT_FEATURE"
  }

  function ProjectTypeFromString(s: string): (r: Option<ProjectType>)
    ensures forall t :: r == Some(t) <==> ProjectTypeToString(t) == s
  {
    if s == "NEW_PROJECT" then Some(NewProject)
    else if s == "EXISTING_PROJECT_BUG" then Some(ExistingProjectBug)
    else if s == "EXISTING_PROJECT_FEATURE" then Some(ExistingProjectFeature)
    else None
  }

  // -------------------------------------------------------------- ProjectStatus

  datatype ProjectStatus =
    | Draft
    | Analyzing
    | FeaturesPendingReview
    | FeaturesRejected
    | Approved
    | RepoCreating
    | RepoCreated
    | PbisCreating
    | InProgress
    | Completed
    | Failed

  const AllProjectStatuses: seq<ProjectStatus> :=
    [Draft, Analyzing, FeaturesPendingReview, FeaturesRejected, Approved,
     RepoCreating, RepoCreated, PbisCreating, InProgress, Completed, Failed]

  function ProjectStatusToString(s: ProjectStatus): (r: string)
    ensures IsStoredValue(r)
  {
    match s
    case Draft => "DRAFT"
    case Analyzing => "ANALYZING"
    case FeaturesPendingReview => "FEATURES_PENDING_REVIEW"
    case FeaturesRejected => "FEATURES_REJECTED"
    case Approved => "APPROVED"
    case RepoCreating => "REPO_CREATING"
    case RepoCreated => "REPO_CREATED"
    case PbisCreating => "PBIS_CREATING"
    case InProgress => "IN_PROGRESS"
    case Completed => "COMPLETED"
    case Failed => "FAILED"
  }

  function ProjectStatusFromString(s: string): (r: Option<ProjectStatus>)
    ensures forall t :: r == Some(t) <==> ProjectStatusToString(t) == s
  {
    if s == "DRAFT" then Some(Draft)
    else if s == "ANALYZING" then Some(Analyzing)
    else if s == "FEATURES_PENDING_REVIEW" then Some(FeaturesPendingReview)
    else if s == "FEATURES_REJECTED" then Some(FeaturesRejected)
    else if s == "APPROVED" then Some(Approved)
    else if s == "REPO_CREATING" then Some(RepoCreating)
    else if s == "REPO_CREATED" then Some(RepoCreated)
    else if s == "PBIS_CREATING" then Some(PbisCreating)
    else if s == "IN_PROGRESS" then Some(InProgress)
    else if s == "COMPLETED" then Some(Completed)
    else if s == "FAILED" then Some(Failed)
    else None
  }

  // -------------------------------------------------------------- FeatureStatus

  datatype FeatureStatus = FeaturePending | FeatureInProgress | FeaturePrPending | FeatureCompleted

  const AllFeatureStatuses: seq<FeatureStatus> :=
    [FeaturePending, FeatureInProgress, FeaturePrPending, FeatureCompleted]

  function FeatureStatusToString(s: FeatureStatus): (r: string)
    ensures IsStoredValue(r)
  {
    match s
    case FeaturePending => "PENDING"
    case FeatureInProgress => "IN_PROGRESS"
    case FeaturePrPending => "PR_PENDING"
    case FeatureCompleted => "COMPLETED"
  }

  function FeatureStatusFromString(s: string): (r: Option<FeatureStatus>)
    ensures forall t :: r == Some(t) <==> FeatureStatusToString(t) == s
  {
    if s == "PENDING" then Some(FeaturePending)
    else if s == "IN_PROGRESS" then Some(FeatureInProgress)
    else if s == "PR_PENDING" then Some(FeaturePrPending)
    else if s == "COMPLETED" then Some(FeatureCompleted)
    else None
  }

  // -------------------------------------------------------------------- PBIType

  datatype PbiType = Backend | Frontend

  const AllPbiTypes: seq<PbiType> := [Backend, Frontend]

  function PbiTypeToString(t: PbiType): (r: string)
    ensures IsStoredValue(r)
  {
    match t
    case Backend => "BACKEND"
    case Frontend => "FRONTEND"
  }

  function PbiTypeFromString(s: string): (r: Option<PbiType>)
    ensures forall t :: r == Some(t) <==> PbiTypeToString(t) == s
  {
    if s == "BACKEND" then Some(Backend)
    else if s == "FRONTEND" then Some(Frontend)
    else None
  }

  // ------------------------------------------------------------------ PBIStatus

  datatype PbiStatus =
    | PbiPending
    | PbiInProgress
    | PrCreated
    | PrChangesRequested
    | PrApproved
    | PbiCompleted
    | Blocked
    | PbiFailed

  const AllPbiStatuses: seq<PbiStatus> :=
    [PbiPending, PbiInProgress, PrCreated, PrChangesRequested, PrApproved,
     PbiCompleted, Blocked, PbiFailed]

  function PbiStatusToString(s: PbiStatus): (r: string)
    ensures IsStoredValue(r)
  {
    match s
    case PbiPending => "PENDING"
    case PbiInProgress => "IN_PROGRESS"
    case PrCreated => "PR_CREATED"
    case PrChangesRequested => "PR_CHANGES_REQUESTED"
    case PrApproved => "PR_APPROVED"
    case PbiCompleted => "COMPLETED"
    case Blocked => "BLOCKED"
    case PbiFailed => "FAILED"
  }

  function PbiStatusFromString(s: string): (r: Option<PbiStatus>)
    ensures forall t :: r == Some(t) <==> PbiStatusToString(t) == s
  {
    if s == "PENDING" then Some(PbiPending)
    else if s == "IN_PROGRESS" then Some(PbiInProgress)
    else if s == "PR_CREATED" then Some(PrCreated)
    else if s == "PR_CHANGES_REQUESTED" then Some(PrChangesRequested)
    else if s == "PR_APPROVED" then Some(PrApproved)
    else if s == "COMPLETED" then Some(PbiCompleted)
    else if s == "BLOCKED" then Some(Blocked)
    else if s == "FAILED" then Some(PbiFailed)
    else None
  }

  // ------------------------------------------------------------------- PRStatus

  datatype PrStatus = Open | ChangesRequested | PrStatusApproved | Merged | Closed

  const AllPrStatuses: seq<PrStatus> := [Open, ChangesRequested, PrStatusApproved, Merged, Closed]

  function PrStatusToString(s: PrStatus): (r: string)
    ensures IsStoredValue(r)
  {
    match s
    case Open => "OPEN"
    case ChangesRequested => "CHANGES_REQUESTED"
    case PrStatusApproved => "APPROVED"
    case Merged => "MERGED"
    case Closed => "CLOSED"
  }

  function PrStatusFromString(s: string): (r: Option<PrStatus>)
    ensures forall t :: r == Some(t) <==> PrStatusToString(t) == s
  {
    if s == "OPEN" then Some(Open)
    else if s == "CHANGES_REQUESTED" then Some(ChangesRequested)
    else if s == "APPROVED" then Some(PrStatusApproved)
    else if s == "MERGED" then Some(Merged)
    else if s == "CLOSED" then Some(Closed)
    else None
  }

  // ----------------------------------------------------------- AgentMessageType

  datatype AgentMessageType = Thought | Action | Code | Error | Communication

  const AllAgentMessageTypes: seq<AgentMessageType> := [Thought, Action, Code, Error, Communication]

  function AgentMessageTypeToString(t: AgentMessageType): (r: string)
    ensures IsStoredValue(r)
  {
    match t
    case Thought => "THOUGHT"
    case Action => "ACTION"
    case Code => "CODE"
    case Error => "ERROR"
    case Communication => "COMMUNICATION"
  }

  function AgentMessageTypeFromString(s: string): (r: Option<AgentMessageType>)
    ensures forall t :: r == Some(t) <==> AgentMessageTypeToString(t) == s
  {
    if s == "THOUGHT" then Some(Thought)
    else if s == "ACTION" then Some(Action)
    else if s == "CODE" then Some(Code)
    else if s == "ERROR" then Some(Error)
    else if s == "COMMUNICATION" then Some(Communication)
    else None
  }

  // ------------------------------------------------------------ member listings

  /** Each `All...` listing holds every member exactly once, with the member counts of the source. */
  lemma EnumerationsAreComplete()
    ensures |AllProjectTypes| == 3 && forall t :: t in AllProjectTypes
    ensures |AllProjectStatuses| == 11 && forall s :: s in AllProjectStatuses
    ensures |AllFeatureStatuses| == 4 && forall s :: s in AllFeatureStatuses
    ensures |AllPbiTypes| == 2 && forall t :: t in AllPbiTypes
    ensures |AllPbiStatuses| == 8 && forall s :: s in AllPbiStatuses
    ensures |AllPrStatuses| == 5 && forall s :: s in AllPrStatuses
    ensures |AllAgentMessageTypes| == 5 && forall t :: t in AllAgentMessageTypes
  {
    forall t: ProjectType ensures t in AllProjectTypes {
      match t
      case NewProject => case ExistingProjectBug => case ExistingProjectFeature =>
    }
    forall s: ProjectStatus ensures s in AllProjectStatuses {
      match s
      case Draft => case Analyzing => case FeaturesPendingReview => case FeaturesRejected =>
      case Approved => case RepoCreating => case RepoCreated => case PbisCreating =>
      case InProgress => case Completed => case Failed =>
    }
    forall s: FeatureStatus ensures s in AllFeatureStatuses {
      match s
      case FeaturePending => case FeatureInProgress => case FeaturePrPending => case FeatureCompleted =>
    }
    forall t: PbiType ensures t in AllPbiTypes {
      match t
      case Backend => case Frontend =>
    }
    forall s: PbiStatus ensures s in AllPbiStatuses {
      match s
      case PbiPending => case PbiInProgress => case PrCreated => case PrChangesRequested =>
      case PrApproved => case PbiCompleted => case Blocked => case PbiFailed =>
    }
    forall s: PrStatus ensures s in AllPrStatuses {
      match s
      case Open => case ChangesRequested => case PrStatusApproved => case Merged => case Closed =>
    }
    forall t: AgentMessageType ensures t in AllAgentMessageTypes {
      match t
      case Thought => case Action => case Code => case Error => case Communication =>
    }
  }

  /** Within each enumeration distinct members are stored as distinct strings. */
  lemma StringValuesAreDistinct()
    ensures forall a: ProjectType, b: ProjectType :: ProjectTypeToString(a) == ProjectTypeToString(b) ==> a == b
    ensures forall a: ProjectStatus, b: ProjectStatus :: ProjectStatusToString(a) == ProjectStatusToString(b) ==> a == b
    ensures forall a: FeatureStatus, b: FeatureStatus :: FeatureStatusToString(a) == FeatureStatusToString(b) ==> a == b
    ensures forall a: PbiType, b: PbiType :: PbiTypeToString(a) == PbiTypeToString(b) ==> a == b
    ensures forall a: PbiStatus, b: PbiStatus :: PbiStatusToString(a) == PbiStatusToString(b) ==> a == b
    ensures forall a: PrStatus, b: PrStatus :: PrStatusToString(a) == PrStatusToString(b) ==> a == b
    ensures forall a: AgentMessageType, b: AgentMessageType :: AgentMessageTypeToString(a) == AgentMessageTypeToString(b) ==> a == b
  {
    forall a: ProjectType, b: ProjectType | ProjectTypeToString(a) == ProjectTypeToString(b) ensures a == b {
      var r := ProjectTypeFromString(ProjectTypeToString(a));
    }
    forall a: ProjectStatus, b: ProjectStatus | ProjectStatusToString(a) == ProjectStatusToString(b) ensures a == b {
      var r := ProjectStatusFromString(ProjectStatusToString(a));
    }
    forall a: FeatureStatus, b: FeatureStatus | FeatureStatusToString(a) == FeatureStatusToString(b) ensures a == b {
      var r := FeatureStatusFromString(FeatureStatusToString(a));
    }
    forall a: PbiType, b: PbiType | PbiTypeToString(a) == PbiTypeToString(b) ensures a == b {
      var r := PbiTypeFromString(PbiTypeToString(a));
    }
    forall a: PbiStatus, b: PbiStatus | PbiStatusToString(a) == PbiStatusToString(b) ensures a == b {
      var r := PbiStatusFromString(PbiStatusToString(a));
    }
    forall a: PrStatus, b: PrStatus | PrStatusToString(a) == PrStatusToString(b) ensures a == b {
      var r := PrStatusFromString(PrStatusToString(a));
    }
    forall a: AgentMessageType, b: AgentMessageType | AgentMessageTypeToString(a) == AgentMessageTypeToString(b) ensures a == b {
      var r := AgentMessageTypeFromString(AgentMessageTypeToString(a));
    }
  }

  /** Storing a member and reading it back gives the member again, for every enumeration. */
  lemma StringRoundTrips()
    ensures forall t :: ProjectTypeFromString(ProjectTypeToString(t)) == Some(t)
    ensures forall s :: ProjectStatusFromString(ProjectStatusToString(s)) == Some(s)
    ensures forall s :: FeatureStatusFromString(FeatureStatusToString(s)) == Some(s)
    ensures forall t :: PbiTypeFromString(PbiTypeToString(t)) == Some(t)
    ensures forall s :: PbiStatusFromString(PbiStatusToString(s)) == Some(s)
    ensures forall s :: PrStatusFromString(PrStatusToString(s)) == Some(s)
    ensures forall t :: AgentMessageTypeFromString(AgentMessageTypeToString(t)) == Some(t)
  {
  }
}
