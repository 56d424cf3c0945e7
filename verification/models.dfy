/**
 * The enumerations, defaults and result shapes of the backend's data
 * model: project status, group stance, user role, entity stance status and
 * the stance distribution returned with every project.
 */
module Models {
  import opened Wrappers
  import opened PyJson

  // ---------------------------------------------------------------------
  // Errors a modelled call can raise

  datatype Error =
    | ValueError(msg: string)
    | AttributeError(what: string)
    | TypeError(what: string)
    | IntegrityError(column: string)
    | Http(status: int, detail: string)
    | Exception(message: string)

  /**
   * `str(e)`: the message of a ValueError or a plain Exception; for the
   * other kinds the text is a stand-in naming what failed.
   */
  function Describe(e: Error): string {
    match e
    case ValueError(m) => m
    case Exception(m) => m
    case AttributeError(w) => w
    case TypeError(w) => w
    case IntegrityError(c) => c
    case Http(_, d) => d
  }

  // ---------------------------------------------------------------------
  // ProjectStatus

  datatype ProjectStatus = Draft | Active | Completed | Archived

  function ProjectStatusValue(s: ProjectStatus): string {
    match s
    case Draft => "draft"
    case Active => "active"
    case Completed => "completed"
    case Archived => "archived"
  }

  /** `ProjectStatus(text)`: the member whose value is `text`, if any. */
  function ParseProjectStatus(text: string): (r: Option<ProjectStatus>)
    ensures r.Some? ==> ProjectStatusValue(r.value) == text
  {
    if text == "draft" then Some(Draft)
    else if text == "active" then Some(Active)
    else if text == "completed" then Some(Completed)
    else if text == "archived" then Some(Archived)
    else None
  }

  const AllProjectStatuses: seq<ProjectStatus> := [Draft, Active, Completed, Archived]

  /** The enumeration has exactly four members with distinct values, each parsed back. */
  lemma ProjectStatusEnumeration()
    ensures forall s: ProjectStatus :: s in AllProjectStatuses
    ensures |AllProjectStatuses| == 4
    ensures forall s: ProjectStatus :: ParseProjectStatus(ProjectStatusValue(s)) == Some(s)
    ensures forall s, t: ProjectStatus :: ProjectStatusValue(s) == ProjectStatusValue(t) ==> s == t
  {
    forall s: ProjectStatus
      ensures s in AllProjectStatuses
    {
      match s
      case Draft => assert AllProjectStatuses[0] == s;
      case Active => assert AllProjectStatuses[1] == s;
      case Completed => assert AllProjectStatuses[2] == s;
      case Archived => assert AllProjectStatuses[3] == s;
    }
  }

  // ---------------------------------------------------------------------
  // GroupStance

  datatype GroupStance = StancePro | StanceCon | StanceNeutral

  function GroupStanceValue(s: GroupStance): string {
    match s
    case StancePro => "pro"
    case StanceCon => "con"
    case StanceNeutral => "neutral"
  }

  // ---------------------------------------------------------------------
  // UserRole

  datatype UserRole = SuperAdmin | GroupAdmin | Editor | Viewer

  function UserRoleValue(r: UserRole): string {
    match r
    case SuperAdmin => "super_admin"
    case GroupAdmin => "group_admin"
    case Editor => "editor"
    case Viewer => "viewer"
  }

  /** `UserRole(text)`, which raises ValueError (here `None`) for any other text. */
  function ParseUserRole(text: string): (r: Option<UserRole>)
    ensures r.Some? ==> UserRoleValue(r.value) == text
    ensures r.None? <==> forall u: UserRole :: UserRoleValue(u) != text
  {
    if text == "super_admin" then Some(SuperAdmin)
    else if text == "group_admin" then Some(GroupAdmin)
    else if text == "editor" then Some(Editor)
    else if text == "viewer" then Some(Viewer)
    else None
  }

  lemma UserRoleRoundTrip(r: UserRole)
    ensures ParseUserRole(UserRoleValue(r)) == Some(r)
  {
  }

  // ---------------------------------------------------------------------
  // EntityStatus and the stance distribution

  datatype EntityStatus = SolidApproval | LeaningApproval | Neutral | LeaningDisapproval | SolidDisapproval

  function EntityStatusValue(s: EntityStatus): string {
    match s
    case SolidApproval => "solid_approval"
    case LeaningApproval => "leaning_approval"
    case Neutral => "neutral"
    case LeaningDisapproval => "leaning_disapproval"
    case SolidDisapproval => "solid_disapproval"
  }

  const AllEntityStatuses: seq<EntityStatus> :=
    [SolidApproval, LeaningApproval, Neutral, LeaningDisapproval, SolidDisapproval]

  /** The six counters of a distribution: one per status plus `unknown`. */
  datatype Bucket = BSolidApproval | BLeaningApproval | BNeutral | BLeaningDisapproval | BSolidDisapproval | BUnknown

  function BucketOf(s: EntityStatus): Bucket {
    match s
    case SolidApproval => BSolidApproval
    case LeaningApproval => BLeaningApproval
    case Neutral => BNeutral
    case LeaningDisapproval => BLeaningDisapproval
    case SolidDisapproval => BSolidDisapproval
  }

  /**
   * The bucket a stored status value falls into. The enumeration is a `str`
   * enum, so a plain string equal to a member's value compares equal to it;
   * every other value is unknown.
   */
  function Classify(v: Value): Bucket {
    if v == Str("solid_approval") then BucketOf(SolidApproval)
    else if v == Str("leaning_approval") then BucketOf(LeaningApproval)
    else if v == Str("neutral") then BucketOf(Neutral)
    else if v == Str("leaning_disapproval") then BucketOf(LeaningDisapproval)
    else if v == Str("solid_disapproval") then BucketOf(SolidDisapproval)
    else BUnknown
  }

  /**
   * A status value falls into the bucket of the member it names, and into
   * `unknown` exactly when it names none of the five.
   */
  lemma ClassifyMeaning(v: Value)
    ensures Classify(v) == BUnknown <==> forall s: EntityStatus :: v != Str(EntityStatusValue(s))
    ensures forall s: EntityStatus :: v == Str(EntityStatusValue(s)) ==> Classify(v) == BucketOf(s)
  {
    if v == Str("solid_approval") {
      assert v == Str(EntityStatusValue(SolidApproval));
    } else if v == Str("leaning_approval") {
      assert v == Str(EntityStatusValue(LeaningApproval));
    } else if v == Str("neutral") {
      assert v == Str(EntityStatusValue(Neutral));
    } else if v == Str("leaning_disapproval") {
      assert v == Str(EntityStatusValue(LeaningDisapproval));
    } else if v == Str("solid_disapproval") {
      assert v == Str(EntityStatusValue(SolidDisapproval));
    }
  }

  /** `StatusDistribution`: six counters and a total, all defaulting to 0. */
  datatype Dist = Dist(
    solidApproval: int,
    leaningApproval: int,
    neutral: int,
    leaningDisapproval: int,
    solidDisapproval: int,
    unknown: int,
    total: int)

  const ZeroDist := Dist(0, 0, 0, 0, 0, 0, 0)

  function Count(d: Dist, b: Bucket): int {
    match b
    case BSolidApproval => d.solidApproval
    case BLeaningApproval => d.leaningApproval
    case BNeutral => d.neutral
    case BLeaningDisapproval => d.leaningDisapproval
    case BSolidDisapproval => d.solidDisapproval
    case BUnknown => d.unknown
  }

  function BucketSum(d: Dist): int {
    d.solidApproval + d.leaningApproval + d.neutral + d.leaningDisapproval + d.solidDisapproval + d.unknown
  }

  /** The default distribution has every counter at zero. */
  lemma ZeroDistCountsNothing()
    ensures forall b :: Count(ZeroDist, b) == 0
  {
    forall b ensures Count(ZeroDist, b) == 0 {
      match b
      case BSolidApproval =>
      case BLeaningApproval =>
      case BNeutral =>
      case BLeaningDisapproval =>
      case BSolidDisapproval =>
      case BUnknown =>
    }
  }

  /** `d` with the counter of bucket `b` raised by `k`; the total is left alone. */
  function AddTo(d: Dist, b: Bucket, k: int): (r: Dist)
    ensures r.total == d.total
    ensures BucketSum(r) == BucketSum(d) + k
  {
    match b
    case BSolidApproval => d.(solidApproval := d.solidApproval + k)
    case BLeaningApproval => d.(leaningApproval := d.leaningApproval + k)
    case BNeutral => d.(neutral := d.neutral + k)
    case BLeaningDisapproval => d.(leaningDisapproval := d.leaningDisapproval + k)
    case BSolidDisapproval => d.(solidDisapproval := d.solidDisapproval + k)
    case BUnknown => d.(unknown := d.unknown + k)
  }

  /** Raising one counter leaves every other counter as it was. */
  lemma AddToCount(d: Dist, b: Bucket, k: int, c: Bucket)
    ensures Count(AddTo(d, b, k), c) == Count(d, c) + (if c == b then k else 0)
  {
  }

  // ---------------------------------------------------------------------
  // Request models and their defaults

  datatype ProjectBase = ProjectBase(title: string, description: Option<string>, status: ProjectStatus, active: bool)

  /** `ProjectBase(title=...)` with every other field left at its default. */
  function NewProjectBase(title: string): ProjectBase {
    ProjectBase(title, None, Draft, true)
  }

  datatype GroupBase = GroupBase(name: string, description: Option<string>, stance: GroupStance)

  function NewGroupBase(name: string): GroupBase {
    GroupBase(name, None, StanceNeutral)
  }

  datatype ContactInfo = ContactInfo(email: Option<string>, phone: Option<string>, website: Option<string>, address: Option<string>)

  const EmptyContactInfo := ContactInfo(None, None, None, None)

  datatype EntityCreate = EntityCreate(
    name: string,
    title: Option<string>,
    entityType: string,
    contactInfo: ContactInfo,
    jurisdictionId: string,
    locationModuleId: string)

  function NewEntityCreate(name: string, entityType: string, jurisdictionId: string): EntityCreate {
    EntityCreate(name, None, entityType, EmptyContactInfo, jurisdictionId, "default")
  }
}
