/**
 * The Application document of SmartTrack and its embedded Stage
 * sub-documents: the closed status enumerations, the required fields and the
 * defaults the schema fills in when a record is built.
 */
module ApplicationSchema {
  import opened Wrappers

  /** A document id (an ObjectId); user ids and application ids alike. */
  type Id = nat
  /** A point in time, in milliseconds since the epoch. */
  type Date = int

  datatype AppStatus = Applied | InProgress | Offer | Rejected

  datatype StageStatus = Pending | Cleared | StageRejected | Upcoming

  /** The value a status takes in the document (and in a query string). */
  function AppStatusName(s: AppStatus): string
  {
    match s
    case Applied => "applied"
    case InProgress => "in-progress"
    case Offer => "offer"
    case Rejected => "rejected"
  }

  /** The enum validator of Application.status: only the four names are accepted. */
  function ParseAppStatus(name: string): (r: Option<AppStatus>)
    ensures r.Some? ==> AppStatusName(r.value) == name
    ensures r.None? ==> forall s :: AppStatusName(s) != name
  {
    if name == "applied" then Some(Applied)
    else if name == "in-progress" then Some(InProgress)
    else if name == "offer" then Some(Offer)
    else if name == "rejected" then Some(Rejected)
    else None
  }

  function StageStatusName(s: StageStatus): string
  {
    match s
    case Pending => "pending"
    case Cleared => "cleared"
    case StageRejected => "rejected"
    case Upcoming => "upcoming"
  }

  /** The enum validator of Stage.status. */
  function ParseStageStatus(name: string): (r: Option<StageStatus>)
    ensures r.Some? ==> StageStatusName(r.value) == name
    ensures r.None? ==> forall s :: StageStatusName(s) != name
  {
    if name == "pending" then Some(Pending)
    else if name == "cleared" then Some(Cleared)
    else if name == "rejected" then Some(StageRejected)
    else if name == "upcoming" then Some(Upcoming)
    else None
  }

  const DefaultAppStatus: AppStatus := Applied
  const DefaultStageStatus: StageStatus := Upcoming
  const DefaultReferralUsed: bool := false

  datatype Stage = Stage(name: string, date: Option<Date>, status: StageStatus, notes: Option<string>)

  datatype Application = Application(
    student: Id,
    companyName: string,
    role: string,
    status: AppStatus,
    appliedDate: Date,
    referralUsed: bool,
    oaLink: Option<string>,
    notes: Option<string>,
    stages: seq<Stage>,
    nextDeadline: Option<Date>)

  /** Why saving a document failed validation. */
  datatype SchemaError = MissingRequired(path: string) | NotInEnum(path: string, value: string)

  /** The required validator of a String path: absent and the empty string both fail. */
  predicate Supplied(v: Option<string>) {
    v.Some? && v.value != ""
  }

  /** Every stored application satisfies its schema. */
  predicate WellFormed(a: Application) {
    && a.companyName != ""
    && a.role != ""
    && forall i :: 0 <= i < |a.stages| ==> a.stages[i].name != ""
  }

  /**
   * A new application document, as validated on save: companyName and role are
   * required; status starts at "applied", referralUsed at false, there are no
   * stages, and appliedDate defaults to the creation time when not supplied.
   * Every failing required path is reported.
   */
  function NewApplication(student: Id, companyName: Option<string>, role: Option<string>,
                          oaLink: Option<string>, appliedDate: Option<Date>, now: Date)
    : (r: Result<Application, seq<SchemaError>>)
    ensures r.Ok? <==> Supplied(companyName) && Supplied(role)
    ensures r.Ok? ==>
      && WellFormed(r.value)
      && r.value.student == student
      && Some(r.value.companyName) == companyName
      && Some(r.value.role) == role
      && r.value.oaLink == oaLink
      && r.value.status == Applied
      && !r.value.referralUsed
      && r.value.stages == []
      && r.value.notes.None? && r.value.nextDeadline.None?
      && r.value.appliedDate == (if appliedDate.Some? then appliedDate.value else now)
    ensures r.Err? ==>
      && (MissingRequired("companyName") in r.error <==> !Supplied(companyName))
      && (MissingRequired("role") in r.error <==> !Supplied(role))
  {
    var errors :=
      (if Supplied(companyName) then [] else [MissingRequired("companyName")])
      + (if Supplied(role) then [] else [MissingRequired("role")]);
    if errors != [] then Err(errors)
    else Ok(Application(student, companyName.value, role.value, DefaultAppStatus,
                        appliedDate.GetOr(now), DefaultReferralUsed, oaLink, None, [], None))
  }

  /**
   * A new stage sub-document: name is required, a status that is not supplied
   * takes the default "upcoming", and a supplied status must be one of the four
   * stage statuses.
   */
  function NewStage(name: Option<string>, status: Option<string>, date: Option<Date>)
    : (r: Result<Stage, seq<SchemaError>>)
    ensures r.Ok? <==> Supplied(name) && (status.None? || ParseStageStatus(status.value).Some?)
    ensures r.Ok? ==>
      && Some(r.value.name) == name
      && r.value.date == date
      && r.value.notes.None?
      && (status.None? ==> r.value.status == Upcoming)
      && (status.Some? ==> StageStatusName(r.value.status) == status.value)
  {
    var parsed := if status.None? then Some(DefaultStageStatus) else ParseStageStatus(status.value);
    var errors :=
      (if Supplied(name) then [] else [MissingRequired("name")])
      + (if parsed.Some? then [] else [NotInEnum("status", status.value)]);
    if errors != [] then Err(errors)
    else Ok(Stage(name.value, date, parsed.value, None))
  }
}
