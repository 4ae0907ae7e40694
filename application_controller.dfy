/**
 * The request handlers of /api/applications over an in-memory store of
 * application documents keyed by id: create, list, update (a field-by-field
 * merge), delete, and append a stage with its derived-status rule.
 */
module ApplicationController {
  import opened Wrappers
  import opened ApplicationSchema
  import opened ApplicationQuery
  import Text

  /** Why a request did not succeed. */
  datatype Failure =
    | NotFound                          // 404 'Application not found'
    | NotAuthorized                     // 403 'Not authorized'
    | Invalid(errors: seq<SchemaError>) // save() rejected by the schema validators
    | StageNameMissing                  // stageName.toLowerCase() on an absent stageName throws

  /** The body of PUT /api/applications/:id; None is a field that was not sent. */
  datatype UpdateRequest = UpdateRequest(
    companyName: Option<string>,
    role: Option<string>,
    status: Option<string>,
    oaLink: Option<string>,
    referralUsed: Option<bool>,
    notes: Option<string>,
    nextDeadline: Option<Date>)

  const NoChanges := UpdateRequest(None, None, None, None, None, None, None)

  /** `new || old` on a string field: the old value survives an absent or empty new one. */
  function OrKeep(v: Option<string>, prior: string): string {
    if Supplied(v) then v.value else prior
  }

  /**
   * `new || old` on the deadline: a sent deadline of 0 (the epoch, sent as a
   * number) is falsy in JavaScript, so it keeps the old value like an absent one.
   */
  function DeadlineOrKeep(v: Option<Date>, prior: Option<Date>): Option<Date> {
    if v.Some? && v.value != 0 then v else prior
  }

  /**
   * `date || Date.now()` on a new stage's date: an absent date and a sent 0
   * (falsy in JavaScript) both give the current time.
   */
  function DateOrNow(date: Option<Date>, now: Date): (d: Date)
    ensures date.Some? && date.value != 0 ==> d == date.value
    ensures date.None? || date.value == 0 ==> d == now
  {
    if date.Some? && date.value != 0 then date.value else now
  }

  /** `new !== undefined ? new : old`: any value that was sent replaces the old one. */
  function IfSent<T>(v: Option<T>, prior: T): T {
    if v.Some? then v.value else prior
  }

  /**
   * The record updateApplication saves. companyName, role, status and
   * nextDeadline keep their old value unless the new one is truthy; oaLink,
   * referralUsed and notes take any value that was sent, even '' or false;
   * the owner, the stages and appliedDate never change. A truthy status that
   * is not one of the four names fails validation.
   */
  function ApplyUpdate(a: Application, req: UpdateRequest): (r: Result<Application, seq<SchemaError>>)
    ensures r.Err? <==> Supplied(req.status) && ParseAppStatus(req.status.value).None?
    ensures r.Err? ==> r.error == [NotInEnum("status", req.status.value)]
    ensures r.Ok? ==>
      && r.value.student == a.student
      && r.value.stages == a.stages
      && r.value.appliedDate == a.appliedDate
      && (Supplied(req.companyName) ==> r.value.companyName == req.companyName.value)
      && (!Supplied(req.companyName) ==> r.value.companyName == a.companyName)
      && (Supplied(req.role) ==> r.value.role == req.role.value)
      && (!Supplied(req.role) ==> r.value.role == a.role)
      && (Supplied(req.status) ==> AppStatusName(r.value.status) == req.status.value)
      && (!Supplied(req.status) ==> r.value.status == a.status)
      && (req.nextDeadline.Some? && req.nextDeadline.value != 0 ==> r.value.nextDeadline == req.nextDeadline)
      && (req.nextDeadline.None? || req.nextDeadline.value == 0 ==> r.value.nextDeadline == a.nextDeadline)
      && (req.oaLink.Some? ==> r.value.oaLink == req.oaLink)
      && (req.oaLink.None? ==> r.value.oaLink == a.oaLink)
      && (req.notes.Some? ==> r.value.notes == req.notes)
      && (req.notes.None? ==> r.value.notes == a.notes)
      && r.value.referralUsed == IfSent(req.referralUsed, a.referralUsed)
    ensures r.Ok? && WellFormed(a) ==> WellFormed(r.value)
  {
    var statusName := OrKeep(req.status, AppStatusName(a.status));
    match ParseAppStatus(statusName)
    case None => Err([NotInEnum("status", statusName)])
    case Some(status) =>
      Ok(a.(companyName := OrKeep(req.companyName, a.companyName),
            role := OrKeep(req.role, a.role),
            status := status,
            oaLink := if req.oaLink.Some? then req.oaLink else a.oaLink,
            referralUsed := IfSent(req.referralUsed, a.referralUsed),
            notes := if req.notes.Some? then req.notes else a.notes,
            nextDeadline := DeadlineOrKeep(req.nextDeadline, a.nextDeadline)))
  }

  /** Sending the same update twice saves the same record as sending it once. */
  lemma UpdateIdempotent(a: Application, req: UpdateRequest)
    requires ApplyUpdate(a, req).Ok?
    ensures ApplyUpdate(ApplyUpdate(a, req).value, req) == ApplyUpdate(a, req)
  {
    var b := ApplyUpdate(a, req).value;
    if Supplied(req.status) {
      assert ParseAppStatus(req.status.value) == Some(b.status);
    } else {
      assert ParseAppStatus(AppStatusName(b.status)) == Some(b.status) by {
        match b.status
        case Applied =>
        case InProgress =>
        case Offer =>
        case Rejected =>
      }
    }
  }

  /** An update that sends nothing saves the record unchanged. */
  lemma EmptyUpdateIsIdentity(a: Application)
    ensures ApplyUpdate(a, NoChanges) == Ok(a)
  {
    assert ParseAppStatus(AppStatusName(a.status)) == Some(a.status) by {
      match a.status
      case Applied =>
      case InProgress =>
      case Offer =>
      case Rejected =>
    }
  }

  /**
   * The two "keep old value" rules differ on empty values: an empty
   * companyName keeps the old name, an empty oaLink or notes and a false
   * referralUsed overwrite the stored value.
   */
  lemma EmptyValuesUnderBothRules(a: Application)
    ensures ApplyUpdate(a, NoChanges.(companyName := Some(""), role := Some(""), status := Some(""))) == Ok(a)
    ensures ApplyUpdate(a, NoChanges.(oaLink := Some(""), notes := Some(""), referralUsed := Some(false)))
            == Ok(a.(oaLink := Some(""), notes := Some(""), referralUsed := false))
  {
    EmptyUpdateIsIdentity(a);
  }

  /** Whether the lower-cased stage name is "offer". */
  predicate IsOfferName(stageName: string) {
    Text.ToLowerAscii(stageName) == "offer"
  }

  /**
   * The derived-status rule as written: a stage sent with status "rejected"
   * sets the application to rejected, and then a stage named "offer" (in any
   * case) sets it to offer, so offer wins when both hold; otherwise the status
   * is unchanged.
   */
  function DerivedStatus(current: AppStatus, stageStatus: Option<string>, stageName: string): (r: AppStatus)
    ensures IsOfferName(stageName) ==> r == Offer
    ensures !IsOfferName(stageName) && stageStatus == Some("rejected") ==> r == Rejected
    ensures !IsOfferName(stageName) && stageStatus != Some("rejected") ==> r == current
  {
    var afterRejected := if stageStatus == Some("rejected") then Rejected else current;
    if IsOfferName(stageName) then Offer else afterRejected
  }

  /** A stage named "Offer" that is itself rejected leaves the application at offer, not rejected. */
  lemma OfferWinsOverRejected(current: AppStatus)
    ensures DerivedStatus(current, Some("rejected"), "Offer") == Offer
  {
    OfferIsOfferName();
  }

  /**
   * The record updateApplicationStage saves: the new stage appended at the end
   * of the list, and the status per the derived-status rule. A missing stage
   * name throws before anything is saved; a stage the schema rejects (empty
   * name, unknown status) fails validation.
   */
  function StageAppended(a: Application, stageName: Option<string>, status: Option<string>, date: Option<Date>,
                         now: Date): (r: Result<Application, Failure>)
    ensures stageName.None? ==> r == Err(StageNameMissing)
    ensures r.Err? && stageName.Some? ==> r.error.Invalid?
    ensures r.Ok? <==> NewStage(stageName, status, Some(DateOrNow(date, now))).Ok?
    ensures r.Ok? ==>
      && |r.value.stages| == |a.stages| + 1
      && r.value.stages[..|a.stages|] == a.stages
      && r.value.stages[|a.stages|] == NewStage(stageName, status, Some(DateOrNow(date, now))).value
      && r.value.status == DerivedStatus(a.status, status, stageName.value)
      && r.value == a.(stages := r.value.stages, status := r.value.status)
    ensures r.Ok? && WellFormed(a) ==> WellFormed(r.value)
  {
    if stageName.None? then Err(StageNameMissing)
    else
      match NewStage(stageName, status, Some(DateOrNow(date, now)))
      case Err(e) => Err(Invalid(e))
      case Ok(stage) =>
        var r := a.(stages := a.stages + [stage], status := DerivedStatus(a.status, status, stageName.value));
        assert r.stages[..|a.stages|] == a.stages;
        Ok(r)
  }

  /** The store of application documents. */
  class ApplicationStore {
    var apps: map<Id, Application>
    /** The id the next created document receives; ids increase like ObjectIds. */
    var nextId: Id

    ghost predicate Valid()
      reads this
    {
      forall id :: id in apps ==> id < nextId && WellFormed(apps[id])
    }

    constructor ()
      ensures Valid() && apps == map[]
    {
      apps := map[];
      nextId := 0;
    }

    /** getApplications: the requested page of the caller's applications. */
    method List(caller: Id, q: ListQuery, textMatch: TextMatch) returns (r: ListPage)
      requires q.page >= 1 && q.limit >= 1
      ensures r == ApplicationQuery.List(apps, caller, q, textMatch)
    {
      r := ApplicationQuery.List(apps, caller, q, textMatch);
    }

    /**
     * createApplication: one new document owned by the caller, built by the
     * schema from the body; nothing else changes, and nothing at all when
     * validation fails.
     */
    method Create(caller: Id, companyName: Option<string>, role: Option<string>, oaLink: Option<string>,
                  appliedDate: Option<Date>, now: Date) returns (r: Result<Id, seq<SchemaError>>)
      requires Valid()
      modifies this
      ensures Valid()
      ensures r.Ok? ==>
        && r.value !in old(apps)
        && NewApplication(caller, companyName, role, oaLink, appliedDate, now).Ok?
        && apps == old(apps)[r.value := NewApplication(caller, companyName, role, oaLink, appliedDate, now).value]
      ensures r.Err? ==>
        && NewApplication(caller, companyName, role, oaLink, appliedDate, now) == Err(r.error)
        && apps == old(apps)
    {
      var built := NewApplication(caller, companyName, role, oaLink, appliedDate, now);
      if built.Err? {
        return Err(built.error);
      }
      var id := nextId;
      apps := apps[id := built.value];
      nextId := nextId + 1;
      r := Ok(id);
    }

    /**
     * updateApplication: 404 when the id is absent, 403 when the caller does
     * not own it (the store unchanged in both cases), otherwise the merged
     * record replaces the old one and nothing else changes.
     */
    method Update(caller: Id, id: Id, req: UpdateRequest) returns (r: Result<Application, Failure>)
      requires Valid()
      modifies this
      ensures Valid() && nextId == old(nextId)
      ensures id !in old(apps) ==> r == Err(NotFound) && apps == old(apps)
      ensures id in old(apps) && old(apps)[id].student != caller ==> r == Err(NotAuthorized) && apps == old(apps)
      ensures id in old(apps) && old(apps)[id].student == caller ==>
        match ApplyUpdate(old(apps)[id], req)
        case Ok(b) => r == Ok(b) && apps == old(apps)[id := b]
        case Err(e) => r == Err(Invalid(e)) && apps == old(apps)
    {
      if id !in apps {
        return Err(NotFound);
      }
      var application := apps[id];
      if application.student != caller {
        return Err(NotAuthorized);
      }
      application := application.(companyName := OrKeep(req.companyName, application.companyName));
      application := application.(role := OrKeep(req.role, application.role));
      var statusName := OrKeep(req.status, AppStatusName(application.status));
      application := application.(oaLink := if req.oaLink.Some? then req.oaLink else application.oaLink);
      application := application.(referralUsed := IfSent(req.referralUsed, application.referralUsed));
      application := application.(notes := if req.notes.Some? then req.notes else application.notes);
      application := application.(nextDeadline := DeadlineOrKeep(req.nextDeadline, application.nextDeadline));
      // save(): the enum validator runs on the status that was set
      var status := ParseAppStatus(statusName);
      if status.None? {
        return Err(Invalid([NotInEnum("status", statusName)]));
      }
      application := application.(status := status.value);
      apps := apps[id := application];
      r := Ok(application);
    }

    /**
     * deleteApplication: 404 when the id is absent, 403 when the caller does
     * not own it, otherwise exactly that document is removed.
     */
    method Delete(caller: Id, id: Id) returns (r: Result<(), Failure>)
      requires Valid()
      modifies this
      ensures Valid() && nextId == old(nextId)
      ensures id !in old(apps) ==> r == Err(NotFound) && apps == old(apps)
      ensures id in old(apps) && old(apps)[id].student != caller ==> r == Err(NotAuthorized) && apps == old(apps)
      ensures id in old(apps) && old(apps)[id].student == caller ==> r == Ok(()) && apps == old(apps) - {id}
    {
      if id !in apps {
        return Err(NotFound);
      }
      if apps[id].student != caller {
        return Err(NotAuthorized);
      }
      apps := apps - {id};
      r := Ok(());
    }

    /**
     * updateApplicationStage: 404 when the id is absent; otherwise the stage
     * is pushed and the derived-status rule applied. The owner is not checked:
     * any caller may append to any application.
     */
    method AppendStage(id: Id, stageName: Option<string>, status: Option<string>, date: Option<Date>, now: Date)
      returns (r: Result<Application, Failure>)
      requires Valid()
      modifies this
      ensures Valid() && nextId == old(nextId)
      ensures id !in old(apps) ==> r == Err(NotFound) && apps == old(apps)
      ensures id in old(apps) ==> r == StageAppended(old(apps)[id], stageName, status, date, now)
      ensures id in old(apps) && r.Ok? ==> apps == old(apps)[id := r.value]
      ensures r.Err? ==> apps == old(apps)
    {
      if id !in apps {
        return Err(NotFound);
      }
      var application := apps[id];
      var stage := NewStage(stageName, status, Some(DateOrNow(date, now)));
      var pushed := if stage.Ok? then application.stages + [stage.value] else application.stages;
      if status == Some("rejected") {
        application := application.(status := Rejected);
      }
      if stageName.None? {
        return Err(StageNameMissing);
      }
      if IsOfferName(stageName.value) {
        application := application.(status := Offer);
      }
      // save(): the schema validates the pushed stage
      if stage.Err? {
        return Err(Invalid(stage.error));
      }
      application := application.(stages := pushed);
      apps := apps[id := application];
      r := Ok(application);
    }
  }

  /**
   * A deleted application no longer appears in any later listing, and the
   * caller's total shrinks by one exactly when it matched the query.
   */
  lemma DeletedNeverListed(apps: map<Id, Application>, id: Id, caller: Id, q: ListQuery, textMatch: TextMatch)
    requires q.page >= 1 && q.limit >= 1
    ensures forall e :: e in List(apps - {id}, caller, q, textMatch).applications ==> e.id != id
    ensures List(apps - {id}, caller, q, textMatch).totalApplications
            == List(apps, caller, q, textMatch).totalApplications
               - (if id in MatchingIds(apps, caller, q.search, q.status, textMatch) then 1 else 0)
  {
    var before := MatchingIds(apps, caller, q.search, q.status, textMatch);
    var after := MatchingIds(apps - {id}, caller, q.search, q.status, textMatch);
    assert after == before - {id};
  }

  /** "Offer" in any case is an offer stage. */
  lemma OfferIsOfferName()
    ensures IsOfferName("Offer")
  {
    assert Text.ToLowerAscii("Offer") == "offer";
  }

  /** A name whose length is not five is never an offer stage. */
  lemma OnlyFiveLetterNames(stageName: string)
    requires |stageName| != 5
    ensures !IsOfferName(stageName)
  {
  }

  /**
   * The worked scenario: a new application is "applied"; a cleared
   * "Technical Round" leaves it so; a pending "Offer" stage makes it "offer".
   */
  lemma OfferScenario(student: Id, now: Date)
    ensures NewApplication(student, Some("Google"), Some("SWE"), None, None, now).Ok?
    ensures var a := NewApplication(student, Some("Google"), Some("SWE"), None, None, now).value;
            && a.status == Applied
            && var b := StageAppended(a, Some("Technical Round"), Some("cleared"), None, now);
               && b.Ok? && b.value.status == Applied
               && var c := StageAppended(b.value, Some("Offer"), Some("pending"), None, now);
                  c.Ok? && c.value.status == Offer && |c.value.stages| == 2
  {
    var a := NewApplication(student, Some("Google"), Some("SWE"), None, None, now).value;
    assert a.status == Applied;
    ClearedRoundKeepsStatus(a, now);
    var b := StageAppended(a, Some("Technical Round"), Some("cleared"), None, now).value;
    OfferStageMakesOffer(b, now);
  }

  /** A cleared "Technical Round" stage is appended and leaves the status as it was. */
  lemma ClearedRoundKeepsStatus(a: Application, now: Date)
    ensures var b := StageAppended(a, Some("Technical Round"), Some("cleared"), None, now);
            b.Ok? && b.value.status == a.status && |b.value.stages| == |a.stages| + 1
  {
    OnlyFiveLetterNames("Technical Round");
    KnownStageKeepsStatus(a, "Technical Round", Cleared, now);
  }

  /**
   * A stage with a non-empty name that is not "offer" and a known status other
   * than "rejected" is appended and leaves the status as it was.
   */
  lemma KnownStageKeepsStatus(a: Application, stageName: string, status: StageStatus, now: Date)
    requires stageName != "" && !IsOfferName(stageName) && status != StageRejected
    ensures var b := StageAppended(a, Some(stageName), Some(StageStatusName(status)), None, now);
            b.Ok? && b.value.status == a.status && |b.value.stages| == |a.stages| + 1
  {
    var name := StageStatusName(status);
    assert ParseStageStatus(name).Some? by {
      match status
      case Pending =>
      case Cleared =>
      case Upcoming =>
    }
    assert name != "rejected" by {
      assert StageStatusName(StageRejected) == "rejected";
    }
  }

  /**
   * A stage sent with date 0 is stored with the current time, as an absent
   * date is: `date || Date.now()` treats 0 as missing.
   */
  lemma SentZeroDateStoresNow(a: Application, stageName: string, status: Option<string>, now: Date)
    ensures var r := StageAppended(a, Some(stageName), status, Some(0), now);
            r.Ok? ==> r.value.stages[|a.stages|].date == Some(now)
                      && r == StageAppended(a, Some(stageName), status, None, now)
  {
  }

  /** A pending "Offer" stage is appended and sets the status to offer. */
  lemma OfferStageMakesOffer(b: Application, now: Date)
    ensures var c := StageAppended(b, Some("Offer"), Some("pending"), None, now);
            c.Ok? && c.value.status == Offer && |c.value.stages| == |b.stages| + 1
  {
    OfferIsOfferName();
    assert ParseStageStatus("pending") == Some(Pending);
    assert NewStage(Some("Offer"), Some("pending"), Some(now)).Ok?;
  }
}
