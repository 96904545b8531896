/** The handlers of controller/report.js that change the store: creating a
    report, assigning it to a unit of work, an officer completing it, and
    deleting it. Each is a method that takes the shared store; the decision each one
    takes (which status code it answers) is a function of its inputs, stated
    and proved on its own. */
module ReportController {
  import opened Common
  import opened Collections
  import opened Validation
  import opened Records
  import Store
  import Dashboard
  import ReportQueries

  // ---------------------------------------------------------------------------
  // POST /report — create a report
  // ---------------------------------------------------------------------------

  /** The body of a create request: the schema's fields, plus the two fields
      the handler passes on to the document unchecked (`reporter`, which it
      overrides, and `status`). */
  datatype CreateBody = CreateBody(
    title: Value,
    longitude: Value,
    latitude: Value,
    imageReport: Value,
    description: Value,
    address: Value,
    category: Value,
    reporter: Value,
    status: Value)

  /** The create schema. */
  predicate CreateSchemaOk(b: CreateBody) {
    && StringField(b.title, 1, Some(255))
    && StringField(b.longitude, 1, Some(255))
    && StringField(b.latitude, 1, Some(255))
    && StringArrayField(b.imageReport, true, true)
    && StringField(b.description, 1, None)
    && StringField(b.address, 1, None)
    && StringField(b.category, 1, None)
  }

  /** What a create request comes to: an answer without a new document, or the
      document to insert. */
  datatype CreateResult = Rejected(outcome: Outcome) | Accepted(report: Report)

  /** `{ ...body, reporter }` handed to `Reports.create`: the body's fields with
      `reporter` replaced by the caller. A status the body sets is cast to the
      enum; one that is not a string cannot be cast and fails the save like an
      unknown name does, so it is kept aside as `None` here. */
  function Draft(b: CreateBody, caller: Caller): (d: ReportDraft)
    requires CreateSchemaOk(b) && (b.status.Null? || b.status.Str?)
  {
    ReportDraft(b.title.s, b.description.s, b.address.s, Some(b.latitude.s), Some(b.longitude.s),
                OptionalStrings(b.imageReport), b.category.s, Some(caller.id),
                if b.status.Null? then None else Some(b.status.s))
  }

  /** The create decision. A body that fails the schema is answered 400; a
      document the report schema refuses (a title, description or address out
      of the model's bounds, a status outside the enum, a category that cannot
      be cast to an ObjectId) fails the save and is answered 500 by the inner
      handler. Otherwise the document is the body's, reported by the caller
      whatever the body says, with the defaults. */
  function Create(b: CreateBody, caller: Caller, id: Id, now: nat): (r: CreateResult)
    ensures r == Rejected(BadRequest) <==> !CreateSchemaOk(b)
    ensures r.Rejected? ==> r.outcome in {BadRequest, InternalError}
    ensures r.Accepted? <==>
      && CreateSchemaOk(b)
      && TitleValid(b.title.s) && DescriptionValid(b.description.s) && AddressValid(b.address.s)
      && (b.status.Null? || (b.status.Str? && ParseStatus(b.status.s).Some?))
      && CastsToObjectId(b.category.s)
    ensures r.Accepted? ==>
      && ReportValid(r.report)
      && r.report.id == id && r.report.createdAt == now
      && r.report.reporter == Some(caller.id)
      && r.report.title == b.title.s && r.report.description == b.description.s
      && r.report.address == b.address.s && r.report.category == b.category.s
      && r.report.latitude == Some(b.latitude.s) && r.report.longitude == Some(b.longitude.s)
      && r.report.imageReport == OptionalStrings(b.imageReport)
      && r.report.status == (if b.status.Null? then Menunggu else ParseStatus(b.status.s).value)
      && r.report.unitWorks == None && r.report.officerReport == None
      && r.report.officer == None && r.report.comment == []
  {
    if !CreateSchemaOk(b) then Rejected(BadRequest)
    else if !(b.status.Null? || b.status.Str?) || !CastsToObjectId(b.category.s) then Rejected(InternalError)
    else
      match NewReport(id, now, Draft(b, caller))
      case None => Rejected(InternalError)
      case Some(report) => Accepted(report)
  }

  /** Which reporter the body names makes no difference. */
  lemma CreateIgnoresBodyReporter(b: CreateBody, caller: Caller, id: Id, now: nat, v: Value)
    ensures Create(b.(reporter := v), caller, id, now) == Create(b, caller, id, now)
  {
  }

  /** A report created without a status adds one to the summary's
      `Menunggu` count and leaves the other counts as they were. */
  lemma CreateCountsAsWaiting(reports: seq<Report>, b: CreateBody, caller: Caller, id: Id, now: nat, st: Status)
    requires Create(b, caller, id, now).Accepted? && b.status.Null?
    ensures Dashboard.CountStatus(reports + [Create(b, caller, id, now).report], st)
         == Dashboard.CountStatus(reports, st) + (if st == Menunggu then 1 else 0)
  {
    Dashboard.CountStatusAppend(reports, Create(b, caller, id, now).report, st);
  }

  /** The handler: the new document is appended under a fresh id. */
  method CreateReport(db: Store.Db, caller: Caller, body: CreateBody, newId: Id, now: nat)
      returns (outcome: Outcome)
    requires db.Valid()
    requires Fresh(db.reports, ReportKey, newId)
    modifies db`reports
    ensures db.Valid()
    ensures Create(body, caller, newId, now).Rejected? ==>
      outcome == Create(body, caller, newId, now).outcome && db.reports == old(db.reports)
    ensures Create(body, caller, newId, now).Accepted? ==>
      outcome == Ok && db.reports == old(db.reports) + [Create(body, caller, newId, now).report]
  {
    var r := Create(body, caller, newId, now);
    if r.Rejected? {
      return r.outcome;
    }
    AppendFreshKeepsUnique(db.reports, ReportKey, r.report);
    db.reports := db.reports + [r.report];
    outcome := Ok;
  }

  // ---------------------------------------------------------------------------
  // POST /report/assign — route a report to a unit of work
  // ---------------------------------------------------------------------------

  /** The assign schema: both ids non-empty strings of at most 255 characters.
      The unit-work id comes from the body as it is, so it may be null or
      missing. */
  predicate AssignSchemaOk(reportId: string, unitWorkId: Value) {
    1 <= |reportId| <= 255 && StringField(unitWorkId, 1, Some(255))
  }

  /** What the validator returns: `true`, or the list of what failed. */
  datatype Verdict = Passed | Failed(fields: seq<string>)

  function ValidateAssign(reportId: string, unitWorkId: Value): Verdict {
    if AssignSchemaOk(reportId, unitWorkId) then Passed
    else Failed((if 1 <= |reportId| <= 255 then [] else ["report_id"])
                + (if StringField(unitWorkId, 1, Some(255)) then [] else ["unit_work_id"]))
  }

  /** The `error` property of a verdict. Neither `true` nor a list has one, so
      it is always absent. */
  function ErrorOf(v: Verdict): Option<seq<string>> {
    None
  }

  /** Whether the update can cast the unit-work id to the reference type. A
      null or missing id passes through the cast unchanged; a string must be an
      ObjectId's text or bytes; any other value fails. */
  predicate UnitWorkCasts(unitWorkId: Value) {
    unitWorkId.Null? || (unitWorkId.Str? && CastsToObjectId(unitWorkId.s))
  }

  /** The reference the update writes: unset for a null or missing id. */
  function UnitWorkRef(unitWorkId: Value): (ref: Option<Id>)
    requires UnitWorkCasts(unitWorkId)
    ensures ref.None? <==> unitWorkId.Null?
    ensures ref.Some? ==> unitWorkId == Str(ref.value) && CastsToObjectId(ref.value)
  {
    if unitWorkId.Null? then None else Some(unitWorkId.s)
  }

  /** The assign decision. The handler tests the verdict's `error` property,
      which never exists, so a request that fails the schema goes on to the
      update like any other. The update casts the unit-work id to the reference
      type first: one that does not cast throws, answered 500 by the handler's
      catch. Otherwise the answer is 404 exactly when no report has the id, 200
      otherwise; never 400. */
  function AssignOutcome(reports: seq<Report>, reportId: string, unitWorkId: Value): (o: Outcome)
    ensures o == InternalError <==> !UnitWorkCasts(unitWorkId)
    ensures o == NotFound <==> UnitWorkCasts(unitWorkId) && Fresh(reports, ReportKey, reportId)
    ensures o == Ok <==> UnitWorkCasts(unitWorkId) && !Fresh(reports, ReportKey, reportId)
    ensures o != BadRequest
  {
    if ErrorOf(ValidateAssign(reportId, unitWorkId)).Some? then BadRequest
    else if !UnitWorkCasts(unitWorkId) then InternalError
    else if IndexOf(reports, ReportKey, reportId).None? then NotFound
    else Ok
  }

  /** An empty unit-work id fails the schema, but the dead check lets it through
      to the update, whose cast answers 500 where the schema meant 400. */
  lemma AssignLetsEmptyUnitWorkThrough(reports: seq<Report>, reportId: string)
    ensures ValidateAssign(reportId, Str("")) != Passed
    ensures AssignOutcome(reports, reportId, Str("")) == InternalError
  {
  }

  /** A null or missing unit-work id fails the schema too, but the cast lets it
      through: the answer is 200 or 404 by whether the report exists, and the
      report is put in process with no unit of work. */
  lemma AssignLetsMissingUnitWorkThrough(reports: seq<Report>, reportId: string)
    ensures ValidateAssign(reportId, Null) != Passed
    ensures AssignOutcome(reports, reportId, Null) == (if Fresh(reports, ReportKey, reportId) then NotFound else Ok)
    ensures UnitWorkRef(Null) == None
  {
  }

  /** The `$set` of the assign handler. */
  function Assigned(r: Report, unitWork: Option<Id>): Report {
    r.(unitWorks := unitWork, status := Diproses)
  }

  /** A report assigned with no unit of work is in process, yet no unit-work
      query ever lists it: it has left the waiting reports without reaching any
      unit. */
  lemma AssignedWithoutUnitIsInNoUnitQuery(reports: seq<Report>, i: nat, unitWorkId: Id, q: string, status: string,
                                          limit: nat, skip: nat, titleMatch: (string, string) -> bool)
    requires i < |reports|
    ensures var after := reports[i := Assigned(reports[i], None)];
      && after[i].status == Diproses
      && after[i] !in ReportQueries.ReportsOfUnitWork(after, unitWorkId, q, status, limit, skip, titleMatch).page
  {
  }

  /** Assigning a report that is not yet in process moves it, in the summary,
      from its old status to `Diproses`. */
  lemma AssignMovesToInProcess(reports: seq<Report>, i: nat, unitWorkId: Option<Id>)
    requires i < |reports| && reports[i].status != Diproses
    ensures Dashboard.CountStatus(reports[i := Assigned(reports[i], unitWorkId)], Diproses)
         == Dashboard.CountStatus(reports, Diproses) + 1
    ensures Dashboard.CountStatus(reports[i := Assigned(reports[i], unitWorkId)], reports[i].status)
         == Dashboard.CountStatus(reports, reports[i].status) - 1
  {
    Dashboard.CountStatusUpdate(reports, i, Assigned(reports[i], unitWorkId), Diproses);
    Dashboard.CountStatusUpdate(reports, i, Assigned(reports[i], unitWorkId), reports[i].status);
  }

  /** The handler: the report with the id is routed to the unit of work and put
      in process; every other report, and every other field, is unchanged. */
  method Assign(db: Store.Db, reportId: string, unitWorkId: Value) returns (outcome: Outcome)
    requires db.Valid()
    modifies db`reports
    ensures db.Valid()
    ensures outcome == AssignOutcome(old(db.reports), reportId, unitWorkId)
    ensures outcome != Ok ==> db.reports == old(db.reports)
    ensures outcome == Ok ==>
      var i := IndexOf(old(db.reports), ReportKey, reportId).value;
      db.reports == old(db.reports)[i := Assigned(old(db.reports)[i], UnitWorkRef(unitWorkId))]
  {
    if ErrorOf(ValidateAssign(reportId, unitWorkId)).Some? {
      return BadRequest;
    }
    if !UnitWorkCasts(unitWorkId) {
      return InternalError;
    }
    var found := IndexOf(db.reports, ReportKey, reportId);
    if found.None? {
      return NotFound;
    }
    var i := found.value;
    var routed := Assigned(db.reports[i], UnitWorkRef(unitWorkId));
    UpdateKeepsUnique(db.reports, ReportKey, i, routed);
    db.reports := db.reports[i := routed];
    outcome := Ok;
  }

  // ---------------------------------------------------------------------------
  // POST /report/officer/done — an officer completes a report
  // ---------------------------------------------------------------------------

  datatype DoneBody = DoneBody(idReport: Value, message: Value, imageReport: Value)

  /** The completion schema; the images are required and may not be empty. */
  predicate DoneSchemaOk(b: DoneBody) {
    && StringField(b.idReport, 1, Some(255))
    && StringField(b.message, 1, None)
    && StringArrayField(b.imageReport, false, false)
  }

  /** The completion decision: 400 on a bad body, 403 for a plain user, 404 for
      an id that is not 24 hexadecimal digits, 200 otherwise. Whether a report
      has the id plays no part: the answer depends on the caller and the body
      alone. */
  function DoneOutcome(caller: Caller, b: DoneBody): (o: Outcome)
    ensures o == Ok <==> DoneSchemaOk(b) && caller.role != UserRole && IsObjectIdHex(b.idReport.s)
    ensures !DoneSchemaOk(b) ==> o == BadRequest
    ensures DoneSchemaOk(b) && caller.role == UserRole ==> o == Forbidden
    ensures DoneSchemaOk(b) && caller.role != UserRole && !IsObjectIdHex(b.idReport.s) ==> o == NotFound
    ensures o == NotFound ==> caller.role != UserRole && !IsObjectIdHex(b.idReport.s)
  {
    if !DoneSchemaOk(b) then BadRequest
    else if caller.role == UserRole then Forbidden
    else if !IsObjectIdHex(b.idReport.s) then NotFound
    else Ok
  }

  /** The `$set` of a completion: the resolution, the officer, and done. */
  function Resolved(r: Report, officerReportId: Id, officer: Id): Report {
    r.(officerReport := Some(officerReportId), officer := Some(officer), status := Selesai)
  }

  /** Completing a report that is not yet done moves it, in the summary, from
      its old status to `Selesai`. */
  lemma ResolveMovesToDone(reports: seq<Report>, i: nat, officerReportId: Id, officer: Id)
    requires i < |reports| && reports[i].status != Selesai
    ensures Dashboard.CountStatus(reports[i := Resolved(reports[i], officerReportId, officer)], Selesai)
         == Dashboard.CountStatus(reports, Selesai) + 1
    ensures Dashboard.CountStatus(reports[i := Resolved(reports[i], officerReportId, officer)], reports[i].status)
         == Dashboard.CountStatus(reports, reports[i].status) - 1
  {
    Dashboard.CountStatusUpdate(reports, i, Resolved(reports[i], officerReportId, officer), Selesai);
    Dashboard.CountStatusUpdate(reports, i, Resolved(reports[i], officerReportId, officer), reports[i].status);
  }

  /** The handler: a well-formed request from an officer or admin always saves
      the officer's report and answers 200; the report with the id, if there is
      one, is resolved, and if there is none nothing else changes. */
  method CompleteByOfficer(db: Store.Db, caller: Caller, body: DoneBody, newId: Id)
      returns (outcome: Outcome)
    requires db.Valid()
    requires Fresh(db.officerReports, OfficerReportKey, newId)
    modifies db`reports, db`officerReports
    ensures db.Valid()
    ensures outcome == DoneOutcome(caller, body)
    ensures outcome != Ok ==>
      db.reports == old(db.reports) && db.officerReports == old(db.officerReports)
    ensures outcome == Ok ==>
      db.officerReports == old(db.officerReports)
        + [OfficerReport(newId, body.message.s, Strings(body.imageReport.items), caller.id)]
    ensures outcome == Ok ==>
      match IndexOf(old(db.reports), ReportKey, body.idReport.s)
      case None => db.reports == old(db.reports)
      case Some(i) => db.reports == old(db.reports)[i := Resolved(old(db.reports)[i], newId, caller.id)]
  {
    outcome := DoneOutcome(caller, body);
    if outcome != Ok {
      return;
    }
    var resolution := OfficerReport(newId, body.message.s, Strings(body.imageReport.items), caller.id);
    AppendFreshKeepsUnique(db.officerReports, OfficerReportKey, resolution);
    db.officerReports := db.officerReports + [resolution];
    var found := IndexOf(db.reports, ReportKey, body.idReport.s);
    if found.Some? {
      var i := found.value;
      UpdateKeepsUnique(db.reports, ReportKey, i, Resolved(db.reports[i], newId, caller.id));
      db.reports := db.reports[i := Resolved(db.reports[i], newId, caller.id)];
    }
  }

  // ---------------------------------------------------------------------------
  // DELETE /report/:id
  // ---------------------------------------------------------------------------

  /** The delete decision. 404 when no report has the id. An admin may delete
      any report, anyone else only their own: another's report is 403, and a
      report without a reporter makes the ownership test throw, answered 500.
      A super admin is not an admin here. */
  function DeleteOutcome(reports: seq<Report>, caller: Caller, id: Id): (o: Outcome)
  {
    match IndexOf(reports, ReportKey, id)
    case None => NotFound
    case Some(i) =>
      if caller.role != Admin && reports[i].reporter.None? then InternalError
      else if caller.role != Admin && reports[i].reporter.value != caller.id then Forbidden
      else Ok
  }

  /** The decision in terms of the report with the id. */
  lemma DeleteOutcomeOfReport(reports: seq<Report>, caller: Caller, id: Id)
    requires UniqueBy(reports, ReportKey)
    ensures Fresh(reports, ReportKey, id) <==> DeleteOutcome(reports, caller, id) == NotFound
    ensures forall r :: r in reports && r.id == id ==>
      var o := DeleteOutcome(reports, caller, id);
      && (o == Ok <==> caller.role == Admin || r.reporter == Some(caller.id))
      && (o == Forbidden <==> caller.role != Admin && r.reporter.Some? && r.reporter != Some(caller.id))
      && (o == InternalError <==> caller.role != Admin && r.reporter.None?)
  {
    forall r | r in reports && r.id == id
      ensures var o := DeleteOutcome(reports, caller, id);
        && (o == Ok <==> caller.role == Admin || r.reporter == Some(caller.id))
        && (o == Forbidden <==> caller.role != Admin && r.reporter.Some? && r.reporter != Some(caller.id))
        && (o == InternalError <==> caller.role != Admin && r.reporter.None?)
    {
      var j :| 0 <= j < |reports| && reports[j] == r;
      IndexOfUnique(reports, ReportKey, id, j);
    }
  }

  /** The handler: on 200 the report with the id, and only it, is gone. */
  method DeleteReport(db: Store.Db, caller: Caller, id: Id) returns (outcome: Outcome)
    requires db.Valid()
    modifies db`reports
    ensures db.Valid()
    ensures outcome == DeleteOutcome(old(db.reports), caller, id)
    ensures outcome != Ok ==> db.reports == old(db.reports)
    ensures outcome == Ok ==>
      && db.reports == Without(old(db.reports), ReportKey, id)
      && |db.reports| == |old(db.reports)| - 1
      && Fresh(db.reports, ReportKey, id)
  {
    outcome := DeleteOutcome(db.reports, caller, id);
    if outcome != Ok {
      return;
    }
    WithoutPresentRemovesOne(db.reports, ReportKey, id);
    WithoutKeepsUnique(db.reports, ReportKey, id, ReportKey);
    db.reports := Without(db.reports, ReportKey, id);
  }
}
