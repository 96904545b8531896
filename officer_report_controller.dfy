/** The second completion handler (controller/officerReport.js): an officer
    files a resolution for a report given by a route parameter. As written,
    its route "report" declares no `:id`, so the parameter is always absent and
    reading it fails (the path also lacks its leading slash, so a router that
    matches paths from "/" never reaches the handler; routing is not modelled,
    and neither reading lets a request complete a report). The corrected
    handler takes the id the route evidently meant to carry ("/report/:id"). */
module OfficerReportController {
  import opened Common
  import opened Collections
  import opened Validation
  import opened Records
  import Store
  import ReportController

  /** The body: a message and a single image, each a non-empty string of at
      most 255 characters. */
  datatype ResolutionBody = ResolutionBody(message: Value, imageReport: Value)

  predicate ResolutionSchemaOk(b: ResolutionBody) {
    StringField(b.message, 1, Some(255)) && StringField(b.imageReport, 1, Some(255))
  }

  /** The decision, given the route parameter `id` (`None` when the route has
      none). The schema is checked first (400), then the role (403). An absent
      id makes the format test throw, and the error is not a validation error,
      so it reaches the error handler (500). An id that is not 24 hexadecimal
      digits is 404; anything else succeeds. */
  function ResolutionOutcome(caller: Caller, b: ResolutionBody, idParam: Option<string>): (o: Outcome)
    ensures o == Ok <==>
      ResolutionSchemaOk(b) && caller.role != UserRole && idParam.Some? && IsObjectIdHex(idParam.value)
    ensures !ResolutionSchemaOk(b) ==> o == BadRequest
    ensures ResolutionSchemaOk(b) && caller.role == UserRole ==> o == Forbidden
    ensures ResolutionSchemaOk(b) && caller.role != UserRole && idParam.None? ==> o == InternalError
    ensures ResolutionSchemaOk(b) && caller.role != UserRole && idParam.Some? && !IsObjectIdHex(idParam.value) ==>
      o == NotFound
    ensures o == NotFound ==> idParam.Some? && !IsObjectIdHex(idParam.value)
  {
    if !ResolutionSchemaOk(b) then BadRequest
    else if caller.role == UserRole then Forbidden
    else if idParam.None? then InternalError
    else if !IsObjectIdHex(idParam.value) then NotFound
    else Ok
  }

  /** `req.params.id` under the route as written: the path "report" declares
      no parameters. */
  const IdParamAsWritten: Option<string> := None

  /** As written, no request ever completes a report: every caller and body is
      answered 400, 403 or 500. */
  lemma AsWrittenNeverResolves(caller: Caller, b: ResolutionBody)
    ensures ResolutionOutcome(caller, b, IdParamAsWritten) in {BadRequest, Forbidden, InternalError}
  {
  }

  /** A concrete case: a well-formed request from an officer for a well-formed
      id is answered 500 as written, where the route with `:id` succeeds. */
  lemma AsWrittenOfficerGetsServerError()
    ensures var caller := Caller("64b7f0c2a1d3e4f5a6b7c8d9", Officer, "Budi");
      var b := ResolutionBody(Str("Jalan sudah diperbaiki"), Str("after.jpg"));
      && ResolutionOutcome(caller, b, IdParamAsWritten) == InternalError
      && ResolutionOutcome(caller, b, Some("64b7f0c2a1d3e4f5a6b7c8e0")) == Ok
  {
    var id := "64b7f0c2a1d3e4f5a6b7c8e0";
    assert forall i :: 0 <= i < |id| ==> IsHexDigit(id[i]) by {
      forall i | 0 <= i < |id| ensures IsHexDigit(id[i]) {
        assert id[i] in "0123456789abcdef";
      }
    }
  }

  /** The corrected handler, for the route "/report/:id". On success one
      resolution by the caller is saved, and the report with the id, if any, is
      resolved by it: the same effect as the completion in controller/report.js.
      Otherwise nothing changes. */
  method ResolveReport(db: Store.Db, caller: Caller, body: ResolutionBody, id: string, newId: Id)
      returns (outcome: Outcome)
    requires db.Valid()
    requires Fresh(db.officerReports, OfficerReportKey, newId)
    modifies db`reports, db`officerReports
    ensures db.Valid()
    ensures outcome == ResolutionOutcome(caller, body, Some(id))
    ensures outcome != Ok ==>
      db.reports == old(db.reports) && db.officerReports == old(db.officerReports)
    ensures outcome == Ok ==>
      db.officerReports == old(db.officerReports)
        + [OfficerReport(newId, body.message.s, [body.imageReport.s], caller.id)]
    ensures outcome == Ok ==>
      match IndexOf(old(db.reports), ReportKey, id)
      case None => db.reports == old(db.reports)
      case Some(i) => db.reports == old(db.reports)[i := ReportController.Resolved(old(db.reports)[i], newId, caller.id)]
  {
    outcome := ResolutionOutcome(caller, body, Some(id));
    if outcome != Ok {
      return;
    }
    var resolution := OfficerReport(newId, body.message.s, [body.imageReport.s], caller.id);
    AppendFreshKeepsUnique(db.officerReports, OfficerReportKey, resolution);
    db.officerReports := db.officerReports + [resolution];
    var found := IndexOf(db.reports, ReportKey, id);
    if found.Some? {
      var i := found.value;
      var resolved := ReportController.Resolved(db.reports[i], newId, caller.id);
      UpdateKeepsUnique(db.reports, ReportKey, i, resolved);
      db.reports := db.reports[i := resolved];
    }
  }
}
