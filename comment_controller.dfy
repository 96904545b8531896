/** Commenting on a report (controller/comment.js): the comment is saved and
    its id appended to the report's comment list. */
module CommentController {
  import opened Common
  import opened Collections
  import opened Validation
  import opened Records
  import Store

  datatype CommentBody = CommentBody(idReport: Value, message: Value)

  /** The comment schema: a report id of 1 to 255 characters and a non-empty
      message. */
  predicate CommentSchemaOk(b: CommentBody) {
    StringField(b.idReport, 1, Some(255)) && StringField(b.message, 1, None)
  }

  /** The decision: 400 on a bad body, 401 without a caller, 404 when no report
      has the id, 201 otherwise, checked in that order. */
  function CommentOutcome(reports: seq<Report>, caller: Option<Caller>, b: CommentBody): (o: Outcome)
    ensures o == Created <==> CommentSchemaOk(b) && caller.Some? && !Fresh(reports, ReportKey, b.idReport.s)
    ensures o == BadRequest <==> !CommentSchemaOk(b)
    ensures o == Unauthorized <==> CommentSchemaOk(b) && caller.None?
    ensures o == NotFound <==> CommentSchemaOk(b) && caller.Some? && Fresh(reports, ReportKey, b.idReport.s)
  {
    if !CommentSchemaOk(b) then BadRequest
    else if caller.None? then Unauthorized
    else if IndexOf(reports, ReportKey, b.idReport.s).None? then NotFound
    else Created
  }

  /** `report.comment.push(id)`: the new id goes last, the earlier ids keep
      their order, and nothing else about the report changes. */
  function Commented(r: Report, commentId: Id): (c: Report)
    ensures |c.comment| == |r.comment| + 1
    ensures c.comment[..|r.comment|] == r.comment && c.comment[|r.comment|] == commentId
    ensures c.(comment := r.comment) == r
  {
    r.(comment := r.comment + [commentId])
  }

  /** POST /comment. On 201 the comment, carrying the caller's name as it is
      now and the message, is saved under a fresh id and appended to the
      report's list; otherwise nothing changes. */
  method CreateComment(db: Store.Db, caller: Option<Caller>, body: CommentBody, newId: Id, now: nat)
      returns (outcome: Outcome)
    requires db.Valid()
    requires Fresh(db.comments, CommentKey, newId)
    modifies db`reports, db`comments
    ensures db.Valid()
    ensures outcome == CommentOutcome(old(db.reports), caller, body)
    ensures outcome != Created ==> db.reports == old(db.reports) && db.comments == old(db.comments)
    ensures outcome == Created ==>
      && db.comments == old(db.comments) + [Comment(newId, caller.value.name, body.message.s, now)]
      && var i := IndexOf(old(db.reports), ReportKey, body.idReport.s).value;
         db.reports == old(db.reports)[i := Commented(old(db.reports)[i], newId)]
  {
    outcome := CommentOutcome(db.reports, caller, body);
    if outcome != Created {
      return;
    }
    var comment := Comment(newId, caller.value.name, body.message.s, now);
    var i := IndexOf(db.reports, ReportKey, body.idReport.s).value;
    var report := Commented(db.reports[i], newId);
    AppendFreshKeepsUnique(db.comments, CommentKey, comment);
    db.comments := db.comments + [comment];
    UpdateKeepsUnique(db.reports, ReportKey, i, report);
    assert ReportValid(report) by { assert db.reports[i] in db.reports; }
    db.reports := db.reports[i := report];
  }
}
