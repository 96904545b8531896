/** The read-only report handlers of controller/report.js: the enriched list,
    the three filtered queries (by unit work, by reporter, by officer) and the
    lookup of one report with its references populated. None of them changes
    the store; each is a function of the collections it reads. */
module ReportQueries {
  import opened Common
  import opened Collections
  import opened Records

  // ---------------------------------------------------------------------------
  // GET /list: every report, newest first, with its references resolved
  // ---------------------------------------------------------------------------

  /** The name shown for a reference that does not resolve. */
  const UnknownName: string := "Unknown"

  /** A resolved reference: `{id, name}`, or `{id: null, name: 'Unknown'}`. */
  datatype RefView = RefView(id: Option<Id>, name: string)

  /** The unresolved reference. */
  const Dangling: RefView := RefView(None, UnknownName)

  /** Looking a reference up in the user collection (`User.findById`), with the
      `Unknown` fallback when the reference is unset or names no user. */
  function ResolveUser(users: seq<User>, ref: Option<Id>): (v: RefView)
    ensures ref.None? ==> v == Dangling
    ensures ref.Some? && Fresh(users, UserKey, ref.value) ==> v == Dangling
    ensures ref.Some? && !Fresh(users, UserKey, ref.value) ==>
      v.id == ref && exists u :: u in users && u.id == ref.value && u.name == v.name
  {
    if ref.None? then Dangling
    else match IndexOf(users, UserKey, ref.value)
      case None => Dangling
      case Some(i) => assert users[i] in users; RefView(Some(users[i].id), users[i].name)
  }

  /** A category as the list shows it: `{_id, name, image}`. */
  datatype CategoryView = CategoryView(id: Id, name: string, image: string)

  /** Populating a category reference; `None` (null) when it names no category. */
  function PopulateCategory(categories: seq<Category>, ref: Id): (c: Option<CategoryView>)
    ensures c.None? <==> Fresh(categories, CategoryKey, ref)
    ensures c.Some? ==> c.value.id == ref && exists x :: x in categories && x.id == ref && CategoryView(x.id, x.name, x.image) == c.value
  {
    match IndexOf(categories, CategoryKey, ref)
    case None => None
    case Some(i) =>
      var x := categories[i];
      assert x in categories;
      Some(CategoryView(x.id, x.name, x.image))
  }

  /** One entry of the list. */
  datatype ListedReport = ListedReport(
    id: Id,
    title: string,
    description: string,
    address: string,
    latitude: Option<string>,
    longitude: Option<string>,
    status: Status,
    imageReport: seq<string>,
    category: Option<CategoryView>,
    reporter: RefView,
    unitWork: RefView,
    officerReport: RefView,
    officer: RefView,
    comment: seq<Id>,
    createdAt: nat)

  /** Shaping one report. All four references are looked up in the USER
      collection, the unit-work and officer-report references included. */
  function Enrich(r: Report, users: seq<User>, categories: seq<Category>): ListedReport {
    ListedReport(
      r.id, r.title, r.description, r.address, r.latitude, r.longitude, r.status, r.imageReport,
      PopulateCategory(categories, r.category),
      ResolveUser(users, r.reporter),
      ResolveUser(users, r.unitWorks),
      ResolveUser(users, r.officerReport),
      ResolveUser(users, r.officer),
      r.comment, r.createdAt)
  }

  /** Shaping every report of a sequence, in order (`reports.map`). Each entry
      carries its report's own fields; each of the four references shows as
      `Unknown` when it is unset or names no user, and as that user otherwise. */
  function EnrichAll(s: seq<Report>, users: seq<User>, categories: seq<Category>): (out: seq<ListedReport>)
    ensures |out| == |s|
    ensures forall i :: 0 <= i < |s| ==> out[i] == Enrich(s[i], users, categories)
    ensures forall i :: 0 <= i < |s| ==>
      && out[i].id == s[i].id && out[i].title == s[i].title && out[i].status == s[i].status
      && out[i].comment == s[i].comment && out[i].createdAt == s[i].createdAt
    ensures forall i :: 0 <= i < |s| && (s[i].reporter.None? || Fresh(users, UserKey, s[i].reporter.value)) ==>
      out[i].reporter == Dangling
    ensures forall i :: 0 <= i < |s| && (s[i].officer.None? || Fresh(users, UserKey, s[i].officer.value)) ==>
      out[i].officer == Dangling
    ensures forall i :: 0 <= i < |s| && (s[i].unitWorks.None? || Fresh(users, UserKey, s[i].unitWorks.value)) ==>
      out[i].unitWork == Dangling
    ensures forall i :: 0 <= i < |s| && (s[i].officerReport.None? || Fresh(users, UserKey, s[i].officerReport.value)) ==>
      out[i].officerReport == Dangling
    ensures forall i :: 0 <= i < |s| && s[i].reporter.Some? && !Fresh(users, UserKey, s[i].reporter.value) ==>
      out[i].reporter.id == s[i].reporter
    ensures forall i :: 0 <= i < |s| && s[i].officer.Some? && !Fresh(users, UserKey, s[i].officer.value) ==>
      out[i].officer.id == s[i].officer
  {
    seq(|s|, i requires 0 <= i < |s| => Enrich(s[i], users, categories))
  }

  /** `GET /list`: one entry per report, newest first. A dangling reference never
      makes the list fail; it shows as `Unknown`. */
  function ListReports(reports: seq<Report>, users: seq<User>, categories: seq<Category>): (out: seq<ListedReport>)
    ensures |out| == |reports|
    ensures forall i, j :: 0 <= i < j < |out| ==> out[i].createdAt >= out[j].createdAt
    ensures forall r :: r in reports ==> Enrich(r, users, categories) in out
    ensures forall v :: v in out ==> exists r :: r in reports && v == Enrich(r, users, categories)
  {
    var sorted := SortDesc(reports, ReportCreatedAt);
    SortedEnrichment(reports, sorted, users, categories);
    EnrichAll(sorted, users, categories)
  }

  /** Shaping a sorted permutation of the reports keeps the order and the
      reports. */
  lemma SortedEnrichment(reports: seq<Report>, sorted: seq<Report>, users: seq<User>, categories: seq<Category>)
    requires sorted == SortDesc(reports, ReportCreatedAt)
    ensures var out := EnrichAll(sorted, users, categories);
      && (forall i, j :: 0 <= i < j < |out| ==> out[i].createdAt >= out[j].createdAt)
      && (forall r :: r in reports ==> Enrich(r, users, categories) in out)
      && (forall v :: v in out ==> exists r :: r in reports && v == Enrich(r, users, categories))
  {
    var out := EnrichAll(sorted, users, categories);
    forall i, j | 0 <= i < j < |out| ensures out[i].createdAt >= out[j].createdAt {
      assert ReportCreatedAt(sorted[i]) >= ReportCreatedAt(sorted[j]);
    }
    forall r | r in reports ensures Enrich(r, users, categories) in out {
      SortDescSameElements(reports, ReportCreatedAt, r);
      var i :| 0 <= i < |sorted| && sorted[i] == r;
      assert out[i] == Enrich(r, users, categories);
    }
    forall v | v in out ensures exists r :: r in reports && v == Enrich(r, users, categories) {
      var i :| 0 <= i < |out| && out[i] == v;
      SortDescSameElements(reports, ReportCreatedAt, sorted[i]);
      assert sorted[i] in sorted;
    }
  }

  /** The `unit_work` entry is looked up among users: a report assigned to a unit
      work that exists, but whose id is no user's, lists its unit work as
      `Unknown`. */
  lemma ListedUnitWorkIsLookedUpAmongUsers(r: Report, users: seq<User>, categories: seq<Category>, unitWorks: seq<UnitWork>)
    requires r.unitWorks.Some? && !Fresh(unitWorks, UnitWorkKey, r.unitWorks.value)
    requires Fresh(users, UserKey, r.unitWorks.value)
    ensures Enrich(r, users, categories).unitWork == Dangling
  {
  }

  // ---------------------------------------------------------------------------
  // GET /unit-work/:id, /user/:user_id, /officer/:officer_id
  // ---------------------------------------------------------------------------

  /** A query document built by object spreads: each present entry is one
      equality (or, for `title`, a pattern) the report must match. */
  datatype Criteria = Criteria(
    unitWorks: Option<Id>,
    reporter: Option<Id>,
    officer: Option<Id>,
    status: Option<string>,
    title: Option<string>)

  /** A report matches a query document. `titleMatch(title, q)` stands for the
      case-insensitive `$regex` search, which the model leaves abstract. */
  predicate Matches(c: Criteria, r: Report, titleMatch: (string, string) -> bool) {
    && (c.unitWorks.Some? ==> r.unitWorks == c.unitWorks)
    && (c.reporter.Some? ==> r.reporter == c.reporter)
    && (c.officer.Some? ==> r.officer == c.officer)
    && (c.status.Some? ==> StatusName(r.status) == c.status.value)
    && (c.title.Some? ==> titleMatch(r.title, c.title.value))
  }

  /** `Reports.find(criteria)`: the matching reports, in natural order. */
  function Find(reports: seq<Report>, c: Criteria, titleMatch: (string, string) -> bool): (found: seq<Report>)
    ensures |found| <= |reports|
    ensures forall r :: r in found ==> r in reports && Matches(c, r, titleMatch)
    ensures forall r :: r in reports && Matches(c, r, titleMatch) ==> r in found
    ensures forall r :: multiset(found)[r] == if Matches(c, r, titleMatch) then multiset(reports)[r] else 0
  {
    if reports == [] then []
    else
      assert reports == [reports[0]] + reports[1..];
      assert forall r :: r in reports ==> r == reports[0] || r in reports[1..];
      (if Matches(c, reports[0], titleMatch) then [reports[0]] else []) + Find(reports[1..], c, titleMatch)
  }

  /** Two query documents that no report tells apart find the same reports. */
  lemma {:induction false} FindSameMatches(reports: seq<Report>, c1: Criteria, c2: Criteria, titleMatch: (string, string) -> bool)
    requires forall r :: r in reports ==> (Matches(c1, r, titleMatch) <==> Matches(c2, r, titleMatch))
    ensures Find(reports, c1, titleMatch) == Find(reports, c2, titleMatch)
  {
    if reports != [] {
      assert reports[0] in reports;
      assert forall r :: r in reports[1..] ==> r in reports;
      FindSameMatches(reports[1..], c1, c2, titleMatch);
    }
  }

  /** A query's answer: the outcome, the number of all matches (`countDocuments`
      over the same criteria) and the `skip`/`limit` page of them. */
  datatype QueryResult = QueryResult(outcome: Outcome, count: nat, page: seq<Report>)

  /** `/unit-work/:id`: reports assigned to the unit work and in process; `q`, or
      merely a non-empty `status`, adds the title pattern `q`. The `status`
      parameter never filters by status. */
  function UnitWorkCriteria(unitWorkId: Id, q: string, status: string): Criteria {
    Criteria(Some(unitWorkId), None, None, Some(StatusName(Diproses)),
             if |q| > 0 || |status| > 0 then Some(q) else None)
  }

  function ReportsOfUnitWork(reports: seq<Report>, unitWorkId: Id, q: string, status: string,
                             limit: nat, skip: nat, titleMatch: (string, string) -> bool): (res: QueryResult)
    ensures res.outcome == Ok
    ensures forall r :: r in res.page ==> r in reports && r.unitWorks == Some(unitWorkId) && r.status == Diproses
    ensures res.count == |Find(reports, UnitWorkCriteria(unitWorkId, q, status), titleMatch)|
    ensures res.page == Page(Find(reports, UnitWorkCriteria(unitWorkId, q, status), titleMatch), limit, skip)
    ensures |res.page| <= res.count
  {
    var found := Find(reports, UnitWorkCriteria(unitWorkId, q, status), titleMatch);
    var page := Page(found, limit, skip);
    assert forall r :: r in page ==> r in found by {
      forall r | r in page ensures r in found {
        var i :| 0 <= i < |page| && page[i] == r;
        assert found[skip + i] == r;
      }
    }
    assert forall r :: r in found ==> r.status == Diproses by {
      forall r | r in found ensures r.status == Diproses {
        StatusNameInjective(r.status, Diproses);
      }
    }
    QueryResult(Ok, |found|, page)
  }

  /** The `status` parameter of the unit-work query does not matter: with a
      non-empty `q` it changes nothing at all, and with an empty `q` it only adds
      the empty title pattern, which every title matches. */
  lemma UnitWorkQueryIgnoresStatus(reports: seq<Report>, unitWorkId: Id, q: string, status1: string, status2: string,
                                   limit: nat, skip: nat, titleMatch: (string, string) -> bool)
    requires |q| > 0 || forall t :: titleMatch(t, "")
    ensures ReportsOfUnitWork(reports, unitWorkId, q, status1, limit, skip, titleMatch)
         == ReportsOfUnitWork(reports, unitWorkId, q, status2, limit, skip, titleMatch)
  {
    FindSameMatches(reports, UnitWorkCriteria(unitWorkId, q, status1), UnitWorkCriteria(unitWorkId, q, status2), titleMatch);
  }

  /** `/user/:user_id` and `/officer/:officer_id`: `q` adds the title pattern and
      a non-empty `status` an equality on the status name. */
  function OwnerCriteria(reporter: Option<Id>, officer: Option<Id>, q: string, status: string): Criteria {
    Criteria(None, reporter, officer,
             if |status| > 0 then Some(status) else None,
             if |q| > 0 then Some(q) else None)
  }

  /** Counting and paging shared by the two owner queries; an empty page is a
      404, even when `count` is not zero. */
  function PagedOrNotFound(found: seq<Report>, limit: nat, skip: nat): (res: QueryResult)
    ensures res.count == |found| && |res.page| <= res.count
    ensures res.page == Page(found, limit, skip)
    ensures forall r :: r in res.page ==> r in found
    ensures res.outcome == (if res.page == [] then NotFound else Ok)
  {
    var page := Page(found, limit, skip);
    assert forall r :: r in page ==> r in found by {
      forall r | r in page ensures r in found {
        var i :| 0 <= i < |page| && page[i] == r;
        assert found[skip + i] == r;
      }
    }
    QueryResult(if page == [] then NotFound else Ok, |found|, page)
  }

  function ReportsOfUser(reports: seq<Report>, userId: Id, q: string, status: string,
                         limit: nat, skip: nat, titleMatch: (string, string) -> bool): (res: QueryResult)
    ensures forall r :: r in res.page ==>
      && r in reports && r.reporter == Some(userId)
      && (|status| > 0 ==> StatusName(r.status) == status)
      && (|q| > 0 ==> titleMatch(r.title, q))
    ensures res.count == |Find(reports, OwnerCriteria(Some(userId), None, q, status), titleMatch)|
    ensures res.page == Page(Find(reports, OwnerCriteria(Some(userId), None, q, status), titleMatch), limit, skip)
    ensures |res.page| <= res.count
    ensures res.outcome == (if res.page == [] then NotFound else Ok)
  {
    PagedOrNotFound(Find(reports, OwnerCriteria(Some(userId), None, q, status), titleMatch), limit, skip)
  }

  function ReportsOfOfficer(reports: seq<Report>, officerId: Id, q: string, status: string,
                            limit: nat, skip: nat, titleMatch: (string, string) -> bool): (res: QueryResult)
    ensures forall r :: r in res.page ==>
      && r in reports && r.officer == Some(officerId)
      && (|status| > 0 ==> StatusName(r.status) == status)
      && (|q| > 0 ==> titleMatch(r.title, q))
    ensures res.count == |Find(reports, OwnerCriteria(None, Some(officerId), q, status), titleMatch)|
    ensures res.page == Page(Find(reports, OwnerCriteria(None, Some(officerId), q, status), titleMatch), limit, skip)
    ensures |res.page| <= res.count
    ensures res.outcome == (if res.page == [] then NotFound else Ok)
  {
    PagedOrNotFound(Find(reports, OwnerCriteria(None, Some(officerId), q, status), titleMatch), limit, skip)
  }

  /** Paging never changes the count: `count` is over all matches. */
  lemma OwnerCountIgnoresPaging(reports: seq<Report>, userId: Id, q: string, status: string,
                                limit1: nat, skip1: nat, limit2: nat, skip2: nat, titleMatch: (string, string) -> bool)
    ensures ReportsOfUser(reports, userId, q, status, limit1, skip1, titleMatch).count
         == ReportsOfUser(reports, userId, q, status, limit2, skip2, titleMatch).count
  {
  }

  /** A user with a matching report still gets 404 when `skip` passes all of
      them: the answer depends on the page, not on the count. */
  lemma UserQueryNotFoundPastLastPage(reports: seq<Report>, userId: Id, q: string, status: string,
                                      limit: nat, skip: nat, titleMatch: (string, string) -> bool)
    requires skip >= |reports|
    ensures ReportsOfUser(reports, userId, q, status, limit, skip, titleMatch).outcome == NotFound
  {
  }

  // ---------------------------------------------------------------------------
  // GET /:id: one report with every reference populated
  // ---------------------------------------------------------------------------

  datatype UserSummary = UserSummary(id: Id, name: string)
  datatype UnitWorkSummary = UnitWorkSummary(id: Id, name: string, image: seq<string>)
  datatype OfficerReportSummary = OfficerReportSummary(message: string, imageReport: seq<string>)
  datatype CommentSummary = CommentSummary(message: string, name: string, createdAt: nat)

  /** A report with its references replaced by the documents they name; a
      reference that names nothing populates to null (`None`), and a comment id
      that names nothing is dropped from the list. */
  datatype ReportDetail = ReportDetail(
    report: Report,
    reporter: Option<UserSummary>,
    category: Option<CategoryView>,
    unitWork: Option<UnitWorkSummary>,
    officer: Option<UserSummary>,
    officerReport: Option<OfficerReportSummary>,
    comments: seq<CommentSummary>)

  function PopulateUser(users: seq<User>, ref: Option<Id>): (u: Option<UserSummary>)
    ensures u.None? <==> ref.None? || Fresh(users, UserKey, ref.value)
    ensures u.Some? ==> u.value.id == ref.value && exists x :: x in users && x.id == ref.value && x.name == u.value.name
  {
    if ref.None? then None
    else match IndexOf(users, UserKey, ref.value)
      case None => None
      case Some(i) => assert users[i] in users; Some(UserSummary(users[i].id, users[i].name))
  }

  function PopulateUnitWork(unitWorks: seq<UnitWork>, ref: Option<Id>): (w: Option<UnitWorkSummary>)
    ensures w.None? <==> ref.None? || Fresh(unitWorks, UnitWorkKey, ref.value)
    ensures w.Some? ==> w.value.id == ref.value
    ensures w.Some? ==> exists x :: x in unitWorks && x.id == ref.value && w.value == UnitWorkSummary(x.id, x.name, x.image)
  {
    if ref.None? then None
    else match IndexOf(unitWorks, UnitWorkKey, ref.value)
      case None => None
      case Some(i) => assert unitWorks[i] in unitWorks; Some(UnitWorkSummary(unitWorks[i].id, unitWorks[i].name, unitWorks[i].image))
  }

  function PopulateOfficerReport(officerReports: seq<OfficerReport>, ref: Option<Id>): (o: Option<OfficerReportSummary>)
    ensures o.None? <==> ref.None? || Fresh(officerReports, OfficerReportKey, ref.value)
    ensures o.Some? ==>
      exists x :: x in officerReports && x.id == ref.value && o.value == OfficerReportSummary(x.message, x.imageReport)
  {
    if ref.None? then None
    else match IndexOf(officerReports, OfficerReportKey, ref.value)
      case None => None
      case Some(i) =>
        assert officerReports[i] in officerReports;
        Some(OfficerReportSummary(officerReports[i].message, officerReports[i].imageReport))
  }

  function CommentView(c: Comment): CommentSummary {
    CommentSummary(c.message, c.name, c.createdAt)
  }

  /** Populating the comment list: each id that names a comment, in list order.
      When every id resolves, the i-th entry is the comment the i-th id names;
      a single id gives its comment, or nothing when it dangles; and
      `PopulateCommentsAppend` says the list is populated piece by piece in
      order, which together fix the result. */
  function PopulateComments(comments: seq<Comment>, ids: seq<Id>): (cs: seq<CommentSummary>)
    ensures |cs| <= |ids|
    ensures (forall k :: k in ids ==> !Fresh(comments, CommentKey, k)) ==>
      && |cs| == |ids|
      && forall i :: 0 <= i < |ids| ==> exists x :: x in comments && x.id == ids[i] && cs[i] == CommentView(x)
    ensures forall c :: c in cs ==> exists x :: x in comments && x.id in ids && c == CommentView(x)
    ensures |ids| == 1 && Fresh(comments, CommentKey, ids[0]) ==> cs == []
    ensures |ids| == 1 && !Fresh(comments, CommentKey, ids[0]) ==>
      exists x :: x in comments && x.id == ids[0] && cs == [CommentView(x)]
  {
    if ids == [] then []
    else
      var rest := PopulateComments(comments, ids[1..]);
      assert forall k :: k in ids[1..] ==> k in ids;
      match IndexOf(comments, CommentKey, ids[0])
      case None => rest
      case Some(i) => assert comments[i] in comments; [CommentView(comments[i])] + rest
  }

  /** Populating a list is populating its two halves, one after the other: the
      comments keep the order of their ids. */
  lemma {:induction false} PopulateCommentsAppend(comments: seq<Comment>, ids1: seq<Id>, ids2: seq<Id>)
    ensures PopulateComments(comments, ids1 + ids2)
         == PopulateComments(comments, ids1) + PopulateComments(comments, ids2)
  {
    if ids1 != [] {
      assert (ids1 + ids2)[1..] == ids1[1..] + ids2;
      PopulateCommentsAppend(comments, ids1[1..], ids2);
    } else {
      assert ids1 + ids2 == ids2;
    }
  }

  /** `GET /:id`: 404 exactly when no report has the id; otherwise that report
      with its references populated. */
  function GetReport(reports: seq<Report>, users: seq<User>, categories: seq<Category>, unitWorks: seq<UnitWork>,
                     comments: seq<Comment>, officerReports: seq<OfficerReport>, id: Id): (res: (Outcome, Option<ReportDetail>))
    ensures res.0 == NotFound <==> Fresh(reports, ReportKey, id)
    ensures res.0 == Ok <==> res.1.Some?
    ensures res.0 == Ok || res.0 == NotFound
    ensures res.1.Some? ==>
      var d := res.1.value;
      && d.report in reports && d.report.id == id
      && d.reporter == PopulateUser(users, d.report.reporter)
      && d.officer == PopulateUser(users, d.report.officer)
      && d.category == PopulateCategory(categories, d.report.category)
      && d.unitWork == PopulateUnitWork(unitWorks, d.report.unitWorks)
      && d.officerReport == PopulateOfficerReport(officerReports, d.report.officerReport)
      && d.comments == PopulateComments(comments, d.report.comment)
  {
    match IndexOf(reports, ReportKey, id)
    case None => (NotFound, None)
    case Some(i) =>
      var r := reports[i];
      assert r in reports;
      (Ok, Some(ReportDetail(
        r,
        PopulateUser(users, r.reporter),
        PopulateCategory(categories, r.category),
        PopulateUnitWork(unitWorks, r.unitWorks),
        PopulateUser(users, r.officer),
        PopulateOfficerReport(officerReports, r.officerReport),
        PopulateComments(comments, r.comment))))
  }
}
