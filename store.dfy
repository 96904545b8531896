/** The document store the handlers share: one collection per model, each in
    natural (insertion) order. */
module Store {
  import opened Common
  import opened Collections
  import opened Records

  class Db {
    var reports: seq<Report>
    var users: seq<User>
    var unitWorks: seq<UnitWork>
    var categories: seq<Category>
    var comments: seq<Comment>
    var officerReports: seq<OfficerReport>

    /** Every collection has a unique `_id` index, and every report and user
        satisfies its schema's bounds (documents only enter through a validating
        save, and no handler updates a bounded field). */
    ghost predicate Valid()
      reads this
    {
      && UniqueBy(reports, ReportKey)
      && UniqueBy(users, UserKey)
      && UniqueBy(unitWorks, UnitWorkKey)
      && UniqueBy(categories, CategoryKey)
      && UniqueBy(comments, CommentKey)
      && UniqueBy(officerReports, OfficerReportKey)
      && (forall r :: r in reports ==> ReportValid(r))
      && (forall u :: u in users ==> UserValid(u))
    }

    /** An empty store. */
    constructor ()
      ensures Valid()
      ensures reports == [] && users == [] && unitWorks == []
      ensures categories == [] && comments == [] && officerReports == []
    {
      reports, users, unitWorks := [], [], [];
      categories, comments, officerReports := [], [], [];
    }
  }
}
