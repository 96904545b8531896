/** The unit-of-work handlers (controller/unitWork.js): create, list, and a
    delete that cascades to the users and reports of the unit. */
module UnitWorkController {
  import opened Common
  import opened Collections
  import opened Validation
  import opened Records
  import Store

  datatype UnitWorkBody = UnitWorkBody(name: Value, image: Value, detail: Value)

  /** The create schema: name and detail non-empty strings of at most 255
      characters, image an optional array of strings. */
  predicate UnitWorkSchemaOk(b: UnitWorkBody) {
    && StringField(b.name, 1, Some(255))
    && StringArrayField(b.image, true, true)
    && StringField(b.detail, 1, Some(255))
  }

  /** POST /unitWork: a body that fails the schema is answered 400 and adds
      nothing; otherwise the unit is appended under a fresh id and returned. */
  method CreateUnitWork(db: Store.Db, body: UnitWorkBody, newId: Id, now: nat)
      returns (outcome: Outcome, created: Option<UnitWork>)
    requires db.Valid()
    requires Fresh(db.unitWorks, UnitWorkKey, newId)
    modifies db`unitWorks
    ensures db.Valid()
    ensures outcome == Ok <==> UnitWorkSchemaOk(body)
    ensures outcome != Ok ==> outcome == BadRequest && created == None && db.unitWorks == old(db.unitWorks)
    ensures outcome == Ok ==>
      && created == Some(UnitWork(newId, body.name.s, OptionalStrings(body.image), body.detail.s, now))
      && db.unitWorks == old(db.unitWorks) + [created.value]
  {
    if !UnitWorkSchemaOk(body) {
      return BadRequest, None;
    }
    var unit := UnitWork(newId, body.name.s, OptionalStrings(body.image), body.detail.s, now);
    AppendFreshKeepsUnique(db.unitWorks, UnitWorkKey, unit);
    db.unitWorks := db.unitWorks + [unit];
    outcome, created := Ok, Some(unit);
  }

  /** GET /unitWork/list: every unit, newest first (answered 201). */
  function ListUnitWorks(unitWorks: seq<UnitWork>): (out: seq<UnitWork>)
    ensures SortedDesc(out, UnitWorkCreatedAt)
    ensures multiset(out) == multiset(unitWorks)
  {
    SortDesc(unitWorks, UnitWorkCreatedAt)
  }

  /** DELETE /unitWork/:id. An absent unit is answered 404 and nothing is
      removed. Otherwise every user of the unit, every report routed to it and
      the unit itself are removed, in that order; users and reports of another
      unit, or of none, stay, and the removed users and reports can no longer be
      found by id. */
  method DeleteUnitWork(db: Store.Db, id: Id) returns (outcome: Outcome)
    requires db.Valid()
    modifies db`users, db`reports, db`unitWorks
    ensures db.Valid()
    ensures outcome == NotFound <==> Fresh(old(db.unitWorks), UnitWorkKey, id)
    ensures outcome != NotFound ==> outcome == Ok
    ensures outcome == NotFound ==>
      db.users == old(db.users) && db.reports == old(db.reports) && db.unitWorks == old(db.unitWorks)
    ensures outcome == Ok ==>
      && db.users == Without(old(db.users), UserUnitWork, Some(id))
      && db.reports == Without(old(db.reports), ReportUnitWork, Some(id))
      && db.unitWorks == Without(old(db.unitWorks), UnitWorkKey, id)
      && |db.unitWorks| == |old(db.unitWorks)| - 1
    ensures outcome == Ok ==>
      && (forall u :: u in old(db.users) && u.unitWork == Some(id) ==> Fresh(db.users, UserKey, u.id))
      && (forall r :: r in old(db.reports) && r.unitWorks == Some(id) ==> Fresh(db.reports, ReportKey, r.id))
  {
    if IndexOf(db.unitWorks, UnitWorkKey, id).None? {
      return NotFound;
    }
    forall u | u in db.users && u.unitWork == Some(id)
      ensures Fresh(Without(db.users, UserUnitWork, Some(id)), UserKey, u.id)
    {
      WithoutDropsMatchedIds(db.users, UserUnitWork, Some(id), UserKey, u);
    }
    forall r | r in db.reports && r.unitWorks == Some(id)
      ensures Fresh(Without(db.reports, ReportUnitWork, Some(id)), ReportKey, r.id)
    {
      WithoutDropsMatchedIds(db.reports, ReportUnitWork, Some(id), ReportKey, r);
    }
    WithoutKeepsUnique(db.users, UserUnitWork, Some(id), UserKey);
    db.users := Without(db.users, UserUnitWork, Some(id));
    WithoutKeepsUnique(db.reports, ReportUnitWork, Some(id), ReportKey);
    db.reports := Without(db.reports, ReportUnitWork, Some(id));
    WithoutKeepsUnique(db.unitWorks, UnitWorkKey, id, UnitWorkKey);
    WithoutPresentRemovesOne(db.unitWorks, UnitWorkKey, id);
    db.unitWorks := Without(db.unitWorks, UnitWorkKey, id);
    outcome := Ok;
  }

  /** The cascade splits each collection: what it removes (the unit's users or
      reports) and what it keeps together make up the collection, so nothing
      else is lost. */
  lemma CascadeLosesNothingElse(users: seq<User>, reports: seq<Report>, id: Id)
    ensures multiset(Where(users, UserUnitWork, Some(id))) + multiset(Without(users, UserUnitWork, Some(id)))
      == multiset(users)
    ensures multiset(Where(reports, ReportUnitWork, Some(id))) + multiset(Without(reports, ReportUnitWork, Some(id)))
      == multiset(reports)
  {
    WhereWithoutPartition(users, UserUnitWork, Some(id));
    WhereWithoutPartition(reports, ReportUnitWork, Some(id));
  }
}
