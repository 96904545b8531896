/** The category handlers (controller/category.js): create, list and delete.
    Delete removes the category alone; reports that name it keep the
    reference. */
module CategoryController {
  import opened Common
  import opened Collections
  import opened Validation
  import opened Records
  import Store

  datatype CategoryBody = CategoryBody(name: Value, image: Value)

  /** The create schema: a name of at least 3 characters and a non-empty image. */
  predicate CategorySchemaOk(b: CategoryBody) {
    StringField(b.name, 3, None) && StringField(b.image, 1, None)
  }

  /** POST /category: 400 and no change on a bad body; otherwise 201 with the
      new category, appended under a fresh id. */
  method CreateCategory(db: Store.Db, body: CategoryBody, newId: Id, now: nat)
      returns (outcome: Outcome, created: Option<Category>)
    requires db.Valid()
    requires Fresh(db.categories, CategoryKey, newId)
    modifies db`categories
    ensures db.Valid()
    ensures outcome == Created <==> CategorySchemaOk(body)
    ensures outcome != Created ==> outcome == BadRequest && created == None && db.categories == old(db.categories)
    ensures outcome == Created ==>
      && created == Some(Category(newId, body.name.s, body.image.s, now))
      && db.categories == old(db.categories) + [created.value]
  {
    if !CategorySchemaOk(body) {
      return BadRequest, None;
    }
    var category := Category(newId, body.name.s, body.image.s, now);
    AppendFreshKeepsUnique(db.categories, CategoryKey, category);
    db.categories := db.categories + [category];
    outcome, created := Created, Some(category);
  }

  /** GET /category/list: every category, newest first. */
  function ListCategories(categories: seq<Category>): (out: seq<Category>)
    ensures SortedDesc(out, CategoryCreatedAt)
    ensures multiset(out) == multiset(categories)
  {
    SortDesc(categories, CategoryCreatedAt)
  }

  /** DELETE /category/:id: 404 and no change when no category has the id;
      otherwise that category, and only it, is removed. Reports are neither
      checked nor changed, so a report may go on naming a removed category. */
  method DeleteCategory(db: Store.Db, id: Id) returns (outcome: Outcome)
    requires db.Valid()
    modifies db`categories
    ensures db.Valid()
    ensures outcome == NotFound <==> Fresh(old(db.categories), CategoryKey, id)
    ensures outcome != NotFound ==> outcome == Ok
    ensures outcome == NotFound ==> db.categories == old(db.categories)
    ensures outcome == Ok ==>
      && db.categories == Without(old(db.categories), CategoryKey, id)
      && |db.categories| == |old(db.categories)| - 1
      && Fresh(db.categories, CategoryKey, id)
    ensures db.reports == old(db.reports)
  {
    if IndexOf(db.categories, CategoryKey, id).None? {
      return NotFound;
    }
    WithoutKeepsUnique(db.categories, CategoryKey, id, CategoryKey);
    WithoutPresentRemovesOne(db.categories, CategoryKey, id);
    db.categories := Without(db.categories, CategoryKey, id);
    outcome := Ok;
  }
}
