# ResolusiKaos report backend: a verified model

ResolusiKaos lets citizens file reports of public problems. An administrator routes each report to a
unit of work, which puts it in process (`Diproses`). An officer then files a resolution, which marks it
done (`Selesai`). Users comment on reports, and a dashboard counts reports per status and shows
resolved ones on a map.

This project models, in Dafny, the handlers that make up that lifecycle and the document schemas
beneath them:

- the report handlers: create, list, the three filtered queries, get by id, assign, officer completion
  and delete;
- the dashboard;
- unit-of-work create, list and cascading delete;
- comments;
- categories;
- the second completion handler;
- the report and user schemas.

The document store is a class, `Store.Db`, holding one sequence per collection in insertion order. Its
invariant `Valid` says that:

- ids are unique in every collection;
- every report and user meets its schema's bounds.

Each handler that changes the store is a method that takes it. The method states the outcome it answers, the
new contents of what it changes, and that `Valid` is kept. Handlers that only read are functions of
the collections.

Each handler's answer is an `Outcome`:

| Outcome | HTTP status |
|---|---|
| `Ok` | 200 |
| `Created` | 201 |
| `BadRequest` | 400 |
| `Unauthorized` | 401 |
| `Forbidden` | 403 |
| `NotFound` | 404 |
| `InternalError` | 500 |

Request bodies are `Validation.Value`s, and a missing field is `Null`. The validator's rules are
predicates on them.

The authenticated caller is a given `Caller(id, role, name)`.

New document ids and creation times are parameters, and a new id is required to be fresh.

Three behaviours of the source are modelled as written:

- **Assign never answers 400.** The assign handler tests the `error` property of the validator's
  result. That result is `true` or a list, so the property never exists and the 400 branch is dead
  (`ReportController.AssignOutcome`). A unit-work id the schema rejects goes on to the update. An
  empty string fails the update's cast and is answered 500
  (`ReportController.AssignLetsEmptyUnitWorkThrough`). A null or missing one passes the cast, so the
  answer is 200, or 404 when no report has the id
  (`ReportController.AssignLetsMissingUnitWorkThrough`). The report is then put in process with no
  unit of work, and no unit-work query lists it (`ReportController.AssignedWithoutUnitIsInNoUnitQuery`).
- **The list looks up unit-work and officer-report references among users.** It resolves both with the
  user lookup, so such references normally show as `Unknown`
  (`ReportQueries.ListedUnitWorkIsLookedUpAmongUsers`).
- **Officer completion succeeds even when no report matched.** It answers 200 whenever the id is well
  formed, whether or not a report has that id. The outcome is a function of the caller and the body
  only (`ReportController.DoneOutcome`), and on a miss only the new officer report is stored.

## Model

| member | source | states |
|---|---|---|
| Collections.IndexOf | controller/report.js:444 | `findById`: the first position holding the id; absent exactly when no document has it |
| Collections.IndexOfUnique | controller/report.js:444-464 | under the unique id index, the document found is the only one with that id |
| Collections.Where | controller/report.js:154 | `find` on one field: exactly the documents with that value |
| Collections.Without | controller/unitWork.js:102-105 | `deleteMany` on one field: exactly the documents without that value remain |
| Collections.WhereWithoutPartition | controller/unitWork.js:102-105 | what `deleteMany` removes and what it keeps together make up the collection |
| Collections.WithoutFresh | controller/unitWork.js:102-105 | removing by a value nobody has changes nothing |
| Collections.WithoutPresentRemovesOne | controller/report.js:464 | `findByIdAndDelete` of a present id removes exactly one document |
| Collections.WithoutKeepsUnique | controller/unitWork.js:102-108 | deletions never break the unique id index |
| Collections.WithoutDropsMatchedIds | controller/unitWork.js:102-105 | a document `deleteMany` removed can no longer be found by id |
| Collections.AppendFreshKeepsUnique | controller/comment.js:63 | saving a document under a fresh id keeps ids unique |
| Collections.UpdateKeepsUnique | controller/report.js:209-213 | updating a document in place keeps ids unique |
| Collections.InsertDesc | controller/category.js:60-62 | inserting into a newest-first sequence keeps it sorted and adds exactly that document |
| Collections.SortDesc | controller/category.js:60-62 | `sort({createdAt: -1})`: sorted newest first and a permutation of the collection |
| Collections.SortDescSameElements | controller/report.js:77 | sorting keeps exactly the same documents |
| Collections.Page | controller/report.js:155-157 | `skip`/`limit`: the window starting at `skip`, at most `limit` long, as long as the matches allow; with no limit, everything from `skip` on |
| Validation.Strings | controller/report.js:25 | the strings of an array that passed `items: "string"`, item for item |
| Validation.OptionalStrings | controller/report.js:25 | an absent optional array stores as the empty list, a present one item for item |
| Records.ParseStatus | model/reports.js:28-31 | the status enum accepts exactly the four names |
| Records.StatusNameInjective | model/reports.js:30 | distinct statuses have distinct names |
| Records.NewReport | model/reports.js:4-63 | a report saves iff title is 5..50, description at least 5 and address at least 3 long and any status is in the enum; status defaults to `Menunggu`; references other than category and reporter start unset, comments empty |
| Records.ParseRole | model/user.js:32-36 | the role enum accepts exactly user, admin, officer, superadmin |
| Records.NewUser | model/user.js:9-47 | a user saves iff name is 3..50, email 1..50 and password 1..255 long and any role is in the enum; role defaults to `user` |
| Dashboard.CountStatus | controller/dasboard.js:20-26 | a status count never exceeds the number of reports |
| Dashboard.CountStatusIsFindCount | controller/dasboard.js:20-26 | the grouped count of a status equals the number of reports a `find` on that status returns |
| Dashboard.StatusCountsSumToTotal | controller/dasboard.js:20-37 | the four status counts add up to the number of reports |
| Dashboard.GroupByStatus | controller/dasboard.js:20-26 | `$group` by status: a status is present iff some report has it, with its count |
| Dashboard.CountStatusAppend | controller/dasboard.js:20-26 | a report added counts once, under its own status |
| Dashboard.CountStatusUpdate | controller/dasboard.js:20-26 | replacing a report moves one count from its old status to its new one |
| Dashboard.StatusSummary | controller/dasboard.js:20-63 | `/summary` has exactly the keys Menunggu, Diproses, Selesai, Ditolak, each the count of its status |
| Dashboard.SummaryOfNoReports | controller/dasboard.js:48-57 | with no reports every key is present with 0 |
| Dashboard.SummaryAddsUpToTotal | controller/dasboard.js:20-63 | the summary's four values add up to the number of reports |
| Dashboard.Coordinates | controller/dasboard.js:82-85 | `/coordinates`: as many markers as reports not `Menunggu`; one report gives its title/address/longitude/latitude marker exactly when it is not `Menunggu` |
| Dashboard.CoordinatesMembers | controller/dasboard.js:82-85 | every marker is that of a report not `Menunggu`, and every such report has its marker |
| Dashboard.CoordinatesAppend | controller/dasboard.js:82-85 | the markers of two runs of reports are those of the first followed by those of the second; with the singleton case, one marker per report not `Menunggu`, in collection order |
| Dashboard.CoordinatesMatchSummary | controller/dasboard.js:16-96 | the map shows as many markers as the summary counts reports in process, done or rejected |
| ReportQueries.ResolveUser | controller/report.js:85-116 | a reference resolves to the user's id and name, or to `{id: null, name: 'Unknown'}` when unset or dangling |
| ReportQueries.PopulateCategory | controller/report.js:77-80 | the category's id, name and image, or null when it names no category |
| ReportQueries.EnrichAll | controller/report.js:83-122 | the contract of the shaping `Enrich` of one report, stated over the list: one entry per report, in order, carrying its id, title, status, comments and time; each reference shows `{id: null, name: 'Unknown'}` when unset or naming no user, and the reporter and officer otherwise carry their own id |
| ReportQueries.ListReports | controller/report.js:73-128 | `/list`: one entry per report, newest first, every report shaped and nothing else |
| ReportQueries.SortedEnrichment | controller/report.js:77-122 | shaping the sorted reports keeps their order and exactly the reports |
| ReportQueries.ListedUnitWorkIsLookedUpAmongUsers | controller/report.js:86-87 | an assigned report whose unit work exists but is no user lists its unit work as `Unknown` |
| ReportQueries.Find | controller/report.js:154 | `find(criteria)`: exactly the reports matching every criterion, each as often as in the collection |
| ReportQueries.FindSameMatches | controller/report.js:144-155 | criteria no report tells apart find the same reports |
| ReportQueries.ReportsOfUnitWork | controller/report.js:137-175 | `/unit-work/:id` always answers 200 with the `skip`/`limit` window of the matches; every report returned has `unitWorks = id` and status `Diproses`; count is over all matches |
| ReportQueries.UnitWorkQueryIgnoresStatus | controller/report.js:142-153 | the `status` parameter never changes the unit-work query's result |
| ReportQueries.PagedOrNotFound | controller/report.js:264-291 | count over all matches, the `skip`/`limit` window of them, 404 exactly when the window is empty |
| ReportQueries.ReportsOfUser | controller/report.js:240-291 | `/user/:user_id`: the `skip`/`limit` window of the matches; every report returned has that reporter, the status if one is given, and a matching title if `q` is given; 404 on an empty page |
| ReportQueries.ReportsOfOfficer | controller/report.js:478-527 | `/officer/:officer_id`: as for the user query, with `officer` in place of `reporter` |
| ReportQueries.OwnerCountIgnoresPaging | controller/report.js:264-268 | `count` does not depend on `limit` or `skip` |
| ReportQueries.UserQueryNotFoundPastLastPage | controller/report.js:279-291 | a `skip` past all reports answers 404 whatever the count |
| ReportQueries.PopulateUser | controller/report.js:317-320 | a user reference populates to that user's id and name, or null |
| ReportQueries.PopulateUnitWork | controller/report.js:325-328 | a unit-work reference populates to that unit's id, name and image, or null exactly when unset or dangling |
| ReportQueries.PopulateOfficerReport | controller/report.js:333-336 | an officer-report reference populates to that resolution's message and images, or null exactly when unset or dangling |
| ReportQueries.PopulateComments | controller/report.js:313-316 | the comment list populates to the comments it names; when all resolve, the i-th entry is the i-th id's comment; one id gives its comment or nothing |
| ReportQueries.PopulateCommentsAppend | controller/report.js:313-316 | populating is done piece by piece in list order, so dangling ids drop out and the rest keep their order |
| ReportQueries.GetReport | controller/report.js:304-345 | `GET /:id`: 404 exactly when no report has the id, else that report with every reference populated |
| ReportController.Create | controller/report.js:20-65 | 400 iff the body fails the schema; 500 when the report schema refuses the document or the category does not cast to an ObjectId; else the new report, reported by the caller, with the body's fields and the defaults |
| ReportController.CreateIgnoresBodyReporter | controller/report.js:47-51 | a `reporter` in the body makes no difference |
| ReportController.CreateCountsAsWaiting | controller/report.js:50-51 | a report created without a status adds one to `Menunggu` and to no other count |
| ReportController.CreateReport | controller/report.js:16-70 | appends exactly the accepted report; on any rejection the collection is unchanged |
| ReportController.UnitWorkRef | controller/report.js:209-213 | the reference the update writes: unset exactly for a null or missing unit-work id, else that id, which casts to an ObjectId |
| ReportController.AssignOutcome | controller/report.js:188-234 | assign answers 500 iff the unit-work id is neither null/missing nor a string that casts to an ObjectId, else 404 iff no report has the id, else 200; never 400 |
| ReportController.AssignLetsEmptyUnitWorkThrough | controller/report.js:188-234 | an empty unit-work id fails the schema, yet is answered 500 by the update's cast instead of 400 |
| ReportController.AssignLetsMissingUnitWorkThrough | controller/report.js:188-227 | a null or missing unit-work id fails the schema, yet is answered 200 (404 when no report has the id) and writes no unit of work |
| ReportController.AssignedWithoutUnitIsInNoUnitQuery | controller/report.js:138-158 | a report assigned with no unit of work is in process, yet is on no page of any unit-work query |
| ReportController.AssignMovesToInProcess | controller/report.js:209-213 | assigning moves the report's count from its old status to `Diproses` |
| ReportController.Assign | controller/report.js:183-234 | sets exactly `unitWorks` (unset for a null or missing id) and status `Diproses` on the report with the id, from any status; on 404 or 500 nothing changes |
| ReportController.DoneOutcome | controller/report.js:365-420 | 400 on a bad body, 403 for role `user`, 404 for an id that is not 24 hex digits, else 200, whether or not a report has the id |
| ReportController.ResolveMovesToDone | controller/report.js:402-406 | completing moves the report's count from its old status to `Selesai` |
| ReportController.CompleteByOfficer | controller/report.js:360-420 | on 200 one officer report by the caller is stored, and the report with the id, if any, gets it, the officer and status `Selesai`; otherwise nothing changes |
| ReportController.DeleteOutcomeOfReport | controller/report.js:444-462 | the contract of the decision `DeleteOutcome`: delete answers 404 iff absent; 200 iff the caller is admin or the report's reporter; 403 for another's report; 500 for a report without reporter |
| ReportController.DeleteReport | controller/report.js:435-470 | on 200 exactly the report with the id is removed and can no longer be found; otherwise nothing changes |
| UnitWorkController.CreateUnitWork | controller/unitWork.js:16-58 | 400 and no change iff the body fails the schema; else the unit is appended and returned |
| UnitWorkController.ListUnitWorks | controller/unitWork.js:65-77 | every unit, newest first |
| UnitWorkController.DeleteUnitWork | controller/unitWork.js:85-113 | 404 and no change when absent; else the unit, its users and its reports are removed, all others stay, and the removed ones can no longer be found |
| UnitWorkController.CascadeLosesNothingElse | controller/unitWork.js:102-105 | what the cascade removes plus what it keeps is the whole collection |
| CommentController.CommentOutcome | controller/comment.js:20-60 | 400 on a bad body, 401 without a caller, 404 when no report has the id, else 201, in that order |
| CommentController.Commented | controller/comment.js:62 | the new comment id goes last, earlier ids keep their order, nothing else about the report changes |
| CommentController.CreateComment | controller/comment.js:16-71 | on 201 the comment with the caller's name and the message is saved and its id appended to that report; otherwise nothing changes |
| CategoryController.CreateCategory | controller/category.js:11-48 | 400 and no change iff name is under 3 characters or image is empty; else 201 with the new category |
| CategoryController.ListCategories | controller/category.js:56-67 | every category, newest first |
| CategoryController.DeleteCategory | controller/category.js:75-100 | 404 and no change when absent; else exactly that category is removed; reports are left as they are |
| OfficerReportController.ResolutionOutcome | controller/officerReport.js:18-73 | schema first (400), then role `user` (403), then the id: absent 500, malformed 404, else 200 |
| OfficerReportController.AsWrittenNeverResolves | controller/officerReport.js:15-48 | as written, every request is answered 400, 403 or 500 |
| OfficerReportController.AsWrittenOfficerGetsServerError | controller/officerReport.js:15-48 | a well-formed officer request is 500 as written and 200 with the id in the route |
| OfficerReportController.ResolveReport | controller/officerReport.js:47-66 | corrected: on 200 one resolution by the caller is stored and the report with the id gets it, the officer and `Selesai`; otherwise nothing changes |

## Left out

- Ids are compared as strings. The document store compares the ObjectIds they cast to, so another spelling of the same ObjectId (upper-case hexadecimal digits, or the 12-byte form) names the document in the source and no document in the model. This affects every lookup, delete and update by id, including officer completion, which accepts upper-case digits and then resolves no report in the model.
- Malformed ids used for a lookup: the document store rejects an id that is not an ObjectId with a cast error, which the handlers answer 500. The model treats such an id as naming no document. Ids that are written into a reference (the unit-work id of assign, the category of a new report) are cast, and a failed cast is answered 500.
- The ObjectId cast accepts 24 hexadecimal digits or a 12-byte string. The model counts 12 characters, which differs for strings with characters outside ASCII.
- Length bounds count characters (Unicode scalar values), in the validator's `empty`/`min`/`max` and in the schemas' `minlength`/`maxlength` alike. The source counts UTF-16 code units, which differ for characters above U+FFFF: 26 such characters are a 52-unit title the report schema refuses, and the model accepts it.
- ReportController.Assign: a unit-work id that is neither null nor a string is taken to fail the cast (500). The source casts it through its text form, so a number of 12 digits, for instance, would cast.
- ReportController.Assign: `report_id` is taken to be a string. A null or missing one, which the source hands to the update's filter as it is, is not modelled.
- The list handler's `Promise.all` is modelled as a sequential map.
- Express routing, the authentication middleware, tokens and the JSON envelopes are not modelled. Only the outcome and the change to the store are.
- Password hashing, the user `guid` and `user_id` defaults, the `token` list, and ObjectId and timestamp generation are not modelled. Ids and times are parameters.
- model/category.js, model/comment.js, model/unitWork.js and model/officerReport.js are not part of this model. Their saves are assumed to succeed. An officer report's image is stored as a list: the one string of controller/officerReport.js becomes a one-element list.
- The fields a new officer report copies from the body other than `message` and `imageReport` are not modelled. The same goes for fields other than `reporter` and `status` that a create body passes through.
- `parseInt` of `limit` and `skip` is not modelled. Both are natural numbers, and a `limit` of 0 means no limit.
- The case-insensitive title search is an abstract predicate `titleMatch`.
- The field selections of the unit-work, user and officer queries are not modelled. Each returns whole reports.
- The order among documents with equal `createdAt` after sorting is not modelled. Only the newest-first order and the permutation are stated.
- ReportController.Create: a status in the body that is not a string is answered 500, like a status outside the enum. That is what a failed cast gives, and the model does not tell the two errors apart.
- ReportController.Create: an explicit `status: null` in the body is read like an absent status, so the model gives `Menunggu`. In the source the default applies only to an absent field, and null is either saved as no status or refused. Reports have no null status in this model.
- ReportController.Create: likewise an explicit `imageReport: null`, which the optional rule lets through, is read like an absent array and stored as `[]`. The source applies the array default only to an absent field and saves `imageReport: null`. Reports have no null image list in this model.
- UnitWorkController.ListUnitWorks: answers 201 in the source, as a constant status outside the function.
- The dashboard endpoints are functions of the report collection, so they change nothing by construction. No separate statement says so.
- The routing half of the officerReport.js finding is not modelled. The path "report" lacks its leading slash, so no request path reaches the handler at all.

## Findings

| source | as written | input that shows it | evidently intended | confidence | as-written member | corrected member |
|---|---|---|---|---|---|---|
| controller/officerReport.js:15-48 | The route path is "report", with no `:id`. `req.params.id` is therefore undefined, and `id.match(...)` throws a TypeError. That error is not a validation error, so it is passed on and answered 500. The path also lacks its leading slash. No request completes a report. | An officer posting `{message: "Jalan sudah diperbaiki", imageReport: "after.jpg"}` | The route "/report/:id": a 24-hex id files the resolution and marks the report `Selesai` | not executed | OfficerReportController.AsWrittenOfficerGetsServerError | OfficerReportController.ResolveReport |
