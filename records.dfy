/** The documents of the store. `Report` and `User` follow their schemas
    (model/reports.js, model/user.js): enums with their defaults, length bounds
    and references, stated as validity predicates and as constructors that apply
    the defaults and then validate. The other records carry the fields the
    handlers read and write. */
module Records {
  import opened Common

  // ---------------------------------------------------------------------------
  // Report (model/reports.js)
  // ---------------------------------------------------------------------------

  /** The report status enum: waiting, in process, done, rejected. */
  datatype Status = Menunggu | Diproses | Selesai | Ditolak

  /** The status as it is stored and as query parameters name it. */
  function StatusName(s: Status): string {
    match s
    case Menunggu => "Menunggu"
    case Diproses => "Diproses"
    case Selesai => "Selesai"
    case Ditolak => "Ditolak"
  }

  /** Casting a string to the status enum; `None` when the enum validator
      rejects it. */
  function ParseStatus(name: string): (r: Option<Status>)
    ensures r.Some? ==> StatusName(r.value) == name
    ensures r.None? ==> forall s: Status :: StatusName(s) != name
  {
    if name == "Menunggu" then Some(Menunggu)
    else if name == "Diproses" then Some(Diproses)
    else if name == "Selesai" then Some(Selesai)
    else if name == "Ditolak" then Some(Ditolak)
    else None
  }

  /** Distinct statuses have distinct names, so a query on the name selects
      exactly one status. */
  lemma StatusNameInjective(a: Status, b: Status)
    requires StatusName(a) == StatusName(b)
    ensures a == b
  {
  }

  /** A new report waits until it is assigned. */
  const DefaultStatus: Status := Menunggu

  /** A report document. `category` is a required reference; `reporter`,
      `unitWorks`, `officerReport` and `officer` are optional references; `comment`
      is the ordered list of the report's comment ids. */
  datatype Report = Report(
    id: Id,
    title: string,
    description: string,
    address: string,
    latitude: Option<string>,
    longitude: Option<string>,
    status: Status,
    imageReport: seq<string>,
    category: Id,
    reporter: Option<Id>,
    unitWorks: Option<Id>,
    officerReport: Option<Id>,
    officer: Option<Id>,
    comment: seq<Id>,
    createdAt: nat)

  predicate TitleValid(title: string) { 5 <= |title| <= 50 }
  predicate DescriptionValid(description: string) { 5 <= |description| }
  predicate AddressValid(address: string) { 3 <= |address| }

  /** The length bounds the report schema enforces when a report is saved. */
  predicate ReportValid(r: Report) {
    TitleValid(r.title) && DescriptionValid(r.description) && AddressValid(r.address)
  }

  /** The fields a new report document is built from; `status` is the raw value
      of a status the request sets, if any. */
  datatype ReportDraft = ReportDraft(
    title: string,
    description: string,
    address: string,
    latitude: Option<string>,
    longitude: Option<string>,
    imageReport: seq<string>,
    category: Id,
    reporter: Option<Id>,
    status: Option<string>)

  /** Creating a report document: the defaults fill what the draft leaves out
      (status `Menunggu`, no assignment, no resolution, no comments), then the
      schema validates. `None` is the schema's validation error. */
  function NewReport(id: Id, createdAt: nat, d: ReportDraft): (r: Option<Report>)
    ensures r.Some? <==>
      && TitleValid(d.title) && DescriptionValid(d.description) && AddressValid(d.address)
      && (d.status.Some? ==> ParseStatus(d.status.value).Some?)
    ensures r.Some? ==> ReportValid(r.value)
    ensures r.Some? ==> r.value.status == (if d.status.None? then DefaultStatus else ParseStatus(d.status.value).value)
    ensures r.Some? ==>
      && r.value.id == id && r.value.createdAt == createdAt
      && r.value.title == d.title && r.value.description == d.description && r.value.address == d.address
      && r.value.latitude == d.latitude && r.value.longitude == d.longitude
      && r.value.imageReport == d.imageReport && r.value.category == d.category && r.value.reporter == d.reporter
    ensures r.Some? ==>
      r.value.unitWorks == None && r.value.officerReport == None && r.value.officer == None && r.value.comment == []
  {
    var status := if d.status.None? then Some(DefaultStatus) else ParseStatus(d.status.value);
    if !(TitleValid(d.title) && DescriptionValid(d.description) && AddressValid(d.address)) || status.None? then
      None
    else
      Some(Report(id, d.title, d.description, d.address, d.latitude, d.longitude, status.value,
                  d.imageReport, d.category, d.reporter, None, None, None, [], createdAt))
  }

  function ReportKey(r: Report): Id { r.id }
  function ReportUnitWork(r: Report): Option<Id> { r.unitWorks }
  function ReportCreatedAt(r: Report): int { r.createdAt }

  // ---------------------------------------------------------------------------
  // User (model/user.js)
  // ---------------------------------------------------------------------------

  /** The user role enum. */
  datatype Role = UserRole | Admin | Officer | SuperAdmin

  function RoleName(r: Role): string {
    match r
    case UserRole => "user"
    case Admin => "admin"
    case Officer => "officer"
    case SuperAdmin => "superadmin"
  }

  /** Casting a string to the role enum; `None` when the enum validator rejects
      it. */
  function ParseRole(name: string): (r: Option<Role>)
    ensures r.Some? ==> RoleName(r.value) == name
    ensures r.None? ==> forall role: Role :: RoleName(role) != name
  {
    if name == "user" then Some(UserRole)
    else if name == "admin" then Some(Admin)
    else if name == "officer" then Some(Officer)
    else if name == "superadmin" then Some(SuperAdmin)
    else None
  }

  /** A user is a plain user unless created with another role. */
  const DefaultRole: Role := UserRole

  /** A user document. `unitWork` is the optional reference the unit-work cascade
      matches on. */
  datatype User = User(
    id: Id,
    name: string,
    email: string,
    password: string,
    role: Role,
    image: Option<string>,
    unitWork: Option<Id>,
    createdAt: nat)

  predicate NameValid(name: string) { 3 <= |name| <= 50 }
  predicate EmailValid(email: string) { 1 <= |email| <= 50 }
  predicate PasswordValid(password: string) { 1 <= |password| <= 255 }

  /** The length bounds the user schema enforces (a required string may not be
      empty). */
  predicate UserValid(u: User) {
    NameValid(u.name) && EmailValid(u.email) && PasswordValid(u.password)
  }

  /** The fields a new user document is built from; `role` is the raw value of a
      role the request sets, if any. */
  datatype UserDraft = UserDraft(
    name: string,
    email: string,
    password: string,
    role: Option<string>,
    image: Option<string>,
    unitWork: Option<Id>)

  /** Creating a user document: role `user` unless one is given, then the
      schema validates. `None` is the schema's validation error. */
  function NewUser(id: Id, createdAt: nat, d: UserDraft): (r: Option<User>)
    ensures r.Some? <==>
      && NameValid(d.name) && EmailValid(d.email) && PasswordValid(d.password)
      && (d.role.Some? ==> ParseRole(d.role.value).Some?)
    ensures r.Some? ==> UserValid(r.value)
    ensures r.Some? ==> r.value.role == (if d.role.None? then DefaultRole else ParseRole(d.role.value).value)
    ensures r.Some? ==>
      && r.value.id == id && r.value.createdAt == createdAt
      && r.value.name == d.name && r.value.email == d.email && r.value.password == d.password
      && r.value.image == d.image && r.value.unitWork == d.unitWork
  {
    var role := if d.role.None? then Some(DefaultRole) else ParseRole(d.role.value);
    if !(NameValid(d.name) && EmailValid(d.email) && PasswordValid(d.password)) || role.None? then
      None
    else
      Some(User(id, d.name, d.email, d.password, role.value, d.image, d.unitWork, createdAt))
  }

  function UserKey(u: User): Id { u.id }
  function UserUnitWork(u: User): Option<Id> { u.unitWork }

  /** The authenticated caller a request carries (`req.user`). */
  datatype Caller = Caller(id: Id, role: Role, name: string)

  // ---------------------------------------------------------------------------
  // The other collections, as far as the handlers use them
  // ---------------------------------------------------------------------------

  /** A unit of work reports are routed to and users belong to. */
  datatype UnitWork = UnitWork(id: Id, name: string, image: seq<string>, detail: string, createdAt: nat)

  /** A report category. */
  datatype Category = Category(id: Id, name: string, image: string, createdAt: nat)

  /** A comment; `name` is a copy of the author's name when it was written. */
  datatype Comment = Comment(id: Id, name: string, message: string, createdAt: nat)

  /** An officer's resolution of a report. */
  datatype OfficerReport = OfficerReport(id: Id, message: string, imageReport: seq<string>, officer: Id)

  function UnitWorkKey(w: UnitWork): Id { w.id }
  function UnitWorkCreatedAt(w: UnitWork): int { w.createdAt }
  function CategoryKey(c: Category): Id { c.id }
  function CategoryCreatedAt(c: Category): int { c.createdAt }
  function CommentKey(c: Comment): Id { c.id }
  function OfficerReportKey(o: OfficerReport): Id { o.id }
}
