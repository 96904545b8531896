/** The dashboard endpoints (controller/dasboard.js). Both only read the report
    collection: they are functions of it. */
module Dashboard {
  import opened Common
  import opened Collections
  import opened Records

  /** The number of reports with status `st`. */
  function CountStatus(reports: seq<Report>, st: Status): (n: nat)
    ensures n <= |reports|
  {
    if reports == [] then 0
    else (if reports[0].status == st then 1 else 0) + CountStatus(reports[1..], st)
  }

  function ReportStatus(r: Report): Status { r.status }

  /** The count agrees with the reports a `find({status: st})` returns. */
  lemma {:induction false} CountStatusIsFindCount(reports: seq<Report>, st: Status)
    ensures CountStatus(reports, st) == |Where(reports, ReportStatus, st)|
  {
    if reports != [] {
      CountStatusIsFindCount(reports[1..], st);
    }
  }

  /** Every report has exactly one of the four statuses, so the four counts add
      up to the size of the collection. */
  lemma {:induction false} StatusCountsSumToTotal(reports: seq<Report>)
    ensures CountStatus(reports, Menunggu) + CountStatus(reports, Diproses)
          + CountStatus(reports, Selesai) + CountStatus(reports, Ditolak) == |reports|
  {
    if reports != [] {
      StatusCountsSumToTotal(reports[1..]);
    }
  }

  /** The `$group` stage: for each status that occurs, how many reports have it.
      A status no report has is absent. */
  function GroupByStatus(reports: seq<Report>): (g: map<Status, nat>)
    ensures forall st :: st in g <==> CountStatus(reports, st) > 0
    ensures forall st :: st in g ==> g[st] == CountStatus(reports, st)
  {
    if reports == [] then map[]
    else
      var g := GroupByStatus(reports[1..]);
      var st := reports[0].status;
      g[st := (if st in g then g[st] else 0) + 1]
  }

  /** The four keys of the summary object. */
  const SummaryKeys: set<string> := {"Menunggu", "Diproses", "Selesai", "Ditolak"}

  /** Every status has one of the four keys as its name. */
  lemma StatusNamesAreSummaryKeys()
    ensures forall st: Status :: StatusName(st) in SummaryKeys
  {
    forall st: Status ensures StatusName(st) in SummaryKeys {
      match st
      case Menunggu =>
      case Diproses =>
      case Selesai =>
      case Ditolak =>
    }
  }

  /** A report added at the end counts once, under its own status. */
  lemma {:induction false} CountStatusAppend(reports: seq<Report>, r: Report, st: Status)
    ensures CountStatus(reports + [r], st) == CountStatus(reports, st) + (if r.status == st then 1 else 0)
  {
    if reports != [] {
      assert (reports + [r])[1..] == reports[1..] + [r];
      CountStatusAppend(reports[1..], r, st);
    }
  }

  /** Replacing one report moves one unit of count from its old status to its
      new one. */
  lemma {:induction false} CountStatusUpdate(reports: seq<Report>, i: nat, r: Report, st: Status)
    requires i < |reports|
    ensures CountStatus(reports[i := r], st) + (if reports[i].status == st then 1 else 0)
         == CountStatus(reports, st) + (if r.status == st then 1 else 0)
  {
    if i > 0 {
      assert reports[i := r][1..] == reports[1..][i - 1 := r];
      CountStatusUpdate(reports[1..], i - 1, r, st);
    } else {
      assert reports[i := r][1..] == reports[1..];
    }
  }

  /** `/summary`: the grouped counts picked out per status name and merged over
      the defaults `{Menunggu: 0, Diproses: 0, Selesai: 0, Ditolak: 0}`. The
      object always has exactly the four keys, and each holds the number of
      reports with that status. */
  function StatusSummary(reports: seq<Report>): (m: map<string, nat>)
    ensures m.Keys == SummaryKeys
    ensures forall st: Status :: StatusName(st) in m && m[StatusName(st)] == CountStatus(reports, st)
  {
    var g := GroupByStatus(reports);
    var m := map name | name in SummaryKeys ::
      var st := ParseStatus(name);
      if st.Some? && st.value in g then g[st.value] else 0;
    StatusNamesAreSummaryKeys();
    m
  }

  /** With no reports every key is still present, and holds 0. */
  lemma SummaryOfNoReports()
    ensures StatusSummary([]) == map["Menunggu" := 0, "Diproses" := 0, "Selesai" := 0, "Ditolak" := 0]
  {
    var m := StatusSummary([]);
    assert StatusName(Menunggu) == "Menunggu" && StatusName(Diproses) == "Diproses";
    assert StatusName(Selesai) == "Selesai" && StatusName(Ditolak) == "Ditolak";
  }

  /** The summary accounts for every report exactly once. */
  lemma SummaryAddsUpToTotal(reports: seq<Report>)
    ensures var m := StatusSummary(reports);
      m["Menunggu"] + m["Diproses"] + m["Selesai"] + m["Ditolak"] == |reports|
  {
    var m := StatusSummary(reports);
    assert StatusName(Menunggu) == "Menunggu" && StatusName(Diproses) == "Diproses";
    assert StatusName(Selesai) == "Selesai" && StatusName(Ditolak) == "Ditolak";
    StatusCountsSumToTotal(reports);
  }

  /** A map marker: the projection `{title, address, longitude, latitude}`
      without `_id`. */
  datatype Coordinate = Coordinate(title: string, address: string, longitude: Option<string>, latitude: Option<string>)

  function Marker(r: Report): Coordinate {
    Coordinate(r.title, r.address, r.longitude, r.latitude)
  }

  /** `/coordinates`: the marker of every report whose status is not `Menunggu`,
      in the collection's order, and of no other. Which markers appear is
      stated by `CoordinatesMembers`, and how often and in what order by the
      singleton case here with `CoordinatesAppend`. */
  function Coordinates(reports: seq<Report>): (cs: seq<Coordinate>)
    ensures |cs| == |reports| - CountStatus(reports, Menunggu)
    ensures |reports| == 1 ==> cs == if reports[0].status != Menunggu then [Marker(reports[0])] else []
  {
    if reports == [] then []
    else
      var rest := Coordinates(reports[1..]);
      if reports[0].status != Menunggu then [Marker(reports[0])] + rest else rest
  }

  /** Every marker is that of a report not `Menunggu`, and every such report
      has its marker on the map. */
  lemma {:induction false} CoordinatesMembers(reports: seq<Report>)
    ensures var cs := Coordinates(reports);
      && (forall c :: c in cs ==> exists r :: r in reports && r.status != Menunggu && c == Marker(r))
      && (forall r :: r in reports && r.status != Menunggu ==> Marker(r) in cs)
  {
    if reports != [] {
      CoordinatesMembers(reports[1..]);
      CoordinatesFirst(reports);
      assert forall r :: r in reports ==> r == reports[0] || r in reports[1..];
      assert forall r :: r in reports[1..] ==> r in reports;
    }
  }

  /** The markers of two runs of reports, one after the other, are the markers
      of the first run followed by those of the second: with the singleton case
      above, one marker per report not `Menunggu`, in the collection's order. */
  lemma {:induction false} CoordinatesAppend(a: seq<Report>, b: seq<Report>)
    ensures Coordinates(a + b) == Coordinates(a) + Coordinates(b)
  {
    if a == [] {
      assert a + b == b;
    } else {
      var ab := a + b;
      assert ab[0] == a[0] && ab[1..] == a[1..] + b;
      CoordinatesAppend(a[1..], b);
      CoordinatesFirst(ab);
      CoordinatesFirst(a);
    }
  }

  /** One step of the recursion: the first report's marker, if it has one,
      then the markers of the rest. */
  lemma CoordinatesFirst(reports: seq<Report>)
    requires reports != []
    ensures Coordinates(reports)
         == (if reports[0].status != Menunggu then [Marker(reports[0])] else []) + Coordinates(reports[1..])
  {
  }

  /** The map shows exactly the reports the summary counts as in process, done
      or rejected. */
  lemma CoordinatesMatchSummary(reports: seq<Report>)
    ensures var m := StatusSummary(reports);
      |Coordinates(reports)| == m["Diproses"] + m["Selesai"] + m["Ditolak"]
  {
    SummaryAddsUpToTotal(reports);
    assert StatusName(Menunggu) == "Menunggu";
  }
}
