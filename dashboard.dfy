/**
 * The training dashboard: a ledger of one summary row per month, and the
 * upload step that reduces a batch of training-event records to one new row
 * and appends it, after checking that the batch covers exactly one month and
 * that this month is not in the ledger yet.
 */
module Dashboard {
  import opened Options
  import opened Text
  import opened Counting
  import opened MonthKey

  /** One record of an uploaded report, with its cells already decoded.
      A missing cell is `None`; `start` is also `None` when the timestamp
      could not be parsed (NaT). */
  datatype Event = Event(
    start: Option<YearMonth>,
    eventType: Option<string>,
    canceled: Option<bool>,
    noShow: Option<string>,
    timeZone: Option<string>)

  /** An uploaded report: its records and whether it has a `Canceled` column.
      Without that column every record's `canceled` cell is ignored. */
  datatype Report = Report(events: seq<Event>, hasCanceledColumn: bool)

  /** One ledger row: a month key and its nine counts. */
  datatype Row = Row(
    month: string,
    totalTrainings: nat,
    dxFleet: nat,
    phoenixSqlLite: nat,
    cancellations: nat,
    noShows: nat,
    pacific: nat,
    mountain: nat,
    central: nat,
    eastern: nat)

  /** The dashboard table, rows in arrival order. */
  type Ledger = seq<Row>

  function Months(dashboard: Ledger): seq<string> {
    seq(|dashboard|, i requires 0 <= i < |dashboard| => dashboard[i].month)
  }

  /** No two rows of the dashboard share a month. */
  predicate UniqueMonths(dashboard: Ledger) {
    forall i, j :: 0 <= i < j < |dashboard| ==> dashboard[i].month != dashboard[j].month
  }

  /** The dashboard every run of the app starts from: one row for March and
      one for April 2025, no month twice. */
  function InitialDashboard(): (dashboard: Ledger)
    ensures Months(dashboard) == ["2025-03", "2025-04"]
    ensures UniqueMonths(dashboard)
  {
    [Row("2025-03", 8, 2, 6, 0, 0, 0, 1, 3, 3),
     Row("2025-04", 14, 6, 8, 2, 0, 1, 1, 9, 3)]
  }

  // ---------------------------------------------------------------------
  // Month derivation and the single-month gate

  /** The month key of a record: `YYYY-MM`, or `NaT` for a missing timestamp. */
  function EventMonth(e: Event): string {
    Key(e.start)
  }

  /** The distinct month keys of a batch, as counted by `nunique`: the key
      of every record, and nothing else. There are never more keys than
      records. */
  function DistinctMonths(events: seq<Event>): (keys: set<string>)
    ensures forall i :: 0 <= i < |events| ==> EventMonth(events[i]) in keys
    ensures forall k :: k in keys ==> exists i :: 0 <= i < |events| && EventMonth(events[i]) == k
    ensures |keys| <= |events|
  {
    DistinctMonthsBounded(events);
    set e | e in events :: EventMonth(e)
  }

  lemma {:induction false} DistinctMonthsBounded(events: seq<Event>)
    ensures |set e | e in events :: EventMonth(e)| <= |events|
  {
    if events != [] {
      var init := events[..|events| - 1];
      DistinctMonthsBounded(init);
      assert (set e | e in events :: EventMonth(e))
        == (set e | e in init :: EventMonth(e)) + {EventMonth(events[|events| - 1])} by {
        assert events == init + [events[|events| - 1]];
      }
    }
  }

  /** Reference definition of the gate: a non-empty batch all of whose
      records have the month key of the first. */
  predicate AllSameMonth(events: seq<Event>) {
    |events| > 0 && forall i :: 0 <= i < |events| ==> EventMonth(events[i]) == EventMonth(events[0])
  }

  lemma SingletonSet<T>(s: set<T>, x: T)
    requires |s| == 1 && x in s
    ensures s == {x}
  {
    assert |s - {x}| == 0;
  }

  /** Exactly one distinct month key means every record has the first one's. */
  lemma {:induction false} OneDistinctMonthIff(events: seq<Event>)
    ensures |DistinctMonths(events)| == 1 <==> AllSameMonth(events)
  {
    var s := DistinctMonths(events);
    if |s| == 1 {
      var k :| k in s;
      SingletonSet(s, k);
      var e :| e in events && EventMonth(e) == k;
      forall i | 0 <= i < |events|
        ensures EventMonth(events[i]) == EventMonth(events[0])
      {
        assert EventMonth(events[i]) in s;
        assert EventMonth(events[0]) in s;
      }
    }
    if AllSameMonth(events) {
      var k := EventMonth(events[0]);
      forall x | x in s ensures x == k {
        var e :| e in events && EventMonth(e) == x;
        var i :| 0 <= i < |events| && events[i] == e;
      }
      assert k in s;
      assert s == {k};
    }
  }

  // ---------------------------------------------------------------------
  // The nine counts

  const DXFleetName: string := "DXFleet"
  const PhoenixName: string := "Phoenix SQL Lite"
  const NoShowYes: string := "yes"
  const PacificZone: string := "Pacific Time - US & Canada"
  const MountainZone: string := "Mountain Time - US & Canada"
  const CentralZone: string := "Central Time - US & Canada"
  const EasternZone: string := "Eastern Time - US & Canada"

  /** The event type mentions DXFleet, in any case; a missing type never does. */
  predicate IsDXFleet(e: Event) {
    e.eventType.Some? && ContainsIgnoreCase(e.eventType.value, DXFleetName)
  }

  predicate IsPhoenix(e: Event) {
    e.eventType.Some? && ContainsIgnoreCase(e.eventType.value, PhoenixName)
  }

  /** The Canceled cell is exactly `True`. */
  predicate IsCanceled(e: Event) {
    e.canceled == Some(true)
  }

  /** The no-show marker lower-cases to `yes`; a missing marker never does. */
  predicate IsNoShow(e: Event) {
    e.noShow.Some? && Lower(e.noShow.value) == NoShowYes
  }

  /** The time-zone label is exactly `zone`. */
  function InZone(zone: string): Event -> bool {
    (e: Event) => e.timeZone == Some(zone)
  }

  /** Buckets keyed by four different exact labels share no record, so
      together they hold at most every record once. */
  lemma {:induction false} ZoneCountsBounded(events: seq<Event>, a: string, b: string, c: string, d: string)
    requires a != b && a != c && a != d && b != c && b != d && c != d
    ensures Count(events, InZone(a)) + Count(events, InZone(b))
            + Count(events, InZone(c)) + Count(events, InZone(d)) <= |events|
  {
    if events != [] {
      ZoneCountsBounded(events[..|events| - 1], a, b, c, d);
    }
  }

  /** The summary row of a batch for month key `month`. */
  function Summarize(month: string, report: Report): (r: Row)
    ensures r.month == month
    ensures r.totalTrainings == |report.events|
    ensures r.dxFleet == |Matching(report.events, IsDXFleet)|
    ensures r.phoenixSqlLite == |Matching(report.events, IsPhoenix)|
    ensures r.cancellations ==
      if report.hasCanceledColumn then |Matching(report.events, IsCanceled)| else 0
    ensures r.noShows == |Matching(report.events, IsNoShow)|
    ensures r.pacific == |Matching(report.events, InZone(PacificZone))|
    ensures r.mountain == |Matching(report.events, InZone(MountainZone))|
    ensures r.central == |Matching(report.events, InZone(CentralZone))|
    ensures r.eastern == |Matching(report.events, InZone(EasternZone))|
    ensures r.dxFleet <= r.totalTrainings && r.phoenixSqlLite <= r.totalTrainings
    ensures r.cancellations <= r.totalTrainings && r.noShows <= r.totalTrainings
    ensures r.pacific + r.mountain + r.central + r.eastern <= r.totalTrainings
  {
    var events := report.events;
    CountIsCardinality(events, IsDXFleet);
    CountIsCardinality(events, IsPhoenix);
    CountIsCardinality(events, IsCanceled);
    CountIsCardinality(events, IsNoShow);
    CountIsCardinality(events, InZone(PacificZone));
    CountIsCardinality(events, InZone(MountainZone));
    CountIsCardinality(events, InZone(CentralZone));
    CountIsCardinality(events, InZone(EasternZone));
    ZoneCountsBounded(events, PacificZone, MountainZone, CentralZone, EasternZone);
    Row(
      month,
      |events|,
      Count(events, IsDXFleet),
      Count(events, IsPhoenix),
      if report.hasCanceledColumn then Count(events, IsCanceled) else 0,
      Count(events, IsNoShow),
      Count(events, InZone(PacificZone)),
      Count(events, InZone(MountainZone)),
      Count(events, InZone(CentralZone)),
      Count(events, InZone(EasternZone)))
  }

  // ---------------------------------------------------------------------
  // The upload

  predicate HasEventType(e: Event) {
    e.eventType.Some?
  }

  predicate HasNoShow(e: Event) {
    e.noShow.Some?
  }

  /** The `.str` accessor works on a column only when it holds text. A column
      with no value at all is read as numeric NaN, and `.str` fails on it:
      the column is usable exactly when its count of present cells is
      positive. */
  predicate EventTypeIsText(events: seq<Event>)
    ensures EventTypeIsText(events) <==> Count(events, HasEventType) > 0
  {
    CountPositiveIff(events, HasEventType);
    exists i :: 0 <= i < |events| && events[i].eventType.Some?
  }

  predicate NoShowIsText(events: seq<Event>)
    ensures NoShowIsText(events) <==> Count(events, HasNoShow) > 0
  {
    CountPositiveIff(events, HasNoShow);
    exists i :: 0 <= i < |events| && events[i].noShow.Some?
  }

  datatype Rejection =
    | NotOneMonth                       // the batch does not cover exactly one month
    | AlreadyInDashboard(month: string) // the batch's month already has a row
    | ProcessingFailed                  // the reduction itself failed

  datatype Outcome = Added(row: Row) | Rejected(reason: Rejection)

  /** The dashboard after the upload, and what happened. */
  datatype UploadResult = UploadResult(dashboard: Ledger, outcome: Outcome)

  /** Reduces `report` to one row and appends it to `dashboard`, unless the
      batch does not have exactly one month key or that month is present. */
  function Upload(dashboard: Ledger, report: Report): (res: UploadResult)
    ensures res.outcome.Rejected? ==> res.dashboard == dashboard
    ensures res.outcome == Rejected(NotOneMonth) <==> !AllSameMonth(report.events)
    ensures res.outcome.Rejected? && res.outcome.reason.AlreadyInDashboard? <==>
      AllSameMonth(report.events) && EventMonth(report.events[0]) in Months(dashboard)
    ensures res.outcome.Rejected? && res.outcome.reason.AlreadyInDashboard? ==>
      res.outcome.reason.month == EventMonth(report.events[0])
    ensures res.outcome.Added? <==>
      AllSameMonth(report.events) && EventMonth(report.events[0]) !in Months(dashboard)
      && EventTypeIsText(report.events) && NoShowIsText(report.events)
    ensures res.outcome.Added? ==>
      var row := res.outcome.row;
      && res.dashboard == dashboard + [row]
      && |res.dashboard| == |dashboard| + 1
      && (forall i :: 0 <= i < |report.events| ==> EventMonth(report.events[i]) == row.month)
      && row == Summarize(row.month, report)
  {
    var events := report.events;
    OneDistinctMonthIff(events);
    if |DistinctMonths(events)| != 1 then
      UploadResult(dashboard, Rejected(NotOneMonth))
    else
      var target := EventMonth(events[0]);
      if target in Months(dashboard) then
        UploadResult(dashboard, Rejected(AlreadyInDashboard(target)))
      else if !EventTypeIsText(events) || !NoShowIsText(events) then
        UploadResult(dashboard, Rejected(ProcessingFailed))
      else
        var row := Summarize(target, report);
        UploadResult(dashboard + [row], Added(row))
  }

  /** One run of the app: it starts from the initial dashboard and, when a
      report was uploaded, processes it. Every run therefore ends with the
      two initial rows, followed by one new row exactly when the upload was
      accepted, and with no month twice. */
  function Session(uploaded: Option<Report>): (dashboard: Ledger)
    ensures UniqueMonths(dashboard)
    ensures |dashboard| >= 2 && dashboard[..2] == InitialDashboard()
    ensures |dashboard| == 3 <==> uploaded.Some? && Upload(InitialDashboard(), uploaded.value).outcome.Added?
    ensures |dashboard| == 2 || |dashboard| == 3
    ensures |dashboard| == 3 ==> dashboard[2] == Upload(InitialDashboard(), uploaded.value).outcome.row
  {
    match uploaded
    case None => InitialDashboard()
    case Some(report) =>
      UploadKeepsMonthsUnique(InitialDashboard(), report);
      Upload(InitialDashboard(), report).dashboard
  }

  // ---------------------------------------------------------------------
  // Properties of the upload

  /** Accepting a row keeps the months of the dashboard unique. */
  lemma UploadKeepsMonthsUnique(dashboard: Ledger, report: Report)
    requires UniqueMonths(dashboard)
    ensures UniqueMonths(Upload(dashboard, report).dashboard)
  {
    var res := Upload(dashboard, report);
    if res.outcome.Added? {
      var row := res.outcome.row;
      forall i | 0 <= i < |dashboard| ensures dashboard[i].month != row.month {
        assert Months(dashboard)[i] == dashboard[i].month;
      }
    }
  }

  /** An accepted batch uploaded a second time is rejected as a duplicate,
      and the dashboard stays as the first upload left it. */
  lemma ReuploadRejected(dashboard: Ledger, report: Report)
    requires Upload(dashboard, report).outcome.Added?
    ensures var first := Upload(dashboard, report);
      var second := Upload(first.dashboard, report);
      second.outcome == Rejected(AlreadyInDashboard(first.outcome.row.month))
      && second.dashboard == first.dashboard
  {
    var first := Upload(dashboard, report);
    var row := first.outcome.row;
    assert Months(first.dashboard)[|dashboard|] == row.month;
  }

  /** A batch with no records has no month at all and is rejected. */
  lemma EmptyReportRejected(dashboard: Ledger, hasCanceledColumn: bool)
    ensures Upload(dashboard, Report([], hasCanceledColumn)) ==
      UploadResult(dashboard, Rejected(NotOneMonth))
  {
  }

  /** A parsable and an unparsable timestamp in one batch make two month
      keys (`YYYY-MM` and `NaT`), so the batch is rejected. */
  lemma MixedTimestampsRejected(dashboard: Ledger, report: Report, i: nat, j: nat)
    requires i < |report.events| && j < |report.events|
    requires report.events[i].start.None? && report.events[j].start.Some?
    ensures Upload(dashboard, report) == UploadResult(dashboard, Rejected(NotOneMonth))
  {
    assert EventMonth(report.events[i]) != EventMonth(report.events[j]);
  }

  /** Two records of different calendar months make the batch rejected. */
  lemma DifferentMonthsRejected(dashboard: Ledger, report: Report, i: nat, j: nat)
    requires i < |report.events| && j < |report.events|
    requires report.events[i].start.Some? && report.events[j].start.Some?
    requires report.events[i].start != report.events[j].start
    ensures Upload(dashboard, report) == UploadResult(dashboard, Rejected(NotOneMonth))
  {
    var a, b := report.events[i].start.value, report.events[j].start.value;
    if Format(a) == Format(b) {
      FormatInjective(a, b);
    }
    assert EventMonth(report.events[i]) != EventMonth(report.events[j]);
  }

  /** A batch whose timestamps are all unparsable counts as the month `NaT`. */
  lemma AllUnparsableIsNaT(dashboard: Ledger, report: Report)
    requires report.events != []
    requires forall i :: 0 <= i < |report.events| ==> report.events[i].start.None?
    requires NotATime !in Months(dashboard)
    requires EventTypeIsText(report.events) && NoShowIsText(report.events)
    ensures var res := Upload(dashboard, report);
      res.outcome.Added? && res.outcome.row.month == NotATime
  {
  }

  /** A batch of one calendar month is keyed by that month's `YYYY-MM`. */
  lemma OneCalendarMonthKey(dashboard: Ledger, report: Report, ym: YearMonth)
    requires report.events != []
    requires forall i :: 0 <= i < |report.events| ==> report.events[i].start == Some(ym)
    ensures var res := Upload(dashboard, report);
      res.outcome.Added? ==> Parse(res.outcome.row.month) == Some(ym)
  {
    ParseFormat(ym);
  }
}
