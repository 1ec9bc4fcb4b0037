/** Concrete uploads against the initial dashboard. */
module DashboardExamples {
  import opened Options
  import opened Text
  import opened Counting
  import opened MonthKey
  import opened Dashboard

  const May2025: YearMonth := YearMonth(2025, 5)

  function MayEvent(kind: string, canceled: bool, zone: string): Event {
    Event(Some(May2025), Some(kind), Some(canceled), Some("No"), Some(zone))
  }

  const DXCentral: Event := MayEvent("DXFleet", false, CentralZone)
  const DXCanceled: Event := MayEvent("dxfleet", true, CentralZone)
  const OtherCentral: Event := MayEvent("Excel", false, CentralZone)
  const OtherEastern: Event := MayEvent("Excel", false, EasternZone)

  /** Ten May 2025 sessions: three DXFleet ones (one canceled), five in
      Central and five in Eastern time, no no-shows. */
  function MayEvents(): seq<Event> {
    Repeat(DXCentral, 2) + Repeat(DXCanceled, 1) + Repeat(OtherCentral, 2) + Repeat(OtherEastern, 5)
  }

  /** The count of any condition over the May batch, block by block. */
  lemma MayCount(p: Event -> bool)
    ensures Count(MayEvents(), p) ==
      (if p(DXCentral) then 2 else 0) + (if p(DXCanceled) then 1 else 0)
      + (if p(OtherCentral) then 2 else 0) + (if p(OtherEastern) then 5 else 0)
  {
    var a, b, c, d := Repeat(DXCentral, 2), Repeat(DXCanceled, 1), Repeat(OtherCentral, 2), Repeat(OtherEastern, 5);
    CountAppend(a + b + c, d, p);
    CountAppend(a + b, c, p);
    CountAppend(a, b, p);
    CountRepeat(DXCentral, 2, p);
    CountRepeat(DXCanceled, 1, p);
    CountRepeat(OtherCentral, 2, p);
    CountRepeat(OtherEastern, 5, p);
  }

  lemma MayEventFacts()
    ensures IsDXFleet(DXCentral) && IsDXFleet(DXCanceled)
    ensures !IsDXFleet(OtherCentral) && !IsDXFleet(OtherEastern)
    ensures !IsPhoenix(DXCentral) && !IsPhoenix(DXCanceled)
    ensures !IsPhoenix(OtherCentral) && !IsPhoenix(OtherEastern)
    ensures !IsNoShow(DXCentral) && !IsNoShow(OtherCentral)
  {
    assert Lower(DXFleetName) == "dxfleet";
    assert Lower("DXFleet") == "dxfleet";
    assert Lower("dxfleet") == "dxfleet";
    assert Lower("No") == "no";
  }

  lemma MayUploadAdded()
    ensures var expected := Row("2025-05", 10, 3, 0, 1, 0, 0, 0, 5, 5);
      Upload(InitialDashboard(), Report(MayEvents(), true)) ==
        UploadResult(InitialDashboard() + [expected], Added(expected))
  {
    var events := MayEvents();
    assert Format(May2025) == "2025-05";
    forall i | 0 <= i < |events| ensures EventMonth(events[i]) == "2025-05" {
      assert events[i].start == Some(May2025);
    }
    MayEventFacts();
    MayCount(IsDXFleet);
    MayCount(IsPhoenix);
    MayCount(IsCanceled);
    MayCount(IsNoShow);
    MayCount(InZone(PacificZone));
    MayCount(InZone(MountainZone));
    MayCount(InZone(CentralZone));
    MayCount(InZone(EasternZone));
    assert events[0].eventType.Some? && events[0].noShow.Some?;
  }

  /** A March 2025 report is rejected: that month is already on the dashboard. */
  lemma MarchUploadRejected()
    ensures var march := Report([Event(Some(YearMonth(2025, 3)), Some("DXFleet"), None, None, None)], false);
      Upload(InitialDashboard(), march) ==
        UploadResult(InitialDashboard(), Rejected(AlreadyInDashboard("2025-03")))
  {
    assert Format(YearMonth(2025, 3)) == "2025-03";
  }
}
