/** The final report: exact splits, grouped counts, and independence of when it is built. */
module ReportProofs {
  import opened Prelude
  import opened EventModel
  import opened EventHandlers
  import opened AccessModel
  import opened AccessRuns
  import opened AdmissionIntegrity
  import opened Commission
  import Events = EventRuns

  // ---- grouping scans by scanner ----

  function ScansBy(scans: seq<Admission>, scannerId: nat): nat {
    if scans == [] then 0
    else ScansBy(scans[..|scans| - 1], scannerId) + if scans[|scans| - 1].scannerId == scannerId then 1 else 0
  }

  /** The row of a scanner, if there is one. */
  function RowOf(rows: seq<ScanRow>, scannerId: nat): Option<ScanRow> {
    if rows == [] then None
    else if rows[0].scannerId == scannerId then Some(rows[0])
    else RowOf(rows[1..], scannerId)
  }

  predicate InOrder(rows: seq<ScanRow>) {
    forall i, j :: 0 <= i < j < |rows| ==> rows[i].scannerId < rows[j].scannerId
  }

  function SumOfCounts(rows: seq<ScanRow>): nat {
    if rows == [] then 0 else rows[0].scanCount + SumOfCounts(rows[1..])
  }

  predicate AllAbove(rows: seq<ScanRow>, id: nat) {
    forall i :: 0 <= i < |rows| ==> id < rows[i].scannerId
  }

  predicate Listed(rows: seq<ScanRow>, id: nat) {
    exists k :: 0 <= k < |rows| && rows[k].scannerId == id
  }

  lemma {:induction false} CountScanStaysAbove(rows: seq<ScanRow>, a: Admission, id: nat)
    requires AllAbove(rows, id) && id < a.scannerId
    ensures AllAbove(CountScan(rows, a), id)
  {
    if rows != [] && rows[0].scannerId < a.scannerId {
      CountScanStaysAbove(rows[1..], a, id);
    }
  }

  lemma {:induction false} CountScanAddsOne(rows: seq<ScanRow>, a: Admission)
    requires InOrder(rows)
    ensures InOrder(CountScan(rows, a)) && SumOfCounts(CountScan(rows, a)) == SumOfCounts(rows) + 1
  {
    if rows != [] && rows[0].scannerId < a.scannerId {
      CountScanAddsOne(rows[1..], a);
      assert AllAbove(rows[1..], rows[0].scannerId);
      CountScanStaysAbove(rows[1..], a, rows[0].scannerId);
      assert CountScan(rows, a)[1..] == CountScan(rows[1..], a);
    }
  }

  lemma {:induction false} CountScanLists(rows: seq<ScanRow>, a: Admission, id: nat)
    requires Listed(CountScan(rows, a), id) && id != a.scannerId
    ensures Listed(rows, id)
  {
    var counted := CountScan(rows, a);
    var k :| 0 <= k < |counted| && counted[k].scannerId == id;
    if rows == [] {
    } else if a.scannerId < rows[0].scannerId {
      assert rows[k - 1].scannerId == id;
    } else if rows[0].scannerId == a.scannerId || k == 0 {
      assert rows[k].scannerId == id;
    } else {
      assert CountScan(rows[1..], a)[k - 1].scannerId == id;
      CountScanLists(rows[1..], a, id);
      var j :| 0 <= j < |rows[1..]| && rows[1..][j].scannerId == id;
      assert rows[j + 1].scannerId == id;
    }
  }

  lemma {:induction false} CountScanUpdatesRow(rows: seq<ScanRow>, a: Admission, id: nat)
    requires InOrder(rows)
    ensures
      var before, after := RowOf(rows, id), RowOf(CountScan(rows, a), id);
      if id != a.scannerId then after == before
      else after == Some(if before.Some?
                         then ScanRow(id, before.value.scanCount + 1, Max(before.value.lastScanAt, a.admittedAt))
                         else ScanRow(id, 1, a.admittedAt))
  {
    if rows == [] {
    } else if a.scannerId < rows[0].scannerId {
      if id == a.scannerId {
        NoEarlierRow(rows, id);
      }
    } else if rows[0].scannerId == a.scannerId {
    } else {
      CountScanUpdatesRow(rows[1..], a, id);
    }
  }

  lemma {:induction false} NoEarlierRow(rows: seq<ScanRow>, id: nat)
    requires forall i :: 0 <= i < |rows| ==> id < rows[i].scannerId
    ensures RowOf(rows, id).None?
  {
    if rows == [] {
    } else {
      NoEarlierRow(rows[1..], id);
    }
  }

  /** The rows are in scanner order and their counts add up to the number of scans. */
  lemma {:induction false} GroupingSums(scans: seq<Admission>)
    ensures InOrder(GroupScans(scans)) && SumOfCounts(GroupScans(scans)) == |scans|
  {
    if scans == [] {
    } else {
      GroupingSums(scans[..|scans| - 1]);
      CountScanAddsOne(GroupScans(scans[..|scans| - 1]), scans[|scans| - 1]);
    }
  }

  lemma {:induction false} GroupingLists(scans: seq<Admission>, id: nat)
    requires Listed(GroupScans(scans), id)
    ensures exists k :: 0 <= k < |scans| && scans[k].scannerId == id
  {
    var last := scans[|scans| - 1];
    if last.scannerId != id {
      CountScanLists(GroupScans(scans[..|scans| - 1]), last, id);
      GroupingLists(scans[..|scans| - 1], id);
      var k :| 0 <= k < |scans| - 1 && scans[..|scans| - 1][k].scannerId == id;
      assert scans[k].scannerId == id;
    }
  }

  /** A scanner has a row exactly if it scanned; the row counts its scans and dates the latest. */
  lemma {:induction false} GroupingCounts(scans: seq<Admission>, id: nat)
    ensures
      var row := RowOf(GroupScans(scans), id);
      && (row.Some? <==> ScansBy(scans, id) > 0)
      && (row.Some? ==>
            && row.value.scanCount == ScansBy(scans, id)
            && (forall k :: 0 <= k < |scans| && scans[k].scannerId == id ==> scans[k].admittedAt <= row.value.lastScanAt)
            && (exists k :: 0 <= k < |scans| && scans[k].scannerId == id && scans[k].admittedAt == row.value.lastScanAt))
  {
    if scans == [] {
    } else {
      var shorter, last := scans[..|scans| - 1], scans[|scans| - 1];
      GroupingSums(shorter);
      GroupingCounts(shorter, id);
      CountScanUpdatesRow(GroupScans(shorter), last, id);
      var before, row := RowOf(GroupScans(shorter), id), RowOf(GroupScans(scans), id);
      if before.None? {
        ScansByIsPositive(shorter, id);
      }
      if row.Some? {
        if before.Some? && row.value.lastScanAt == before.value.lastScanAt {
          var k :| 0 <= k < |shorter| && shorter[k].scannerId == id && shorter[k].admittedAt == before.value.lastScanAt;
          assert scans[k].scannerId == id && scans[k].admittedAt == row.value.lastScanAt;
        } else {
          assert scans[|scans| - 1].scannerId == id && scans[|scans| - 1].admittedAt == row.value.lastScanAt;
        }
        forall k | 0 <= k < |scans| && scans[k].scannerId == id
          ensures scans[k].admittedAt <= row.value.lastScanAt
        {
          assert k < |shorter| ==> shorter[k] == scans[k];
        }
      }
    }
  }

  lemma {:induction false} ScansByIsPositive(scans: seq<Admission>, id: nat)
    requires ScansBy(scans, id) == 0
    ensures forall k :: 0 <= k < |scans| ==> scans[k].scannerId != id
  {
    if scans == [] {
    } else {
      ScansByIsPositive(scans[..|scans| - 1], id);
    }
  }

  lemma {:induction false} AllRowsNamed(rows: seq<ScanRow>, scanners: map<nat, Scanner>)
    requires forall i :: 0 <= i < |rows| ==> KnownScanner(scanners, rows[i].scannerId)
    ensures NamedRows(rows, scanners) == rows
  {
    if rows == [] {
    } else {
      AllRowsNamed(rows[..|rows| - 1], scanners);
    }
  }

  lemma {:induction false} ScansComeFromAdmissions(admissions: seq<Admission>, tickets: map<nat, Ticket>, e: nat)
    ensures forall k :: 0 <= k < |Scans(admissions, tickets, e)| ==> Scans(admissions, tickets, e)[k] in admissions
  {
    if admissions == [] {
    } else {
      ScansComeFromAdmissions(admissions[..|admissions| - 1], tickets, e);
    }
  }

  /** No row is lost for want of its scanner. */
  lemma ReportRows(run: seq<Action>, e: nat)
    ensures
      var w := After(run);
      var scans := Scans(w.admissions, w.tickets, e);
      NamedRows(GroupScans(scans), w.scanners) == GroupScans(scans)
  {
    var w := After(run);
    var scans := Scans(w.admissions, w.tickets, e);
    RunKeepsTickets(run);
    ScansComeFromAdmissions(w.admissions, w.tickets, e);
    forall i | 0 <= i < |GroupScans(scans)|
      ensures KnownScanner(w.scanners, GroupScans(scans)[i].scannerId)
    {
      GroupingLists(scans, GroupScans(scans)[i].scannerId);
      var k :| 0 <= k < |scans| && scans[k].scannerId == GroupScans(scans)[i].scannerId;
      assert scans[k] in w.admissions;
    }
    AllRowsNamed(GroupScans(scans), w.scanners);
  }

  // ---- conservation ----

  /** The two splits hold exactly, so neither clamp at zero ever bites. */
  predicate Conserves(r: AccessModel.Report) {
    && r.sold == r.used + r.voided + r.absent
    && r.net == r.commission + r.organizerNet
    && r.commission == CommissionCents(r.net, r.rate)
    && r.net == AtLeastZero(r.gross - r.refunds)
    && SumOfCounts(r.scannerStats) == r.used
    && InOrder(r.scannerStats)
  }

  lemma TicketsSplit(tickets: map<nat, Ticket>, e: nat)
    ensures |TicketsOf(tickets, e)| ==
            |WithStatus(tickets, e, Used)| + |WithStatus(tickets, e, Void)| + |WithStatus(tickets, e, Valid)|
  {
    assert TicketsOf(tickets, e) ==
           WithStatus(tickets, e, Used) + WithStatus(tickets, e, Void) + WithStatus(tickets, e, Valid);
  }

  lemma {:induction false} FinalReportConserves(run: seq<Action>, e: nat, gross: nat, refunds: nat, rate: Rate)
    ensures Conserves(FinalReport(After(run), e, gross, refunds, rate))
    ensures FinalReport(After(run), e, gross, refunds, rate).absent == |WithStatus(After(run).tickets, e, Valid)|
  {
    var w := After(run);
    RunKeepsTickets(run);
    assert |WithStatus(w.tickets, e, Used)| == |Scans(w.admissions, w.tickets, e)|;
    TicketsSplit(w.tickets, e);
    WithinAmount(AtLeastZero(gross - refunds), rate);
    ReportRows(run, e);
    GroupingSums(Scans(w.admissions, w.tickets, e));
  }

  /** Every stored report conserves, and belongs to a completed event. */
  lemma {:induction false} ReportsConserve(run: seq<Action>, e: nat)
    requires e in After(run).reports
    ensures Conserves(After(run).reports[e])
    ensures e in After(run).catalog.events && After(run).catalog.events[e].event.status == Completed
  {
    assert run != [];
    var shorter, a := run[..|run| - 1], run[|run| - 1];
    var w := After(shorter);
    if e in w.reports {
      ReportsConserve(shorter, e);
      CompletedStays(w, a, e);
      ReportStays(w, a, e);
    } else if a.Report? {
      FinalReportConserves(shorter, a.eventId, a.gross, a.refunds, a.rate);
    } else {
      OnlyReportAddsReports(w, a);
    }
  }

  // ---- independence of when the report is built ----

  lemma CompletedStays(w: World, a: Action, e: nat)
    requires e in w.catalog.events && w.catalog.events[e].event.status == Completed
    ensures e in Step(w, a).catalog.events && Step(w, a).catalog.events[e].event.status == Completed
  {
    if a.CatalogStep? {
      Events.StepFreezes(w.catalog, a.step, e);
    } else {
      OthersKeepEvents(w, a);
    }
  }

  lemma OnlyReportAddsReports(w: World, a: Action)
    requires !a.Report?
    ensures Step(w, a).reports == w.reports
  {
  }

  lemma ReportStays(w: World, a: Action, e: nat)
    requires e in w.reports
    ensures e in Step(w, a).reports && Step(w, a).reports[e] == w.reports[e]
  {
    if !a.Report? {
      OnlyReportAddsReports(w, a);
    }
  }

  lemma ScanElsewhere(admissions: seq<Admission>, adm: Admission, tickets: map<nat, Ticket>, e: nat)
    requires forall i :: 0 <= i < |admissions| ==> admissions[i].ticketId in tickets
    requires adm.ticketId in tickets && tickets[adm.ticketId].eventId != e && !tickets[adm.ticketId].status.Used?
    ensures
      var after := tickets[adm.ticketId := tickets[adm.ticketId].(status := Used)];
      && Scans(admissions + [adm], after, e) == Scans(admissions, tickets, e)
      && WithStatus(after, e, Used) == WithStatus(tickets, e, Used)
  {
    var longer := admissions + [adm];
    assert longer[..|longer| - 1] == admissions;
    ScansDependOnEvents(admissions, tickets, tickets[adm.ticketId := tickets[adm.ticketId].(status := Used)], e);
  }

  /** A completed event admits nobody any more. */
  lemma CompletedFreezesScans(w: World, a: Action, e: nat)
    requires TicketsOk(w)
    requires e in w.catalog.events && w.catalog.events[e].event.status == Completed
    ensures Scans(Step(w, a).admissions, Step(w, a).tickets, e) == Scans(w.admissions, w.tickets, e)
    ensures WithStatus(Step(w, a).tickets, e, Used) == WithStatus(w.tickets, e, Used)
  {
    if a.Scan? && Admit(w, a.token, a.user).Ok? {
      AdmitResult(w, a.token, a.user);
      ScanElsewhere(w.admissions, Admission(a.token.value.0, w.scanners[a.user].id, w.now), w.tickets, e);
    } else {
      OtherStepsKeepUse(w, a);
      ScansDependOnEvents(w.admissions, w.tickets, Step(w, a).tickets, e);
    }
  }

  /**
   However late the consumer runs after completion, and whatever happens in between, the report's
   used count and scanner rows are those at the completion.
   */
  lemma {:induction false} ReportIsDelayIndependent(run: seq<Action>, more: seq<Action>, e: nat, gross: nat, refunds: nat, rate: Rate)
    requires e in After(run).catalog.events && After(run).catalog.events[e].event.status == Completed
    ensures e in After(run + more).catalog.events && After(run + more).catalog.events[e].event.status == Completed
    ensures
      var done, later := After(run), FinalReport(After(run + more), e, gross, refunds, rate);
      && later.used == |WithStatus(done.tickets, e, Used)|
      && later.scannerStats == GroupScans(Scans(done.admissions, done.tickets, e))
      && Scans(After(run + more).admissions, After(run + more).tickets, e) == Scans(done.admissions, done.tickets, e)
      && WithStatus(After(run + more).tickets, e, Used) == WithStatus(done.tickets, e, Used)
  {
    if more == [] {
      assert run + more == run;
    } else {
      var shorter, a := more[..|more| - 1], more[|more| - 1];
      assert (run + more)[..|run + more| - 1] == run + shorter;
      ReportIsDelayIndependent(run, shorter, e, gross, refunds, rate);
      RunKeepsTickets(run + shorter);
      CompletedStays(After(run + shorter), a, e);
      CompletedFreezesScans(After(run + shorter), a, e);
    }
    ReportRows(run + more, e);
  }

  /** Once stored, a report is never rebuilt nor changed. */
  lemma {:induction false} ReportedOnce(run: seq<Action>, more: seq<Action>, e: nat)
    requires e in After(run).reports
    ensures e in After(run + more).reports && After(run + more).reports[e] == After(run).reports[e]
  {
    if more == [] {
      assert run + more == run;
    } else {
      var shorter := more[..|more| - 1];
      assert (run + more)[..|run + more| - 1] == run + shorter;
      ReportedOnce(run, shorter, e);
      ReportStays(After(run + shorter), more[|more| - 1], e);
    }
  }

  // ---- refunds and reports exclude each other ----

  lemma {:induction false} RunKeepsOutbox(run: seq<Action>)
    ensures Events.OutboxOk(After(run).catalog)
  {
    if run == [] {
    } else {
      var w, a := After(run[..|run| - 1]), run[|run| - 1];
      RunKeepsOutbox(run[..|run| - 1]);
      if a.CatalogStep? {
        Events.StepKeepsOutbox(w.catalog, a.step);
      } else {
        OthersSendNothingCounted(w, a);
      }
    }
  }

  lemma WhatOthersSend(w: World, a: Action)
    requires !a.CatalogStep?
    ensures
      var sent := Step(w, a).catalog.outbox;
      || sent == w.catalog.outbox
      || (a.Assign? && sent == w.catalog.outbox + [Events.Message(a.eventId, AssignedMessage(a.scannerId))])
      || (a.Unassign? && sent == w.catalog.outbox + [Events.Message(a.eventId, UnassignedMessage(a.scannerId))])
  {
  }

  lemma UncountedMessage(c: Events.Catalog, m: Events.Message, d: Events.Catalog)
    requires Events.OutboxOk(c) && d.events == c.events && d.outbox == c.outbox + [m]
    requires m.kind.AssignedMessage? || m.kind.UnassignedMessage?
    ensures Events.OutboxOk(d)
  {
    forall id, tag: Events.Tag
      ensures Events.Sent(d.outbox, id, tag) == if id in d.events then Events.Due(d.events[id].event.status, tag) else 0
    {
      Events.SentAppend(c.outbox, m, id, tag);
      assert Events.Sent(c.outbox, id, tag) == if id in c.events then Events.Due(c.events[id].event.status, tag) else 0;
    }
  }

  lemma OthersSendNothingCounted(w: World, a: Action)
    requires !a.CatalogStep? && Events.OutboxOk(w.catalog)
    ensures Events.OutboxOk(Step(w, a).catalog)
  {
    OthersKeepEvents(w, a);
    WhatOthersSend(w, a);
    var x := Step(w, a);
    if x.catalog.outbox != w.catalog.outbox {
      UncountedMessage(w.catalog, x.catalog.outbox[|x.catalog.outbox| - 1], x.catalog);
    }
  }

  /** An event with a final report never has, at any time of the run, a cancellation to refund. */
  lemma ReportedIsNeverRefunded(run: seq<Action>, more: seq<Action>, e: nat)
    requires e in After(run).reports
    ensures Events.Sent(After(run + more).catalog.outbox, e, Events.TagCancelled) == 0
  {
    ReportedOnce(run, more, e);
    ReportsConserve(run + more, e);
    RunKeepsOutbox(run + more);
  }
}
