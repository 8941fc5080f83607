/** What every answer of a scan and every stored report say about the run before them. */
module AccessAnswers {
  import opened Prelude
  import opened EventModel
  import opened AccessModel
  import opened AccessRuns
  import opened AdmissionIntegrity
  import opened Commission
  import opened ReportProofs
  import opened SessionRules
  import Events = EventRuns

  // ---- scans ----

  /** A ticket's event is there and published, or beyond. */
  predicate TicketEventsOk(w: World) {
    forall t :: t in w.tickets ==>
      w.tickets[t].eventId in w.catalog.events && !w.catalog.events[w.tickets[t].eventId].event.status.Draft?
  }

  lemma TicketsKeepEvents(w: World, a: Action, t: nat)
    requires TicketEventsOk(w) && t in Step(w, a).tickets && !a.CatalogStep?
    ensures
      var e := Step(w, a).tickets[t].eventId;
      e in w.catalog.events && !w.catalog.events[e].event.status.Draft?
  {
    if t in w.tickets {
      TicketsStay(w, a, t);
    }
  }

  lemma StepKeepsTicketEvents(w: World, a: Action)
    requires TicketEventsOk(w)
    ensures TicketEventsOk(Step(w, a))
  {
    var x := Step(w, a);
    forall t | t in x.tickets
      ensures x.tickets[t].eventId in x.catalog.events
      ensures !x.catalog.events[x.tickets[t].eventId].event.status.Draft?
    {
      if a.CatalogStep? {
        Events.StepFreezes(w.catalog, a.step, w.tickets[t].eventId);
      } else {
        TicketsKeepEvents(w, a, t);
        OthersKeepEvents(w, a);
      }
    }
  }

  lemma {:induction false} RunKeepsTicketEvents(run: seq<Action>)
    ensures TicketEventsOk(After(run))
  {
    if run == [] {
    } else {
      RunKeepsTicketEvents(run[..|run| - 1]);
      StepKeepsTicketEvents(After(run[..|run| - 1]), run[|run| - 1]);
    }
  }

  /** The token decodes to a known ticket at its current version. */
  predicate NamesTicket(w: World, token: Token) {
    token.Some? && token.value.0 in w.tickets && w.tickets[token.value.0].qrVersion == token.value.1
  }

  /** The user has an active scanner account assigned to the event. */
  predicate MayScan(w: World, user: nat, eventId: nat) {
    && user in w.scanners && w.scanners[user].active
    && exists i :: 0 <= i < |w.assignments| && w.assignments[i] == Assignment(eventId, w.scanners[user].id, true)
  }

  /** A usable schedule, and an open session of the event for its current start. */
  predicate Admits(w: World, eventId: nat) {
    && eventId in w.catalog.events
    && var e := w.catalog.events[eventId].event;
       && (e.status == Published || (e.status == Postponed && e.toStartsAt.Some? && e.toEndsAt.Some?))
       && exists i ::
            && 0 <= i < |w.sessions| && w.sessions[i].eventId == eventId && w.sessions[i].closedAt == None
            && w.sessions[i].scheduledStart == e.startsAt
  }

  lemma GatesAreThese(w: World, user: nat, eventId: nat)
    ensures Admits(w, eventId) <==> eventId in w.catalog.events && AdmissionOpen(w, eventId)
    ensures MayScan(w, user, eventId) <==>
              ActiveScanner(w, user).Some? && Assigned(w.assignments, eventId, ActiveScanner(w, user).value)
  {
    if eventId in w.catalog.events && AdmissionOpen(w, eventId) {
      var i :| 0 <= i < |w.sessions| && OpenFor(w.sessions[i], eventId)
               && w.sessions[i].scheduledStart == w.catalog.events[eventId].event.startsAt;
      assert w.sessions[i].eventId == eventId;
    }
    if Admits(w, eventId) {
      var i :| 0 <= i < |w.sessions| && w.sessions[i].eventId == eventId && w.sessions[i].closedAt == None
               && w.sessions[i].scheduledStart == w.catalog.events[eventId].event.startsAt;
      assert OpenFor(w.sessions[i], eventId);
    }
    if MayScan(w, user, eventId) {
      var i :| 0 <= i < |w.assignments| && w.assignments[i] == Assignment(eventId, w.scanners[user].id, true);
      assert ActiveRow(w.assignments[i], eventId, w.scanners[user].id);
    }
    if ActiveScanner(w, user).Some? && Assigned(w.assignments, eventId, w.scanners[user].id) {
      var i :| 0 <= i < |w.assignments| && ActiveRow(w.assignments[i], eventId, w.scanners[user].id);
      assert w.assignments[i] == Assignment(eventId, w.scanners[user].id, true);
    }
  }

  /** Each answer of a scan with its one reason. */
  predicate ScanTells(w: World, token: Token, user: nat, result: Result<World, AccessError>) {
    && (!NamesTicket(w, token) ==> result == Err(InvalidQr))
    && (NamesTicket(w, token) ==>
          var t := token.value.0;
          var e := w.tickets[t].eventId;
          && (result == Err(AdmissionClosed) <==> !Admits(w, e))
          && (result == Err(ScannerNotAssigned) <==> Admits(w, e) && !MayScan(w, user, e))
          && (Admits(w, e) && MayScan(w, user, e) ==>
                && (result == Err(AlreadyAdmitted) <==> ScansOfTicket(w.admissions, t) == 1)
                && (result == Err(InvalidQr) <==> w.tickets[t].status == Void)
                && (result.Ok? <==> w.tickets[t].status == Valid)))
  }

  lemma ScanHolds(w: World, token: Token, user: nat)
    requires UsedMeansScanned(w) && TicketEventsOk(w)
    ensures ScanTells(w, token, user, Admit(w, token, user))
  {
    if NamesTicket(w, token) {
      var t := token.value.0;
      GatesAreThese(w, user, w.tickets[t].eventId);
      assert ScansOfTicket(w.admissions, t) == if w.tickets[t].status.Used? then 1 else 0;
    }
  }

  /**
   In every reachable state a scan is answered by the ticket's own history: past the token, the gate
   and the scanner, a ticket that was admitted once is "already admitted", a void one is invalid, and
   any other is accepted. No other answer ever occurs.
   */
  lemma ScanToldExactly(run: seq<Action>, token: Token, user: nat)
    ensures ScanTells(After(run), token, user, Admit(After(run), token, user))
  {
    RunKeepsTickets(run);
    RunKeepsTicketEvents(run);
    ScanHolds(After(run), token, user);
  }

  predicate Refunds(w: World, a: Action, t: nat) {
    && a.VoidTickets? && t in w.tickets && w.tickets[t].status.Valid?
    && w.tickets[t].eventId == a.eventId && w.tickets[t].orderId == a.orderId
  }

  lemma StatusTells(w: World, a: Action, t: nat)
    requires t in Step(w, a).tickets
    ensures Step(w, a).tickets[t].status.Void? <==> (t in w.tickets && w.tickets[t].status.Void?) || Refunds(w, a, t)
  {
    if a.Scan? && Admit(w, a.token, a.user).Ok? {
      AdmitResult(w, a.token, a.user);
    }
  }

  lemma VoidStays(w: World, a: Action, t: nat)
    requires t in w.tickets && w.tickets[t].status.Void?
    ensures t in Step(w, a).tickets && Step(w, a).tickets[t].status.Void?
  {
    TicketsStay(w, a, t);
    StatusTells(w, a, t);
  }

  lemma RefundVoids(w: World, a: Action, t: nat)
    requires Refunds(w, a, t)
    ensures t in Step(w, a).tickets && Step(w, a).tickets[t].status.Void?
  {
    TicketsStay(w, a, t);
    StatusTells(w, a, t);
  }

  lemma {:induction false} RefundLasts(run: seq<Action>, n: nat, t: nat)
    requires n < |run| && Refunds(After(run[..n]), run[n], t)
    ensures t in After(run).tickets && After(run).tickets[t].status.Void?
  {
    var shorter := run[..|run| - 1];
    if n == |run| - 1 {
      RefundVoids(After(shorter), run[n], t);
    } else {
      assert shorter[..n] == run[..n];
      RefundLasts(shorter, n, t);
      VoidStays(After(shorter), run[|run| - 1], t);
    }
  }

  lemma {:induction false} VoidWasRefunded(run: seq<Action>, t: nat) returns (n: nat)
    requires t in After(run).tickets && After(run).tickets[t].status.Void?
    ensures n < |run| && Refunds(After(run[..n]), run[n], t)
  {
    var shorter, a := run[..|run| - 1], run[|run| - 1];
    StatusTells(After(shorter), a, t);
    if Refunds(After(shorter), a, t) {
      n := |run| - 1;
    } else {
      n := VoidWasRefunded(shorter, t);
      assert shorter[..n] == run[..n];
    }
  }

  /** A ticket is void exactly if some refund of its order met it while it was still valid. */
  lemma VoidMeansRefunded(run: seq<Action>, t: nat)
    requires t in After(run).tickets
    ensures After(run).tickets[t].status.Void? <==> exists n: nat :: n < |run| && Refunds(After(run[..n]), run[n], t)
  {
    if After(run).tickets[t].status.Void? {
      var n := VoidWasRefunded(run, t);
    }
    forall n: nat | n < |run| && Refunds(After(run[..n]), run[n], t)
      ensures After(run).tickets[t].status.Void?
    {
      RefundLasts(run, n, t);
    }
  }

  // ---- reports ----

  /** The amounts and the rate as given, the net never negative, the commission its half-up share. */
  predicate TellsAmounts(r: AccessModel.Report, gross: nat, refunds: nat, rate: nat) {
    && r.gross == gross && r.refunds == refunds && r.rate == rate
    && r.net == Max(gross - refunds, 0)
    && r.commission == CommissionCents(r.net, rate) && IsHalfUp(r.net * rate, r.commission)
    && r.organizerNet == r.net - r.commission
  }

  /** The event's tickets, and those used, void and valid. */
  predicate TellsTickets(r: AccessModel.Report, tickets: map<nat, Ticket>, e: nat) {
    && r.sold == |set t | t in tickets && tickets[t].eventId == e|
    && r.used == |set t | t in tickets && tickets[t].eventId == e && tickets[t].status == Used|
    && r.voided == |set t | t in tickets && tickets[t].eventId == e && tickets[t].status == Void|
    && r.absent == |set t | t in tickets && tickets[t].eventId == e && tickets[t].status == Valid|
  }

  /** A row for each scanner that scanned, and for no other, with its number of scans. */
  ghost predicate TellsScans(r: AccessModel.Report, scans: seq<Admission>) {
    forall id ::
      var row := RowOf(r.scannerStats, id);
      && (row.Some? <==> ScansBy(scans, id) > 0)
      && (row.Some? ==> row.value.scanCount == ScansBy(scans, id))
  }

  lemma AmountsTold(w: World, e: nat, gross: nat, refunds: nat, rate: Rate)
    ensures TellsAmounts(FinalReport(w, e, gross, refunds, rate), gross, refunds, rate)
  {
    var net := FinalReport(w, e, gross, refunds, rate).net;
    WithinAmount(net, rate);
    RoundsHalfUp(net, rate, CommissionCents(net, rate));
  }

  lemma CountsTold(r: AccessModel.Report, tickets: map<nat, Ticket>, e: nat)
    requires r.sold == |TicketsOf(tickets, e)|
    requires r.used == |WithStatus(tickets, e, Used)| && r.voided == |WithStatus(tickets, e, Void)|
    requires r.absent == |WithStatus(tickets, e, Valid)|
    ensures TellsTickets(r, tickets, e)
  {
    assert (set t | t in tickets && tickets[t].eventId == e) == TicketsOf(tickets, e);
    assert (set t | t in tickets && tickets[t].eventId == e && tickets[t].status == Used) == WithStatus(tickets, e, Used);
    assert (set t | t in tickets && tickets[t].eventId == e && tickets[t].status == Void) == WithStatus(tickets, e, Void);
    assert (set t | t in tickets && tickets[t].eventId == e && tickets[t].status == Valid) == WithStatus(tickets, e, Valid);
  }

  lemma TicketsTold(run: seq<Action>, e: nat, gross: nat, refunds: nat, rate: Rate)
    ensures TellsTickets(FinalReport(After(run), e, gross, refunds, rate), After(run).tickets, e)
  {
    FinalReportConserves(run, e, gross, refunds, rate);
    CountsTold(FinalReport(After(run), e, gross, refunds, rate), After(run).tickets, e);
  }

  lemma ScansTold(run: seq<Action>, e: nat, gross: nat, refunds: nat, rate: Rate)
    ensures
      var w := After(run);
      TellsScans(FinalReport(w, e, gross, refunds, rate), Scans(w.admissions, w.tickets, e))
  {
    var scans := Scans(After(run).admissions, After(run).tickets, e);
    ReportRows(run, e);
    forall id
      ensures RowOf(GroupScans(scans), id).Some? <==> ScansBy(scans, id) > 0
      ensures RowOf(GroupScans(scans), id).Some? ==>
                RowOf(GroupScans(scans), id).value.scanCount == ScansBy(scans, id)
    {
      GroupingCounts(scans, id);
    }
  }

  /** What a report built from this state and these amounts must say. */
  ghost predicate Tells(r: AccessModel.Report, w: World, e: nat, gross: nat, refunds: nat, rate: nat) {
    && TellsAmounts(r, gross, refunds, rate) && TellsTickets(r, w.tickets, e)
    && TellsScans(r, Scans(w.admissions, w.tickets, e))
  }

  lemma FinalReportTells(run: seq<Action>, e: nat, gross: nat, refunds: nat, rate: Rate)
    ensures Tells(FinalReport(After(run), e, gross, refunds, rate), After(run), e, gross, refunds, rate)
  {
    AmountsTold(After(run), e, gross, refunds, rate);
    TicketsTold(run, e, gross, refunds, rate);
    ScansTold(run, e, gross, refunds, rate);
  }

  predicate AcceptedReport(w: World, a: Action, e: nat) {
    a.Report? && a.eventId == e && e in w.catalog.events && w.catalog.events[e].event.status == Completed
  }

  lemma FirstBuild(w: World, a: Action, e: nat)
    requires e !in w.reports
    ensures e in Step(w, a).reports <==> AcceptedReport(w, a, e)
    ensures e in Step(w, a).reports ==> Step(w, a).reports[e] == FinalReport(w, e, a.gross, a.refunds, a.rate)
  {
    if !a.Report? {
      OnlyReportAddsReports(w, a);
    }
  }

  /** Every stored report tells the amounts and the tickets of the first build after its event's completion. */
  lemma {:induction false} ReportTellsFirstBuild(run: seq<Action>, e: nat) returns (n: nat)
    requires e in After(run).reports
    ensures n < |run| && AcceptedReport(After(run[..n]), run[n], e)
    ensures Tells(After(run).reports[e], After(run[..n]), e, run[n].gross, run[n].refunds, run[n].rate)
    ensures forall m: nat :: m < n ==> !AcceptedReport(After(run[..m]), run[m], e)
  {
    var shorter, a := run[..|run| - 1], run[|run| - 1];
    if e in After(shorter).reports {
      n := ReportTellsFirstBuild(shorter, e);
      assert shorter[..n] == run[..n];
      ReportStays(After(shorter), a, e);
      forall m: nat | m < n
        ensures !AcceptedReport(After(run[..m]), run[m], e)
      {
        assert run[..m] == shorter[..m] && run[m] == shorter[m];
      }
    } else {
      n := |run| - 1;
      FirstBuild(After(shorter), a, e);
      FinalReportTells(shorter, e, a.gross, a.refunds, a.rate);
      forall m: nat | m < n
        ensures !AcceptedReport(After(run[..m]), run[m], e)
      {
        assert run[..m] == shorter[..m] && run[m] == shorter[m];
        if AcceptedReport(After(run[..m]), run[m], e) {
          BuildLasts(shorter, m, e);
        }
      }
    }
  }

  lemma BuildLeavesReport(w: World, a: Action, e: nat)
    requires AcceptedReport(w, a, e)
    ensures e in Step(w, a).reports
  {
    if e in w.reports {
      ReportStays(w, a, e);
    } else {
      FirstBuild(w, a, e);
    }
  }

  lemma {:induction false} BuildLasts(run: seq<Action>, m: nat, e: nat)
    requires m < |run| && AcceptedReport(After(run[..m]), run[m], e)
    ensures e in After(run).reports
  {
    var shorter := run[..|run| - 1];
    if m == |run| - 1 {
      BuildLeavesReport(After(shorter), run[m], e);
    } else {
      assert shorter[..m] == run[..m];
      BuildLasts(shorter, m, e);
      ReportStays(After(shorter), run[|run| - 1], e);
    }
  }
}
