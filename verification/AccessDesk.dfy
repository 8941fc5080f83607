/** The admission services as they write their tables, each method one committed transaction. */
module AccessDesk {
  import opened Prelude
  import opened EventModel
  import opened EventHandlers
  import Events = EventRuns
  import opened AccessModel
  import opened AccessAnswers
  import opened AccessRuns
  import opened AdmissionIntegrity
  import opened AssignmentLog
  import opened Commission
  import opened ReportProofs
  import opened SessionRules

  /** A refused call leaves every table as it was; an accepted one commits the specified world. */
  predicate Settled<T(==)>(before: World, after: World, spec: Result<World, AccessError>, result: Result<T, AccessError>) {
    match spec
    case Err(error) => after == before && result == Err(error)
    case Ok(world) => after == world && result.Ok?
  }

  function ValidOf(tickets: map<nat, Ticket>, eventId: nat, orderId: nat): set<nat> {
    set t | t in tickets && tickets[t].eventId == eventId && tickets[t].orderId == orderId && tickets[t].status.Valid?
  }

  // ---- what the runs promise of the stored tables ----

  ghost predicate Sound(w: World) {
    && TicketsOk(w) && SessionsOk(w.sessions, w.now) && SessionEventsOk(w) && AssignmentsOk(w)
    && Events.OutboxOk(w.catalog)
    && forall e :: e in w.reports ==> Conserves(w.reports[e])
  }

  lemma HistoryIsSound(run: seq<Action>)
    ensures Sound(After(run))
  {
    RunKeepsTickets(run);
    RunKeepsSessions(run);
    RunKeepsSessionEvents(run);
    RunKeepsAssignments(run);
    RunKeepsOutbox(run);
    forall e | e in After(run).reports
      ensures Conserves(After(run).reports[e])
    {
      ReportsConserve(run, e);
    }
  }

  /** With at most one open session per event, this is the one. */
  predicate OnlyOpenSession(sessions: seq<Session>, eventId: nat, i: nat) {
    forall j :: 0 <= j < |sessions| ==> (OpenFor(sessions[j], eventId) <==> j == i)
  }

  /** The open session of the event, if there is one. */
  function OpenSessionOf(sessions: seq<Session>, eventId: nat): (found: Option<nat>)
    ensures found.Some? ==> found.value < |sessions| && OpenFor(sessions[found.value], eventId)
    ensures found.None? ==> forall i :: 0 <= i < |sessions| ==> !OpenFor(sessions[i], eventId)
  {
    var i := OpenIndex(sessions, eventId);
    if i < |sessions| then Some(i) else None
  }

  lemma OnlyOneOpen(w: World, i: nat)
    requires SessionsOk(w.sessions, w.now) && i < |w.sessions| && w.sessions[i].closedAt.None?
    ensures OnlyOpenSession(w.sessions, w.sessions[i].eventId, i)
  {
  }

  lemma ClosingEndsAdmission(w: World, e: nat, actor: Option<nat>)
    requires SessionsOk(w.sessions, w.now) && CloseSession(w, e, actor).Ok?
    ensures
      var after := CloseSession(w, e, actor).value.sessions;
      && |after| == |w.sessions|
      && forall j :: 0 <= j < |after| ==>
           && !OpenFor(after[j], e)
           && after[j] == if OpenFor(w.sessions[j], e)
                          then w.sessions[j].(closedAt := Some(w.now), closedBy := actor, closedAutomatically := actor.None?)
                          else w.sessions[j]
  {
    var i := OpenIndex(w.sessions, e);
    if i < |w.sessions| {
      OnlyOneOpen(w, i);
    }
  }

  /** A session of another schedule is closed by whoever opens the new one; all others stay. */
  lemma OpeningTold(w: World, e: nat, user: nat)
    requires SessionsOk(w.sessions, w.now)
    ensures OpenSession(w, e, user).Ok? ==>
              var before, after := w.sessions, OpenSession(w, e, user).value.sessions;
              var start := w.catalog.events[e].event.startsAt;
              if exists i :: 0 <= i < |before| && OpenFor(before[i], e) && before[i].scheduledStart == start
              then after == before
              else
                && |after| == |before| + 1 && after[|before|] == Session(e, start, w.now, user, None, None, false)
                && forall i :: 0 <= i < |before| ==>
                     after[i] == if OpenFor(before[i], e) then before[i].(closedAt := Some(w.now), closedBy := Some(user))
                                 else before[i]
  {
    var i := OpenIndex(w.sessions, e);
    if i < |w.sessions| {
      OnlyOneOpen(w, i);
    }
  }

  lemma UnassigningEndsAssignment(w: World, e: nat, scanner: nat)
    requires AssignmentsOk(w) && UnassignScanner(w, e, scanner).Ok?
    ensures
      var after := UnassignScanner(w, e, scanner).value.assignments;
      && !Assigned(after, e, scanner) && |after| == |w.assignments|
      && forall i :: 0 <= i < |after| ==>
           after[i] == if ActiveRow(w.assignments[i], e, scanner) then w.assignments[i].(active := false)
                       else w.assignments[i]
  {
    var i := ActiveIndex(w.assignments, e, scanner);
    assert forall j :: 0 <= j < |w.assignments| && j != i ==> !ActiveRow(w.assignments[j], e, scanner);
  }

  lemma AdmittedLegitimately(run: seq<Action>, token: Token, user: nat)
    requires Admit(After(run), token, user).Ok?
    ensures
      var w, x := After(run), Admit(After(run), token, user).value;
      && |x.admissions| == |w.admissions| + 1
      && MadeBy(w, Scan(token, user), x.admissions[|w.admissions|])
      && ScansOfTicket(x.admissions, x.admissions[|w.admissions|].ticketId) == 1
  {
    var w, x := After(run), Admit(After(run), token, user).value;
    AdmitResult(w, token, user);
    RunKeepsTickets(run);
    assert x.admissions[..|x.admissions| - 1] == w.admissions;
  }

  lemma NowAssigned(w: World, e: nat, scanner: nat, assignable: bool)
    requires AssignScanner(w, e, scanner, assignable).Ok?
    ensures Assigned(AssignScanner(w, e, scanner, assignable).value.assignments, e, scanner)
  {
    var rows := AssignScanner(w, e, scanner, assignable).value.assignments;
    var i := ActiveIndex(w.assignments, e, scanner);
    assert ActiveRow(rows[i], e, scanner);
  }

  class AccessService {
    var catalog: Events.Catalog
    var now: int
    var tickets: map<nat, Ticket>
    var sessions: seq<Session>
    var assignments: seq<Assignment>
    var scanners: map<nat, Scanner>
    var admissions: seq<Admission>
    var reports: map<nat, AccessModel.Report>
    ghost var history: seq<Action>

    ghost function View(): World
      reads this
    {
      World(catalog, now, tickets, sessions, assignments, scanners, admissions, reports)
    }

    ghost predicate Valid()
      reads this
    {
      View() == After(history)
    }

    constructor ()
      ensures Valid() && history == []
    {
      catalog, now, tickets, sessions := Events.Catalog(map[], []), 0, map[], [];
      assignments, scanners, admissions, reports := [], map[], [], map[];
      history := [];
    }

    ghost method Note(a: Action)
      requires Valid()
      modifies this`history
      ensures history == old(history) + [a]
      ensures After(history) == Step(View(), a)
    {
      Extend(history, a);
      history := history + [a];
    }

    /** Everything the other contexts do: time, the catalog, tickets' issue and transfer, scanner accounts. */
    method Environment(a: Action)
      requires Valid()
      requires a.Tick? || a.CatalogStep? || a.IssueTicket? || a.Transfer? || a.AddScanner? || a.SetScanner?
      modifies this
      ensures Valid() && Sound(View()) && View() == Step(old(View()), a)
    {
      ApplyStep(a);
      HistoryIsSound(history);
    }

    method ApplyStep(a: Action)
      requires Valid()
      modifies this
      ensures Valid() && View() == Step(old(View()), a)
    {
      Note(a);
      var w := World(catalog, now, tickets, sessions, assignments, scanners, admissions, reports);
      SetTables(Step(w, a));
    }

    method SetTables(w: World)
      modifies this`catalog, this`now, this`tickets, this`sessions, this`assignments, this`scanners, this`admissions,
        this`reports
      ensures View() == w
    {
      catalog, now, tickets, sessions := w.catalog, w.now, w.tickets, w.sessions;
      assignments, scanners, admissions, reports := w.assignments, w.scanners, w.admissions, w.reports;
    }

    method TryOpen(eventId: nat, openedBy: nat) returns (result: Result<nat, AccessError>)
      modifies this`sessions
      ensures Settled(old(View()), View(), OpenSession(old(View()), eventId, openedBy), result)
      ensures result.Ok? ==> result.value < |sessions| && OpenFor(sessions[result.value], eventId)
                             && sessions[result.value].scheduledStart == catalog.events[eventId].event.startsAt
    {
      if eventId !in catalog.events {
        return Err(EventNotFound);
      }
      var event := catalog.events[eventId].event;
      if !CanOpenAdmission(event) {
        return Err(AdmissionUnavailable);
      }
      var active := OpenIndex(sessions, eventId);
      if active < |sessions| && sessions[active].scheduledStart == event.startsAt {
        return Ok(active);
      }
      if active < |sessions| {
        var closing := sessions[active];
        closing := closing.(closedAt := Some(now));
        closing := closing.(closedBy := Some(openedBy));
        sessions := sessions[active := closing];
      }
      sessions := sessions + [Session(eventId, event.startsAt, now, openedBy, None, None, false)];
      return Ok(|sessions| - 1);
    }

    method TryClose(eventId: nat, closedBy: nat) returns (result: Result<Option<nat>, AccessError>)
      modifies this`sessions
      ensures Settled(old(View()), View(), CloseSession(old(View()), eventId, Some(closedBy)), result)
      ensures result.Ok? ==> result.value == OpenSessionOf(old(sessions), eventId)
    {
      if eventId !in catalog.events {
        return Err(EventNotFound);
      }
      var active := OpenIndex(sessions, eventId);
      if active == |sessions| {
        return Ok(None);
      }
      var closing := sessions[active];
      closing := closing.(closedAt := Some(now));
      closing := closing.(closedBy := Some(closedBy));
      sessions := sessions[active := closing];
      return Ok(Some(active));
    }

    method TryCloseAutomatically(eventId: nat) returns (result: Result<Option<nat>, AccessError>)
      modifies this`sessions
      ensures Settled(old(View()), View(), CloseSession(old(View()), eventId, None), result)
      ensures result.Ok? ==> result.value == OpenSessionOf(old(sessions), eventId)
    {
      if eventId !in catalog.events {
        return Err(EventNotFound);
      }
      var active := OpenIndex(sessions, eventId);
      if active == |sessions| {
        return Ok(None);
      }
      var closing := sessions[active];
      closing := closing.(closedAt := Some(now));
      closing := closing.(closedBy := None);
      closing := closing.(closedAutomatically := true);
      sessions := sessions[active := closing];
      return Ok(Some(active));
    }

    method RequireEventAdmissionOpen(eventId: nat) returns (error: Option<AccessError>)
      ensures error.None? <==> eventId in catalog.events && AdmissionOpen(View(), eventId)
      ensures error.None? <==> Admits(View(), eventId)
      ensures error.Some? ==> error.value == if eventId in catalog.events then AdmissionClosed else EventNotFound
    {
      GatesAreThese(View(), 0, eventId);
      if eventId !in catalog.events {
        return Some(EventNotFound);
      }
      var event := catalog.events[eventId].event;
      if !CanOpenAdmission(event) {
        return Some(AdmissionClosed);
      }
      if !OpenOnSchedule(sessions, eventId, event.startsAt) {
        return Some(AdmissionClosed);
      }
      return None;
    }

    method LockTicketForAdmission(ticketId: nat) returns (ticket: Option<Ticket>)
      ensures ticket == if ticketId in tickets then Some(tickets[ticketId]) else None
    {
      if ticketId !in tickets {
        return None;
      }
      return Some(tickets[ticketId]);
    }

    method MarkTicketUsed(ticketId: nat)
      requires ticketId in tickets
      modifies this`tickets
      ensures tickets == old(tickets)[ticketId := old(tickets)[ticketId].(status := Used)]
    {
      tickets := tickets[ticketId := tickets[ticketId].(status := Used)];
    }

    method TryAdmit(token: Token, user: nat) returns (result: Result<Admission, AccessError>)
      modifies this`admissions, this`tickets
      ensures Settled(old(View()), View(), Admit(old(View()), token, user), result)
      ensures result.Ok? ==> admissions == old(admissions) + [result.value]
    {
      if token.None? {
        return Err(InvalidQr);
      }
      var (ticketId, qrVersion) := token.value;
      var found := LockTicketForAdmission(ticketId);
      if found.None? || found.value.qrVersion != qrVersion {
        return Err(InvalidQr);
      }
      var ticket := found.value;
      var refused := RequireEventAdmissionOpen(ticket.eventId);
      if refused.Some? {
        return Err(refused.value);
      }
      var scanner := if user in scanners && scanners[user].active then Some(scanners[user].id) else None;
      if scanner.None? || !Assigned(assignments, ticket.eventId, scanner.value) {
        return Err(ScannerNotAssigned);
      }
      if ticket.status.Used? {
        return Err(AlreadyAdmitted);
      }
      if !ticket.status.Valid? {
        return Err(InvalidQr);
      }
      if ScansOfTicket(admissions, ticketId) > 0 {
        return Err(DuplicateAdmission);
      }
      var admission := Admission(ticketId, scanner.value, now);
      admissions := admissions + [admission];
      MarkTicketUsed(ticketId);
      return Ok(admission);
    }

    method TryVoid(eventId: nat, orderId: nat) returns (voided: nat)
      modifies this`tickets
      ensures View() == VoidOrder(old(View()), eventId, orderId)
      ensures voided == |ValidOf(old(tickets), eventId, orderId)|
      ensures ValidOf(tickets, eventId, orderId) == {}
    {
      var chosen := ValidOf(tickets, eventId, orderId);
      tickets := map t | t in tickets :: if t in chosen then tickets[t].(status := Void) else tickets[t];
      return |chosen|;
    }

    method PublishEvent(eventId: nat, kind: Kind)
      modifies this`catalog
      ensures catalog == old(catalog).(outbox := old(catalog).outbox + [Events.Message(eventId, kind)])
    {
      catalog := catalog.(outbox := catalog.outbox + [Events.Message(eventId, kind)]);
    }

    method TryAssign(eventId: nat, scannerId: nat, assignable: bool) returns (result: Result<bool, AccessError>)
      modifies this`assignments, this`catalog
      ensures Settled(old(View()), View(), AssignScanner(old(View()), eventId, scannerId, assignable), result)
      ensures result.Ok? ==> (result.value <==> !Assigned(old(assignments), eventId, scannerId))
    {
      if eventId !in catalog.events {
        return Err(EventNotFound);
      }
      if catalog.events[eventId].event.status !in {Published, Postponed} {
        return Err(AssignmentNotAllowed);
      }
      if !assignable {
        return Err(ScannerNotAssignable);
      }
      var existing := ActiveIndex(assignments, eventId, scannerId);
      var created := existing == |assignments|;
      if created {
        assignments := assignments + [Assignment(eventId, scannerId, true)];
        PublishEvent(eventId, AssignedMessage(scannerId));
      }
      return Ok(created);
    }

    method TryUnassign(eventId: nat, scannerId: nat) returns (result: Result<(), AccessError>)
      modifies this`assignments, this`catalog
      ensures Settled(old(View()), View(), UnassignScanner(old(View()), eventId, scannerId), result)
    {
      if eventId !in catalog.events {
        return Err(EventNotFound);
      }
      var existing := ActiveIndex(assignments, eventId, scannerId);
      if existing == |assignments| {
        return Err(AssignmentNotFound);
      }
      assignments := assignments[existing := assignments[existing].(active := false)];
      PublishEvent(eventId, UnassignedMessage(scannerId));
      return Ok(());
    }

    /** The statistics rows: every grouped row whose scanner is found, in the query's order. */
    method ScannerStats(rows: seq<ScanRow>) returns (stats: seq<ScanRow>)
      ensures stats == NamedRows(rows, scanners)
      ensures forall row ::
                row in stats <==> row in rows && exists user :: user in scanners && scanners[user].id == row.scannerId
    {
      stats := [];
      var i := 0;
      while i < |rows|
        invariant 0 <= i <= |rows| && stats == NamedRows(rows[..i], scanners)
        invariant forall row :: row in stats <==> row in rows[..i] && KnownScanner(scanners, row.scannerId)
      {
        assert rows[..i + 1][..|rows[..i + 1]| - 1] == rows[..i];
        if KnownScanner(scanners, rows[i].scannerId) {
          stats := stats + [rows[i]];
        }
        i := i + 1;
      }
      assert rows[..i] == rows;
    }

    method CountAndSplit(eventId: nat, gross: nat, refunds: nat, rate: Rate) returns (report: AccessModel.Report)
      ensures report == FinalReport(View(), eventId, gross, refunds, rate)
    {
      var sold: int, used: int, voided: int := |TicketsOf(tickets, eventId)|,
        |WithStatus(tickets, eventId, Used)|, |WithStatus(tickets, eventId, Void)|;
      var absent := AtLeastZero(sold - used - voided);
      var kept: int := gross - refunds;
      var net := AtLeastZero(kept);
      var commission: int := CommissionCents(net, rate);
      var organizerNet := AtLeastZero(net - commission);
      var stats := ScannerStats(GroupScans(Scans(admissions, tickets, eventId)));
      report := AccessModel.Report(sold, used, voided, absent, gross, refunds, net, rate, commission, organizerNet, stats);
    }

    method TryBuild(eventId: nat, gross: nat, refunds: nat, rate: Rate)
      returns (result: Result<AccessModel.Report, AccessError>)
      modifies this`reports
      ensures Settled(old(View()), View(), BuildReport(old(View()), eventId, gross, refunds, rate), result)
      ensures result.Ok? ==> eventId in reports && result.value == reports[eventId]
      ensures result.Ok? && eventId !in old(reports) ==>
                result.value == FinalReport(old(View()), eventId, gross, refunds, rate)
      ensures reports == if result.Ok? && eventId !in old(reports) then old(reports)[eventId := result.value] else old(reports)
      ensures result.Err? ==>
                result.error == if eventId in catalog.events then NotCompleted else EventNotFound
      ensures result.Ok? <==>
                eventId in catalog.events && (eventId in old(reports) || catalog.events[eventId].event.status == Completed)
    {
      if eventId !in catalog.events {
        return Err(EventNotFound);
      }
      if eventId in reports {
        return Ok(reports[eventId]);
      }
      if !catalog.events[eventId].event.status.Completed? {
        return Err(NotCompleted);
      }
      var report := CountAndSplit(eventId, gross, refunds, rate);
      reports := reports[eventId := report];
      return Ok(report);
    }

    // ---- the services ----

    /** The session returned is the event's only open one, and it admits. */
    method OpenEventAdmission(eventId: nat, openedBy: nat) returns (result: Result<nat, AccessError>)
      requires Valid()
      modifies this
      ensures Valid() && Sound(View()) && history == old(history) + [OpenAdmission(eventId, openedBy)]
      ensures Settled(old(View()), View(), OpenSession(old(View()), eventId, openedBy), result)
      ensures result == Err(EventNotFound) <==> eventId !in catalog.events
      ensures result == Err(AdmissionUnavailable) <==>
                eventId in catalog.events && !CanOpenAdmission(catalog.events[eventId].event)
      ensures result.Ok? || result == Err(EventNotFound) || result == Err(AdmissionUnavailable)
      ensures result.Ok? ==>
                var start := catalog.events[eventId].event.startsAt;
                if exists i :: 0 <= i < |old(sessions)| && OpenFor(old(sessions)[i], eventId)
                               && old(sessions)[i].scheduledStart == start
                then sessions == old(sessions)
                else
                  && |sessions| == |old(sessions)| + 1 && result.value == |old(sessions)|
                  && sessions[result.value] == Session(eventId, start, now, openedBy, None, None, false)
                  && forall i :: 0 <= i < |old(sessions)| ==>
                       sessions[i] == if OpenFor(old(sessions)[i], eventId)
                                      then old(sessions)[i].(closedAt := Some(now), closedBy := Some(openedBy))
                                      else old(sessions)[i]
      ensures result.Ok? ==> AdmissionOpen(View(), eventId) && OnlyOpenSession(sessions, eventId, result.value)
    {
      HistoryIsSound(history);
      OpeningTold(View(), eventId, openedBy);
      Note(OpenAdmission(eventId, openedBy));
      result := TryOpen(eventId, openedBy);
      HistoryIsSound(history);
      if result.Ok? {
        OnlyOneOpen(View(), result.value);
      }
    }

    method CloseEventAdmission(eventId: nat, closedBy: nat) returns (result: Result<Option<nat>, AccessError>)
      requires Valid()
      modifies this
      ensures Valid() && Sound(View()) && history == old(history) + [CloseAdmission(eventId, Some(closedBy))]
      ensures Settled(old(View()), View(), CloseSession(old(View()), eventId, Some(closedBy)), result)
      ensures result == if eventId in catalog.events then Ok(OpenSessionOf(old(sessions), eventId)) else Err(EventNotFound)
      ensures |sessions| == |old(sessions)|
      ensures forall i :: 0 <= i < |sessions| ==>
                sessions[i] == if eventId in catalog.events && OpenFor(old(sessions)[i], eventId)
                               then old(sessions)[i].(closedAt := Some(now), closedBy := Some(closedBy))
                               else old(sessions)[i]
      ensures result.Ok? ==> !AdmissionOpen(View(), eventId)
    {
      HistoryIsSound(history);
      if CloseSession(View(), eventId, Some(closedBy)).Ok? {
        ClosingEndsAdmission(View(), eventId, Some(closedBy));
      }
      Note(CloseAdmission(eventId, Some(closedBy)));
      result := TryClose(eventId, closedBy);
      HistoryIsSound(history);
    }

    method CloseEventAdmissionAutomatically(eventId: nat) returns (result: Result<Option<nat>, AccessError>)
      requires Valid()
      modifies this
      ensures Valid() && Sound(View()) && history == old(history) + [CloseAdmission(eventId, None)]
      ensures Settled(old(View()), View(), CloseSession(old(View()), eventId, None), result)
      ensures result == if eventId in catalog.events then Ok(OpenSessionOf(old(sessions), eventId)) else Err(EventNotFound)
      ensures |sessions| == |old(sessions)|
      ensures forall i :: 0 <= i < |sessions| ==>
                sessions[i] == if eventId in catalog.events && OpenFor(old(sessions)[i], eventId)
                               then old(sessions)[i].(closedAt := Some(now), closedBy := None, closedAutomatically := true)
                               else old(sessions)[i]
      ensures result.Ok? ==> !AdmissionOpen(View(), eventId)
    {
      HistoryIsSound(history);
      if CloseSession(View(), eventId, None).Ok? {
        ClosingEndsAdmission(View(), eventId, None);
      }
      Note(CloseAdmission(eventId, None));
      result := TryCloseAutomatically(eventId);
      HistoryIsSound(history);
    }

    /** An admission is its ticket's only one; the unique constraint never has to refuse it. */
    method AdmitTicketFromQr(token: Token, user: nat) returns (result: Result<Admission, AccessError>)
      requires Valid()
      modifies this
      ensures Valid() && Sound(View()) && history == old(history) + [Scan(token, user)]
      ensures Settled(old(View()), View(), Admit(old(View()), token, user), result)
      ensures !NamesTicket(old(View()), token) ==> result == Err(InvalidQr)
      ensures NamesTicket(old(View()), token) ==>
                var t := token.value.0;
                var e := old(tickets)[t].eventId;
                && (result == Err(AdmissionClosed) <==> !Admits(old(View()), e))
                && (result == Err(ScannerNotAssigned) <==> Admits(old(View()), e) && !MayScan(old(View()), user, e))
                && (Admits(old(View()), e) && MayScan(old(View()), user, e) ==>
                      && (result == Err(AlreadyAdmitted) <==> ScansOfTicket(old(admissions), t) == 1)
                      && (result == Err(InvalidQr) <==> old(tickets)[t].status == Void)
                      && (result.Ok? <==> old(tickets)[t].status == TicketStatus.Valid))
      ensures result.Ok? ==>
                var t := token.value.0;
                && result.value == Admission(t, old(scanners)[user].id, now)
                && tickets == old(tickets)[t := old(tickets)[t].(status := Used)]
      ensures result.Err? ==> View() == old(View())
      ensures result.Ok? ==>
                && admissions == old(admissions) + [result.value]
                && MadeBy(old(View()), Scan(token, user), result.value)
                && ScansOfTicket(admissions, result.value.ticketId) == 1
    {
      ScanToldExactly(history, token, user);
      if Admit(View(), token, user).Ok? {
        AdmittedLegitimately(history, token, user);
      }
      result := NotedAdmit(token, user);
      HistoryIsSound(history);
    }

    method NotedAdmit(token: Token, user: nat) returns (result: Result<Admission, AccessError>)
      requires Valid()
      modifies this
      ensures Valid() && history == old(history) + [Scan(token, user)]
      ensures Settled(old(View()), View(), Admit(old(View()), token, user), result)
      ensures result.Ok? ==> admissions == old(admissions) + [result.value]
    {
      Note(Scan(token, user));
      result := TryAdmit(token, user);
    }

    /** Refunds void what is still valid; used tickets and their admissions stay. */
    method VoidValidTicketsForOrderEvent(eventId: nat, orderId: nat) returns (voided: nat)
      requires Valid()
      modifies this
      ensures Valid() && Sound(View()) && history == old(history) + [VoidTickets(eventId, orderId)]
      ensures View() == VoidOrder(old(View()), eventId, orderId)
      ensures voided == |ValidOf(old(tickets), eventId, orderId)| && ValidOf(tickets, eventId, orderId) == {}
      ensures tickets.Keys == old(tickets).Keys
      ensures forall t :: t in tickets ==>
                var was := old(tickets)[t];
                tickets[t] == if was.eventId == eventId && was.orderId == orderId && was.status == TicketStatus.Valid
                              then was.(status := Void) else was
    {
      Note(VoidTickets(eventId, orderId));
      voided := TryVoid(eventId, orderId);
      HistoryIsSound(history);
    }

    /** Assigned afterwards, both in the table and in the folded records. */
    method Assign(eventId: nat, scannerId: nat, assignable: bool) returns (result: Result<bool, AccessError>)
      requires Valid()
      modifies this
      ensures Valid() && Sound(View()) && history == old(history) + [Action.Assign(eventId, scannerId, assignable)]
      ensures Settled(old(View()), View(), AssignScanner(old(View()), eventId, scannerId, assignable), result)
      ensures result == Err(EventNotFound) <==> eventId !in catalog.events
      ensures eventId in catalog.events ==>
                var allowed := catalog.events[eventId].event.status in {Published, Postponed};
                && (result == Err(AssignmentNotAllowed) <==> !allowed)
                && (result == Err(ScannerNotAssignable) <==> allowed && !assignable)
                && (result.Ok? <==> allowed && assignable)
      ensures if result == Ok(true)
              then
                && assignments == old(assignments) + [Assignment(eventId, scannerId, true)]
                && catalog.outbox == old(catalog).outbox + [Events.Message(eventId, AssignedMessage(scannerId))]
              else View() == old(View())
      ensures result.Ok? ==>
                && (result.value <==> !Assigned(old(assignments), eventId, scannerId))
                && Assigned(assignments, eventId, scannerId) && scannerId in Replayed(catalog.outbox, eventId)
    {
      Note(Action.Assign(eventId, scannerId, assignable));
      result := TryAssign(eventId, scannerId, assignable);
      HistoryIsSound(history);
      if result.Ok? {
        NowAssigned(old(View()), eventId, scannerId, assignable);
        AssignmentLogReplays(history, eventId, scannerId);
      }
    }

    method Unassign(eventId: nat, scannerId: nat) returns (result: Result<(), AccessError>)
      requires Valid()
      modifies this
      ensures Valid() && Sound(View()) && history == old(history) + [Action.Unassign(eventId, scannerId)]
      ensures Settled(old(View()), View(), UnassignScanner(old(View()), eventId, scannerId), result)
      ensures result == Err(EventNotFound) <==> eventId !in catalog.events
      ensures result == Err(AssignmentNotFound) <==>
                eventId in catalog.events && !Assigned(old(assignments), eventId, scannerId)
      ensures if result.Ok?
              then catalog.outbox == old(catalog).outbox + [Events.Message(eventId, UnassignedMessage(scannerId))]
              else View() == old(View())
      ensures result.Ok? ==>
                && |assignments| == |old(assignments)|
                && (forall i :: 0 <= i < |assignments| ==>
                      assignments[i] == if ActiveRow(old(assignments)[i], eventId, scannerId)
                                        then old(assignments)[i].(active := false) else old(assignments)[i])
                && !Assigned(assignments, eventId, scannerId) && scannerId !in Replayed(catalog.outbox, eventId)
    {
      HistoryIsSound(history);
      if UnassignScanner(View(), eventId, scannerId).Ok? {
        UnassigningEndsAssignment(View(), eventId, scannerId);
      }
      Note(Action.Unassign(eventId, scannerId));
      result := TryUnassign(eventId, scannerId);
      assert Sound(View())
             && (scannerId in Replayed(catalog.outbox, eventId) <==> Assigned(assignments, eventId, scannerId)) by {
        HistoryIsSound(history);
        AssignmentLogReplays(history, eventId, scannerId);
      }
    }

    /** Every report returned conserves tickets and money, and no stored one is ever replaced. */
    method BuildEventFinalReport(eventId: nat, gross: nat, refunds: nat, rate: Rate)
      returns (result: Result<AccessModel.Report, AccessError>)
      requires Valid()
      modifies this
      ensures Valid() && Sound(View()) && history == old(history) + [Action.Report(eventId, gross, refunds, rate)]
      ensures Settled(old(View()), View(), BuildReport(old(View()), eventId, gross, refunds, rate), result)
      ensures result == Err(EventNotFound) <==> eventId !in catalog.events
      ensures result == Err(NotCompleted) <==>
                && eventId in catalog.events && eventId !in old(reports)
                && catalog.events[eventId].event.status != Completed
      ensures result.Ok? || result == Err(EventNotFound) || result == Err(NotCompleted)
      ensures result.Ok? && eventId !in old(reports) ==>
                && Tells(result.value, old(View()), eventId, gross, refunds, rate)
                && result.value.gross == gross && result.value.refunds == refunds && result.value.rate == rate
                && result.value.net == (if refunds <= gross then gross - refunds else 0)
                && result.value.commission == CommissionCents(result.value.net, rate)
                && reports == old(reports)[eventId := result.value]
      ensures result.Ok? ==> eventId in reports && result.value == reports[eventId] && Conserves(result.value)
      ensures forall e :: e in old(reports) ==> e in reports && reports[e] == old(reports)[e]
    {
      ghost var was := history;
      result := NotedBuild(eventId, gross, refunds, rate);
      assert Sound(View()) by {
        HistoryIsSound(history);
      }
      FinalReportTells(was, eventId, gross, refunds, rate);
    }

    method NotedBuild(eventId: nat, gross: nat, refunds: nat, rate: Rate)
      returns (result: Result<AccessModel.Report, AccessError>)
      requires Valid()
      modifies this`reports, this`history
      ensures Valid() && history == old(history) + [Action.Report(eventId, gross, refunds, rate)]
      ensures Settled(old(View()), View(), BuildReport(old(View()), eventId, gross, refunds, rate), result)
      ensures result.Ok? ==> eventId in reports && result.value == reports[eventId]
      ensures result.Ok? && eventId !in old(reports) ==>
                result.value == FinalReport(old(View()), eventId, gross, refunds, rate)
      ensures reports == if result.Ok? && eventId !in old(reports) then old(reports)[eventId := result.value] else old(reports)
      ensures result.Err? ==>
                result.error == if eventId in catalog.events then NotCompleted else EventNotFound
      ensures result.Ok? <==>
                eventId in catalog.events && (eventId in old(reports) || catalog.events[eventId].event.status == Completed)
    {
      Note(Action.Report(eventId, gross, refunds, rate));
      result := TryBuild(eventId, gross, refunds, rate);
    }
  }
}
