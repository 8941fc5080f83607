/**
 Admission to events: sessions, scanner assignments, ticket scans and the final report, each
 service as one transaction over the stored rows. Issuing, transferring and voiding tickets and
 changing scanner accounts are the environment's steps.
 */
module AccessModel {
  import opened Prelude
  import opened EventModel
  import opened EventHandlers
  import opened EventRuns
  import opened Commission

  datatype TicketStatus = Valid | Used | Void

  datatype Ticket = Ticket(eventId: nat, orderId: nat, status: TicketStatus, qrVersion: nat)

  datatype Session = Session(
    eventId: nat,
    scheduledStart: int,
    openedAt: int,
    openedBy: nat,
    closedAt: Option<int>,
    closedBy: Option<nat>,
    closedAutomatically: bool)

  datatype Assignment = Assignment(eventId: nat, scannerId: nat, active: bool)

  /** A scanner account, stored under its user; `active` sums up the account's conditions. */
  datatype Scanner = Scanner(id: nat, active: bool)

  datatype Admission = Admission(ticketId: nat, scannerId: nat, admittedAt: int)

  datatype ScanRow = ScanRow(scannerId: nat, scanCount: nat, lastScanAt: int)

  datatype Report = Report(
    sold: nat, used: nat, voided: nat, absent: nat,
    gross: nat, refunds: nat, net: nat,
    rate: nat, commission: nat, organizerNet: nat,
    scannerStats: seq<ScanRow>)

  type Rate = r: nat | r <= RATE_UNIT

  datatype World = World(
    catalog: Catalog,
    now: int,
    tickets: map<nat, Ticket>,
    sessions: seq<Session>,
    assignments: seq<Assignment>,
    scanners: map<nat, Scanner>,
    admissions: seq<Admission>,
    reports: map<nat, Report>)

  datatype AccessError =
    | EventNotFound | AdmissionUnavailable | AdmissionClosed
    | InvalidQr | ScannerNotAssigned | AlreadyAdmitted | DuplicateAdmission
    | AssignmentNotAllowed | ScannerNotAssignable | AssignmentNotFound | NotCompleted

  // ---- admission sessions ----

  predicate OpenFor(s: Session, eventId: nat) {
    s.eventId == eventId && s.closedAt.None?
  }

  /** The first open session of an event, or the number of sessions. */
  function OpenIndex(sessions: seq<Session>, eventId: nat): (i: nat)
    ensures i <= |sessions|
    ensures i < |sessions| ==> OpenFor(sessions[i], eventId)
    ensures forall j :: 0 <= j < i ==> !OpenFor(sessions[j], eventId)
  {
    if sessions == [] || OpenFor(sessions[0], eventId) then 0 else 1 + OpenIndex(sessions[1..], eventId)
  }

  predicate OpenOnSchedule(sessions: seq<Session>, eventId: nat, startsAt: int) {
    exists i :: 0 <= i < |sessions| && OpenFor(sessions[i], eventId) && sessions[i].scheduledStart == startsAt
  }

  /** The event admits: its state allows it and an open session matches its current start. */
  predicate AdmissionOpen(w: World, eventId: nat)
    requires eventId in w.catalog.events
  {
    var e := w.catalog.events[eventId].event;
    CanOpenAdmission(e) && OpenOnSchedule(w.sessions, eventId, e.startsAt)
  }

  function Closed(s: Session, at: int, actor: Option<nat>): Session {
    s.(closedAt := Some(at), closedBy := actor, closedAutomatically := s.closedAutomatically || actor.None?)
  }

  function OpenSession(w: World, eventId: nat, actor: nat): Result<World, AccessError> {
    if eventId !in w.catalog.events then Err(EventNotFound)
    else
      var e := w.catalog.events[eventId].event;
      var i := OpenIndex(w.sessions, eventId);
      var newSession := Session(eventId, e.startsAt, w.now, actor, None, None, false);
      if !CanOpenAdmission(e) then Err(AdmissionUnavailable)
      else if i == |w.sessions| then Ok(w.(sessions := w.sessions + [newSession]))
      else if w.sessions[i].scheduledStart == e.startsAt then Ok(w)
      else Ok(w.(sessions := w.sessions[i := Closed(w.sessions[i], w.now, Some(actor))] + [newSession]))
  }

  /** By a user, or automatically when `actor` is absent. */
  function CloseSession(w: World, eventId: nat, actor: Option<nat>): Result<World, AccessError> {
    var i := OpenIndex(w.sessions, eventId);
    if eventId !in w.catalog.events then Err(EventNotFound)
    else if i == |w.sessions| then Ok(w)
    else Ok(w.(sessions := w.sessions[i := Closed(w.sessions[i], w.now, actor)]))
  }

  // ---- scanner assignments ----

  predicate ActiveRow(a: Assignment, eventId: nat, scannerId: nat) {
    a.active && a.eventId == eventId && a.scannerId == scannerId
  }

  function ActiveIndex(rows: seq<Assignment>, eventId: nat, scannerId: nat): (i: nat)
    ensures i <= |rows|
    ensures i < |rows| ==> ActiveRow(rows[i], eventId, scannerId)
    ensures forall j :: 0 <= j < i ==> !ActiveRow(rows[j], eventId, scannerId)
  {
    if rows == [] || ActiveRow(rows[0], eventId, scannerId) then 0
    else 1 + ActiveIndex(rows[1..], eventId, scannerId)
  }

  predicate Assigned(rows: seq<Assignment>, eventId: nat, scannerId: nat) {
    exists i :: 0 <= i < |rows| && ActiveRow(rows[i], eventId, scannerId)
  }

  function Notify(w: World, eventId: nat, kind: Kind): World {
    w.(catalog := w.catalog.(outbox := w.catalog.outbox + [Message(eventId, kind)]))
  }

  /** `assignable` is the organizing context's answer about the scanner account. */
  function AssignScanner(w: World, eventId: nat, scannerId: nat, assignable: bool): Result<World, AccessError> {
    if eventId !in w.catalog.events then Err(EventNotFound)
    else if w.catalog.events[eventId].event.status !in {Published, Postponed} then Err(AssignmentNotAllowed)
    else if !assignable then Err(ScannerNotAssignable)
    else if ActiveIndex(w.assignments, eventId, scannerId) < |w.assignments| then Ok(w)
    else Ok(Notify(w, eventId, AssignedMessage(scannerId))
            .(assignments := w.assignments + [Assignment(eventId, scannerId, true)]))
  }

  function UnassignScanner(w: World, eventId: nat, scannerId: nat): Result<World, AccessError> {
    var i := ActiveIndex(w.assignments, eventId, scannerId);
    if eventId !in w.catalog.events then Err(EventNotFound)
    else if i == |w.assignments| then Err(AssignmentNotFound)
    else Ok(Notify(w, eventId, UnassignedMessage(scannerId))
            .(assignments := w.assignments[i := w.assignments[i].(active := false)]))
  }

  // ---- scanning ----

  /** A signed QR code, reduced to the ticket and the version it names; `None` fails to decode. */
  type Token = Option<(nat, nat)>

  function ActiveScanner(w: World, user: nat): Option<nat> {
    if user in w.scanners && w.scanners[user].active then Some(w.scanners[user].id) else None
  }

  function ScansOfTicket(admissions: seq<Admission>, ticketId: nat): nat {
    if admissions == [] then 0
    else
      ScansOfTicket(admissions[..|admissions| - 1], ticketId)
      + if admissions[|admissions| - 1].ticketId == ticketId then 1 else 0
  }

  function Admit(w: World, token: Token, user: nat): Result<World, AccessError> {
    if token.None? then Err(InvalidQr)
    else
      var (ticketId, qrVersion) := token.value;
      if ticketId !in w.tickets || w.tickets[ticketId].qrVersion != qrVersion then Err(InvalidQr)
      else
        var ticket := w.tickets[ticketId];
        var scanner := ActiveScanner(w, user);
        if ticket.eventId !in w.catalog.events then Err(EventNotFound)
        else if !AdmissionOpen(w, ticket.eventId) then Err(AdmissionClosed)
        else if scanner.None? || !Assigned(w.assignments, ticket.eventId, scanner.value) then Err(ScannerNotAssigned)
        else if ticket.status.Used? then Err(AlreadyAdmitted)
        else if !ticket.status.Valid? then Err(InvalidQr)
        else if ScansOfTicket(w.admissions, ticketId) > 0 then Err(DuplicateAdmission)
        else Ok(w.(admissions := w.admissions + [Admission(ticketId, scanner.value, w.now)],
                   tickets := w.tickets[ticketId := ticket.(status := Used)]))
  }

  // ---- the final report ----

  function TicketsOf(tickets: map<nat, Ticket>, eventId: nat): set<nat> {
    set t | t in tickets && tickets[t].eventId == eventId
  }

  function WithStatus(tickets: map<nat, Ticket>, eventId: nat, status: TicketStatus): set<nat> {
    set t | t in tickets && tickets[t].eventId == eventId && tickets[t].status == status
  }

  predicate ScanOf(tickets: map<nat, Ticket>, eventId: nat, a: Admission) {
    a.ticketId in tickets && tickets[a.ticketId].eventId == eventId
  }

  /** The admissions of one event's tickets, oldest first. */
  function Scans(admissions: seq<Admission>, tickets: map<nat, Ticket>, eventId: nat): seq<Admission> {
    if admissions == [] then []
    else
      var a := admissions[|admissions| - 1];
      Scans(admissions[..|admissions| - 1], tickets, eventId) + if ScanOf(tickets, eventId, a) then [a] else []
  }

  function Max(a: int, b: int): int {
    if a < b then b else a
  }

  /** Counts one more scan in rows kept in scanner order. */
  function CountScan(rows: seq<ScanRow>, a: Admission): seq<ScanRow> {
    if rows == [] || a.scannerId < rows[0].scannerId then [ScanRow(a.scannerId, 1, a.admittedAt)] + rows
    else if rows[0].scannerId == a.scannerId then
      [ScanRow(a.scannerId, rows[0].scanCount + 1, Max(rows[0].lastScanAt, a.admittedAt))] + rows[1..]
    else [rows[0]] + CountScan(rows[1..], a)
  }

  /** The report's query: scans grouped by scanner, with count and latest instant, in scanner order. */
  function GroupScans(scans: seq<Admission>): seq<ScanRow> {
    if scans == [] then [] else CountScan(GroupScans(scans[..|scans| - 1]), scans[|scans| - 1])
  }

  predicate KnownScanner(scanners: map<nat, Scanner>, id: nat) {
    exists user :: user in scanners && scanners[user].id == id
  }

  /** Rows whose scanner can be found. */
  function NamedRows(rows: seq<ScanRow>, scanners: map<nat, Scanner>): seq<ScanRow> {
    if rows == [] then []
    else
      var row := rows[|rows| - 1];
      NamedRows(rows[..|rows| - 1], scanners) + if KnownScanner(scanners, row.scannerId) then [row] else []
  }

  function AtLeastZero(n: int): nat {
    if n < 0 then 0 else n
  }

  function FinalReport(w: World, eventId: nat, gross: nat, refunds: nat, rate: Rate): Report {
    var sold := |TicketsOf(w.tickets, eventId)|;
    var used := |WithStatus(w.tickets, eventId, Used)|;
    var voided := |WithStatus(w.tickets, eventId, Void)|;
    var net := AtLeastZero(gross - refunds);
    var commission := CommissionCents(net, rate);
    Report(sold, used, voided, AtLeastZero(sold - used - voided),
           gross, refunds, net, rate, commission, AtLeastZero(net - commission),
           NamedRows(GroupScans(Scans(w.admissions, w.tickets, eventId)), w.scanners))
  }

  function BuildReport(w: World, eventId: nat, gross: nat, refunds: nat, rate: Rate): Result<World, AccessError> {
    if eventId !in w.catalog.events then Err(EventNotFound)
    else if eventId in w.reports then Ok(w)
    else if !w.catalog.events[eventId].event.status.Completed? then Err(NotCompleted)
    else Ok(w.(reports := w.reports[eventId := FinalReport(w, eventId, gross, refunds, rate)]))
  }

  // ---- the environment ----

  predicate Transferable(w: World, ticketId: nat) {
    && ticketId in w.tickets && w.tickets[ticketId].status.Valid?
    && w.tickets[ticketId].eventId in w.catalog.events
    && var e := w.catalog.events[w.tickets[ticketId].eventId].event;
       e.status in {Published, Postponed} && w.now < (if e.toStartsAt.Some? then e.toStartsAt.value else e.startsAt)
  }

  function VoidOrder(w: World, eventId: nat, orderId: nat): World {
    w.(tickets := map t | t in w.tickets ::
         var ticket := w.tickets[t];
         if ticket.eventId == eventId && ticket.orderId == orderId && ticket.status.Valid?
         then ticket.(status := Void) else ticket)
  }
}
