/** Every run of the access services, the catalog and their environment. */
module AccessRuns {
  import opened Prelude
  import opened AccessModel
  import Events = EventRuns

  datatype Action =
    | Tick(elapsed: nat)
    | CatalogStep(step: Events.Action)
    | IssueTicket(ticketId: nat, eventId: nat, orderId: nat)
    | Transfer(ticketId: nat)
    | VoidTickets(eventId: nat, orderId: nat)
    | AddScanner(user: nat, scannerId: nat)
    | SetScanner(user: nat, active: bool)
    | OpenAdmission(eventId: nat, user: nat)
    | CloseAdmission(eventId: nat, actor: Option<nat>)
    | Assign(eventId: nat, scannerId: nat, assignable: bool)
    | Unassign(eventId: nat, scannerId: nat)
    | Scan(token: Token, user: nat)
    | Report(eventId: nat, gross: nat, refunds: nat, rate: Rate)

  const INITIAL := World(Events.Catalog(map[], []), 0, map[], [], [], map[], [], map[])

  function Accepted(w: World, r: Result<World, AccessError>): World {
    if r.Ok? then r.value else w
  }

  function Step(w: World, a: Action): World {
    match a
    case Tick(d) => w.(now := w.now + d)
    case CatalogStep(step) => w.(catalog := Events.Step(w.catalog, step))
    case IssueTicket(t, e, order) =>
      if t !in w.tickets && e in w.catalog.events && !w.catalog.events[e].event.status.Draft?
      then w.(tickets := w.tickets[t := Ticket(e, order, Valid, 1)]) else w
    case Transfer(t) =>
      if Transferable(w, t)
      then w.(tickets := w.tickets[t := w.tickets[t].(qrVersion := w.tickets[t].qrVersion + 1)]) else w
    case VoidTickets(e, order) => VoidOrder(w, e, order)
    case AddScanner(user, id) =>
      if user !in w.scanners && !KnownScanner(w.scanners, id)
      then w.(scanners := w.scanners[user := Scanner(id, false)]) else w
    case SetScanner(user, active) =>
      if user in w.scanners then w.(scanners := w.scanners[user := w.scanners[user].(active := active)]) else w
    case OpenAdmission(e, user) => Accepted(w, OpenSession(w, e, user))
    case CloseAdmission(e, actor) => Accepted(w, CloseSession(w, e, actor))
    case Assign(e, scanner, assignable) => Accepted(w, AssignScanner(w, e, scanner, assignable))
    case Unassign(e, scanner) => Accepted(w, UnassignScanner(w, e, scanner))
    case Scan(token, user) => Accepted(w, Admit(w, token, user))
    case Report(e, gross, refunds, rate) => Accepted(w, BuildReport(w, e, gross, refunds, rate))
  }

  function After(run: seq<Action>): World {
    if run == [] then INITIAL else Step(After(run[..|run| - 1]), run[|run| - 1])
  }

  lemma OthersKeepEvents(w: World, a: Action)
    requires !a.CatalogStep?
    ensures Step(w, a).catalog.events == w.catalog.events
  {
  }

  lemma OthersKeepSessions(w: World, a: Action)
    requires !a.OpenAdmission? && !a.CloseAdmission?
    ensures Step(w, a).sessions == w.sessions
  {
  }

  lemma Extend(run: seq<Action>, a: Action)
    ensures After(run + [a]) == Step(After(run), a)
  {
    assert (run + [a])[..|run + [a]| - 1] == run;
  }
}
