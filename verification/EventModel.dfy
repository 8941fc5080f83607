/** The event row with its ticket categories, and the phases derived from it. */
module EventModel {
  import opened Prelude

  datatype Status = Draft | Published | Postponed | Suspended | Cancelled | Completed | Archived

  /** `theme` is the organizer's category of events. */
  datatype Event = Event(
    name: string,
    theme: nat,
    status: Status,
    startsAt: int,
    endsAt: int,
    fromStartsAt: Option<int>,
    fromEndsAt: Option<int>,
    toStartsAt: Option<int>,
    toEndsAt: Option<int>,
    venue: string,
    capacity: Option<nat>,
    salesStartsAt: Option<int>,
    salesEndsAt: Option<int>,
    lifecycleReason: string,
    version: nat)

  datatype Category = Category(id: nat, name: string, price: nat, quota: nat, sold: nat, version: nat)

  datatype Phase =
    | DraftPhase | ComingSoon | SaleOpen | SaleClosed | Live | Ended
    | PostponedPhase | SuspendedPhase | CancelledPhase | ArchivedPhase
    | SoldOut

  function Structural(s: Status): Option<Phase> {
    match s
    case Draft => Some(DraftPhase)
    case Published => None
    case Postponed => Some(PostponedPhase)
    case Suspended => Some(SuspendedPhase)
    case Cancelled => Some(CancelledPhase)
    case Completed => Some(Ended)
    case Archived => Some(ArchivedPhase)
  }

  function OperationalStatus(e: Event, at: int): Phase {
    if Structural(e.status).Some? then Structural(e.status).value
    else if at >= e.endsAt then Ended
    else if at >= e.startsAt then Live
    else if e.salesStartsAt.Some? && at < e.salesStartsAt.value then ComingSoon
    else if e.salesEndsAt.Some? && at >= e.salesEndsAt.value then SaleClosed
    else SaleOpen
  }

  function SalesPhase(e: Event, at: int): Phase {
    if e.status.Postponed? && e.toStartsAt.None? then PostponedPhase
    else if !e.status.Postponed? && Structural(e.status).Some? then Structural(e.status).value
    else if at >= e.endsAt then Ended
    else if at >= e.startsAt then Live
    else if e.salesStartsAt.Some? && at < e.salesStartsAt.value then ComingSoon
    else if e.salesEndsAt.Some? && at >= e.salesEndsAt.value then SaleClosed
    else SaleOpen
  }

  predicate SalesOpen(e: Event, at: int) {
    SalesPhase(e, at) == SaleOpen
  }

  function CatalogStatus(e: Event, soldOut: bool, at: int): Phase {
    if e.status.Draft? then ComingSoon
    else if SalesPhase(e, at) == SaleOpen && soldOut then SoldOut
    else SalesPhase(e, at)
  }

  /** An event whose schedule drives its phases: published, or postponed to a known date. */
  predicate OnSchedule(e: Event) {
    e.status.Published? || (e.status.Postponed? && e.toStartsAt.Some?)
  }

  predicate CanOpenAdmission(e: Event) {
    e.status.Published? || (e.status.Postponed? && e.toStartsAt.Some? && e.toEndsAt.Some?)
  }

  predicate CanBeCompleted(e: Event, now: int) {
    e.endsAt <= now && (e.status.Published? || (e.status.Postponed? && e.toEndsAt.Some?))
  }
}
