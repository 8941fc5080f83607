/** The temporal phases as a timeline. */
module SalesTimeline {
  import opened Prelude
  import opened EventModel

  function Rank(p: Phase): int {
    match p
    case ComingSoon => 0
    case SaleOpen => 1
    case SaleClosed => 2
    case Live => 3
    case Ended => 4
    case _ => -1
  }

  predicate Before(bound: Option<int>, t: int) {
    bound.Some? ==> bound.value < t
  }

  /** What a draft's schedule and sales window must satisfy when they are written. */
  predicate WindowOk(e: Event) {
    && e.startsAt < e.endsAt
    && Before(e.salesStartsAt, e.startsAt)
    && (e.salesEndsAt.Some? ==> e.salesEndsAt.value <= e.startsAt && Before(e.salesStartsAt, e.salesEndsAt.value))
  }

  lemma PhasesNeverGoBack(e: Event, t1: int, t2: int)
    requires OnSchedule(e) && t1 <= t2
    ensures 0 <= Rank(SalesPhase(e, t1)) <= Rank(SalesPhase(e, t2))
  {
  }

  /** The end of the sale: the first of the sales end, the start and the end of the event. */
  function SaleUntil(e: Event): int {
    var stop := if e.startsAt <= e.endsAt then e.startsAt else e.endsAt;
    if e.salesEndsAt.Some? && e.salesEndsAt.value < stop then e.salesEndsAt.value else stop
  }

  /** The instants at which tickets are on sale form one interval that ends by the event's start. */
  lemma SaleIsAnInterval(e: Event, t: int)
    requires OnSchedule(e)
    ensures SalesOpen(e, t) <==> (e.salesStartsAt.Some? ==> e.salesStartsAt.value <= t) && t < SaleUntil(e)
    ensures SaleUntil(e) <= e.startsAt
  {
  }

  /** There is such an instant exactly when the sale starts, if at a set time, before that end. */
  lemma SaleHappensExactly(e: Event)
    requires OnSchedule(e)
    ensures (exists t :: SalesOpen(e, t)) <==> Before(e.salesStartsAt, SaleUntil(e))
  {
    if Before(e.salesStartsAt, SaleUntil(e)) {
      assert SalesOpen(e, SaleUntil(e) - 1);
    }
  }

  lemma PhasesCoincideWhenPublished(e: Event, soldOut: bool, at: int)
    requires e.status.Published?
    ensures OperationalStatus(e, at) == SalesPhase(e, at)
    ensures CatalogStatus(e, soldOut, at) ==
            if soldOut && OperationalStatus(e, at) == SaleOpen then SoldOut else OperationalStatus(e, at)
  {
  }

  /** One phase at every instant, in all three readings. */
  ghost predicate OnlyPhase(e: Event, phase: Phase) {
    forall at :: OperationalStatus(e, at) == phase && SalesPhase(e, at) == phase && BothCatalogs(e, phase, at)
  }

  /** The catalogue shows this phase whether or not the event is sold out. */
  predicate BothCatalogs(e: Event, phase: Phase, at: int) {
    CatalogStatus(e, true, at) == phase && CatalogStatus(e, false, at) == phase
  }

  /** What a status alone decides; a draft is announced, a postponed event keeps its status beside its sales. */
  lemma StatusDecides(e: Event, at: int)
    ensures e.status == Draft ==>
              OperationalStatus(e, at) == SalesPhase(e, at) == DraftPhase && BothCatalogs(e, ComingSoon, at)
    ensures e.status == Postponed ==> OperationalStatus(e, at) == PostponedPhase
    ensures e.status == Postponed && e.toStartsAt.None? ==>
              SalesPhase(e, at) == PostponedPhase && BothCatalogs(e, PostponedPhase, at)
    ensures e.status == Suspended ==> OnlyPhase(e, SuspendedPhase)
    ensures e.status == Cancelled ==> OnlyPhase(e, CancelledPhase)
    ensures e.status == Completed ==> OnlyPhase(e, Ended)
    ensures e.status == Archived ==> OnlyPhase(e, ArchivedPhase)
  {
  }

  /** What the schedule decides: each phase of an event on its schedule has exactly these instants. */
  lemma ScheduleDecides(e: Event, at: int)
    requires e.status.Published? || (e.status.Postponed? && e.toStartsAt.Some?)
    ensures
      var phase, before := SalesPhase(e, at), at < e.startsAt && at < e.endsAt;
      var started := e.salesStartsAt.Some? ==> e.salesStartsAt.value <= at;
      var closed := e.salesEndsAt.Some? && e.salesEndsAt.value <= at;
      && (phase == Ended <==> e.endsAt <= at)
      && (phase == Live <==> e.startsAt <= at < e.endsAt)
      && (phase == ComingSoon <==> before && !started)
      && (phase == SaleClosed <==> before && started && closed)
      && (phase == SaleOpen <==> before && started && !closed)
      && CatalogStatus(e, false, at) == phase
      && CatalogStatus(e, true, at) == if phase == SaleOpen then SoldOut else phase
  {
  }
}
