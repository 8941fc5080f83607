/**
 What each catalog request does to one event, its categories and the outbox, as one transaction
 under the event's row lock. `announced` is the history of schedules made public; no handler reads it.
 */
module EventHandlers {
  import opened Prelude
  import opened EventModel
  import opened Text

  datatype Schedule = Schedule(startsAt: int, endsAt: int)

  datatype EventState = EventState(event: Event, categories: seq<Category>, announced: seq<Schedule>)

  datatype Kind =
    | PublishedMessage
    | PostponedMessage(previous: Schedule, current: Schedule)
    | SuspendedMessage
    | CancelledMessage(refundRequested: bool)
    | CompletedMessage
    | AssignedMessage(scanner: nat)
    | UnassignedMessage(scanner: nat)

  datatype Error =
    | NotFound
    | NotDraft
    | BadTransition(current: Status, target: Status)
    | Stale(version: nat)
    | Invalid(fields: set<string>)
    | HasSales
    | NameTaken

  /** Absent fields are `None`; a present field that may be null holds an option itself. */
  datatype EventPatch = EventPatch(
    name: Option<string>,
    theme: Option<nat>,
    startsAt: Option<int>,
    endsAt: Option<int>,
    salesStartsAt: Option<Option<int>>,
    salesEndsAt: Option<Option<int>>,
    venue: Option<string>,
    capacity: Option<Option<nat>>,
    otherFields: bool)

  datatype CategoryPatch = CategoryPatch(name: Option<string>, price: Option<nat>, quota: Option<nat>)

  /**
   `earliest` is the first start instant the calendar rule accepts when the request is made; names
   and reasons arrive trimmed.
   */
  datatype Request =
    | PatchEvent(version: nat, patch: EventPatch, earliest: int)
    | CreateCategory(id: nat, name: string, price: nat, quota: nat)
    | PatchCategory(id: nat, version: nat, change: CategoryPatch)
    | DeleteCategory(id: nat, version: nat)
    | SetImage(version: nat)
    | Publish(version: nat, earliest: int)
    | Postpone(version: nat, newStart: Option<int>, newEnd: Option<int>, reason: string, earliest: int)
    | Suspend(version: nat, reason: string)
    | Cancel(version: nat, reason: string, refundRequested: bool)
    | Archive(version: nat)
    | Unarchive(version: nat)
    | CompleteIfElapsed(now: int)
    | Sell(id: nat, quantity: nat)

  datatype Effect = Effect(state: EventState, message: Option<Kind>)

  const AUTO_COMPLETION_REASON := "Clôturé automatiquement à la fin de l’événement."

  // ---- validation ----

  function Given<T>(field: Option<T>, stored: T): T {
    if field.Some? then field.value else stored
  }

  function Merge(e: Event, p: EventPatch): Event {
    e.(name := Given(p.name, e.name),
       theme := Given(p.theme, e.theme),
       startsAt := Given(p.startsAt, e.startsAt),
       endsAt := Given(p.endsAt, e.endsAt),
       salesStartsAt := Given(p.salesStartsAt, e.salesStartsAt),
       salesEndsAt := Given(p.salesEndsAt, e.salesEndsAt),
       venue := Given(p.venue, e.venue),
       capacity := Given(p.capacity, e.capacity))
  }

  predicate NothingGiven(p: EventPatch) {
    && p.name.None? && p.theme.None? && p.startsAt.None? && p.endsAt.None? && p.salesStartsAt.None? && p.salesEndsAt.None?
    && p.venue.None? && p.capacity.None? && !p.otherFields
  }

  function Flag(wrong: bool, field: string): set<string> {
    if wrong then {field} else {}
  }

  /** The serializer's checks on single fields, all of them reported. */
  function FieldErrors(p: EventPatch, creating: bool): set<string> {
    Flag(if p.name.None? then creating else p.name.value == "", "name")
    + Flag(creating && p.theme.None?, "category_id")
    + Flag(creating && p.startsAt.None?, "starts_at")
    + Flag(creating && p.endsAt.None?, "ends_at")
    + Flag(p.capacity == Some(Some(0)), "capacity_total")
  }

  /** The serializer's checks on the merged values, in its order; `None` accepts. */
  function WriteError(e: Event, startGiven: bool, earliest: int): Option<string> {
    if startGiven && e.startsAt < earliest then Some("starts_at")
    else if e.endsAt <= e.startsAt then Some("ends_at")
    else if e.salesStartsAt.Some? && e.salesEndsAt.Some? && e.salesEndsAt.value <= e.salesStartsAt.value
    then Some("sales_ends_at")
    else if e.salesStartsAt.Some? && e.salesStartsAt.value >= e.startsAt then Some("sales_starts_at")
    else if e.salesEndsAt.Some? && e.salesEndsAt.value > e.startsAt then Some("sales_ends_at")
    else None
  }

  function QuotaTotal(cs: seq<Category>): nat {
    if cs == [] then 0 else QuotaTotal(cs[..|cs| - 1]) + cs[|cs| - 1].quota
  }

  function SoldTotal(cs: seq<Category>): nat {
    if cs == [] then 0 else SoldTotal(cs[..|cs| - 1]) + cs[|cs| - 1].sold
  }

  function Without(cs: seq<Category>, i: nat): seq<Category>
    requires i < |cs|
  {
    cs[..i] + cs[i + 1..]
  }

  /** The position of a category, or the length when there is none. */
  function IndexOf(cs: seq<Category>, id: nat): (i: nat)
    ensures i <= |cs|
    ensures i < |cs| ==> cs[i].id == id
    ensures i == |cs| ==> forall j :: 0 <= j < |cs| ==> cs[j].id != id
  {
    if cs == [] then 0
    else if cs[0].id == id then 0
    else 1 + IndexOf(cs[1..], id)
  }

  function QuotaError(e: Event, total: nat): Option<string> {
    if e.capacity.None? then Some("capacity_total")
    else if total > e.capacity.value then Some("quota")
    else None
  }

  predicate Blank(s: string) {
    forall i :: 0 <= i < |s| ==> IsSpace(s[i])
  }

  /** Everything that keeps a draft from publication. */
  function PublishErrors(s: EventState, earliest: int): set<string> {
    Flag(Blank(s.event.venue), "venue")
    + Flag(s.event.capacity.None?, "capacity_total")
    + Flag(s.event.startsAt < earliest, "starts_at")
    + Flag(s.categories == [], "ticket_categories")
    + Flag(s.event.capacity.Some? && QuotaTotal(s.categories) > s.event.capacity.value, "quota")
  }

  /** Names are unique up to case; ASCII letters stand for all. */
  function Lower(s: string): string {
    seq(|s|, i requires 0 <= i < |s| => if 'A' <= s[i] <= 'Z' then s[i] - 'A' + 'a' else s[i])
  }

  predicate CategoryNamed(cs: seq<Category>, name: string) {
    exists i :: 0 <= i < |cs| && Lower(cs[i].name) == Lower(name)
  }

  // ---- handlers ----

  function Refuse(error: Error): Result<Effect, Error> {
    Err(error)
  }

  /** The final compare-and-set: the new row, one version up, if the caller saw the current one. */
  function Save(s: EventState, version: nat, row: Event, announced: seq<Schedule>, message: Option<Kind>)
    : Result<Effect, Error>
  {
    if s.event.version != version then Err(Stale(s.event.version))
    else Ok(Effect(s.(event := row.(version := version + 1), announced := announced), message))
  }

  function HandlePatchEvent(s: EventState, version: nat, p: EventPatch, earliest: int): Result<Effect, Error> {
    var row := Merge(s.event, p);
    var error := WriteError(row, p.startsAt.Some?, earliest);
    if !s.event.status.Draft? then Refuse(NotDraft)
    else if FieldErrors(p, false) != {} then Refuse(Invalid(FieldErrors(p, false)))
    else if error.Some? then Refuse(Invalid({error.value}))
    else if NothingGiven(p) then Refuse(Invalid({"non_field_errors"}))
    else if p.capacity == Some(None) && QuotaTotal(s.categories) > 0 then Refuse(Invalid({"capacity_total"}))
    else if p.capacity.Some? && p.capacity.value.Some? && QuotaTotal(s.categories) > p.capacity.value.value
    then Refuse(Invalid({"capacity_total"}))
    else Save(s, version, row, s.announced, None)
  }

  function HandleCreateCategory(s: EventState, id: nat, name: string, price: nat, quota: nat): Result<Effect, Error> {
    var error := QuotaError(s.event, QuotaTotal(s.categories) + quota);
    var fields := Flag(name == "", "name") + Flag(quota < 1, "quota");
    if fields != {} then Refuse(Invalid(fields))
    else if !s.event.status.Draft? then Refuse(NotDraft)
    else if error.Some? then Refuse(Invalid({error.value}))
    else if CategoryNamed(s.categories, name) then Refuse(NameTaken)
    else Ok(Effect(s.(categories := s.categories + [Category(id, name, price, quota, 0, 1)]), None))
  }

  function Changed(c: Category, p: CategoryPatch): Category {
    c.(name := Given(p.name, c.name), price := Given(p.price, c.price), quota := Given(p.quota, c.quota))
  }

  /** The serializer's and the quota's checks on a category's new row. */
  function CategoryError(s: EventState, i: nat, p: CategoryPatch): Option<Error>
    requires i < |s.categories|
  {
    var c := s.categories[i];
    var error := QuotaError(s.event, QuotaTotal(Without(s.categories, i)) + Changed(c, p).quota);
    var fields := Flag(p.name == Some(""), "name") + Flag(p.quota == Some(0), "quota");
    if fields != {} then Some(Invalid(fields))
    else if Changed(c, p).quota < c.sold then Some(Invalid({"quota"}))
    else if p.name.None? && p.price.None? && p.quota.None? then Some(Invalid({"non_field_errors"}))
    else if error.Some? then Some(Invalid({error.value}))
    else None
  }

  function HandlePatchCategory(s: EventState, id: nat, version: nat, p: CategoryPatch): Result<Effect, Error> {
    var i := IndexOf(s.categories, id);
    if !s.event.status.Draft? then Refuse(NotDraft)
    else if i == |s.categories| then Refuse(NotFound)
    else
      var c := s.categories[i];
      var row := Changed(c, p);
      var error := CategoryError(s, i, p);
      if error.Some? then Refuse(error.value)
      else if c.version != version then Refuse(Stale(c.version))
      else if CategoryNamed(Without(s.categories, i), row.name) then Refuse(NameTaken)
      else Ok(Effect(s.(categories := s.categories[i := row.(version := version + 1)]), None))
  }

  function HandleDeleteCategory(s: EventState, id: nat, version: nat): Result<Effect, Error> {
    var i := IndexOf(s.categories, id);
    if !s.event.status.Draft? then Refuse(NotDraft)
    else if i == |s.categories| then Refuse(NotFound)
    else if s.categories[i].sold > 0 then Refuse(HasSales)
    else if s.categories[i].version != version then Refuse(Stale(s.categories[i].version))
    else Ok(Effect(s.(categories := Without(s.categories, i)), None))
  }

  function HandleSetImage(s: EventState, version: nat): Result<Effect, Error> {
    if s.event.status !in {Draft, Published, Postponed} then Refuse(NotDraft)
    else Save(s, version, s.event, s.announced, None)
  }

  function HandlePublish(s: EventState, version: nat, earliest: int): Result<Effect, Error> {
    var errors := PublishErrors(s, earliest);
    if !s.event.status.Draft? then Refuse(NotDraft)
    else if errors != {} then Refuse(Invalid(errors))
    else Save(s, version, s.event.(status := Published), [Schedule(s.event.startsAt, s.event.endsAt)],
              Some(PublishedMessage))
  }

  function PostponeError(newStart: Option<int>, newEnd: Option<int>, earliest: int): Option<string> {
    if newStart.None? != newEnd.None? then Some("starts_at")
    else if newStart.Some? && newStart.value < earliest then Some("starts_at")
    else if newStart.Some? && newEnd.Some? && newEnd.value <= newStart.value then Some("ends_at")
    else None
  }

  /** The schedule a postponement replaces: the current one, unless that is still the undated one. */
  function ReplacedStart(e: Event): Option<int> {
    if !e.status.Postponed? || e.fromStartsAt.None? || e.toStartsAt.Some? then Some(e.startsAt) else e.fromStartsAt
  }

  function ReplacedEnd(e: Event): Option<int> {
    if !e.status.Postponed? || e.fromStartsAt.None? || e.toStartsAt.Some? then Some(e.endsAt) else e.fromEndsAt
  }

  /** The first date of an event postponed without one. */
  predicate DefinesDate(e: Event, newStart: Option<int>, newEnd: Option<int>) {
    e.status.Postponed? && e.toStartsAt.None? && e.toEndsAt.None? && newStart.Some? && newEnd.Some?
  }

  function PostponedRow(e: Event, newStart: Option<int>, newEnd: Option<int>, reason: string): Event {
    var dated := newStart.Some? && newEnd.Some?;
    e.(status := Postponed,
       fromStartsAt := ReplacedStart(e),
       fromEndsAt := ReplacedEnd(e),
       toStartsAt := newStart,
       toEndsAt := newEnd,
       startsAt := if dated then newStart.value else e.startsAt,
       endsAt := if dated then newEnd.value else e.endsAt,
       lifecycleReason := if DefinesDate(e, newStart, newEnd) then e.lifecycleReason else reason)
  }

  function HandlePostpone(s: EventState, version: nat, newStart: Option<int>, newEnd: Option<int>, reason: string,
                          earliest: int): Result<Effect, Error>
  {
    var e := s.event;
    var error := PostponeError(newStart, newEnd, earliest);
    if error.Some? then Refuse(Invalid({error.value}))
    else if e.status !in {Published, Postponed} then Refuse(BadTransition(e.status, Postponed))
    else if !DefinesDate(e, newStart, newEnd) && reason == "" then Refuse(Invalid({"reason"}))
    else
      var row := PostponedRow(e, newStart, newEnd, reason);
      var current := Schedule(row.startsAt, row.endsAt);
      Save(s, version, row, if newStart.Some? then s.announced + [current] else s.announced,
           Some(PostponedMessage(Schedule(e.startsAt, e.endsAt), current)))
  }

  function HandleSuspend(s: EventState, version: nat, reason: string): Result<Effect, Error> {
    if reason == "" then Refuse(Invalid({"reason"}))
    else if s.event.status !in {Published, Postponed} then Refuse(BadTransition(s.event.status, Suspended))
    else Save(s, version, s.event.(status := Suspended, lifecycleReason := reason), s.announced,
              Some(SuspendedMessage))
  }

  function HandleCancel(s: EventState, version: nat, reason: string, refundRequested: bool): Result<Effect, Error> {
    if reason == "" then Refuse(Invalid({"reason"}))
    else if s.event.status !in {Published, Postponed, Suspended} then Refuse(BadTransition(s.event.status, Cancelled))
    else Save(s, version, s.event.(status := Cancelled, lifecycleReason := reason), s.announced,
              Some(CancelledMessage(refundRequested)))
  }

  function HandleArchive(s: EventState, version: nat): Result<Effect, Error> {
    if !s.event.status.Published? then Refuse(BadTransition(s.event.status, Archived))
    else Save(s, version, s.event.(status := Archived), s.announced, None)
  }

  function HandleUnarchive(s: EventState, version: nat): Result<Effect, Error> {
    if !s.event.status.Archived? then Refuse(BadTransition(s.event.status, Published))
    else Save(s, version, s.event.(status := Published), s.announced, None)
  }

  /** The completion save lists its fields without the version: the row changes, the version stays. */
  function HandleComplete(s: EventState, now: int): Result<Effect, Error> {
    if !CanBeCompleted(s.event, now) then Refuse(BadTransition(s.event.status, Completed))
    else Ok(Effect(s.(event := s.event.(status := Completed, lifecycleReason := AUTO_COMPLETION_REASON)),
                   Some(CompletedMessage)))
  }

  /** Order confirmation, as the environment: it never sells beyond a category's quota. */
  function HandleSell(s: EventState, id: nat, quantity: nat): Result<Effect, Error> {
    var i := IndexOf(s.categories, id);
    if i == |s.categories| then Refuse(NotFound)
    else if s.categories[i].sold + quantity > s.categories[i].quota then Refuse(Invalid({"quantity"}))
    else
      var c := s.categories[i];
      Ok(Effect(s.(categories := s.categories[i := c.(sold := c.sold + quantity)]), None))
  }

  /** The errors that the request's own body shows, before any event is looked up. */
  function BodyError(r: Request): Option<Error> {
    match r
    case CreateCategory(_, name, _, quota) =>
      var fields := Flag(name == "", "name") + Flag(quota < 1, "quota");
      if fields != {} then Some(Invalid(fields)) else None
    case Postpone(_, newStart, newEnd, _, earliest) =>
      var error := PostponeError(newStart, newEnd, earliest);
      if error.Some? then Some(Invalid({error.value})) else None
    case Suspend(_, reason) => if reason == "" then Some(Invalid({"reason"})) else None
    case Cancel(_, reason, _) => if reason == "" then Some(Invalid({"reason"})) else None
    case _ => None
  }

  function Handle(s: EventState, r: Request): Result<Effect, Error> {
    match r
    case PatchEvent(v, p, earliest) => HandlePatchEvent(s, v, p, earliest)
    case CreateCategory(id, name, price, quota) => HandleCreateCategory(s, id, name, price, quota)
    case PatchCategory(id, v, p) => HandlePatchCategory(s, id, v, p)
    case DeleteCategory(id, v) => HandleDeleteCategory(s, id, v)
    case SetImage(v) => HandleSetImage(s, v)
    case Publish(v, earliest) => HandlePublish(s, v, earliest)
    case Postpone(v, a, b, reason, earliest) => HandlePostpone(s, v, a, b, reason, earliest)
    case Suspend(v, reason) => HandleSuspend(s, v, reason)
    case Cancel(v, reason, refund) => HandleCancel(s, v, reason, refund)
    case Archive(v) => HandleArchive(s, v)
    case Unarchive(v) => HandleUnarchive(s, v)
    case CompleteIfElapsed(now) => HandleComplete(s, now)
    case Sell(id, quantity) => HandleSell(s, id, quantity)
  }
}
