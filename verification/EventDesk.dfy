/** The catalog's request handlers and the completion sweep, over the stored events and the outbox. */
module EventDesk {
  import opened Prelude
  import opened EventModel
  import opened EventHandlers
  import opened EventRuns
  import opened EventNames
  import opened EventSweep
  import opened SalesTimeline

  /** What the caller is told: the body's errors, then an unknown event, then the handler's answer. */
  function ErrorOf(c: Catalog, id: nat, r: Request): Option<Error> {
    if BodyError(r).Some? then BodyError(r)
    else if id !in c.events then Some(NotFound)
    else
      match Respond(c.events, id, r)
      case Err(e) => Some(e)
      case Ok(_) => None
  }

  /** One step of the run model; a request that is refused changes nothing. */
  ghost predicate Did(before: Catalog, after: Catalog, id: nat, r: Request, error: Option<Error>) {
    && after == Step(before, On(id, r))
    && error == ErrorOf(before, id, r)
    && (error.Some? ==> after == before)
  }

  lemma {:induction false} SoldIsPositive(cs: seq<Category>, i: nat)
    requires i < |cs| && cs[i].sold > 0
    ensures SoldTotal(cs) > 0
  {
    if i < |cs| - 1 {
      SoldIsPositive(cs[..|cs| - 1], i);
    }
  }

  lemma {:induction false} NothingSold(cs: seq<Category>)
    requires forall i :: 0 <= i < |cs| ==> cs[i].sold == 0
    ensures SoldTotal(cs) == 0
  {
    if cs == [] {
    } else {
      NothingSold(cs[..|cs| - 1]);
    }
  }

  // ---- what the runs promise of every stored event ----

  ghost predicate Healthy(c: Catalog) {
    EventsOk(c) && OutboxOk(c) && RecordsTellSchedule(c) && NamesOk(c)
  }

  lemma HistoryIsHealthy(run: seq<Action>)
    ensures Healthy(After(run))
  {
    RunKeepsCatalog(run);
    PostponedRecordsTellSchedule(run);
    RunKeepsNames(run);
  }

  /** Tickets, quotas and capacity are in order, and an event with categories has a capacity. */
  predicate WithinCapacity(s: EventState) {
    s.categories != [] ==>
      s.event.capacity.Some? && SoldTotal(s.categories) <= QuotaTotal(s.categories) <= s.event.capacity.value
  }

  lemma EventAfter(run: seq<Action>, id: nat)
    requires id in After(run).events
    ensures
      var s := After(run).events[id];
      WithinCapacity(s) && HistoryOk(s) && SalesOk(s.event) && CategoryNamesDiffer(s.categories)
  {
    HistoryIsHealthy(run);
    assert EventOk(After(run).events[id]);
    SoldWithinQuota(After(run).events[id].categories);
  }

  /** The outbox has exactly the records the event's status owes. */
  lemma RecordsAfter(run: seq<Action>, id: nat)
    requires id in After(run).events
    ensures
      var c := After(run);
      && Sent(c.outbox, id, TagPublished) == Due(c.events[id].event.status, TagPublished)
      && Sent(c.outbox, id, TagCompleted) == Due(c.events[id].event.status, TagCompleted)
      && Sent(c.outbox, id, TagCancelled) == Due(c.events[id].event.status, TagCancelled)
  {
    OutboxAgrees(run, id);
  }

  /** One event's row written anew, with the next version. */
  function Rewritten(events: map<nat, EventState>, id: nat, row: Event): map<nat, EventState>
    requires id in events
  {
    events[id := events[id].(event := row.(version := events[id].event.version + 1))]
  }

  /** Apart from schedule, postponement fields, status, reason and version, a postponed event is as before. */
  predicate OnlyPostponed(s: EventState, t: EventState) {
    && t.categories == s.categories
    && t.event == s.event.(
         status := t.event.status, version := t.event.version, lifecycleReason := t.event.lifecycleReason,
         startsAt := t.event.startsAt, endsAt := t.event.endsAt,
         fromStartsAt := t.event.fromStartsAt, fromEndsAt := t.event.fromEndsAt,
         toStartsAt := t.event.toStartsAt, toEndsAt := t.event.toEndsAt)
  }

  /** An event that at no time sells, admits or completes. */
  ghost predicate Idle(e: Event) {
    && !CanOpenAdmission(e)
    && (forall t :: !SalesOpen(e, t))
    && (forall t :: !CanBeCompleted(e, t))
  }

  lemma SuspendedIsIdle(e: Event)
    requires e.status.Suspended?
    ensures Idle(e)
  {
  }

  lemma {:induction false} UnsoldRemoval(cs: seq<Category>, i: nat)
    requires i < |cs| && cs[i].sold == 0
    ensures SoldTotal(Without(cs, i)) == SoldTotal(cs)
  {
    if i == |cs| - 1 {
      assert Without(cs, i) == cs[..i];
    } else {
      var shorter, ds := cs[..|cs| - 1], Without(cs, i);
      UnsoldRemoval(shorter, i);
      assert ds[..|ds| - 1] == Without(shorter, i) && ds[|ds| - 1] == cs[|cs| - 1];
    }
  }

  lemma PostponeRecords(c: Catalog, id: nat, r: Request)
    requires r.Postpone? && id in c.events && Handle(c.events[id], r).Ok?
    ensures
      var d := Step(c, On(id, r));
      var e := d.events[id].event;
      && LastPostponed(d.outbox, id) == Some(Schedule(e.startsAt, e.endsAt))
      && e.status.Postponed? && e.toStartsAt == r.newStart && e.toEndsAt == r.newEnd
      && r.newStart.Some? == r.newEnd.Some?
  {
    var d := Step(c, On(id, r));
    assert d.outbox[..|d.outbox| - 1] == c.outbox;
  }

  lemma PatchTold(c: Catalog, d: Catalog, id: nat, version: nat, p: EventPatch, earliest: int, error: Option<Error>)
    requires Did(c, d, id, PatchEvent(version, p, earliest), error)
    ensures error ==
            if id !in c.events then Some(NotFound)
            else
              var s := c.events[id];
              var rejected := WriteError(Merge(s.event, p), p.startsAt.Some?, earliest);
              if s.event.status != Draft then Some(NotDraft)
              else if FieldErrors(p, false) != {} then Some(Invalid(FieldErrors(p, false)))
              else if rejected.Some? then Some(Invalid({rejected.value}))
              else if NothingGiven(p) then Some(Invalid({"non_field_errors"}))
              else if p.capacity.Some? && QuotaTotal(s.categories) > Given(p.capacity.value, 0)
              then Some(Invalid({"capacity_total"}))
              else if s.event.version != version then Some(Stale(s.event.version))
              else if EventNamed(c.events, Some(id), Given(p.name, s.event.name)) then Some(NameTaken)
              else None
    ensures error.None? ==>
              var e := c.events[id].event;
              && d.outbox == c.outbox
              && d.events == Rewritten(c.events, id, e.(
                   name := if p.name.Some? then p.name.value else e.name,
                   theme := if p.theme.Some? then p.theme.value else e.theme,
                   startsAt := if p.startsAt.Some? then p.startsAt.value else e.startsAt,
                   endsAt := if p.endsAt.Some? then p.endsAt.value else e.endsAt,
                   salesStartsAt := if p.salesStartsAt.Some? then p.salesStartsAt.value else e.salesStartsAt,
                   salesEndsAt := if p.salesEndsAt.Some? then p.salesEndsAt.value else e.salesEndsAt,
                   venue := if p.venue.Some? then p.venue.value else e.venue,
                   capacity := if p.capacity.Some? then p.capacity.value else e.capacity))
  {
  }

  lemma EditTold(before: Catalog, after: Catalog, id: nat, category: nat, version: nat, p: CategoryPatch,
                 error: Option<Error>)
    requires Did(before, after, id, PatchCategory(category, version, p), error)
    ensures error ==
            if id !in before.events then Some(NotFound)
            else if before.events[id].event.status != Draft then Some(NotDraft)
            else
              var s, i := before.events[id], IndexOf(before.events[id].categories, category);
              if i == |s.categories| then Some(NotFound)
              else
                var c := s.categories[i];
                var quota := if p.quota.Some? then p.quota.value else c.quota;
                var name := if p.name.Some? then p.name.value else c.name;
                if p.name == Some("") || p.quota == Some(0)
                then Some(Invalid((if p.name == Some("") then {"name"} else {})
                                  + (if p.quota == Some(0) then {"quota"} else {})))
                else if quota < c.sold then Some(Invalid({"quota"}))
                else if p.name.None? && p.price.None? && p.quota.None? then Some(Invalid({"non_field_errors"}))
                else if s.event.capacity.None? then Some(Invalid({"capacity_total"}))
                else if QuotaTotal(Without(s.categories, i)) + quota > s.event.capacity.value
                then Some(Invalid({"quota"}))
                else if c.version != version then Some(Stale(c.version))
                else if CategoryNamed(Without(s.categories, i), name) then Some(NameTaken)
                else None
    ensures error.None? ==>
              var s, i := before.events[id], IndexOf(before.events[id].categories, category);
              var c := s.categories[i];
              && after.outbox == before.outbox
              && after.events == before.events[id := s.(categories := s.categories[i := Category(
                   category,
                   if p.name.Some? then p.name.value else c.name,
                   if p.price.Some? then p.price.value else c.price,
                   if p.quota.Some? then p.quota.value else c.quota,
                   c.sold,
                   version + 1)])]
  {
  }

  class CatalogService {
    var events: map<nat, EventState>
    var outbox: seq<Message>
    ghost var history: seq<Action>

    ghost function View(): Catalog
      reads this
    {
      Catalog(events, outbox)
    }

    ghost predicate Valid()
      reads this
    {
      View() == After(history)
    }

    constructor ()
      ensures Valid() && history == []
    {
      events := map[];
      outbox := [];
      history := [];
    }

    ghost method Note(a: Action)
      requires Valid()
      modifies this`history
      ensures history == old(history) + [a]
      ensures After(history) == Step(View(), a)
    {
      assert (history + [a])[..|history + [a]| - 1] == history;
      history := history + [a];
    }

    method QuotaSum(cs: seq<Category>) returns (total: nat)
      ensures total == QuotaTotal(cs)
    {
      total := 0;
      var i := 0;
      while i < |cs|
        invariant 0 <= i <= |cs| && total == QuotaTotal(cs[..i])
      {
        assert cs[..i + 1][..|cs[..i + 1]| - 1] == cs[..i];
        total := total + cs[i].quota;
        i := i + 1;
      }
      assert cs[..i] == cs;
    }

    method PublishEvent(id: nat, kind: Kind)
      modifies this`outbox
      ensures outbox == old(outbox) + [Message(id, kind)]
    {
      outbox := outbox + [Message(id, kind)];
    }

    /** `versioned_update` on the locked row. */
    method SaveRow(id: nat, version: nat, row: Event) returns (error: Option<Error>)
      requires id in events
      modifies this`events
      ensures error == if old(events)[id].event.version == version then None else Some(Stale(old(events)[id].event.version))
      ensures events == if error.Some? then old(events)
                        else old(events)[id := old(events)[id].(event := row.(version := version + 1))]
    {
      if events[id].event.version != version {
        return Some(Stale(events[id].event.version));
      }
      var saved := row.(version := version + 1);
      events := events[id := events[id].(event := saved)];
      return None;
    }

    method MergedRow(event: Event, p: EventPatch) returns (row: Event)
      ensures row == Merge(event, p)
      ensures row == event.(
                name := if p.name.Some? then p.name.value else event.name,
                theme := if p.theme.Some? then p.theme.value else event.theme,
                startsAt := if p.startsAt.Some? then p.startsAt.value else event.startsAt,
                endsAt := if p.endsAt.Some? then p.endsAt.value else event.endsAt,
                salesStartsAt := if p.salesStartsAt.Some? then p.salesStartsAt.value else event.salesStartsAt,
                salesEndsAt := if p.salesEndsAt.Some? then p.salesEndsAt.value else event.salesEndsAt,
                venue := if p.venue.Some? then p.venue.value else event.venue,
                capacity := if p.capacity.Some? then p.capacity.value else event.capacity)
    {
      row := event;
      if p.name.Some? {
        row := row.(name := p.name.value);
      }
      if p.theme.Some? {
        row := row.(theme := p.theme.value);
      }
      if p.startsAt.Some? {
        row := row.(startsAt := p.startsAt.value);
      }
      if p.endsAt.Some? {
        row := row.(endsAt := p.endsAt.value);
      }
      if p.salesStartsAt.Some? {
        row := row.(salesStartsAt := p.salesStartsAt.value);
      }
      if p.salesEndsAt.Some? {
        row := row.(salesEndsAt := p.salesEndsAt.value);
      }
      if p.venue.Some? {
        row := row.(venue := p.venue.value);
      }
      if p.capacity.Some? {
        row := row.(capacity := p.capacity.value);
      }
    }

    /** The new row's identifier is unused. */
    method CreateDraft(id: nat, p: EventPatch, earliest: int) returns (error: Option<Error>)
      requires Valid() && id !in events
      modifies this
      ensures Valid() && Healthy(View())
      ensures View() == Step(old(View()), Create(id, p, earliest))
      ensures error.None? <==> id in events
      ensures error.None? <==> CreateAccepted(p, earliest) && !EventNamed(old(events), None, p.name.value)
      ensures error ==
              if FieldErrors(p, true) != {} then Some(Invalid(FieldErrors(p, true)))
              else if WriteError(NewEvent(p), true, earliest).Some?
              then Some(Invalid({WriteError(NewEvent(p), true, earliest).value}))
              else if EventNamed(old(events), None, p.name.value) then Some(NameTaken)
              else None
      ensures error.None? ==>
                && outbox == old(outbox)
                && events == old(events)[id := EventState(
                     Event(p.name.value, p.theme.value, Draft, p.startsAt.value, p.endsAt.value, None, None, None, None,
                           if p.venue.Some? then p.venue.value else "",
                           if p.capacity.Some? then p.capacity.value else None,
                           if p.salesStartsAt.Some? then p.salesStartsAt.value else None,
                           if p.salesEndsAt.Some? then p.salesEndsAt.value else None,
                           "", 1),
                     [], [])]
      ensures error.None? ==> WindowOk(events[id].event)
    {
      error := TryCreate(id, p, earliest);
      HistoryIsHealthy(history);
      if error.None? {
        EventAfter(history, id);
      }
    }

    method TryCreate(id: nat, p: EventPatch, earliest: int) returns (error: Option<Error>)
      requires Valid() && id !in events
      modifies this`events, this`history
      ensures Valid()
      ensures View() == Step(old(View()), Create(id, p, earliest))
      ensures error.None? <==> CreateAccepted(p, earliest) && !EventNamed(old(events), None, p.name.value)
      ensures error ==
              if FieldErrors(p, true) != {} then Some(Invalid(FieldErrors(p, true)))
              else if WriteError(NewEvent(p), true, earliest).Some?
              then Some(Invalid({WriteError(NewEvent(p), true, earliest).value}))
              else if EventNamed(old(events), None, p.name.value) then Some(NameTaken)
              else None
      ensures events == if error.None? then old(events)[id := EventState(NewEvent(p), [], [])] else old(events)
    {
      Note(Create(id, p, earliest));
      if FieldErrors(p, true) != {} {
        return Some(Invalid(FieldErrors(p, true)));
      }
      var row := NewEvent(p);
      var rejected := WriteError(row, true, earliest);
      if rejected.Some? {
        return Some(Invalid({rejected.value}));
      }
      if EventNamed(events, None, row.name) {
        return Some(NameTaken);
      }
      events := events[id := EventState(row, [], [])];
      return None;
    }

    method DeleteDraft(id: nat, version: nat) returns (error: Option<Error>)
      requires Valid()
      modifies this
      ensures Valid() && Healthy(View())
      ensures View() == Step(old(View()), Delete(id, version))
      ensures error.None? <==> id in old(events) && DeleteAccepted(old(events)[id], version)
      ensures error ==
              if id !in old(events) then Some(NotFound)
              else
                var s := old(events)[id];
                if s.event.status != Draft then Some(NotDraft)
                else if s.event.version != version then Some(Stale(s.event.version))
                else if SoldTotal(s.categories) > 0 then Some(HasSales)
                else None
      ensures error.None? ==> events == old(events) - {id} && outbox == old(outbox)
      ensures error.Some? ==> View() == old(View())
    {
      error := TryDelete(id, version);
      HistoryIsHealthy(history);
    }

    method TryDelete(id: nat, version: nat) returns (error: Option<Error>)
      requires Valid()
      modifies this`events, this`history
      ensures Valid()
      ensures View() == Step(old(View()), Delete(id, version))
      ensures error.None? <==> id in old(events) && DeleteAccepted(old(events)[id], version)
      ensures error ==
              if id !in old(events) then Some(NotFound)
              else
                var s := old(events)[id];
                if s.event.status != Draft then Some(NotDraft)
                else if s.event.version != version then Some(Stale(s.event.version))
                else if SoldTotal(s.categories) > 0 then Some(HasSales)
                else None
      ensures error.None? ==> events == old(events) - {id} && outbox == old(outbox)
      ensures error.Some? ==> View() == old(View())
    {
      Note(Delete(id, version));
      if id !in events {
        return Some(NotFound);
      }
      var s := events[id];
      if s.event.status != Draft {
        return Some(NotDraft);
      }
      if s.event.version != version {
        return Some(Stale(s.event.version));
      }
      if exists i :: 0 <= i < |s.categories| && s.categories[i].sold > 0 {
        var i :| 0 <= i < |s.categories| && s.categories[i].sold > 0;
        SoldIsPositive(s.categories, i);
        return Some(HasSales);
      }
      NothingSold(s.categories);
      events := events - {id};
      return None;
    }

    method Patch(id: nat, version: nat, p: EventPatch, earliest: int) returns (error: Option<Error>)
      requires Valid()
      modifies this
      ensures Valid() && Healthy(View())
      ensures Did(old(View()), View(), id, PatchEvent(version, p, earliest), error)
      ensures error ==
              if id !in old(events) then Some(NotFound)
              else
                var s := old(events)[id];
                var rejected := WriteError(Merge(s.event, p), p.startsAt.Some?, earliest);
                if s.event.status != Draft then Some(NotDraft)
                else if FieldErrors(p, false) != {} then Some(Invalid(FieldErrors(p, false)))
                else if rejected.Some? then Some(Invalid({rejected.value}))
                else if NothingGiven(p) then Some(Invalid({"non_field_errors"}))
                else if p.capacity.Some? && QuotaTotal(s.categories) > Given(p.capacity.value, 0)
                then Some(Invalid({"capacity_total"}))
                else if s.event.version != version then Some(Stale(s.event.version))
                else if EventNamed(old(events), Some(id), Given(p.name, s.event.name)) then Some(NameTaken)
                else None
      ensures error.None? ==>
                var e := old(events)[id].event;
                && outbox == old(outbox)
                && events == Rewritten(old(events), id, e.(
                     name := if p.name.Some? then p.name.value else e.name,
                     theme := if p.theme.Some? then p.theme.value else e.theme,
                     startsAt := if p.startsAt.Some? then p.startsAt.value else e.startsAt,
                     endsAt := if p.endsAt.Some? then p.endsAt.value else e.endsAt,
                     salesStartsAt := if p.salesStartsAt.Some? then p.salesStartsAt.value else e.salesStartsAt,
                     salesEndsAt := if p.salesEndsAt.Some? then p.salesEndsAt.value else e.salesEndsAt,
                     venue := if p.venue.Some? then p.venue.value else e.venue,
                     capacity := if p.capacity.Some? then p.capacity.value else e.capacity))
      ensures error.None? ==> WithinCapacity(events[id]) && WindowOk(events[id].event)
    {
      error := TryPatch(id, version, p, earliest);
      PatchTold(old(View()), View(), id, version, p, earliest, error);
      assert Healthy(View()) && (error.None? ==> WithinCapacity(events[id]) && WindowOk(events[id].event)) by {
        HistoryIsHealthy(history);
        if error.None? {
          EventAfter(history, id);
        }
      }
    }

    /** The serializer's checks, then the new capacity against the quotas. */
    method CheckPatch(s: EventState, p: EventPatch, earliest: int) returns (error: Option<Error>)
      ensures
        var rejected := WriteError(Merge(s.event, p), p.startsAt.Some?, earliest);
        error ==
          if FieldErrors(p, false) != {} then Some(Invalid(FieldErrors(p, false)))
          else if rejected.Some? then Some(Invalid({rejected.value}))
          else if NothingGiven(p) then Some(Invalid({"non_field_errors"}))
          else if p.capacity.Some? && QuotaTotal(s.categories) > Given(p.capacity.value, 0)
          then Some(Invalid({"capacity_total"}))
          else None
    {
      if FieldErrors(p, false) != {} {
        return Some(Invalid(FieldErrors(p, false)));
      }
      var row := MergedRow(s.event, p);
      var rejected := WriteError(row, p.startsAt.Some?, earliest);
      if rejected.Some? {
        return Some(Invalid({rejected.value}));
      }
      if NothingGiven(p) {
        return Some(Invalid({"non_field_errors"}));
      }
      if p.capacity.Some? {
        var quotas := QuotaSum(s.categories);
        var capacity := p.capacity.value;
        if quotas > 0 && capacity.None? {
          return Some(Invalid({"capacity_total"}));
        }
        if capacity.Some? && quotas > capacity.value {
          return Some(Invalid({"capacity_total"}));
        }
      }
      return None;
    }

    /** The unique constraint on names speaks only when the update would touch the row. */
    method SaveNamed(id: nat, version: nat, row: Event) returns (error: Option<Error>)
      requires id in events
      modifies this`events
      ensures error == if old(events)[id].event.version != version then Some(Stale(old(events)[id].event.version))
                       else if EventNamed(old(events), Some(id), row.name) then Some(NameTaken)
                       else None
      ensures events == if error.None? then Rewritten(old(events), id, row) else old(events)
    {
      if events[id].event.version == version && EventNamed(events, Some(id), row.name) {
        return Some(NameTaken);
      }
      error := SaveRow(id, version, row);
    }

    method TryPatch(id: nat, version: nat, p: EventPatch, earliest: int) returns (error: Option<Error>)
      requires Valid()
      modifies this`events, this`history
      ensures Valid()
      ensures Did(old(View()), View(), id, PatchEvent(version, p, earliest), error)
    {
      Note(On(id, PatchEvent(version, p, earliest)));
      if id !in events {
        return Some(NotFound);
      }
      var event := events[id].event;
      if event.status != Draft {
        return Some(NotDraft);
      }
      error := CheckPatch(events[id], p, earliest);
      if error.Some? {
        return;
      }
      var row := MergedRow(event, p);
      error := SaveNamed(id, version, row);
    }

    /** The transaction of an image upload: of what is stored here only the version changes. */
    method SetEventImage(id: nat, version: nat) returns (error: Option<Error>)
      requires Valid()
      modifies this
      ensures Valid() && Healthy(View())
      ensures Did(old(View()), View(), id, SetImage(version), error)
      ensures error ==
              if id !in old(events) then Some(NotFound)
              else
                var e := old(events)[id].event;
                if e.status !in {Draft, Published, Postponed} then Some(NotDraft)
                else if e.version != version then Some(Stale(e.version))
                else None
      ensures error.None? ==> outbox == old(outbox) && events == Rewritten(old(events), id, old(events)[id].event)
    {
      error := TrySetImage(id, version);
      assert Healthy(View()) by {
        HistoryIsHealthy(history);
      }
    }

    method TrySetImage(id: nat, version: nat) returns (error: Option<Error>)
      requires Valid()
      modifies this`events, this`history
      ensures Valid()
      ensures Did(old(View()), View(), id, SetImage(version), error)
    {
      Note(On(id, SetImage(version)));
      if id !in events {
        return Some(NotFound);
      }
      var event := events[id].event;
      if event.status !in {Draft, Published, Postponed} {
        return Some(NotDraft);
      }
      error := SaveRow(id, version, event);
    }

    method AddCategory(id: nat, category: nat, name: string, price: nat, quota: nat) returns (error: Option<Error>)
      requires Valid()
      modifies this
      ensures Valid() && Healthy(View())
      ensures Did(old(View()), View(), id, CreateCategory(category, name, price, quota), error)
      ensures error ==
              if name == "" || quota == 0
              then Some(Invalid((if name == "" then {"name"} else {}) + (if quota == 0 then {"quota"} else {})))
              else if id !in old(events) then Some(NotFound)
              else
                var s := old(events)[id];
                if s.event.status != Draft then Some(NotDraft)
                else if s.event.capacity.None? then Some(Invalid({"capacity_total"}))
                else if QuotaTotal(s.categories) + quota > s.event.capacity.value then Some(Invalid({"quota"}))
                else if CategoryNamed(s.categories, name) then Some(NameTaken)
                else None
      ensures error.None? ==>
                var s := old(events)[id];
                && outbox == old(outbox)
                && events == old(events)[id := s.(
                     categories := s.categories + [Category(category, name, price, quota, 0, 1)])]
      ensures error.None? ==> WithinCapacity(events[id]) && CategoryNamesDiffer(events[id].categories)
    {
      error := TryAdd(id, category, name, price, quota);
      assert Healthy(View())
             && (error.None? ==> WithinCapacity(events[id]) && CategoryNamesDiffer(events[id].categories)) by {
        HistoryIsHealthy(history);
        if error.None? {
          EventAfter(history, id);
        }
      }
    }

    method TryAdd(id: nat, category: nat, name: string, price: nat, quota: nat) returns (error: Option<Error>)
      requires Valid()
      modifies this`events, this`history
      ensures Valid()
      ensures Did(old(View()), View(), id, CreateCategory(category, name, price, quota), error)
    {
      Note(On(id, CreateCategory(category, name, price, quota)));
      var fields := Flag(name == "", "name") + Flag(quota < 1, "quota");
      if fields != {} {
        return Some(Invalid(fields));
      }
      if id !in events {
        return Some(NotFound);
      }
      var s := events[id];
      if s.event.status != Draft {
        return Some(NotDraft);
      }
      var total := QuotaSum(s.categories);
      var rejected := QuotaError(s.event, total + quota);
      if rejected.Some? {
        return Some(Invalid({rejected.value}));
      }
      if CategoryNamed(s.categories, name) {
        return Some(NameTaken);
      }
      events := events[id := s.(categories := s.categories + [Category(category, name, price, quota, 0, 1)])];
      return None;
    }

    method ChangedRow(row: Category, p: CategoryPatch) returns (changed: Category)
      ensures changed == Changed(row, p)
    {
      changed := row;
      if p.name.Some? {
        changed := changed.(name := p.name.value);
      }
      if p.price.Some? {
        changed := changed.(price := p.price.value);
      }
      if p.quota.Some? {
        changed := changed.(quota := p.quota.value);
      }
    }

    /** `versioned_update` on a category row of the locked event, with its unique name. */
    method SaveCategory(id: nat, i: nat, version: nat, row: Category) returns (error: Option<Error>)
      requires id in events && i < |events[id].categories|
      modifies this`events
      ensures
        var s := old(events)[id];
        && error == (if s.categories[i].version != version then Some(Stale(s.categories[i].version))
                     else if CategoryNamed(Without(s.categories, i), row.name) then Some(NameTaken)
                     else None)
        && events == if error.Some? then old(events)
                     else old(events)[id := s.(categories := s.categories[i := row.(version := version + 1)])]
    {
      var s := events[id];
      if s.categories[i].version != version {
        return Some(Stale(s.categories[i].version));
      }
      if CategoryNamed(s.categories[..i] + s.categories[i + 1..], row.name) {
        return Some(NameTaken);
      }
      var saved := row.(version := version + 1);
      events := events[id := s.(categories := s.categories[i := saved])];
      return None;
    }

    method EditCategory(id: nat, category: nat, version: nat, p: CategoryPatch) returns (error: Option<Error>)
      requires Valid()
      modifies this
      ensures Valid() && Healthy(View())
      ensures Did(old(View()), View(), id, PatchCategory(category, version, p), error)
      ensures error ==
              if id !in old(events) then Some(NotFound)
              else if old(events)[id].event.status != Draft then Some(NotDraft)
              else
                var s, i := old(events)[id], IndexOf(old(events)[id].categories, category);
                if i == |s.categories| then Some(NotFound)
                else
                  var c := s.categories[i];
                  var quota := if p.quota.Some? then p.quota.value else c.quota;
                  var name := if p.name.Some? then p.name.value else c.name;
                  if p.name == Some("") || p.quota == Some(0)
                  then Some(Invalid((if p.name == Some("") then {"name"} else {})
                                    + (if p.quota == Some(0) then {"quota"} else {})))
                  else if quota < c.sold then Some(Invalid({"quota"}))
                  else if p.name.None? && p.price.None? && p.quota.None? then Some(Invalid({"non_field_errors"}))
                  else if s.event.capacity.None? then Some(Invalid({"capacity_total"}))
                  else if QuotaTotal(Without(s.categories, i)) + quota > s.event.capacity.value
                  then Some(Invalid({"quota"}))
                  else if c.version != version then Some(Stale(c.version))
                  else if CategoryNamed(Without(s.categories, i), name) then Some(NameTaken)
                  else None
      ensures error.None? ==>
                var s, i := old(events)[id], IndexOf(old(events)[id].categories, category);
                var c := s.categories[i];
                && outbox == old(outbox)
                && events == old(events)[id := s.(categories := s.categories[i := Category(
                     category,
                     if p.name.Some? then p.name.value else c.name,
                     if p.price.Some? then p.price.value else c.price,
                     if p.quota.Some? then p.quota.value else c.quota,
                     c.sold,
                     version + 1)])]
      ensures error.None? ==> WithinCapacity(events[id]) && CategoryNamesDiffer(events[id].categories)
    {
      error := TryEdit(id, category, version, p);
      EditTold(old(View()), View(), id, category, version, p, error);
      assert Healthy(View())
             && (error.None? ==> WithinCapacity(events[id]) && CategoryNamesDiffer(events[id].categories)) by {
        HistoryIsHealthy(history);
        if error.None? {
          EventAfter(history, id);
        }
      }
    }

    method CheckCategory(s: EventState, i: nat, p: CategoryPatch) returns (error: Option<Error>)
      requires i < |s.categories|
      ensures error == CategoryError(s, i, p)
    {
      var fields := Flag(p.name == Some(""), "name") + Flag(p.quota == Some(0), "quota");
      if fields != {} {
        return Some(Invalid(fields));
      }
      var quota := if p.quota.Some? then p.quota.value else s.categories[i].quota;
      if quota < s.categories[i].sold {
        return Some(Invalid({"quota"}));
      }
      if p.name.None? && p.price.None? && p.quota.None? {
        return Some(Invalid({"non_field_errors"}));
      }
      var rest := QuotaSum(s.categories[..i] + s.categories[i + 1..]);
      var rejected := QuotaError(s.event, rest + quota);
      return if rejected.Some? then Some(Invalid({rejected.value})) else None;
    }

    method TryEdit(id: nat, category: nat, version: nat, p: CategoryPatch) returns (error: Option<Error>)
      requires Valid()
      modifies this`events, this`history
      ensures Valid()
      ensures Did(old(View()), View(), id, PatchCategory(category, version, p), error)
    {
      Note(On(id, PatchCategory(category, version, p)));
      if id !in events {
        return Some(NotFound);
      }
      var s := events[id];
      if s.event.status != Draft {
        return Some(NotDraft);
      }
      var i := IndexOf(s.categories, category);
      if i == |s.categories| {
        return Some(NotFound);
      }
      error := CheckCategory(s, i, p);
      if error.Some? {
        return;
      }
      var row := ChangedRow(s.categories[i], p);
      error := SaveCategory(id, i, version, row);
    }

    method RemoveCategory(id: nat, category: nat, version: nat) returns (error: Option<Error>)
      requires Valid()
      modifies this
      ensures Valid() && Healthy(View())
      ensures Did(old(View()), View(), id, DeleteCategory(category, version), error)
      ensures error ==
              if id !in old(events) then Some(NotFound)
              else if old(events)[id].event.status != Draft then Some(NotDraft)
              else
                var cs, i := old(events)[id].categories, IndexOf(old(events)[id].categories, category);
                if i == |cs| then Some(NotFound)
                else if cs[i].sold > 0 then Some(HasSales)
                else if cs[i].version != version then Some(Stale(cs[i].version))
                else None
      ensures error.None? ==>
                var s, i := old(events)[id], IndexOf(old(events)[id].categories, category);
                && outbox == old(outbox)
                && events == old(events)[id := s.(categories := s.categories[..i] + s.categories[i + 1..])]
      ensures error.None? ==>
                WithinCapacity(events[id]) && SoldTotal(events[id].categories) == SoldTotal(old(events)[id].categories)
    {
      error := TryRemove(id, category, version);
      HistoryIsHealthy(history);
      if error.None? {
        EventAfter(history, id);
        UnsoldRemoval(old(events)[id].categories, IndexOf(old(events)[id].categories, category));
      }
    }

    method TryRemove(id: nat, category: nat, version: nat) returns (error: Option<Error>)
      requires Valid()
      modifies this`events, this`history
      ensures Valid()
      ensures Did(old(View()), View(), id, DeleteCategory(category, version), error)
    {
      Note(On(id, DeleteCategory(category, version)));
      if id !in events {
        return Some(NotFound);
      }
      var s := events[id];
      if s.event.status != Draft {
        return Some(NotDraft);
      }
      var i := IndexOf(s.categories, category);
      if i == |s.categories| {
        return Some(NotFound);
      }
      if s.categories[i].sold > 0 {
        return Some(HasSales);
      }
      if s.categories[i].version != version {
        return Some(Stale(s.categories[i].version));
      }
      events := events[id := s.(categories := s.categories[..i] + s.categories[i + 1..])];
      return None;
    }

    /** A published event has tickets on sale at some instant, and one published record. */
    method PublishDraft(id: nat, version: nat, earliest: int) returns (error: Option<Error>)
      requires Valid()
      modifies this
      ensures Valid() && Healthy(View())
      ensures Did(old(View()), View(), id, Publish(version, earliest), error)
      ensures error ==
              if id !in old(events) then Some(NotFound)
              else
                var s := old(events)[id];
                if s.event.status != Draft then Some(NotDraft)
                else if PublishErrors(s, earliest) != {} then Some(Invalid(PublishErrors(s, earliest)))
                else if s.event.version != version then Some(Stale(s.event.version))
                else None
      ensures error.None? ==>
                var s := old(events)[id];
                && outbox == old(outbox) + [Message(id, PublishedMessage)]
                && events == old(events)[id := EventState(
                     s.event.(status := Published, version := version + 1), s.categories,
                     [Schedule(s.event.startsAt, s.event.endsAt)])]
      ensures error.None? ==>
                && WithinCapacity(events[id]) && Sent(outbox, id, TagPublished) == 1
                && exists t :: SalesOpen(events[id].event, t)
    {
      error := TryPublish(id, version, earliest);
      assert Healthy(View())
             && (error.None? ==>
                   && WithinCapacity(events[id]) && Sent(outbox, id, TagPublished) == 1
                   && exists t :: SalesOpen(events[id].event, t)) by {
        HistoryIsHealthy(history);
        if error.None? {
          EventAfter(history, id);
          RecordsAfter(history, id);
          PublishedEventsGoOnSale(history, id);
        }
      }
    }

    method PublicationProblems(s: EventState, earliest: int) returns (errors: set<string>)
      ensures errors == PublishErrors(s, earliest)
    {
      errors := {};
      if Blank(s.event.venue) {
        errors := errors + {"venue"};
      }
      if s.event.capacity.None? {
        errors := errors + {"capacity_total"};
      }
      if s.event.startsAt < earliest {
        errors := errors + {"starts_at"};
      }
      var quotas := QuotaSum(s.categories);
      if |s.categories| == 0 {
        errors := errors + {"ticket_categories"};
      }
      if s.event.capacity.Some? && quotas > s.event.capacity.value {
        errors := errors + {"quota"};
      }
    }

    method TryPublish(id: nat, version: nat, earliest: int) returns (error: Option<Error>)
      requires Valid()
      modifies this
      ensures Valid()
      ensures Did(old(View()), View(), id, Publish(version, earliest), error)
      ensures error.None? ==> id in events && events[id].event.status == Published
    {
      Note(On(id, Publish(version, earliest)));
      if id !in events {
        return Some(NotFound);
      }
      var s := events[id];
      if s.event.status != Draft {
        return Some(NotDraft);
      }
      var errors := PublicationProblems(s, earliest);
      if errors != {} {
        return Some(Invalid(errors));
      }
      error := SaveRow(id, version, s.event.(status := Published));
      if error.None? {
        events := events[id := events[id].(announced := [Schedule(s.event.startsAt, s.event.endsAt)])];
        PublishEvent(id, PublishedMessage);
      }
    }

    /** The new schedule, if there is one, is the last announced and the one the latest record names. */
    method PostponeEvent(id: nat, version: nat, newStart: Option<int>, newEnd: Option<int>, reason: string, earliest: int)
      returns (error: Option<Error>)
      requires Valid()
      modifies this
      ensures Valid() && Healthy(View())
      ensures Did(old(View()), View(), id, Postpone(version, newStart, newEnd, reason, earliest), error)
      ensures error ==
              if newStart.None? != newEnd.None? || (newStart.Some? && newStart.value < earliest)
              then Some(Invalid({"starts_at"}))
              else if newStart.Some? && newEnd.value <= newStart.value then Some(Invalid({"ends_at"}))
              else if id !in old(events) then Some(NotFound)
              else
                var e := old(events)[id].event;
                var firstDate := e.status == Postponed && e.toStartsAt.None? && e.toEndsAt.None? && newStart.Some?;
                if e.status !in {Published, Postponed} then Some(BadTransition(e.status, Postponed))
                else if reason == "" && !firstDate then Some(Invalid({"reason"}))
                else if e.version != version then Some(Stale(e.version))
                else None
      ensures error.None? ==>
                var s, t := old(events)[id], events[id];
                var previous := Schedule(s.event.startsAt, s.event.endsAt);
                var current := Schedule(t.event.startsAt, t.event.endsAt);
                && current == (if newStart.Some? then Schedule(newStart.value, newEnd.value) else previous)
                && outbox == old(outbox) + [Message(id, PostponedMessage(previous, current))]
                && t.announced == (if newStart.Some? then s.announced + [current] else s.announced)
                && t.event.status == Postponed && t.event.version == version + 1
                && t.event.toStartsAt == newStart && t.event.toEndsAt == newEnd
                && t.event.lifecycleReason ==
                     (if s.event.status == Postponed && s.event.toStartsAt.None? && s.event.toEndsAt.None? && newStart.Some?
                      then s.event.lifecycleReason else reason)
                && OnlyPostponed(s, t) && events == old(events)[id := t]
      ensures error.None? ==>
                var e, h := events[id].event, events[id].announced;
                && LastPostponed(outbox, id) == Some(Schedule(e.startsAt, e.endsAt))
                && (if newStart.Some? then PostponedDated(e, h) else PostponedUndated(e, h))
                && (CanOpenAdmission(e) <==> newStart.Some?)
    {
      error := TryPostpone(id, version, newStart, newEnd, reason, earliest);
      HistoryIsHealthy(history);
      if error.None? {
        EventAfter(history, id);
        PostponeRecords(old(View()), id, Postpone(version, newStart, newEnd, reason, earliest));
      }
    }

    method MovedRow(event: Event, newStart: Option<int>, newEnd: Option<int>, reason: string) returns (row: Event)
      ensures row == PostponedRow(event, newStart, newEnd, reason)
    {
      row := event;
      if !DefinesDate(event, newStart, newEnd) {
        row := row.(lifecycleReason := reason);
      }
      if event.status != Postponed || event.fromStartsAt.None? || event.toStartsAt.Some? {
        row := row.(fromStartsAt := Some(event.startsAt));
        row := row.(fromEndsAt := Some(event.endsAt));
      }
      row := row.(status := Postponed);
      row := row.(toStartsAt := newStart);
      row := row.(toEndsAt := newEnd);
      if newStart.Some? && newEnd.Some? {
        row := row.(startsAt := newStart.value);
        row := row.(endsAt := newEnd.value);
      }
    }

    method TryPostpone(id: nat, version: nat, newStart: Option<int>, newEnd: Option<int>, reason: string, earliest: int)
      returns (error: Option<Error>)
      requires Valid()
      modifies this
      ensures Valid()
      ensures Did(old(View()), View(), id, Postpone(version, newStart, newEnd, reason, earliest), error)
      ensures error.None? ==> id in events && events[id].event.status == Postponed
    {
      Note(On(id, Postpone(version, newStart, newEnd, reason, earliest)));
      var rejected := PostponeError(newStart, newEnd, earliest);
      if rejected.Some? {
        return Some(Invalid({rejected.value}));
      }
      if id !in events {
        return Some(NotFound);
      }
      var event := events[id].event;
      if event.status !in {Published, Postponed} {
        return Some(BadTransition(event.status, Postponed));
      }
      if !DefinesDate(event, newStart, newEnd) && reason == "" {
        return Some(Invalid({"reason"}));
      }
      var row := MovedRow(event, newStart, newEnd, reason);
      error := SaveRow(id, version, row);
      if error.None? {
        Announce(id, Schedule(event.startsAt, event.endsAt), Schedule(row.startsAt, row.endsAt), newStart.Some?);
      }
    }

    /** The record of a postponement, and the history of announced schedules when it has a date. */
    method Announce(id: nat, previous: Schedule, current: Schedule, dated: bool)
      requires id in events
      modifies this`events, this`outbox
      ensures outbox == old(outbox) + [Message(id, PostponedMessage(previous, current))]
      ensures
        var s := old(events)[id];
        events == old(events)[id := s.(announced := if dated then s.announced + [current] else s.announced)]
    {
      var s := events[id];
      if dated {
        s := s.(announced := s.announced + [current]);
      }
      events := events[id := s];
      PublishEvent(id, PostponedMessage(previous, current));
    }

    /** A suspended event neither sells, admits nor completes. */
    method SuspendEvent(id: nat, version: nat, reason: string) returns (error: Option<Error>)
      requires Valid()
      modifies this
      ensures Valid() && Healthy(View())
      ensures Did(old(View()), View(), id, Suspend(version, reason), error)
      ensures error ==
              if reason == "" then Some(Invalid({"reason"}))
              else if id !in old(events) then Some(NotFound)
              else
                var e := old(events)[id].event;
                if e.status !in {Published, Postponed} then Some(BadTransition(e.status, Suspended))
                else if e.version != version then Some(Stale(e.version))
                else None
      ensures error.None? ==>
                && outbox == old(outbox) + [Message(id, SuspendedMessage)]
                && events == Rewritten(old(events), id, old(events)[id].event.(
                     status := Suspended, lifecycleReason := reason))
      ensures error.None? ==> Idle(events[id].event)
      ensures error.None? ==> OnlyPhase(events[id].event, SuspendedPhase)
    {
      error := TrySuspend(id, version, reason);
      HistoryIsHealthy(history);
      if error.None? {
        SuspendedIsIdle(events[id].event);
      }
    }

    method TrySuspend(id: nat, version: nat, reason: string) returns (error: Option<Error>)
      requires Valid()
      modifies this
      ensures Valid()
      ensures Did(old(View()), View(), id, Suspend(version, reason), error)
      ensures error.None? ==> id in events && events[id].event.status == Suspended
    {
      Note(On(id, Suspend(version, reason)));
      if reason == "" {
        return Some(Invalid({"reason"}));
      }
      if id !in events {
        return Some(NotFound);
      }
      var row := events[id].event;
      if row.status !in {Published, Postponed} {
        return Some(BadTransition(row.status, Suspended));
      }
      row := row.(status := Suspended);
      row := row.(lifecycleReason := reason);
      error := SaveRow(id, version, row);
      if error.None? {
        PublishEvent(id, SuspendedMessage);
      }
    }

    /** A cancelled event has its one cancelled record and no completed one. */
    method CancelEvent(id: nat, version: nat, reason: string, refundRequested: bool) returns (error: Option<Error>)
      requires Valid()
      modifies this
      ensures Valid() && Healthy(View())
      ensures Did(old(View()), View(), id, Cancel(version, reason, refundRequested), error)
      ensures error ==
              if reason == "" then Some(Invalid({"reason"}))
              else if id !in old(events) then Some(NotFound)
              else
                var e := old(events)[id].event;
                if e.status !in {Published, Postponed, Suspended} then Some(BadTransition(e.status, Cancelled))
                else if e.version != version then Some(Stale(e.version))
                else None
      ensures error.None? ==>
                && outbox == old(outbox) + [Message(id, CancelledMessage(refundRequested))]
                && events == Rewritten(old(events), id, old(events)[id].event.(
                     status := Cancelled, lifecycleReason := reason))
      ensures error.None? ==> Sent(outbox, id, TagCancelled) == 1 && Sent(outbox, id, TagCompleted) == 0
      ensures error.None? ==> OnlyPhase(events[id].event, CancelledPhase)
    {
      error := TryCancel(id, version, reason, refundRequested);
      assert Healthy(View())
             && (error.None? ==> Sent(outbox, id, TagCancelled) == 1 && Sent(outbox, id, TagCompleted) == 0) by {
        HistoryIsHealthy(history);
        if error.None? {
          RecordsAfter(history, id);
        }
      }
      if error.None? {
        StatusDecides(events[id].event, 0);
      }
    }

    method TryCancel(id: nat, version: nat, reason: string, refundRequested: bool) returns (error: Option<Error>)
      requires Valid()
      modifies this
      ensures Valid()
      ensures Did(old(View()), View(), id, Cancel(version, reason, refundRequested), error)
      ensures error ==
              if reason == "" then Some(Invalid({"reason"}))
              else if id !in old(events) then Some(NotFound)
              else
                var e := old(events)[id].event;
                if e.status !in {Published, Postponed, Suspended} then Some(BadTransition(e.status, Cancelled))
                else if e.version != version then Some(Stale(e.version))
                else None
      ensures error.None? ==>
                && outbox == old(outbox) + [Message(id, CancelledMessage(refundRequested))]
                && events == Rewritten(old(events), id, old(events)[id].event.(
                     status := Cancelled, lifecycleReason := reason))
    {
      Note(On(id, Cancel(version, reason, refundRequested)));
      if reason == "" {
        return Some(Invalid({"reason"}));
      }
      if id !in events {
        return Some(NotFound);
      }
      var row := events[id].event;
      if row.status !in {Published, Postponed, Suspended} {
        return Some(BadTransition(row.status, Cancelled));
      }
      row := row.(status := Cancelled);
      row := row.(lifecycleReason := reason);
      error := SaveRow(id, version, row);
      if error.None? {
        PublishEvent(id, CancelledMessage(refundRequested));
      }
    }

    method ArchiveEvent(id: nat, version: nat) returns (error: Option<Error>)
      requires Valid()
      modifies this
      ensures Valid() && Healthy(View())
      ensures Did(old(View()), View(), id, Archive(version), error)
      ensures error ==
              if id !in old(events) then Some(NotFound)
              else
                var e := old(events)[id].event;
                if e.status != Published then Some(BadTransition(e.status, Archived))
                else if e.version != version then Some(Stale(e.version))
                else None
      ensures error.None? ==> events == Rewritten(old(events), id, old(events)[id].event.(status := Archived))
      ensures error.None? ==> outbox == old(outbox) && Sent(outbox, id, TagPublished) == 1
      ensures error.None? ==> OnlyPhase(events[id].event, ArchivedPhase)
    {
      error := TryArchive(id, version);
      assert Healthy(View()) && (error.None? ==> Sent(outbox, id, TagPublished) == 1) by {
        HistoryIsHealthy(history);
        if error.None? {
          RecordsAfter(history, id);
        }
      }
      if error.None? {
        StatusDecides(events[id].event, 0);
      }
    }

    method TryArchive(id: nat, version: nat) returns (error: Option<Error>)
      requires Valid()
      modifies this`events, this`history
      ensures Valid()
      ensures Did(old(View()), View(), id, Archive(version), error)
      ensures error ==
              if id !in old(events) then Some(NotFound)
              else
                var e := old(events)[id].event;
                if e.status != Published then Some(BadTransition(e.status, Archived))
                else if e.version != version then Some(Stale(e.version))
                else None
      ensures error.None? ==> events == Rewritten(old(events), id, old(events)[id].event.(status := Archived))
    {
      Note(On(id, Archive(version)));
      if id !in events {
        return Some(NotFound);
      }
      var row := events[id].event;
      if row.status != Published {
        return Some(BadTransition(row.status, Archived));
      }
      error := SaveRow(id, version, row.(status := Archived));
    }

    /** Back on sale, without a second published record. */
    method UnarchiveEvent(id: nat, version: nat) returns (error: Option<Error>)
      requires Valid()
      modifies this
      ensures Valid() && Healthy(View())
      ensures Did(old(View()), View(), id, Unarchive(version), error)
      ensures error ==
              if id !in old(events) then Some(NotFound)
              else
                var e := old(events)[id].event;
                if e.status != Archived then Some(BadTransition(e.status, Published))
                else if e.version != version then Some(Stale(e.version))
                else None
      ensures error.None? ==> events == Rewritten(old(events), id, old(events)[id].event.(status := Published))
      ensures error.None? ==>
                outbox == old(outbox) && Sent(outbox, id, TagPublished) == 1 && exists t :: SalesOpen(events[id].event, t)
    {
      error := TryUnarchive(id, version);
      assert Healthy(View())
             && (error.None? ==> Sent(outbox, id, TagPublished) == 1 && exists t :: SalesOpen(events[id].event, t)) by {
        HistoryIsHealthy(history);
        if error.None? {
          EventAfter(history, id);
          RecordsAfter(history, id);
          PublishedEventsGoOnSale(history, id);
        }
      }
    }

    method TryUnarchive(id: nat, version: nat) returns (error: Option<Error>)
      requires Valid()
      modifies this`events, this`history
      ensures Valid()
      ensures Did(old(View()), View(), id, Unarchive(version), error)
      ensures error ==
              if id !in old(events) then Some(NotFound)
              else
                var e := old(events)[id].event;
                if e.status != Archived then Some(BadTransition(e.status, Published))
                else if e.version != version then Some(Stale(e.version))
                else None
      ensures error.None? ==> events == Rewritten(old(events), id, old(events)[id].event.(status := Published))
    {
      Note(On(id, Unarchive(version)));
      if id !in events {
        return Some(NotFound);
      }
      var row := events[id].event;
      if row.status != Archived {
        return Some(BadTransition(row.status, Published));
      }
      error := SaveRow(id, version, row.(status := Published));
    }

    /** A completed event has its one completed record and is never cancelled. */
    method CompleteEventIfElapsed(id: nat, now: int) returns (completed: bool)
      requires Valid()
      modifies this
      ensures Valid() && Healthy(View())
      ensures completed <==>
                && id in old(events) && old(events)[id].event.endsAt <= now
                && (old(events)[id].event.status == Published
                    || (old(events)[id].event.status == Postponed && old(events)[id].event.toEndsAt.Some?))
      ensures completed ==>
                var s := old(events)[id];
                && outbox == old(outbox) + [Message(id, CompletedMessage)]
                && events == old(events)[id := s.(event := s.event.(
                     status := Completed, lifecycleReason := "Clôturé automatiquement à la fin de l’événement."))]
      ensures View() == Step(old(View()), On(id, CompleteIfElapsed(now)))
      ensures !completed ==> View() == old(View())
      ensures completed ==> Sent(outbox, id, TagCompleted) == 1 && Sent(outbox, id, TagCancelled) == 0
      ensures completed ==> OnlyPhase(events[id].event, Ended)
    {
      completed := TryComplete(id, now);
      assert Healthy(View())
             && (completed ==> Sent(outbox, id, TagCompleted) == 1 && Sent(outbox, id, TagCancelled) == 0) by {
        HistoryIsHealthy(history);
        if completed {
          RecordsAfter(history, id);
        }
      }
    }

    /** Saves the listed fields only, so the version stays. */
    method TryComplete(id: nat, now: int) returns (completed: bool)
      requires Valid()
      modifies this
      ensures Valid() && View() == Step(old(View()), On(id, CompleteIfElapsed(now)))
      ensures completed <==> id in old(events) && CanBeCompleted(old(events)[id].event, now)
      ensures outbox == if completed then old(outbox) + [Message(id, CompletedMessage)] else old(outbox)
      ensures events ==
              if completed
              then old(events)[id := old(events)[id].(event := old(events)[id].event.(
                                       status := Completed, lifecycleReason := AUTO_COMPLETION_REASON))]
              else old(events)
    {
      Note(On(id, CompleteIfElapsed(now)));
      if id !in events || !CanBeCompleted(events[id].event, now) {
        return false;
      }
      var row := events[id].event;
      row := row.(status := Completed);
      row := row.(lifecycleReason := AUTO_COMPLETION_REASON);
      events := events[id := events[id].(event := row)];
      PublishEvent(id, CompletedMessage);
      return true;
    }

    method EarliestOf(ids: set<nat>) returns (first: nat)
      requires ids != {} && ids <= events.Keys
      ensures first in ids && forall other :: other in ids ==> EndsFirst(events, first, other)
    {
      ghost var least := FirstExists(events, ids);
      first :| first in ids && forall other :: other in ids ==> EndsFirst(events, first, other);
    }

    method ElapsedIds(now: int) returns (ids: seq<nat>)
      ensures forall id :: id in ids <==> id in events && Elapsed(events[id].event, now)
      ensures forall i, j :: 0 <= i < j < |ids| ==> ids[i] != ids[j] && EndsFirst(events, ids[i], ids[j])
    {
      var rest := set id | id in events && Elapsed(events[id].event, now);
      ids := [];
      while rest != {}
        invariant forall id :: id in rest || id in ids <==> id in events && Elapsed(events[id].event, now)
        invariant forall i :: 0 <= i < |ids| ==> ids[i] in events && ids[i] !in rest
        invariant forall i, j :: 0 <= i < j < |ids| ==> ids[i] != ids[j] && EndsFirst(events, ids[i], ids[j])
        invariant forall i, later :: 0 <= i < |ids| && later in rest ==> EndsFirst(events, ids[i], later)
        decreases rest
      {
        var first := EarliestOf(rest);
        ids := ids + [first];
        rest := rest - {first};
      }
    }

    method CompleteNext(ghost start: Catalog, ids: seq<nat>, i: nat, now: int) returns (completed: bool)
      requires Valid() && i < |ids| && View() == Sweep(start, ids[..i], now)
      modifies this
      ensures Valid() && View() == Sweep(start, ids[..i + 1], now)
      ensures |outbox| == |old(outbox)| + if completed then 1 else 0
    {
      SweepOneMore(start, ids, i, now);
      completed := TryComplete(ids[i], now);
    }

    method CompleteAll(ids: seq<nat>, now: int) returns (completed: nat)
      requires Valid()
      modifies this
      ensures Valid() && View() == Sweep(old(View()), ids, now)
      ensures |outbox| == |old(outbox)| + completed
    {
      ghost var start := View();
      completed := 0;
      var i := 0;
      while i < |ids|
        invariant 0 <= i <= |ids| && Valid()
        invariant View() == Sweep(start, ids[..i], now)
        invariant |outbox| == |old(outbox)| + completed
      {
        var done := CompleteNext(start, ids, i, now);
        completed := completed + if done then 1 else 0;
        i := i + 1;
      }
      assert ids[..i] == ids;
    }

    /** The sweep: every completable event is completed once, nothing else changes, and each is counted. */
    method CompleteElapsedEvents(now: int) returns (completed: nat)
      requires Valid()
      modifies this
      ensures Valid() && Healthy(View())
      ensures forall id :: id in events ==> !CanBeCompleted(events[id].event, now)
      ensures events == map id | id in old(events) :: Closed(old(events)[id], now)
      ensures |outbox| == |old(outbox)| + completed && old(outbox) <= outbox
      ensures forall k :: |old(outbox)| <= k < |outbox| ==> outbox[k].kind.CompletedMessage?
      ensures forall id :: Sent(outbox, id, TagCompleted) ==
                Sent(old(outbox), id, TagCompleted)
                + if id in old(events) && CanBeCompleted(old(events)[id].event, now) then 1 else 0
    {
      var ids := ElapsedIds(now);
      SweepLeavesNothing(View(), ids, now);
      completed := CompleteAll(ids, now);
      HistoryIsHealthy(history);
    }
  }
}
