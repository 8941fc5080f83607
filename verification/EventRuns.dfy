/**
 All events and the shared outbox, over every run of requests: capacity, postponement history,
 lifecycle and published records.
 */
module EventRuns {
  import opened Prelude
  import opened EventModel
  import opened EventHandlers
  import opened SalesTimeline

  datatype Message = Message(eventId: nat, kind: Kind)

  datatype Catalog = Catalog(events: map<nat, EventState>, outbox: seq<Message>)

  datatype Action =
    | Create(id: nat, draft: EventPatch, earliest: int)
    | Delete(id: nat, version: nat)
    | On(id: nat, request: Request)

  /** A new draft needs a name, a theme and its two dates; the other fields have defaults. */
  function NewEvent(p: EventPatch): Event
    requires FieldErrors(p, true) == {}
  {
    Merge(Event("", 0, Draft, 0, 0, None, None, None, None, "", None, None, None, "", 1), p)
  }

  predicate CreateAccepted(p: EventPatch, earliest: int) {
    FieldErrors(p, true) == {} && WriteError(NewEvent(p), true, earliest).None?
  }

  /** The events here are those of one organizer, whose names are unique up to case. */
  predicate EventNamed(events: map<nat, EventState>, but: Option<nat>, name: string) {
    exists id :: id in events && but != Some(id) && Lower(events[id].event.name) == Lower(name)
  }

  /** The handler's answer, unless its write would give the event a name that another one has. */
  function Respond(events: map<nat, EventState>, id: nat, r: Request): Result<Effect, Error>
    requires id in events
  {
    var answer := Handle(events[id], r);
    if answer.Ok? && EventNamed(events, Some(id), answer.value.state.event.name) && r.PatchEvent? then Err(NameTaken)
    else answer
  }

  predicate DeleteAccepted(s: EventState, version: nat) {
    && s.event.status.Draft? && s.event.version == version
    && forall i :: 0 <= i < |s.categories| ==> s.categories[i].sold == 0
  }

  function Send(outbox: seq<Message>, id: nat, kind: Option<Kind>): seq<Message> {
    if kind.Some? then outbox + [Message(id, kind.value)] else outbox
  }

  function Step(c: Catalog, a: Action): Catalog {
    match a
    case Create(id, p, earliest) =>
      if id !in c.events && CreateAccepted(p, earliest) && !EventNamed(c.events, None, NewEvent(p).name)
      then c.(events := c.events[id := EventState(NewEvent(p), [], [])]) else c
    case Delete(id, version) =>
      if id in c.events && DeleteAccepted(c.events[id], version) then c.(events := c.events - {id}) else c
    case On(id, request) =>
      if id !in c.events then c
      else
        match Respond(c.events, id, request)
        case Err(_) => c
        case Ok(effect) => Catalog(c.events[id := effect.state], Send(c.outbox, id, effect.message))
  }

  function After(run: seq<Action>): Catalog {
    if run == [] then Catalog(map[], []) else Step(After(run[..|run| - 1]), run[|run| - 1])
  }

  // ---- what every handler keeps ----

  predicate CapacityOk(s: EventState) {
    && (s.categories != [] ==> s.event.capacity.Some? && QuotaTotal(s.categories) <= s.event.capacity.value)
    && (!s.event.status.Draft? ==> s.categories != [])
    && forall i :: 0 <= i < |s.categories| ==> 1 <= s.categories[i].quota && s.categories[i].sold <= s.categories[i].quota
  }

  function Last(h: seq<Schedule>): Schedule
    requires h != []
  {
    h[|h| - 1]
  }

  predicate NeverPostponed(e: Event) {
    e.fromStartsAt.None? && e.fromEndsAt.None? && e.toStartsAt.None? && e.toEndsAt.None?
  }

  predicate PostponedUndated(e: Event, h: seq<Schedule>) {
    && h != [] && e.toStartsAt.None? && e.toEndsAt.None?
    && e.fromStartsAt == Some(Last(h).startsAt) && e.fromEndsAt == Some(Last(h).endsAt)
  }

  predicate PostponedDated(e: Event, h: seq<Schedule>) {
    && |h| >= 2
    && e.toStartsAt == Some(Last(h).startsAt) && e.toEndsAt == Some(Last(h).endsAt)
    && e.fromStartsAt == Some(h[|h| - 2].startsAt) && e.fromEndsAt == Some(h[|h| - 2].endsAt)
  }

  /** How the four postponement fields and the schedule record the announced history. */
  predicate HistoryOk(s: EventState) {
    var e, h := s.event, s.announced;
    && e.startsAt < e.endsAt
    && (e.status.Draft? <==> h == [])
    && (h != [] ==> Schedule(e.startsAt, e.endsAt) == Last(h))
    && (NeverPostponed(e) || PostponedUndated(e, h) || PostponedDated(e, h))
    && (e.status in {Draft, Published, Archived} ==> NeverPostponed(e))
    && (e.status.Postponed? ==> !NeverPostponed(e))
  }

  lemma {:induction false} QuotaOfSum(cs: seq<Category>, ds: seq<Category>)
    ensures QuotaTotal(cs + ds) == QuotaTotal(cs) + QuotaTotal(ds)
  {
    if ds == [] {
      assert cs + ds == cs;
    } else {
      assert (cs + ds)[..|cs + ds| - 1] == cs + ds[..|ds| - 1];
      QuotaOfSum(cs, ds[..|ds| - 1]);
    }
  }

  lemma QuotaOfUpdate(cs: seq<Category>, i: nat, c: Category)
    requires i < |cs|
    ensures QuotaTotal(Without(cs, i)) == QuotaTotal(cs) - cs[i].quota
    ensures QuotaTotal(cs[i := c]) == QuotaTotal(Without(cs, i)) + c.quota
  {
    QuotaOfSum(cs[..i], cs[i + 1..]);
    QuotaOfSum(cs[..i], [cs[i]]);
    QuotaOfSum(cs[..i] + [cs[i]], cs[i + 1..]);
    assert cs == cs[..i] + [cs[i]] + cs[i + 1..];
    QuotaOfSum(cs[..i], [c]);
    QuotaOfSum(cs[..i] + [c], cs[i + 1..]);
    assert cs[i := c] == cs[..i] + [c] + cs[i + 1..];
    assert [cs[i]][..0] == [] && [c][..0] == [];
  }

  lemma CreateCategoryKeepsCapacity(s: EventState, id: nat, name: string, price: nat, quota: nat)
    requires CapacityOk(s) && HandleCreateCategory(s, id, name, price, quota).Ok?
    ensures CapacityOk(HandleCreateCategory(s, id, name, price, quota).value.state)
  {
    var t := HandleCreateCategory(s, id, name, price, quota).value.state;
    assert t.categories[..|t.categories| - 1] == s.categories;
  }

  lemma PatchCategoryKeepsCapacity(s: EventState, id: nat, version: nat, p: CategoryPatch)
    requires CapacityOk(s) && HandlePatchCategory(s, id, version, p).Ok?
    ensures CapacityOk(HandlePatchCategory(s, id, version, p).value.state)
  {
    var t := HandlePatchCategory(s, id, version, p).value.state;
    var i := IndexOf(s.categories, id);
    QuotaOfUpdate(s.categories, i, t.categories[i]);
  }

  lemma DeleteCategoryKeepsCapacity(s: EventState, id: nat, version: nat)
    requires CapacityOk(s) && HandleDeleteCategory(s, id, version).Ok?
    ensures CapacityOk(HandleDeleteCategory(s, id, version).value.state)
  {
    var i := IndexOf(s.categories, id);
    QuotaOfUpdate(s.categories, i, s.categories[i]);
  }

  lemma SellKeepsCapacity(s: EventState, id: nat, quantity: nat)
    requires CapacityOk(s) && HandleSell(s, id, quantity).Ok?
    ensures CapacityOk(HandleSell(s, id, quantity).value.state)
  {
    var t := HandleSell(s, id, quantity).value.state;
    var i := IndexOf(s.categories, id);
    QuotaOfUpdate(s.categories, i, t.categories[i]);
    QuotaOfUpdate(s.categories, i, s.categories[i]);
  }

  lemma PatchEventKeepsCapacity(s: EventState, version: nat, p: EventPatch, earliest: int)
    requires CapacityOk(s) && HandlePatchEvent(s, version, p, earliest).Ok?
    ensures CapacityOk(HandlePatchEvent(s, version, p, earliest).value.state)
  {
    QuotaPositive(s.categories);
  }

  lemma HandleKeepsCapacity(s: EventState, r: Request)
    requires CapacityOk(s) && Handle(s, r).Ok?
    ensures CapacityOk(Handle(s, r).value.state)
  {
    match r
    case CreateCategory(id, name, price, quota) => CreateCategoryKeepsCapacity(s, id, name, price, quota);
    case PatchCategory(id, v, p) => PatchCategoryKeepsCapacity(s, id, v, p);
    case DeleteCategory(id, v) => DeleteCategoryKeepsCapacity(s, id, v);
    case Sell(id, quantity) => SellKeepsCapacity(s, id, quantity);
    case PatchEvent(v, p, earliest) => PatchEventKeepsCapacity(s, v, p, earliest);
    case _ => FrozenOutsideDrafts(s, r);
  }

  /** After publication no request changes the capacity, or which categories there are and their quotas. */
  lemma FrozenOutsideDrafts(s: EventState, r: Request)
    requires Handle(s, r).Ok? && (!s.event.status.Draft? || r.Publish? || r.SetImage?)
    ensures
      var t := Handle(s, r).value.state;
      t.event.capacity == s.event.capacity && Quotas(t.categories) == Quotas(s.categories)
    ensures !r.Sell? ==> Handle(s, r).value.state.categories == s.categories
  {
  }

  function Quotas(cs: seq<Category>): seq<(nat, nat)> {
    seq(|cs|, i requires 0 <= i < |cs| => (cs[i].id, cs[i].quota))
  }

  lemma {:induction false} QuotaPositive(cs: seq<Category>)
    requires forall i :: 0 <= i < |cs| ==> 1 <= cs[i].quota
    ensures cs != [] ==> QuotaTotal(cs) >= 1
  {
  }

  lemma PostponeKeepsHistory(s: EventState, version: nat, newStart: Option<int>, newEnd: Option<int>, reason: string,
                             earliest: int)
    requires HistoryOk(s) && HandlePostpone(s, version, newStart, newEnd, reason, earliest).Ok?
    ensures HistoryOk(HandlePostpone(s, version, newStart, newEnd, reason, earliest).value.state)
  {
  }

  lemma PatchKeepsHistory(s: EventState, version: nat, p: EventPatch, earliest: int)
    requires HistoryOk(s) && HandlePatchEvent(s, version, p, earliest).Ok?
    ensures HistoryOk(HandlePatchEvent(s, version, p, earliest).value.state)
  {
  }

  lemma PublishKeepsHistory(s: EventState, version: nat, earliest: int)
    requires HistoryOk(s) && HandlePublish(s, version, earliest).Ok?
    ensures HistoryOk(HandlePublish(s, version, earliest).value.state)
  {
  }

  /** What the other requests may change about an event leaves its history in order. */
  lemma OthersKeepHistory(s: EventState, r: Request)
    requires HistoryOk(s) && Handle(s, r).Ok? && !r.PatchEvent? && !r.Postpone? && !r.Publish?
    ensures HistoryOk(Handle(s, r).value.state)
  {
    OthersKeepSchedule(s, r);
    OthersKeepAnnounced(s, r);
  }

  lemma OthersKeepAnnounced(s: EventState, r: Request)
    requires Handle(s, r).Ok? && !r.Postpone? && !r.Publish?
    ensures
      var t := Handle(s, r).value.state;
      && t.announced == s.announced
      && (t.event.status.Draft? <==> s.event.status.Draft?)
      && (t.event.status == s.event.status || t.event.status in {Suspended, Cancelled, Completed}
          || (s.event.status.Published? && t.event.status.Archived?)
          || (s.event.status.Archived? && t.event.status.Published?))
  {
  }

  lemma HandleKeepsHistory(s: EventState, r: Request)
    requires HistoryOk(s) && Handle(s, r).Ok?
    ensures HistoryOk(Handle(s, r).value.state)
  {
    if r.Postpone? {
      PostponeKeepsHistory(s, r.version, r.newStart, r.newEnd, r.reason, r.earliest);
    } else if r.PatchEvent? {
      PatchKeepsHistory(s, r.version, r.patch, r.earliest);
    } else if r.Publish? {
      PublishKeepsHistory(s, r.version, r.earliest);
    } else {
      OthersKeepHistory(s, r);
    }
  }

  /** The stored sales window is in order; it also fits the schedule until a postponement moves that. */
  predicate SalesOk(e: Event) {
    && (e.salesEndsAt.Some? ==> Before(e.salesStartsAt, e.salesEndsAt.value))
    && (NeverPostponed(e) ==> WindowOk(e))
  }

  predicate SameSchedule(e: Event, f: Event) {
    && f.startsAt == e.startsAt && f.endsAt == e.endsAt
    && f.salesStartsAt == e.salesStartsAt && f.salesEndsAt == e.salesEndsAt
    && f.fromStartsAt == e.fromStartsAt && f.fromEndsAt == e.fromEndsAt
    && f.toStartsAt == e.toStartsAt && f.toEndsAt == e.toEndsAt
  }

  lemma OthersKeepSchedule(s: EventState, r: Request)
    requires Handle(s, r).Ok? && !r.PatchEvent? && !r.Postpone?
    ensures SameSchedule(s.event, Handle(s, r).value.state.event)
  {
  }

  lemma HandleKeepsSales(s: EventState, r: Request)
    requires SalesOk(s.event) && Handle(s, r).Ok?
    ensures SalesOk(Handle(s, r).value.state.event)
  {
    match r
    case PatchEvent(v, p, earliest) => PatchKeepsSales(s, v, p, earliest);
    case Postpone(v, a, b, reason, earliest) =>
      assert HandlePostpone(s, v, a, b, reason, earliest).Ok?;
    case _ => OthersKeepSchedule(s, r);
  }

  lemma PatchKeepsSales(s: EventState, version: nat, p: EventPatch, earliest: int)
    requires SalesOk(s.event) && HandlePatchEvent(s, version, p, earliest).Ok?
    ensures SalesOk(HandlePatchEvent(s, version, p, earliest).value.state.event)
  {
  }

  // ---- published records ----

  datatype Tag = TagPublished | TagCompleted | TagCancelled

  predicate HasTag(k: Kind, tag: Tag) {
    match tag
    case TagPublished => k.PublishedMessage?
    case TagCompleted => k.CompletedMessage?
    case TagCancelled => k.CancelledMessage?
  }

  function Sent(outbox: seq<Message>, id: nat, tag: Tag): nat {
    if outbox == [] then 0
    else
      var m := outbox[|outbox| - 1];
      Sent(outbox[..|outbox| - 1], id, tag) + if m.eventId == id && HasTag(m.kind, tag) then 1 else 0
  }

  lemma SentAppend(outbox: seq<Message>, m: Message, id: nat, tag: Tag)
    ensures Sent(outbox + [m], id, tag) == Sent(outbox, id, tag) + if m.eventId == id && HasTag(m.kind, tag) then 1 else 0
  {
    assert (outbox + [m])[..|outbox + [m]| - 1] == outbox;
  }

  /** How many records of a kind an event in this status has published. */
  function Due(status: Status, tag: Tag): nat {
    match tag
    case TagPublished => if status.Draft? then 0 else 1
    case TagCompleted => if status.Completed? then 1 else 0
    case TagCancelled => if status.Cancelled? then 1 else 0
  }

  ghost predicate OutboxOk(c: Catalog) {
    forall id, tag :: Sent(c.outbox, id, tag) == if id in c.events then Due(c.events[id].event.status, tag) else 0
  }

  predicate Moves(current: Status, next: Status) {
    match current
    case Draft => next in {Draft, Published}
    case Published => next in {Published, Postponed, Suspended, Cancelled, Completed, Archived}
    case Postponed => next in {Postponed, Suspended, Cancelled, Completed}
    case Suspended => next in {Suspended, Cancelled}
    case Archived => next in {Archived, Published}
    case Cancelled => next == Cancelled
    case Completed => next == Completed
  }

  lemma HandleMovesAndSends(s: EventState, r: Request)
    requires Handle(s, r).Ok?
    ensures
      var effect := Handle(s, r).value;
      && Moves(s.event.status, effect.state.event.status)
      && forall tag ::
           Due(effect.state.event.status, tag) ==
             Due(s.event.status, tag) + if effect.message.Some? && HasTag(effect.message.value, tag) then 1 else 0
  {
  }

  predicate EventOk(s: EventState) {
    CapacityOk(s) && HistoryOk(s) && SalesOk(s.event) && s.event.version >= 1
  }

  predicate EventsOk(c: Catalog) {
    forall id :: id in c.events ==> EventOk(c.events[id])
  }

  lemma HandleKeepsEvent(s: EventState, r: Request)
    requires EventOk(s) && Handle(s, r).Ok?
    ensures EventOk(Handle(s, r).value.state)
  {
    HandleKeepsCapacity(s, r);
    HandleKeepsHistory(s, r);
    HandleKeepsSales(s, r);
    HandleKeepsVersion(s, r);
  }

  lemma HandleKeepsVersion(s: EventState, r: Request)
    requires s.event.version >= 1 && Handle(s, r).Ok?
    ensures Handle(s, r).value.state.event.version >= 1
  {
  }

  lemma StepKeepsEvents(c: Catalog, a: Action)
    requires EventsOk(c)
    ensures EventsOk(Step(c, a))
  {
    if a.On? && a.id in c.events && Handle(c.events[a.id], a.request).Ok? {
      HandleKeepsEvent(c.events[a.id], a.request);
    }
  }

  lemma StepKeepsOutbox(c: Catalog, a: Action)
    requires OutboxOk(c)
    ensures OutboxOk(Step(c, a))
  {
    var d := Step(c, a);
    forall id, tag
      ensures Sent(d.outbox, id, tag) == if id in d.events then Due(d.events[id].event.status, tag) else 0
    {
      assert Sent(c.outbox, id, tag) == if id in c.events then Due(c.events[id].event.status, tag) else 0;
      if a.On? && a.id in c.events && Handle(c.events[a.id], a.request).Ok? {
        HandleMovesAndSends(c.events[a.id], a.request);
        var message := Handle(c.events[a.id], a.request).value.message;
        if message.Some? {
          SentAppend(c.outbox, Message(a.id, message.value), id, tag);
        }
      }
    }
  }

  lemma {:induction false} RunKeepsCatalog(run: seq<Action>)
    ensures EventsOk(After(run)) && OutboxOk(After(run))
  {
    if run == [] {
    } else {
      RunKeepsCatalog(run[..|run| - 1]);
      StepKeepsEvents(After(run[..|run| - 1]), run[|run| - 1]);
      StepKeepsOutbox(After(run[..|run| - 1]), run[|run| - 1]);
    }
  }

  // ---- main results ----

  lemma {:induction false} SoldWithinQuota(cs: seq<Category>)
    requires forall i :: 0 <= i < |cs| ==> cs[i].sold <= cs[i].quota
    ensures SoldTotal(cs) <= QuotaTotal(cs)
  {
    if cs == [] {
    } else {
      SoldWithinQuota(cs[..|cs| - 1]);
    }
  }

  /** No run sells more tickets of an event than its capacity, nor defines more. */
  lemma CapacityNeverOversubscribed(run: seq<Action>, id: nat)
    requires id in After(run).events && After(run).events[id].categories != []
    ensures
      var s := After(run).events[id];
      s.event.capacity.Some? && SoldTotal(s.categories) <= QuotaTotal(s.categories) <= s.event.capacity.value
  {
    RunKeepsCatalog(run);
    SoldWithinQuota(After(run).events[id].categories);
  }

  /** Whether one status can lead to another over any number of steps. */
  predicate Leads(current: Status, later: Status) {
    match current
    case Draft => true
    case Published => !later.Draft?
    case Postponed => later in {Postponed, Suspended, Cancelled, Completed}
    case Suspended => later in {Suspended, Cancelled}
    case Archived => !later.Draft?
    case Cancelled => later == Cancelled
    case Completed => later == Completed
  }

  predicate Frozen(s: EventState, t: EventState) {
    && t.event.capacity == s.event.capacity
    && Quotas(t.categories) == Quotas(s.categories)
    && Leads(s.event.status, t.event.status)
    && s.announced <= t.announced
  }

  /** From publication on an event stays, its capacity and quotas are frozen, and its status only moves on. */
  lemma {:induction false} PublicationFreezes(run: seq<Action>, more: seq<Action>, id: nat)
    requires id in After(run).events && !After(run).events[id].event.status.Draft?
    ensures id in After(run + more).events
    ensures Frozen(After(run).events[id], After(run + more).events[id])
  {
    if more == [] {
      assert run + more == run;
    } else {
      var shorter, a := more[..|more| - 1], more[|more| - 1];
      assert (run + more)[..|run + more| - 1] == run + shorter;
      PublicationFreezes(run, shorter, id);
      StepFreezes(After(run + shorter), a, id);
    }
  }

  lemma AnnouncementsGrow(s: EventState, r: Request)
    requires Handle(s, r).Ok? && !s.event.status.Draft?
    ensures s.announced <= Handle(s, r).value.state.announced
  {
  }

  lemma StepFreezes(c: Catalog, a: Action, id: nat)
    requires id in c.events && !c.events[id].event.status.Draft?
    ensures id in Step(c, a).events && Frozen(c.events[id], Step(c, a).events[id])
  {
    if a.On? && a.id == id && Handle(c.events[id], a.request).Ok? {
      FrozenOutsideDrafts(c.events[id], a.request);
      HandleMovesAndSends(c.events[id], a.request);
      AnnouncementsGrow(c.events[id], a.request);
    }
  }

  /** The postponement fields of every event tell its announced schedules as the handlers promise. */
  lemma {:induction false} PostponementHistory(run: seq<Action>, id: nat)
    requires id in After(run).events && !After(run).events[id].event.status.Draft?
    ensures
      var s := After(run).events[id];
      var e, h := s.event, s.announced;
      && h != [] && Schedule(e.startsAt, e.endsAt) == Last(h)
      && (NeverPostponed(e) || PostponedUndated(e, h) || PostponedDated(e, h))
      && (e.status.Published? ==> NeverPostponed(e))
      && (e.status.Postponed? ==> !NeverPostponed(e))
  {
    RunKeepsCatalog(run);
  }

  /** Sales, admission and completion look at different fields of a postponement but always agree. */
  lemma GatesAgree(run: seq<Action>, id: nat)
    requires id in After(run).events
    ensures
      var e := After(run).events[id].event;
      && (OnSchedule(e) <==> CanOpenAdmission(e))
      && (CanOpenAdmission(e) <==> exists now :: CanBeCompleted(e, now))
  {
    RunKeepsCatalog(run);
    var e := After(run).events[id].event;
    assert EventOk(After(run).events[id]);
    if CanOpenAdmission(e) {
      assert CanBeCompleted(e, e.endsAt);
    }
  }

  /** The outbox tells exactly what became of each event. */
  lemma {:induction false} OutboxAgrees(run: seq<Action>, id: nat)
    ensures
      var c := After(run);
      && Sent(c.outbox, id, TagPublished) == (if id in c.events && !c.events[id].event.status.Draft? then 1 else 0)
      && Sent(c.outbox, id, TagCompleted) == (if id in c.events && c.events[id].event.status.Completed? then 1 else 0)
      && Sent(c.outbox, id, TagCancelled) == (if id in c.events && c.events[id].event.status.Cancelled? then 1 else 0)
  {
    RunKeepsCatalog(run);
  }

  /** So no event, at any time of any run, starts both refunds and a final report. */
  lemma NeverRefundedAndReported(run: seq<Action>, more: seq<Action>, id: nat)
    requires Sent(After(run).outbox, id, TagCompleted) > 0
    ensures Sent(After(run + more).outbox, id, TagCancelled) == 0
    ensures Sent(After(run + more).outbox, id, TagCompleted) == 1
  {
    OutboxAgrees(run, id);
    OutboxAgrees(run + more, id);
    PublicationFreezes(run, more, id);
  }

  // ---- what the version and the postponed records tell ----

  function CompletedRow(e: Event): Event {
    e.(status := Completed, lifecycleReason := AUTO_COMPLETION_REASON)
  }

  /** The row as last seen, or the sweep's completion of it. */
  predicate SameOrCompleted(e: Event, f: Event) {
    f == e || f == CompletedRow(e)
  }

  lemma HandleTellsVersion(s: EventState, r: Request)
    requires Handle(s, r).Ok?
    ensures
      var e, f := s.event, Handle(s, r).value.state.event;
      f.version == e.version + 1 || f == e || (!e.status.Completed? && f == CompletedRow(e))
  {
  }

  lemma StepTellsVersion(c: Catalog, a: Action, id: nat)
    requires id in Step(c, a).events && !(a.Create? && a.id == id)
    ensures id in c.events
    ensures
      var e, f := c.events[id].event, Step(c, a).events[id].event;
      f.version == e.version + 1 || f == e || (!e.status.Completed? && f == CompletedRow(e))
  {
    if a.On? && a.id == id && Handle(c.events[id], a.request).Ok? {
      HandleTellsVersion(c.events[id], a.request);
    }
  }

  /**
   A version seen earlier and still current means the row is as it was then, but for completion:
   the sweep is the one writer that an If-Match check cannot see.
   */
  lemma {:induction false} VersionTellsAllButCompletion(run: seq<Action>, more: seq<Action>, id: nat)
    requires id in After(run).events && id in After(run + more).events
    requires forall k :: 0 <= k < |more| ==> !(more[k].Create? && more[k].id == id)
    ensures
      var e, f := After(run).events[id].event, After(run + more).events[id].event;
      && e.version <= f.version
      && (f.version == e.version <==> SameOrCompleted(e, f))
  {
    if more == [] {
      assert run + more == run;
    } else {
      var shorter, a := more[..|more| - 1], more[|more| - 1];
      assert (run + more)[..|run + more| - 1] == run + shorter;
      VersionTellsAllButCompletion(run, shorter, id);
      StepTellsVersion(After(run + shorter), a, id);
    }
  }

  /** The schedule that an event's latest postponed record announced. */
  function LastPostponed(outbox: seq<Message>, id: nat): Option<Schedule> {
    if outbox == [] then None
    else
      var m := outbox[|outbox| - 1];
      if m.eventId == id && m.kind.PostponedMessage? then Some(m.kind.current)
      else LastPostponed(outbox[..|outbox| - 1], id)
  }

  /** Each postponed record starts from the schedule that the one before it announced. */
  predicate Chained(outbox: seq<Message>) {
    outbox != [] ==>
      var shorter, m := outbox[..|outbox| - 1], outbox[|outbox| - 1];
      && Chained(shorter)
      && (m.kind.PostponedMessage? && LastPostponed(shorter, m.eventId).Some?
          ==> m.kind.previous == LastPostponed(shorter, m.eventId).value)
  }

  ghost predicate RecordsTellSchedule(c: Catalog) {
    && Chained(c.outbox)
    && forall id :: LastPostponed(c.outbox, id).Some? ==>
         && id in c.events && !c.events[id].event.status.Draft?
         && LastPostponed(c.outbox, id).value == Schedule(c.events[id].event.startsAt, c.events[id].event.endsAt)
  }

  function ScheduleOf(e: Event): Schedule {
    Schedule(e.startsAt, e.endsAt)
  }

  /** A postponed record names the old and the new schedule; nothing else moves a public one. */
  predicate TellsSchedule(s: EventState, effect: Effect) {
    var postponed := effect.message.Some? && effect.message.value.PostponedMessage?;
    && (s.event.status.Draft? ==> !postponed)
    && (!s.event.status.Draft? ==>
          && !effect.state.event.status.Draft?
          && (if postponed
              then effect.message.value == PostponedMessage(ScheduleOf(s.event), ScheduleOf(effect.state.event))
              else ScheduleOf(effect.state.event) == ScheduleOf(s.event)))
  }

  lemma HandleTellsSchedule(s: EventState, r: Request)
    requires Handle(s, r).Ok?
    ensures TellsSchedule(s, Handle(s, r).value)
  {
    if r.PatchEvent? {
      assert HandlePatchEvent(s, r.version, r.patch, r.earliest).Ok? ==> s.event.status.Draft?;
    } else if !r.Postpone? {
      OthersKeepSchedule(s, r);
    }
  }

  lemma EffectTellsSchedule(c: Catalog, id: nat, effect: Effect)
    requires RecordsTellSchedule(c) && id in c.events && TellsSchedule(c.events[id], effect)
    ensures RecordsTellSchedule(Catalog(c.events[id := effect.state], Send(c.outbox, id, effect.message)))
  {
    var outbox := Send(c.outbox, id, effect.message);
    if outbox != c.outbox {
      assert outbox[..|outbox| - 1] == c.outbox;
    }
  }

  lemma StepTellsSchedule(c: Catalog, a: Action)
    requires RecordsTellSchedule(c)
    ensures RecordsTellSchedule(Step(c, a))
  {
    if a.On? && a.id in c.events && Respond(c.events, a.id, a.request).Ok? {
      HandleTellsSchedule(c.events[a.id], a.request);
      EffectTellsSchedule(c, a.id, Handle(c.events[a.id], a.request).value);
    }
  }

  /**
   The postponed records of an event form an unbroken chain of schedules, and the latest names the
   current one, so a subscriber that follows them always knows the schedule.
   */
  lemma {:induction false} PostponedRecordsTellSchedule(run: seq<Action>)
    ensures RecordsTellSchedule(After(run))
  {
    if run == [] {
    } else {
      PostponedRecordsTellSchedule(run[..|run| - 1]);
      StepTellsSchedule(After(run[..|run| - 1]), run[|run| - 1]);
    }
  }

  /** Accepted draft writes always leave some instant at which a published event's tickets are on sale. */
  lemma PublishedEventsGoOnSale(run: seq<Action>, id: nat)
    requires id in After(run).events && After(run).events[id].event.status.Published?
    ensures exists t :: SalesOpen(After(run).events[id].event, t)
  {
    RunKeepsCatalog(run);
    assert EventOk(After(run).events[id]);
    SaleHappensExactly(After(run).events[id].event);
  }

  /** Postponement keeps the stored sales window: sales survive a new date exactly if it is after their start. */
  lemma PostponedEventsGoOnSaleExactly(run: seq<Action>, id: nat)
    requires id in After(run).events && After(run).events[id].event.status.Postponed?
    requires After(run).events[id].event.toStartsAt.Some?
    ensures
      var e := After(run).events[id].event;
      (exists t :: SalesOpen(e, t)) <==> (e.salesStartsAt.Some? ==> e.salesStartsAt.value < e.startsAt)
  {
    RunKeepsCatalog(run);
    assert EventOk(After(run).events[id]);
    SaleHappensExactly(After(run).events[id].event);
  }
}
