/** The completion sweep as a fold over the events it selects. */
module EventSweep {
  import opened EventModel
  import opened EventHandlers
  import opened EventRuns

  /** The query order of the sweep: by end, then by key. */
  predicate EndsFirst(events: map<nat, EventState>, a: nat, b: nat)
    requires a in events && b in events
  {
    events[a].event.endsAt < events[b].event.endsAt ||
    (events[a].event.endsAt == events[b].event.endsAt && a <= b)
  }

  lemma {:induction false} FirstExists(events: map<nat, EventState>, ids: set<nat>) returns (first: nat)
    requires ids != {} && ids <= events.Keys
    ensures first in ids && forall other :: other in ids ==> EndsFirst(events, first, other)
  {
    var one :| one in ids;
    first := one;
    if ids != {one} {
      var best := FirstExists(events, ids - {one});
      if !EndsFirst(events, one, best) {
        first := best;
      }
    }
    assert forall other :: other in ids ==> other == one || other in ids - {one};
  }

  predicate Elapsed(e: Event, now: int) {
    e.endsAt <= now && e.status in {Published, Postponed}
  }

  // ---- the sweep as a fold over the selected keys ----

  function Sweep(c: Catalog, ids: seq<nat>, now: int): Catalog {
    if ids == [] then c else Step(Sweep(c, ids[..|ids| - 1], now), On(ids[|ids| - 1], CompleteIfElapsed(now)))
  }

  lemma SweepOneMore(c: Catalog, ids: seq<nat>, i: nat, now: int)
    requires i < |ids|
    ensures Sweep(c, ids[..i + 1], now) == Step(Sweep(c, ids[..i], now), On(ids[i], CompleteIfElapsed(now)))
  {
    assert ids[..i + 1][..|ids[..i + 1]| - 1] == ids[..i];
  }

  /** An event after the sweep: completed if it could be, otherwise untouched. */
  function Closed(s: EventState, now: int): EventState {
    if CanBeCompleted(s.event, now)
    then s.(event := s.event.(status := Completed, lifecycleReason := AUTO_COMPLETION_REASON)) else s
  }

  predicate Distinct(ids: seq<nat>) {
    forall i, j :: 0 <= i < j < |ids| ==> ids[i] != ids[j]
  }

  predicate Closes(c: Catalog, id: nat, now: int) {
    id in c.events && CanBeCompleted(c.events[id].event, now)
  }

  lemma SweepOne(c: Catalog, last: nat, now: int)
    ensures
      var d := Step(c, On(last, CompleteIfElapsed(now)));
      && d.events == (if last in c.events then c.events[last := Closed(c.events[last], now)] else c.events)
      && d.outbox == if Closes(c, last, now) then c.outbox + [Message(last, CompletedMessage)] else c.outbox
  {
  }

  lemma {:induction false} SweepCloses(c: Catalog, ids: seq<nat>, now: int)
    requires Distinct(ids)
    ensures Sweep(c, ids, now).events ==
            map id | id in c.events :: (if id in ids then Closed(c.events[id], now) else c.events[id])
  {
    if ids == [] {
    } else {
      var shorter, last := ids[..|ids| - 1], ids[|ids| - 1];
      SweepCloses(c, shorter, now);
      assert ids == shorter + [last] && last !in shorter;
      SweepOne(Sweep(c, shorter, now), last, now);
    }
  }

  lemma {:induction false} SweepOnlyCompletes(c: Catalog, ids: seq<nat>, now: int)
    ensures c.outbox <= Sweep(c, ids, now).outbox
    ensures forall k :: |c.outbox| <= k < |Sweep(c, ids, now).outbox| ==>
              Sweep(c, ids, now).outbox[k].kind.CompletedMessage?
  {
    if ids == [] {
    } else {
      SweepOnlyCompletes(c, ids[..|ids| - 1], now);
      SweepOne(Sweep(c, ids[..|ids| - 1], now), ids[|ids| - 1], now);
    }
  }

  lemma SentByOne(c: Catalog, last: nat, now: int, id: nat)
    ensures Sent(Step(c, On(last, CompleteIfElapsed(now))).outbox, id, TagCompleted) ==
            Sent(c.outbox, id, TagCompleted) + if id == last && Closes(c, last, now) then 1 else 0
  {
    SweepOne(c, last, now);
    if Closes(c, last, now) {
      SentAppend(c.outbox, Message(last, CompletedMessage), id, TagCompleted);
    }
  }

  lemma {:induction false} SweepRecords(c: Catalog, ids: seq<nat>, now: int, id: nat)
    requires Distinct(ids)
    ensures Sent(Sweep(c, ids, now).outbox, id, TagCompleted) ==
            Sent(c.outbox, id, TagCompleted) + if id in ids && Closes(c, id, now) then 1 else 0
  {
    if ids == [] {
    } else {
      var shorter, last := ids[..|ids| - 1], ids[|ids| - 1];
      var d := Sweep(c, shorter, now);
      SweepRecords(c, shorter, now, id);
      SweepCloses(c, shorter, now);
      assert ids == shorter + [last] && last !in shorter;
      assert Closes(d, last, now) == Closes(c, last, now);
      SentByOne(d, last, now, id);
    }
  }

  /** Completing distinct events one after the other closes each that it can, with one record. */
  lemma SweepEffect(c: Catalog, ids: seq<nat>, now: int)
    requires Distinct(ids)
    ensures
      var d := Sweep(c, ids, now);
      && d.events == (map id | id in c.events :: (if id in ids then Closed(c.events[id], now) else c.events[id]))
      && c.outbox <= d.outbox
      && (forall k :: |c.outbox| <= k < |d.outbox| ==> d.outbox[k].kind.CompletedMessage?)
      && forall id :: Sent(d.outbox, id, TagCompleted) ==
           Sent(c.outbox, id, TagCompleted) + if id in ids && Closes(c, id, now) then 1 else 0
  {
    SweepCloses(c, ids, now);
    SweepOnlyCompletes(c, ids, now);
    forall id
      ensures Sent(Sweep(c, ids, now).outbox, id, TagCompleted) ==
              Sent(c.outbox, id, TagCompleted) + if id in ids && Closes(c, id, now) then 1 else 0
    {
      SweepRecords(c, ids, now, id);
    }
  }

  /** Sweeping exactly the elapsed events completes every completable one and nothing else. */
  lemma SweepLeavesNothing(c: Catalog, ids: seq<nat>, now: int)
    requires Distinct(ids)
    requires forall id :: id in ids <==> id in c.events && Elapsed(c.events[id].event, now)
    ensures
      var d := Sweep(c, ids, now);
      && d.events == (map id | id in c.events :: Closed(c.events[id], now))
      && (forall id :: id in d.events ==> !CanBeCompleted(d.events[id].event, now))
      && c.outbox <= d.outbox
      && (forall k :: |c.outbox| <= k < |d.outbox| ==> d.outbox[k].kind.CompletedMessage?)
      && forall id :: Sent(d.outbox, id, TagCompleted) ==
           Sent(c.outbox, id, TagCompleted)
           + if id in c.events && CanBeCompleted(c.events[id].event, now) then 1 else 0
  {
    SweepEffect(c, ids, now);
  }
}
