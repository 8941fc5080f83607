/** What every outbox record says about the request that sent it, over every run. */
module EventRecords {
  import opened Prelude
  import opened EventModel
  import opened EventHandlers
  import opened EventRuns

  /** The request and the event's row that a record of this kind must come from. */
  predicate SentBy(c: Catalog, a: Action, m: Message) {
    && a.On? && a.id == m.eventId && a.id in c.events
    && var e, r := c.events[a.id].event, a.request;
       match m.kind
       case PublishedMessage => r.Publish? && e.status == Draft && e.version == r.version
       case PostponedMessage(previous, current) =>
         && r.Postpone? && e.status in {Published, Postponed} && e.version == r.version
         && previous == Schedule(e.startsAt, e.endsAt)
         && current == (if r.newStart.Some? && r.newEnd.Some? then Schedule(r.newStart.value, r.newEnd.value) else previous)
       case SuspendedMessage => r.Suspend? && e.status in {Published, Postponed} && e.version == r.version
       case CancelledMessage(refundRequested) => Cancels(c, a, m.eventId, refundRequested)
       case CompletedMessage => r.CompleteIfElapsed? && e.status in {Published, Postponed} && e.endsAt <= r.now
       case AssignedMessage(_) => false
       case UnassignedMessage(_) => false
  }

  /** An accepted cancellation, with its answer to the question of refunds. */
  predicate Cancels(c: Catalog, a: Action, id: nat, refundRequested: bool) {
    && a.On? && a.id == id && a.request.Cancel? && a.request.refundRequested == refundRequested
    && a.request.reason != "" && id in c.events
    && c.events[id].event.status in {Published, Postponed, Suspended} && c.events[id].event.version == a.request.version
  }

  lemma StepSends(c: Catalog, a: Action)
    ensures
      var sent := Step(c, a).outbox;
      sent == c.outbox || (sent != [] && sent[..|sent| - 1] == c.outbox && SentBy(c, a, sent[|sent| - 1]))
  {
    if a.On? && a.id in c.events && Handle(c.events[a.id], a.request).Ok?
       && Handle(c.events[a.id], a.request).value.message.Some?
    {
      HandlerSends(c, a.id, a.request);
    }
  }

  lemma HandlerSends(c: Catalog, id: nat, r: Request)
    requires id in c.events && Handle(c.events[id], r).Ok? && Handle(c.events[id], r).value.message.Some?
    ensures SentBy(c, On(id, r), Message(id, Handle(c.events[id], r).value.message.value))
  {
  }

  /** Every record tells the request that sent it: its event, its schedules, its answer about refunds. */
  lemma {:induction false} EveryRecordTellsItsRequest(run: seq<Action>, k: nat) returns (n: nat)
    requires k < |After(run).outbox|
    ensures n < |run| && After(run[..n]).outbox == After(run).outbox[..k]
    ensures SentBy(After(run[..n]), run[n], After(run).outbox[k])
  {
    var shorter := run[..|run| - 1];
    StepSends(After(shorter), run[|run| - 1]);
    if k < |After(shorter).outbox| {
      n := EveryRecordTellsItsRequest(shorter, k);
      assert shorter[..n] == run[..n];
    } else {
      n := |run| - 1;
    }
  }

  lemma CancelSends(c: Catalog, a: Action, id: nat, refundRequested: bool)
    requires Cancels(c, a, id, refundRequested)
    ensures Step(c, a).outbox == c.outbox + [Message(id, CancelledMessage(refundRequested))]
  {
  }

  lemma {:induction false} CancelLeavesRecord(run: seq<Action>, n: nat, id: nat, refundRequested: bool)
    requires n < |run| && Cancels(After(run[..n]), run[n], id, refundRequested)
    ensures Message(id, CancelledMessage(refundRequested)) in After(run).outbox
  {
    var shorter := run[..|run| - 1];
    if n == |run| - 1 {
      CancelSends(After(shorter), run[n], id, refundRequested);
    } else {
      assert shorter[..n] == run[..n];
      CancelLeavesRecord(shorter, n, id, refundRequested);
      StepSends(After(shorter), run[|run| - 1]);
    }
  }

  /** An event's outbox asks for refunds, or declines them, exactly if its accepted cancellation did. */
  lemma RefundsAskedExactly(run: seq<Action>, id: nat, refundRequested: bool)
    ensures Message(id, CancelledMessage(refundRequested)) in After(run).outbox
            <==> exists n: nat :: n < |run| && Cancels(After(run[..n]), run[n], id, refundRequested)
  {
    if Message(id, CancelledMessage(refundRequested)) in After(run).outbox {
      var k :| 0 <= k < |After(run).outbox| && After(run).outbox[k] == Message(id, CancelledMessage(refundRequested));
      var n := EveryRecordTellsItsRequest(run, k);
    }
    forall n: nat | n < |run| && Cancels(After(run[..n]), run[n], id, refundRequested)
      ensures Message(id, CancelledMessage(refundRequested)) in After(run).outbox
    {
      CancelLeavesRecord(run, n, id, refundRequested);
    }
  }

  /** And it was asked once: an event is cancelled at most once, so never both ways. */
  lemma CancelledOnce(run: seq<Action>, m: nat, n: nat, id: nat, first: bool, second: bool)
    requires m < |run| && n < |run|
    requires Cancels(After(run[..m]), run[m], id, first) && Cancels(After(run[..n]), run[n], id, second)
    ensures m == n && first == second
  {
    if m < n {
      NoSecondCancel(run, m, n, id, first, second);
    } else if n < m {
      NoSecondCancel(run, n, m, id, second, first);
    }
  }

  lemma {:induction false} CancelLasts(run: seq<Action>, m: nat, id: nat, refundRequested: bool)
    requires m < |run| && Cancels(After(run[..m]), run[m], id, refundRequested)
    ensures id in After(run).events && After(run).events[id].event.status == Cancelled
  {
    var shorter := run[..|run| - 1];
    if m == |run| - 1 {
      CancelCancels(After(shorter), run[m], id, refundRequested);
    } else {
      assert shorter[..m] == run[..m];
      CancelLasts(shorter, m, id, refundRequested);
      StepFreezes(After(shorter), run[|run| - 1], id);
    }
  }

  lemma NoSecondCancel(run: seq<Action>, m: nat, n: nat, id: nat, first: bool, second: bool)
    requires m < n < |run| && Cancels(After(run[..m]), run[m], id, first)
    ensures !Cancels(After(run[..n]), run[n], id, second)
  {
    assert run[..n][..m] == run[..m];
    CancelLasts(run[..n], m, id, first);
  }

  lemma CancelCancels(c: Catalog, a: Action, id: nat, refundRequested: bool)
    requires Cancels(c, a, id, refundRequested)
    ensures id in Step(c, a).events && Step(c, a).events[id].event.status == Cancelled
  {
  }
}
