/** Admission sessions and the schedule they were opened for, over every run. */
module SessionRules {
  import opened Prelude
  import opened EventModel
  import opened EventHandlers
  import opened AccessModel
  import opened AccessRuns
  import Events = EventRuns

  /** One open session per event; every closure comes after the opening and names a user or is automatic. */
  predicate SessionsOk(sessions: seq<Session>, now: int) {
    && (forall i, j :: 0 <= i < j < |sessions| && sessions[i].closedAt.None? && sessions[j].closedAt.None?
          ==> sessions[i].eventId != sessions[j].eventId)
    && (forall i :: 0 <= i < |sessions| ==>
          && sessions[i].openedAt <= now
          && (sessions[i].closedAt.Some? ==> sessions[i].openedAt <= sessions[i].closedAt.value <= now)
          && (sessions[i].closedAt.None? ==> sessions[i].closedBy.None? && !sessions[i].closedAutomatically)
          && (sessions[i].closedAt.Some? ==> (sessions[i].closedBy.None? <==> sessions[i].closedAutomatically)))
  }

  lemma StepKeepsSessions(w: World, a: Action)
    requires SessionsOk(w.sessions, w.now)
    ensures SessionsOk(Step(w, a).sessions, Step(w, a).now)
  {
    if a.OpenAdmission? {
      OpenKeepsSessions(w, a.eventId, a.user);
    } else if a.CloseAdmission? {
      CloseKeepsSessions(w, a.eventId, a.actor);
    } else {
      OthersKeepSessions(w, a);
      TimeOnlyGrows(w, a);
    }
  }

  lemma TimeOnlyGrows(w: World, a: Action)
    ensures w.now <= Step(w, a).now
    ensures !a.Tick? ==> Step(w, a).now == w.now
  {
  }

  lemma CloseKeepsSessions(w: World, e: nat, actor: Option<nat>)
    requires SessionsOk(w.sessions, w.now)
    ensures CloseSession(w, e, actor).Ok? ==> SessionsOk(CloseSession(w, e, actor).value.sessions, w.now)
  {
  }

  lemma OpenKeepsSessions(w: World, e: nat, user: nat)
    requires SessionsOk(w.sessions, w.now)
    ensures OpenSession(w, e, user).Ok? ==> SessionsOk(OpenSession(w, e, user).value.sessions, w.now)
  {
    var i := OpenIndex(w.sessions, e);
    if i < |w.sessions| {
      assert forall j :: 0 <= j < |w.sessions| && j != i ==> !OpenFor(w.sessions[j], e);
    }
  }

  lemma {:induction false} RunKeepsSessions(run: seq<Action>)
    ensures SessionsOk(After(run).sessions, After(run).now)
  {
    if run == [] {
    } else {
      RunKeepsSessions(run[..|run| - 1]);
      StepKeepsSessions(After(run[..|run| - 1]), run[|run| - 1]);
    }
  }

  lemma Opening(w: World, e: nat, user: nat)
    requires e in w.catalog.events
    ensures OpenSession(w, e, user).Ok? <==> CanOpenAdmission(w.catalog.events[e].event)
    ensures OpenSession(w, e, user).Ok? ==> AdmissionOpen(OpenSession(w, e, user).value, e)
  {
    if OpenSession(w, e, user).Ok? {
      var i, x := OpenIndex(w.sessions, e), OpenSession(w, e, user).value;
      var last := if i < |w.sessions| && x == w then i else |x.sessions| - 1;
      assert OpenFor(x.sessions[last], e) && x.sessions[last].scheduledStart == w.catalog.events[e].event.startsAt;
    }
  }

  lemma Closing(w: World, e: nat, actor: Option<nat>)
    requires e in w.catalog.events && SessionsOk(w.sessions, w.now)
    ensures CloseSession(w, e, actor).Ok? && !AdmissionOpen(CloseSession(w, e, actor).value, e)
  {
    var i := OpenIndex(w.sessions, e);
    assert forall j :: 0 <= j < |w.sessions| && j != i ==> !OpenFor(w.sessions[j], e);
  }

  /** Opening admits on the current start, whatever session was left open; closing stops admission. */
  lemma {:induction false} OpeningAndClosing(run: seq<Action>, e: nat, user: nat, actor: Option<nat>)
    requires e in After(run).catalog.events
    ensures
      var w := After(run);
      && (OpenSession(w, e, user).Ok? <==> CanOpenAdmission(w.catalog.events[e].event))
      && (OpenSession(w, e, user).Ok? ==> AdmissionOpen(OpenSession(w, e, user).value, e))
      && CloseSession(w, e, actor).Ok?
      && !AdmissionOpen(CloseSession(w, e, actor).value, e)
  {
    RunKeepsSessions(run);
    Opening(After(run), e, user);
    Closing(After(run), e, actor);
  }

  /** A session's event is there and published, or beyond. */
  predicate SessionEventsOk(w: World) {
    forall i :: 0 <= i < |w.sessions| ==>
      w.sessions[i].eventId in w.catalog.events && !w.catalog.events[w.sessions[i].eventId].event.status.Draft?
  }

  lemma CatalogKeepsSessionEvents(w: World, step: Events.Action)
    requires SessionEventsOk(w)
    ensures SessionEventsOk(Step(w, CatalogStep(step)))
  {
    var x := Step(w, CatalogStep(step));
    forall i | 0 <= i < |x.sessions|
      ensures x.sessions[i].eventId in x.catalog.events
      ensures !x.catalog.events[x.sessions[i].eventId].event.status.Draft?
    {
      Events.StepFreezes(w.catalog, step, w.sessions[i].eventId);
    }
  }

  lemma OpenKeepsSessionEvents(w: World, e: nat, user: nat)
    requires SessionEventsOk(w) && OpenSession(w, e, user).Ok?
    ensures SessionEventsOk(OpenSession(w, e, user).value)
  {
  }

  lemma StepKeepsSessionEvents(w: World, a: Action)
    requires SessionEventsOk(w)
    ensures SessionEventsOk(Step(w, a))
  {
    if a.CatalogStep? {
      CatalogKeepsSessionEvents(w, a.step);
    } else if a.OpenAdmission? {
      if OpenSession(w, a.eventId, a.user).Ok? {
        OpenKeepsSessionEvents(w, a.eventId, a.user);
      }
    } else if a.CloseAdmission? {
      OthersKeepEvents(w, a);
    } else {
      OthersKeepEvents(w, a);
      OthersKeepSessions(w, a);
    }
  }

  lemma {:induction false} RunKeepsSessionEvents(run: seq<Action>)
    ensures SessionEventsOk(After(run))
  {
    if run == [] {
    } else {
      RunKeepsSessionEvents(run[..|run| - 1]);
      StepKeepsSessionEvents(After(run[..|run| - 1]), run[|run| - 1]);
    }
  }

  predicate Touches(a: Action, e: nat) {
    (a.OpenAdmission? || a.CloseAdmission?) && a.eventId == e
  }

  lemma UntouchedSessionStays(w: World, a: Action, i: nat)
    requires i < |w.sessions| && w.sessions[i].closedAt.None? && !Touches(a, w.sessions[i].eventId)
    ensures i < |Step(w, a).sessions| && Step(w, a).sessions[i] == w.sessions[i]
  {
    if a.OpenAdmission? {
      assert OpenIndex(w.sessions, a.eventId) != i;
    } else if a.CloseAdmission? {
      assert OpenIndex(w.sessions, a.eventId) != i;
    } else {
      assert Step(w, a).sessions == w.sessions;
    }
  }

  lemma {:induction false} UntouchedSessionLasts(run: seq<Action>, more: seq<Action>, i: nat)
    requires i < |After(run).sessions| && After(run).sessions[i].closedAt.None?
    requires forall k :: 0 <= k < |more| ==> !Touches(more[k], After(run).sessions[i].eventId)
    ensures i < |After(run + more).sessions| && After(run + more).sessions[i] == After(run).sessions[i]
  {
    if more == [] {
      assert run + more == run;
    } else {
      var shorter := more[..|more| - 1];
      assert (run + more)[..|run + more| - 1] == run + shorter;
      UntouchedSessionLasts(run, shorter, i);
      UntouchedSessionStays(After(run + shorter), more[|more| - 1], i);
    }
  }

  /**
   A session that nobody closes or replaces stays open through everything else, and admits exactly
   when its event may admit and starts when the session was scheduled, however often it was moved.
   */
  lemma {:induction false} LeftOpenSessionAdmitsExactly(run: seq<Action>, more: seq<Action>, i: nat)
    requires i < |After(run).sessions| && After(run).sessions[i].closedAt.None?
    requires forall k :: 0 <= k < |more| ==> !Touches(more[k], After(run).sessions[i].eventId)
    ensures
      var session, w := After(run).sessions[i], After(run + more);
      var e := session.eventId;
      && i < |w.sessions| && w.sessions[i] == session && e in w.catalog.events
      && (AdmissionOpen(w, e) <==>
            CanOpenAdmission(w.catalog.events[e].event) && w.catalog.events[e].event.startsAt == session.scheduledStart)
  {
    var w := After(run + more);
    UntouchedSessionLasts(run, more, i);
    RunKeepsSessions(run + more);
    RunKeepsSessionEvents(run + more);
    var e := w.sessions[i].eventId;
    assert OpenFor(w.sessions[i], e);
    assert forall j :: 0 <= j < |w.sessions| && j != i ==> !OpenFor(w.sessions[j], e);
  }

  lemma DraftEvent() returns (run: seq<Action>)
    ensures After(run).sessions == [] && 0 in After(run).catalog.events
    ensures
      var s := After(run).catalog.events[0];
      && s.event.status == Draft && s.event.startsAt == 1000 && s.event.endsAt == 2000 && s.event.version == 1
      && s.event.venue == "Hall" && s.event.capacity == Some(10) && s.categories == [Category(0, "Standard", 100, 5, 0, 1)]
  {
    var draft := EventPatch(Some("Concert"), Some(0), Some(1000), Some(2000), None, None, Some("Hall"), Some(Some(10)), true);
    run := [CatalogStep(Events.Create(0, draft, 0))];
    assert run[..0] == [];
    var request := CatalogStep(Events.On(0, CreateCategory(0, "Standard", 100, 5)));
    Extend(run, request);
    run := run + [request];
  }

  lemma PublishableDraft(s: EventState)
    requires s.event.venue == "Hall" && s.event.capacity == Some(10) && s.event.startsAt >= 0
    requires s.categories == [Category(0, "Standard", 100, 5, 0, 1)]
    ensures PublishErrors(s, 0) == {}
  {
    assert s.categories[..0] == [];
    assert QuotaTotal(s.categories) == 5;
    assert s.event.venue[0] == 'H' && !Blank(s.event.venue);
  }

  /** An event open for admission at its first date. */
  lemma OpenedEvent() returns (run: seq<Action>)
    ensures 0 in After(run).catalog.events
    ensures
      var w := After(run);
      var e := w.catalog.events[0].event;
      && e.status == Published && e.startsAt == 1000 && e.endsAt == 2000 && e.version == 2
      && AdmissionOpen(w, 0) && |w.sessions| == 1
      && OpenFor(w.sessions[0], 0) && w.sessions[0].scheduledStart == 1000
  {
    run := DraftEvent();
    PublishableDraft(After(run).catalog.events[0]);
    var publish := CatalogStep(Events.On(0, Publish(1, 0)));
    Extend(run, publish);
    run := run + [publish];
    OpenedEventOpens(run);
    run := run + [OpenAdmission(0, 7)];
  }

  lemma OpenedEventOpens(run: seq<Action>)
    requires 0 in After(run).catalog.events && After(run).sessions == []
    requires After(run).catalog.events[0].event.status.Published?
    ensures
      var w := After(run + [OpenAdmission(0, 7)]);
      && w.catalog == After(run).catalog && AdmissionOpen(w, 0)
      && |w.sessions| == 1 && OpenFor(w.sessions[0], 0)
      && w.sessions[0].scheduledStart == After(run).catalog.events[0].event.startsAt
  {
    Extend(run, OpenAdmission(0, 7));
    assert OpenFor(After(run + [OpenAdmission(0, 7)]).sessions[0], 0);
  }

  /** For example: a session left open stops admitting at a new date, and admits again once the event moves back. */
  lemma StaleSessionReturns() returns (moved: seq<Action>, back: seq<Action>)
    ensures 0 in After(moved).catalog.events && !AdmissionOpen(After(moved), 0)
    ensures 0 in After(moved + back).catalog.events && AdmissionOpen(After(moved + back), 0)
    ensures forall i :: 0 <= i < |back| ==> !back[i].OpenAdmission?
  {
    var opening := OpenedEvent();
    var away := CatalogStep(Events.On(0, Postpone(2, Some(5000), Some(6000), "storm", 0)));
    Extend(opening, away);
    moved := opening + [away];
    var again := CatalogStep(Events.On(0, Postpone(3, Some(1000), Some(2000), "clear sky", 0)));
    Extend(moved, again);
    back := [again];
    assert OpenFor(After(moved + back).sessions[0], 0);
  }
}
