/** Tickets, their admissions and the scans that made them, over every run. */
module AdmissionIntegrity {
  import opened Prelude
  import opened EventModel
  import opened AccessModel
  import opened AccessRuns

  /** A ticket is used exactly when it has been scanned, and then it has been scanned once. */
  ghost predicate UsedMeansScanned(w: World) {
    forall t :: ScansOfTicket(w.admissions, t) == if t in w.tickets && w.tickets[t].status.Used? then 1 else 0
  }

  ghost predicate CountsAgree(w: World) {
    forall e :: |WithStatus(w.tickets, e, Used)| == |Scans(w.admissions, w.tickets, e)|
  }

  predicate ScannersKnown(w: World) {
    forall i :: 0 <= i < |w.admissions| ==> KnownScanner(w.scanners, w.admissions[i].scannerId)
  }

  predicate TicketsExist(w: World) {
    forall i :: 0 <= i < |w.admissions| ==> w.admissions[i].ticketId in w.tickets
  }

  ghost predicate TicketsOk(w: World) {
    UsedMeansScanned(w) && CountsAgree(w) && TicketsExist(w) && ScannersKnown(w)
  }

  lemma AdmitResult(w: World, token: Token, user: nat)
    requires Admit(w, token, user).Ok?
    ensures
      var x := Admit(w, token, user).value;
      && token.Some? && token.value.0 in w.tickets
      && var t := token.value.0;
         && w.tickets[t].qrVersion == token.value.1 && w.tickets[t].status.Valid?
         && w.tickets[t].eventId in w.catalog.events && AdmissionOpen(w, w.tickets[t].eventId)
         && user in w.scanners && w.scanners[user].active
         && Assigned(w.assignments, w.tickets[t].eventId, w.scanners[user].id)
         && x == w.(admissions := w.admissions + [Admission(t, w.scanners[user].id, w.now)],
                    tickets := w.tickets[t := w.tickets[t].(status := Used)])
  {
  }

  lemma OthersKeepAdmissions(w: World, a: Action)
    requires !(a.Scan? && Admit(w, a.token, a.user).Ok?)
    ensures Step(w, a).admissions == w.admissions
  {
  }

  lemma TicketsStay(w: World, a: Action, t: nat)
    requires t in w.tickets
    ensures t in Step(w, a).tickets && Step(w, a).tickets[t].eventId == w.tickets[t].eventId
  {
  }

  lemma OthersKeepUsed(w: World, a: Action, t: nat)
    requires !(a.Scan? && Admit(w, a.token, a.user).Ok?)
    ensures t in Step(w, a).tickets && Step(w, a).tickets[t].status.Used?
            <==> t in w.tickets && w.tickets[t].status.Used?
  {
  }

  /** A step that is not an accepted scan leaves the admissions and which tickets are used. */
  lemma OtherStepsKeepUse(w: World, a: Action)
    requires !(a.Scan? && Admit(w, a.token, a.user).Ok?)
    ensures
      var x := Step(w, a);
      && x.admissions == w.admissions
      && (forall t :: t in w.tickets ==> t in x.tickets && x.tickets[t].eventId == w.tickets[t].eventId)
      && (forall t :: t in x.tickets && x.tickets[t].status.Used? <==> t in w.tickets && w.tickets[t].status.Used?)
  {
    OthersKeepAdmissions(w, a);
    forall t | t in w.tickets
      ensures t in Step(w, a).tickets && Step(w, a).tickets[t].eventId == w.tickets[t].eventId
    {
      TicketsStay(w, a, t);
    }
    forall t
      ensures t in Step(w, a).tickets && Step(w, a).tickets[t].status.Used?
              <==> t in w.tickets && w.tickets[t].status.Used?
    {
      OthersKeepUsed(w, a, t);
    }
  }

  lemma SameUse(w: World, x: World)
    requires UsedMeansScanned(w) && x.admissions == w.admissions
    requires forall t :: t in x.tickets && x.tickets[t].status.Used? <==> t in w.tickets && w.tickets[t].status.Used?
    ensures UsedMeansScanned(x)
  {
  }

  lemma OneMoreScan(w: World, x: World, adm: Admission)
    requires UsedMeansScanned(w) && adm.ticketId in w.tickets && !w.tickets[adm.ticketId].status.Used?
    requires x.admissions == w.admissions + [adm]
    requires x.tickets == w.tickets[adm.ticketId := w.tickets[adm.ticketId].(status := Used)]
    ensures UsedMeansScanned(x)
  {
    assert x.admissions[..|x.admissions| - 1] == w.admissions;
    forall t
      ensures ScansOfTicket(x.admissions, t) == if t in x.tickets && x.tickets[t].status.Used? then 1 else 0
    {
      assert ScansOfTicket(w.admissions, t) == if t in w.tickets && w.tickets[t].status.Used? then 1 else 0;
    }
  }

  lemma StepKeepsUsedMeansScanned(w: World, a: Action)
    requires UsedMeansScanned(w)
    ensures UsedMeansScanned(Step(w, a))
  {
    if a.Scan? && Admit(w, a.token, a.user).Ok? {
      AdmitResult(w, a.token, a.user);
      OneMoreScan(w, Step(w, a), Admission(a.token.value.0, w.scanners[a.user].id, w.now));
    } else {
      OtherStepsKeepUse(w, a);
      SameUse(w, Step(w, a));
    }
  }

  lemma ScannersStayKnown(w: World, a: Action, id: nat)
    requires KnownScanner(w.scanners, id)
    ensures KnownScanner(Step(w, a).scanners, id)
  {
    var user :| user in w.scanners && w.scanners[user].id == id;
    ScannersStay(w, a, user);
  }

  lemma ScannersStay(w: World, a: Action, user: nat)
    requires user in w.scanners
    ensures user in Step(w, a).scanners && Step(w, a).scanners[user].id == w.scanners[user].id
  {
  }

  /** An accepted scan adds an admission by a known scanner. */
  lemma AdmitKnowsScanner(w: World, token: Token, user: nat)
    requires Admit(w, token, user).Ok?
    ensures
      var x := Admit(w, token, user).value;
      && |x.admissions| == |w.admissions| + 1 && x.admissions[..|w.admissions|] == w.admissions
      && KnownScanner(w.scanners, x.admissions[|w.admissions|].scannerId)
      && x.admissions[|w.admissions|].ticketId in w.tickets
  {
    AdmitResult(w, token, user);
  }

  lemma StepKeepsScanners(w: World, a: Action)
    requires ScannersKnown(w)
    ensures ScannersKnown(Step(w, a))
  {
    var x := Step(w, a);
    if a.Scan? && Admit(w, a.token, a.user).Ok? {
      AdmitKnowsScanner(w, a.token, a.user);
    } else {
      OtherStepsKeepUse(w, a);
    }
    forall i | 0 <= i < |x.admissions|
      ensures KnownScanner(x.scanners, x.admissions[i].scannerId)
    {
      assert i < |w.admissions| ==> x.admissions[i] == w.admissions[i];
      assert KnownScanner(w.scanners, x.admissions[i].scannerId);
      ScannersStayKnown(w, a, x.admissions[i].scannerId);
    }
  }

  lemma StepKeepsTickets(w: World, a: Action)
    requires TicketsExist(w)
    ensures TicketsExist(Step(w, a))
  {
    if a.Scan? && Admit(w, a.token, a.user).Ok? {
      AdmitResult(w, a.token, a.user);
    } else {
      OtherStepsKeepUse(w, a);
    }
  }

  lemma {:induction false} ScansDependOnEvents(admissions: seq<Admission>, s: map<nat, Ticket>, t: map<nat, Ticket>, e: nat)
    requires forall i :: 0 <= i < |admissions| ==> admissions[i].ticketId in s
    requires forall k :: k in s ==> k in t && t[k].eventId == s[k].eventId
    ensures Scans(admissions, t, e) == Scans(admissions, s, e)
  {
    if admissions == [] {
    } else {
      ScansDependOnEvents(admissions[..|admissions| - 1], s, t, e);
    }
  }

  lemma AdmitCounts(w: World, token: Token, user: nat, e: nat)
    requires TicketsExist(w) && Admit(w, token, user).Ok?
    requires |WithStatus(w.tickets, e, Used)| == |Scans(w.admissions, w.tickets, e)|
    ensures
      var x := Admit(w, token, user).value;
      |WithStatus(x.tickets, e, Used)| == |Scans(x.admissions, x.tickets, e)|
  {
    AdmitResult(w, token, user);
    var t := token.value.0;
    ScanAppended(w.admissions, w.tickets, Admission(t, w.scanners[user].id, w.now), e);
    UsedAdded(w.tickets, t, e);
  }

  lemma ScanAppended(admissions: seq<Admission>, tickets: map<nat, Ticket>, adm: Admission, e: nat)
    requires forall i :: 0 <= i < |admissions| ==> admissions[i].ticketId in tickets
    requires adm.ticketId in tickets
    ensures
      var after := tickets[adm.ticketId := tickets[adm.ticketId].(status := Used)];
      |Scans(admissions + [adm], after, e)| ==
        |Scans(admissions, tickets, e)| + if tickets[adm.ticketId].eventId == e then 1 else 0
  {
    var after := tickets[adm.ticketId := tickets[adm.ticketId].(status := Used)];
    var longer := admissions + [adm];
    assert longer[..|longer| - 1] == admissions;
    ScansDependOnEvents(admissions, tickets, after, e);
  }

  lemma UsedAdded(tickets: map<nat, Ticket>, t: nat, e: nat)
    requires t in tickets && !tickets[t].status.Used?
    ensures
      |WithStatus(tickets[t := tickets[t].(status := Used)], e, Used)| ==
        |WithStatus(tickets, e, Used)| + if tickets[t].eventId == e then 1 else 0
  {
    assert WithStatus(tickets[t := tickets[t].(status := Used)], e, Used) ==
           WithStatus(tickets, e, Used) + if tickets[t].eventId == e then {t} else {};
  }

  lemma StepKeepsCounts(w: World, a: Action)
    requires CountsAgree(w) && TicketsExist(w)
    ensures CountsAgree(Step(w, a))
  {
    var x := Step(w, a);
    forall e
      ensures |WithStatus(x.tickets, e, Used)| == |Scans(x.admissions, x.tickets, e)|
    {
      assert |WithStatus(w.tickets, e, Used)| == |Scans(w.admissions, w.tickets, e)|;
      if a.Scan? && Admit(w, a.token, a.user).Ok? {
        AdmitCounts(w, a.token, a.user, e);
      } else {
        OtherStepsKeepUse(w, a);
        ScansDependOnEvents(w.admissions, w.tickets, x.tickets, e);
        assert WithStatus(x.tickets, e, Used) == WithStatus(w.tickets, e, Used);
      }
    }
  }

  lemma {:induction false} RunKeepsTickets(run: seq<Action>)
    ensures TicketsOk(After(run))
  {
    if run == [] {
      assert forall e :: WithStatus(INITIAL.tickets, e, Used) == {};
    } else {
      var w, a := After(run[..|run| - 1]), run[|run| - 1];
      RunKeepsTickets(run[..|run| - 1]);
      StepKeepsUsedMeansScanned(w, a);
      StepKeepsTickets(w, a);
      StepKeepsScanners(w, a);
      StepKeepsCounts(w, a);
    }
  }

  /** In every reachable state a ticket is used iff it has exactly one admission, and none otherwise. */
  lemma {:induction false} UsedIffAdmittedOnce(run: seq<Action>, t: nat)
    ensures
      var w := After(run);
      && (t in w.tickets && w.tickets[t].status.Used? <==> ScansOfTicket(w.admissions, t) == 1)
      && ScansOfTicket(w.admissions, t) <= 1
  {
    RunKeepsTickets(run);
    assert ScansOfTicket(After(run).admissions, t) <= 1;
  }

  /** The unique constraint on admissions never fires: the status check refuses a second scan first. */
  lemma UniqueConstraintNeverFires(run: seq<Action>, token: Token, user: nat)
    ensures Admit(After(run), token, user) != Err(DuplicateAdmission)
  {
    RunKeepsTickets(run);
  }

  /** Why an admission was allowed: the state and the scan that made it. */
  ghost predicate MadeBy(w: World, a: Action, adm: Admission) {
    && a.Scan? && a.token.Some? && a.token.value.0 == adm.ticketId
    && adm.ticketId in w.tickets
    && w.tickets[adm.ticketId].status.Valid?
    && a.token.value.1 == w.tickets[adm.ticketId].qrVersion
    && a.user in w.scanners && w.scanners[a.user] == Scanner(adm.scannerId, true)
    && adm.admittedAt == w.now
    && var e := w.tickets[adm.ticketId].eventId;
       && e in w.catalog.events
       && Assigned(w.assignments, e, adm.scannerId)
       && CanOpenAdmission(w.catalog.events[e].event)
       && OpenOnSchedule(w.sessions, e, w.catalog.events[e].event.startsAt)
  }

  lemma OnlyScansAdmit(w: World, a: Action)
    ensures
      var admissions := Step(w, a).admissions;
      || admissions == w.admissions
      || (admissions != [] && admissions[..|admissions| - 1] == w.admissions
          && MadeBy(w, a, admissions[|admissions| - 1]))
  {
    if a.Scan? && Admit(w, a.token, a.user).Ok? {
      AdmitResult(w, a.token, a.user);
    } else {
      OtherStepsKeepUse(w, a);
    }
  }

  /**
   Every admission in the history was made by a scan of the ticket's then-current code, by a scanner
   then active and assigned, while an open session matched the event's then-current start.
   */
  lemma {:induction false} EveryAdmissionWasLegitimate(run: seq<Action>, k: nat) returns (n: nat)
    requires k < |After(run).admissions|
    ensures n < |run| && |After(run[..n]).admissions| == k
    ensures MadeBy(After(run[..n]), run[n], After(run).admissions[k])
  {
    assert run != [];
    var shorter := run[..|run| - 1];
    var w := After(shorter);
    OnlyScansAdmit(w, run[|run| - 1]);
    if k < |w.admissions| {
      n := EveryAdmissionWasLegitimate(shorter, k);
      assert shorter[..n] == run[..n];
    } else {
      n := |run| - 1;
    }
  }

  lemma {:induction false} SubsetSize(small: set<nat>, large: set<nat>)
    requires small <= large
    ensures |small| <= |large|
  {
    if small == {} {
    } else {
      var t :| t in small;
      SubsetSize(small - {t}, large - {t});
    }
  }

  /** Entries never exceed the tickets that are not void, as the dashboard shows them. */
  lemma EntriesWithinTickets(run: seq<Action>, e: nat)
    ensures
      var w := After(run);
      |Scans(w.admissions, w.tickets, e)| <= |TicketsOf(w.tickets, e) - WithStatus(w.tickets, e, Void)|
  {
    var w := After(run);
    RunKeepsTickets(run);
    assert |WithStatus(w.tickets, e, Used)| == |Scans(w.admissions, w.tickets, e)|;
    SubsetSize(WithStatus(w.tickets, e, Used), TicketsOf(w.tickets, e) - WithStatus(w.tickets, e, Void));
  }
}
