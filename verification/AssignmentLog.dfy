/** Scanner assignments and the outbox records that announce them, over every run. */
module AssignmentLog {
  import opened EventHandlers
  import opened AccessModel
  import opened AccessRuns
  import Events = EventRuns

  /** The scanners the assignment records of one event leave assigned. */
  function Replayed(outbox: seq<Events.Message>, e: nat): set<nat> {
    if outbox == [] then {}
    else
      var m := outbox[|outbox| - 1];
      var before := Replayed(outbox[..|outbox| - 1], e);
      if m.eventId == e && m.kind.AssignedMessage? then before + {m.kind.scanner}
      else if m.eventId == e && m.kind.UnassignedMessage? then before - {m.kind.scanner}
      else before
  }

  /** Each record changes something: assigned only what was not, unassigned only what was. */
  predicate Alternating(outbox: seq<Events.Message>) {
    outbox != [] ==>
      var m := outbox[|outbox| - 1];
      var before := outbox[..|outbox| - 1];
      && Alternating(before)
      && (m.kind.AssignedMessage? ==> m.kind.scanner !in Replayed(before, m.eventId))
      && (m.kind.UnassignedMessage? ==> m.kind.scanner in Replayed(before, m.eventId))
  }

  function ActiveScanners(rows: seq<Assignment>, e: nat): set<nat> {
    set i | 0 <= i < |rows| && rows[i].active && rows[i].eventId == e :: rows[i].scannerId
  }

  predicate ActiveOnce(rows: seq<Assignment>) {
    forall i, j :: 0 <= i < j < |rows| && rows[i].active && rows[j].active
      ==> rows[i].eventId != rows[j].eventId || rows[i].scannerId != rows[j].scannerId
  }

  ghost predicate AssignmentsOk(w: World) {
    && ActiveOnce(w.assignments)
    && Alternating(w.catalog.outbox)
    && forall e :: Replayed(w.catalog.outbox, e) == ActiveScanners(w.assignments, e)
  }

  lemma AppendRecord(outbox: seq<Events.Message>, m: Events.Message, e: nat)
    ensures Replayed(outbox + [m], e) ==
            if m.eventId == e && m.kind.AssignedMessage? then Replayed(outbox, e) + {m.kind.scanner}
            else if m.eventId == e && m.kind.UnassignedMessage? then Replayed(outbox, e) - {m.kind.scanner}
            else Replayed(outbox, e)
    ensures Alternating(outbox + [m]) <==>
              && Alternating(outbox)
              && (m.kind.AssignedMessage? ==> m.kind.scanner !in Replayed(outbox, m.eventId))
              && (m.kind.UnassignedMessage? ==> m.kind.scanner in Replayed(outbox, m.eventId))
  {
    assert (outbox + [m])[..|outbox + [m]| - 1] == outbox;
  }

  lemma ActiveMeansAssigned(rows: seq<Assignment>, e: nat, scanner: nat)
    ensures scanner in ActiveScanners(rows, e) <==> ActiveIndex(rows, e, scanner) < |rows|
    ensures scanner in ActiveScanners(rows, e) <==> Assigned(rows, e, scanner)
  {
    var i := ActiveIndex(rows, e, scanner);
    if i < |rows| {
      assert rows[i].scannerId in ActiveScanners(rows, e);
    }
  }

  lemma AssignKeepsAssignments(w: World, e: nat, scanner: nat, assignable: bool)
    requires AssignmentsOk(w) && AssignScanner(w, e, scanner, assignable).Ok?
    ensures AssignmentsOk(AssignScanner(w, e, scanner, assignable).value)
  {
    var x := AssignScanner(w, e, scanner, assignable).value;
    if x != w {
      ActiveMeansAssigned(w.assignments, e, scanner);
      forall other
        ensures Replayed(x.catalog.outbox, other) == ActiveScanners(x.assignments, other)
      {
        AppendRecord(w.catalog.outbox, Events.Message(e, AssignedMessage(scanner)), other);
        WithActiveRow(w.assignments, Assignment(e, scanner, true), other);
      }
      AppendRecord(w.catalog.outbox, Events.Message(e, AssignedMessage(scanner)), e);
    }
  }

  lemma WithActiveRow(rows: seq<Assignment>, row: Assignment, e: nat)
    requires row.active
    ensures ActiveScanners(rows + [row], e) ==
            ActiveScanners(rows, e) + if row.eventId == e then {row.scannerId} else {}
  {
    var after := rows + [row];
    assert after[|rows|] == row;
    forall s | s in ActiveScanners(rows, e)
      ensures s in ActiveScanners(after, e)
    {
      var k :| 0 <= k < |rows| && rows[k].active && rows[k].eventId == e && rows[k].scannerId == s;
      assert after[k] == rows[k];
    }
    forall s | s in ActiveScanners(after, e) && !(row.eventId == e && s == row.scannerId)
      ensures s in ActiveScanners(rows, e)
    {
      var k :| 0 <= k < |after| && after[k].active && after[k].eventId == e && after[k].scannerId == s;
      assert rows[k] == after[k];
    }
  }

  lemma UnassignKeepsAssignments(w: World, e: nat, scanner: nat)
    requires AssignmentsOk(w) && UnassignScanner(w, e, scanner).Ok?
    ensures AssignmentsOk(UnassignScanner(w, e, scanner).value)
  {
    var x := UnassignScanner(w, e, scanner).value;
    var i := ActiveIndex(w.assignments, e, scanner);
    ActiveMeansAssigned(w.assignments, e, scanner);
    forall other
      ensures Replayed(x.catalog.outbox, other) == ActiveScanners(x.assignments, other)
    {
      AppendRecord(w.catalog.outbox, Events.Message(e, UnassignedMessage(scanner)), other);
      WithoutActiveRow(w.assignments, i, other);
    }
    AppendRecord(w.catalog.outbox, Events.Message(e, UnassignedMessage(scanner)), e);
  }

  lemma WithoutActiveRow(rows: seq<Assignment>, i: nat, e: nat)
    requires ActiveOnce(rows) && i < |rows| && rows[i].active
    ensures ActiveScanners(rows[i := rows[i].(active := false)], e) ==
            ActiveScanners(rows, e) - if rows[i].eventId == e then {rows[i].scannerId} else {}
  {
    var after := rows[i := rows[i].(active := false)];
    forall s | s in ActiveScanners(rows, e) && !(rows[i].eventId == e && s == rows[i].scannerId)
      ensures s in ActiveScanners(after, e)
    {
      var k :| 0 <= k < |rows| && rows[k].active && rows[k].eventId == e && rows[k].scannerId == s;
      assert after[k] == rows[k];
    }
    forall s | s in ActiveScanners(after, e)
      ensures s in ActiveScanners(rows, e) && !(rows[i].eventId == e && s == rows[i].scannerId)
    {
      var k :| 0 <= k < |after| && after[k].active && after[k].eventId == e && after[k].scannerId == s;
      assert rows[k] == after[k] && k != i;
    }
  }

  lemma HandlersSendNoAssignment(s: EventState, r: Request)
    requires Handle(s, r).Ok? && Handle(s, r).value.message.Some?
    ensures !Handle(s, r).value.message.value.AssignedMessage? && !Handle(s, r).value.message.value.UnassignedMessage?
  {
  }

  lemma CatalogKeepsAssignments(w: World, step: Events.Action)
    requires AssignmentsOk(w)
    ensures AssignmentsOk(w.(catalog := Events.Step(w.catalog, step)))
  {
    if step.On? && step.id in w.catalog.events && Handle(w.catalog.events[step.id], step.request).Ok? {
      var message := Handle(w.catalog.events[step.id], step.request).value.message;
      if message.Some? {
        HandlersSendNoAssignment(w.catalog.events[step.id], step.request);
        forall e
          ensures Replayed(Events.Step(w.catalog, step).outbox, e) == ActiveScanners(w.assignments, e)
        {
          AppendRecord(w.catalog.outbox, Events.Message(step.id, message.value), e);
        }
        AppendRecord(w.catalog.outbox, Events.Message(step.id, message.value), step.id);
      }
    }
  }

  lemma StepKeepsAssignments(w: World, a: Action)
    requires AssignmentsOk(w)
    ensures AssignmentsOk(Step(w, a))
  {
    match a
    case CatalogStep(step) => CatalogKeepsAssignments(w, step);
    case Assign(e, scanner, assignable) =>
      if AssignScanner(w, e, scanner, assignable).Ok? {
        AssignKeepsAssignments(w, e, scanner, assignable);
      }
    case Unassign(e, scanner) =>
      if UnassignScanner(w, e, scanner).Ok? {
        UnassignKeepsAssignments(w, e, scanner);
      }
    case _ => OthersKeepAssignments(w, a);
  }

  lemma {:induction false} RunKeepsAssignments(run: seq<Action>)
    ensures AssignmentsOk(After(run))
  {
    if run == [] {
      assert forall e :: ActiveScanners(INITIAL.assignments, e) == {};
    } else {
      RunKeepsAssignments(run[..|run| - 1]);
      StepKeepsAssignments(After(run[..|run| - 1]), run[|run| - 1]);
    }
  }

  lemma OthersKeepAssignments(w: World, a: Action)
    requires !a.CatalogStep? && !a.Assign? && !a.Unassign?
    ensures Step(w, a).assignments == w.assignments && Step(w, a).catalog == w.catalog
  {
  }

  /** Folding an event's assignment records yields exactly the scanners its table has active. */
  lemma AssignmentLogReplays(run: seq<Action>, e: nat, scanner: nat)
    ensures
      var w := After(run);
      && Alternating(w.catalog.outbox)
      && ActiveOnce(w.assignments)
      && (scanner in Replayed(w.catalog.outbox, e) <==> Assigned(w.assignments, e, scanner))
  {
    RunKeepsAssignments(run);
    var w := After(run);
    ActiveMeansAssigned(w.assignments, e, scanner);
    assert Replayed(w.catalog.outbox, e) == ActiveScanners(w.assignments, e);
  }

  /** Between two assigned records of one scanner lies an unassigned one. */
  lemma {:induction false} AssignedRecordsAlternate(outbox: seq<Events.Message>, i: nat, j: nat)
    requires Alternating(outbox) && i < j < |outbox|
    requires outbox[i].kind.AssignedMessage? && outbox[j] == outbox[i]
    ensures exists k :: i < k < j && outbox[k] == Events.Message(outbox[i].eventId, UnassignedMessage(outbox[i].kind.scanner))
  {
    if j < |outbox| - 1 {
      AssignedRecordsAlternate(outbox[..|outbox| - 1], i, j);
    } else {
      RecordStays(outbox[..j], i);
    }
  }

  lemma {:induction false} RecordStays(outbox: seq<Events.Message>, i: nat)
    requires i < |outbox| && outbox[i].kind.AssignedMessage?
    requires outbox[i].kind.scanner !in Replayed(outbox, outbox[i].eventId)
    ensures exists k :: i < k < |outbox| && outbox[k] == Events.Message(outbox[i].eventId, UnassignedMessage(outbox[i].kind.scanner))
  {
    var last := |outbox| - 1;
    if outbox[last] != Events.Message(outbox[i].eventId, UnassignedMessage(outbox[i].kind.scanner)) {
      assert i < last;
      RecordStays(outbox[..last], i);
    }
  }
}
