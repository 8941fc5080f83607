/**
 The leased lock that browser tabs share through local storage before they refresh the session.

 One call of `withCrossTabRefreshLock` is an attempt, named by its owner string. Each `await` ends
 an atomic step, so an attempt moves through the phases below; the clock and every other attempt
 may run between two steps. A timer of `m` milliseconds fires at least `m` and at most
 `m + overshoot` milliseconds after it was set.
 */
module CrossTabLock {
  import opened Prelude

  const LEASE_MS: nat := 15000
  const RETRY_MS: nat := 40
  const REQUEST_TIMEOUT_MS: nat := 10000

  type Owner = string

  /** What the storage key holds: nothing or an owner's lease. */
  datatype Cell = Empty | Held(owner: Owner, expiresAt: nat)

  /** Before the claim, between claim and check, in the delay after the check, in the task, over. */
  datatype Phase =
    | Polling(due: nat)
    | Claimed(setAt: nat)
    | Confirmed(setAt: nat, checkedAt: nat)
    | Working(setAt: nat, enteredAt: nat)
    | Gone

  datatype State = State(now: nat, cell: Cell, attempts: map<Owner, Phase>)

  datatype Action =
    | Tick(elapsed: nat)
    | Arrive(owner: Owner)
    | Poll(owner: Owner)
    | Confirm(owner: Owner)
    | Enter(owner: Owner)
    | Leave(owner: Owner)
    | Crash(owner: Owner)

  // ---- the atomic stretches of one attempt ----

  predicate Unexpired(cell: Cell, now: nat) {
    cell.Held? && cell.expiresAt > now
  }

  predicate OwnedBy(cell: Cell, owner: Owner) {
    cell.Held? && cell.owner == owner
  }

  function PollStep(cell: Cell, owner: Owner, now: nat): (Cell, Phase) {
    if Unexpired(cell, now) then (cell, Polling(now + RETRY_MS))
    else (Held(owner, now + LEASE_MS), Claimed(now))
  }

  function ConfirmStep(cell: Cell, owner: Owner, setAt: nat, now: nat): Phase {
    if OwnedBy(cell, owner) then Confirmed(setAt, now) else Polling(now + RETRY_MS)
  }

  function ReleaseStep(cell: Cell, owner: Owner): Cell {
    if OwnedBy(cell, owner) then Empty else cell
  }

  // ---- the system of all attempts ----

  const INITIAL := State(0, Empty, map[])

  /** The instant by which a phase must have ended; waiting to poll has no bound. */
  predicate InTime(p: Phase, at: nat, overshoot: nat) {
    match p
    case Claimed(setAt) => at <= setAt + overshoot
    case Confirmed(_, checkedAt) => at <= checkedAt + RETRY_MS + overshoot
    case Working(_, enteredAt) => at <= enteredAt + REQUEST_TIMEOUT_MS + overshoot
    case _ => true
  }

  predicate Enabled(overshoot: nat, s: State, a: Action) {
    match a
    case Tick(d) => d > 0 && forall o :: o in s.attempts ==> InTime(s.attempts[o], s.now + d, overshoot)
    case Arrive(o) => o !in s.attempts
    case Poll(o) => o in s.attempts && s.attempts[o].Polling? && s.attempts[o].due <= s.now
    case Confirm(o) => o in s.attempts && s.attempts[o].Claimed?
    case Enter(o) => o in s.attempts && s.attempts[o].Confirmed? && s.attempts[o].checkedAt + RETRY_MS <= s.now
    case Leave(o) => o in s.attempts && s.attempts[o].Working?
    case Crash(o) => o in s.attempts
  }

  function Step(overshoot: nat, s: State, a: Action): State
    requires Enabled(overshoot, s, a)
  {
    match a
    case Tick(d) => s.(now := s.now + d)
    case Arrive(o) => s.(attempts := s.attempts[o := Polling(s.now)])
    case Poll(o) =>
      var (cell, phase) := PollStep(s.cell, o, s.now);
      s.(cell := cell, attempts := s.attempts[o := phase])
    case Confirm(o) =>
      s.(attempts := s.attempts[o := ConfirmStep(s.cell, o, s.attempts[o].setAt, s.now)])
    case Enter(o) => s.(attempts := s.attempts[o := Working(s.attempts[o].setAt, s.now)])
    case Leave(o) => s.(cell := ReleaseStep(s.cell, o), attempts := s.attempts[o := Gone])
    case Crash(o) => s.(attempts := s.attempts[o := Gone])
  }

  /** The state a sequence of actions reaches, if each was enabled in turn. */
  function After(overshoot: nat, actions: seq<Action>): Option<State> {
    if actions == [] then Some(INITIAL)
    else
      var before := After(overshoot, actions[..|actions| - 1]);
      var a := actions[|actions| - 1];
      if before.Some? && Enabled(overshoot, before.value, a)
      then Some(Step(overshoot, before.value, a)) else None
  }

  // ---- properties ----

  /** No two attempts are inside the refresh task together. */
  predicate Exclusive(s: State) {
    forall a, b :: a in s.attempts && b in s.attempts && s.attempts[a].Working? && s.attempts[b].Working? ==> a == b
  }

  /** Whoever is inside the refresh task holds an unexpired lease. */
  predicate LeaseCoversTask(s: State) {
    forall o :: o in s.attempts && s.attempts[o].Working? ==> OwnedBy(s.cell, o) && Unexpired(s.cell, s.now)
  }

  predicate HasSet(p: Phase) {
    p.Claimed? || p.Confirmed? || p.Working?
  }

  predicate PhaseTimes(p: Phase, now: nat, overshoot: nat) {
    && InTime(p, now, overshoot)
    && match p
       case Claimed(setAt) => setAt <= now
       case Confirmed(setAt, checkedAt) => setAt <= checkedAt <= setAt + overshoot && checkedAt <= now
       case Working(setAt, enteredAt) =>
         setAt + RETRY_MS <= enteredAt <= setAt + RETRY_MS + 2 * overshoot && enteredAt <= now
       case _ => true
  }

  /** While its lease runs, the stored lock of a claiming attempt is its own. */
  predicate LeaseKept(s: State, o: Owner)
    requires o in s.attempts && HasSet(s.attempts[o])
  {
    s.cell == Held(o, s.attempts[o].setAt + LEASE_MS) || s.attempts[o].setAt + LEASE_MS <= s.now
  }

  predicate FarApart(p: Phase, q: Phase) {
    HasSet(p) && HasSet(q) ==> p.setAt + LEASE_MS <= q.setAt || q.setAt + LEASE_MS <= p.setAt
  }

  predicate TimesOk(overshoot: nat, s: State) {
    forall o :: o in s.attempts ==> PhaseTimes(s.attempts[o], s.now, overshoot)
  }

  predicate LeasesOk(s: State) {
    forall o :: o in s.attempts && HasSet(s.attempts[o]) ==> LeaseKept(s, o)
  }

  predicate SpreadOk(s: State) {
    forall a, b :: a in s.attempts && b in s.attempts && a != b ==> FarApart(s.attempts[a], s.attempts[b])
  }

  predicate Inv(overshoot: nat, s: State) {
    && TimesOk(overshoot, s)
    && LeasesOk(s)
    && SpreadOk(s)
    && (s.cell.Held? ==> s.cell.expiresAt <= s.now + LEASE_MS)
  }

  lemma StepKeepsTimes(overshoot: nat, s: State, a: Action)
    requires TimesOk(overshoot, s) && Enabled(overshoot, s, a)
    ensures TimesOk(overshoot, Step(overshoot, s, a))
  {
    var s' := Step(overshoot, s, a);
    forall o | o in s'.attempts
      ensures PhaseTimes(s'.attempts[o], s'.now, overshoot)
    {
      assert o in s.attempts ==> PhaseTimes(s.attempts[o], s.now, overshoot);
    }
  }

  lemma StepKeepsLeases(overshoot: nat, s: State, a: Action)
    requires LeasesOk(s) && Enabled(overshoot, s, a)
    ensures LeasesOk(Step(overshoot, s, a))
  {
    var s' := Step(overshoot, s, a);
    forall o | o in s'.attempts && HasSet(s'.attempts[o])
      ensures LeaseKept(s', o)
    {
      assert o in s.attempts && HasSet(s.attempts[o]) ==> LeaseKept(s, o);
    }
  }

  lemma StepKeepsSpread(overshoot: nat, s: State, a: Action)
    requires LeasesOk(s) && SpreadOk(s) && Enabled(overshoot, s, a)
    ensures SpreadOk(Step(overshoot, s, a))
  {
    var s' := Step(overshoot, s, a);
    forall x, y | x in s'.attempts && y in s'.attempts && x != y
      ensures FarApart(s'.attempts[x], s'.attempts[y])
    {
      assert x in s.attempts && y in s.attempts ==> FarApart(s.attempts[x], s.attempts[y]);
      assert x in s.attempts && HasSet(s.attempts[x]) ==> LeaseKept(s, x);
      assert y in s.attempts && HasSet(s.attempts[y]) ==> LeaseKept(s, y);
    }
  }

  lemma {:induction false} RunKeepsInv(overshoot: nat, actions: seq<Action>)
    requires After(overshoot, actions).Some?
    ensures Inv(overshoot, After(overshoot, actions).value)
  {
    if actions == [] {
    } else {
      var s, a := After(overshoot, actions[..|actions| - 1]).value, actions[|actions| - 1];
      RunKeepsInv(overshoot, actions[..|actions| - 1]);
      StepKeepsTimes(overshoot, s, a);
      StepKeepsLeases(overshoot, s, a);
      StepKeepsSpread(overshoot, s, a);
    }
  }

  // ---- main results ----

  lemma ShortTimersExclude(overshoot: nat, actions: seq<Action>)
    requires 3 * overshoot < LEASE_MS - REQUEST_TIMEOUT_MS
    requires After(overshoot, actions).Some?
    ensures Exclusive(After(overshoot, actions).value)
  {
    var s := After(overshoot, actions).value;
    RunKeepsInv(overshoot, actions);
    forall a, b | a in s.attempts && b in s.attempts && s.attempts[a].Working? && s.attempts[b].Working?
      ensures a == b
    {
      assert PhaseTimes(s.attempts[a], s.now, overshoot) && PhaseTimes(s.attempts[b], s.now, overshoot);
      assert a != b ==> FarApart(s.attempts[a], s.attempts[b]);
    }
  }

  lemma ShorterTimersKeepLease(overshoot: nat, actions: seq<Action>)
    requires 3 * overshoot < LEASE_MS - REQUEST_TIMEOUT_MS - RETRY_MS
    requires After(overshoot, actions).Some?
    ensures LeaseCoversTask(After(overshoot, actions).value)
  {
    var s := After(overshoot, actions).value;
    RunKeepsInv(overshoot, actions);
    forall o | o in s.attempts && s.attempts[o].Working?
      ensures OwnedBy(s.cell, o) && Unexpired(s.cell, s.now)
    {
      assert PhaseTimes(s.attempts[o], s.now, overshoot) && LeaseKept(s, o);
    }
  }

  lemma Extend(overshoot: nat, actions: seq<Action>, a: Action)
    requires After(overshoot, actions).Some? && Enabled(overshoot, After(overshoot, actions).value, a)
    ensures After(overshoot, actions + [a]) == Some(Step(overshoot, After(overshoot, actions).value, a))
  {
    assert (actions + [a])[..|actions + [a]| - 1] == actions;
  }

  /** Attempt A claims at 0, checks, and enters the task, each timer firing the given delay late. */
  lemma LateEntry(overshoot: nat, late1: nat, late2: nat) returns (run: seq<Action>)
    requires 0 < late1 <= overshoot && late2 <= overshoot
    ensures After(overshoot, run) == Some(State(late1 + RETRY_MS + late2, Held("A", LEASE_MS),
                                                map["A" := Working(0, late1 + RETRY_MS + late2)]))
  {
    run := [Arrive("A")];
    assert run[..|run| - 1] == [];
    assert After(overshoot, run) == Some(State(0, Empty, map["A" := Polling(0)]));
    Extend(overshoot, run, Poll("A"));
    run := run + [Poll("A")];
    assert map["A" := Polling(0)]["A" := Claimed(0)] == map["A" := Claimed(0)];
    assert After(overshoot, run) == Some(State(0, Held("A", LEASE_MS), map["A" := Claimed(0)]));
    Extend(overshoot, run, Tick(late1));
    run := run + [Tick(late1)];
    Extend(overshoot, run, Confirm("A"));
    run := run + [Confirm("A")];
    assert map["A" := Claimed(0)]["A" := Confirmed(0, late1)] == map["A" := Confirmed(0, late1)];
    assert After(overshoot, run) == Some(State(late1, Held("A", LEASE_MS), map["A" := Confirmed(0, late1)]));
    Extend(overshoot, run, Tick(RETRY_MS + late2));
    run := run + [Tick(RETRY_MS + late2)];
    Extend(overshoot, run, Enter("A"));
    run := run + [Enter("A")];
    var working := Working(0, late1 + RETRY_MS + late2);
    assert map["A" := Confirmed(0, late1)]["A" := working] == map["A" := working];
  }

  /** With later timers, A still works when its lease ends, and B claims, checks and enters. */
  lemma LateTimersOverlap(overshoot: nat) returns (run: seq<Action>)
    requires 3 * overshoot >= LEASE_MS - REQUEST_TIMEOUT_MS
    ensures After(overshoot, run).Some? && !Exclusive(After(overshoot, run).value)
  {
    run := LateEntry(overshoot, 1666, 1667);
    Extend(overshoot, run, Tick(11627));
    run := run + [Tick(11627)];
    Extend(overshoot, run, Arrive("B"));
    run := run + [Arrive("B")];
    Extend(overshoot, run, Poll("B"));
    run := run + [Poll("B")];
    Extend(overshoot, run, Confirm("B"));
    run := run + [Confirm("B")];
    assert After(overshoot, run).value.attempts == map["A" := Working(0, 3373), "B" := Confirmed(LEASE_MS, LEASE_MS)];
    Extend(overshoot, run, Tick(RETRY_MS));
    run := run + [Tick(RETRY_MS)];
    Extend(overshoot, run, Enter("B"));
    run := run + [Enter("B")];
    var s := After(overshoot, run).value;
    assert s.attempts["A"].Working? && s.attempts["B"].Working?;
  }

  lemma LateTimersOutliveLease(overshoot: nat) returns (run: seq<Action>)
    requires 3 * overshoot >= LEASE_MS - REQUEST_TIMEOUT_MS - RETRY_MS
    ensures After(overshoot, run).Some? && !LeaseCoversTask(After(overshoot, run).value)
  {
    run := LateEntry(overshoot, 1653, 1653);
    Extend(overshoot, run, Tick(11654));
    run := run + [Tick(11654)];
    assert "A" in After(overshoot, run).value.attempts;
  }

  /** Over every run, at most one attempt refreshes at a time exactly when the overshoot is below 5/3 s. */
  lemma MutualExclusionExactly(overshoot: nat)
    ensures (forall run :: After(overshoot, run).Some? ==> Exclusive(After(overshoot, run).value))
            <==> 3 * overshoot < LEASE_MS - REQUEST_TIMEOUT_MS
  {
    if 3 * overshoot < LEASE_MS - REQUEST_TIMEOUT_MS {
      forall run | After(overshoot, run).Some?
        ensures Exclusive(After(overshoot, run).value)
      {
        ShortTimersExclude(overshoot, run);
      }
    } else {
      var run := LateTimersOverlap(overshoot);
    }
  }

  /** The 40 ms settling delay counts against the lease: it covers every task a little earlier. */
  lemma LeaseCoverageExactly(overshoot: nat)
    ensures (forall run :: After(overshoot, run).Some? ==> LeaseCoversTask(After(overshoot, run).value))
            <==> 3 * overshoot < LEASE_MS - REQUEST_TIMEOUT_MS - RETRY_MS
  {
    if 3 * overshoot < LEASE_MS - REQUEST_TIMEOUT_MS - RETRY_MS {
      forall run | After(overshoot, run).Some?
        ensures LeaseCoversTask(After(overshoot, run).value)
      {
        ShorterTimersKeepLease(overshoot, run);
      }
    } else {
      var run := LateTimersOutliveLease(overshoot);
    }
  }

  /** An unexpired lock survives everything but its own holder's release. */
  lemma {:induction false} LockIsHonoured(overshoot: nat, run: seq<Action>, more: seq<Action>)
    requires After(overshoot, run).Some? && After(overshoot, run + more).Some?
    requires After(overshoot, run).value.cell.Held?
    requires Leave(After(overshoot, run).value.cell.owner) !in more
    ensures
      var cell := After(overshoot, run).value.cell;
      var later := After(overshoot, run + more).value;
      later.now < cell.expiresAt ==> later.cell == cell
  {
    if more == [] {
      assert run + more == run;
    } else {
      var shorter := more[..|more| - 1];
      assert (run + more)[..|run + more| - 1] == run + shorter;
      LockIsHonoured(overshoot, run, shorter);
    }
  }

  /**
   Whoever left the lock behind, and whatever the others did meanwhile: if one lease later it is
   still the same, the next tab to look claims it.
   */
  lemma CrashedLockExpires(overshoot: nat, run: seq<Action>, more: seq<Action>, o: Owner)
    requires After(overshoot, run).Some? && After(overshoot, run + more).Some?
    requires
      var s, t := After(overshoot, run).value, After(overshoot, run + more).value;
      && t.cell == s.cell && t.now >= s.now + LEASE_MS
      && o in t.attempts && t.attempts[o].Polling? && t.attempts[o].due <= t.now
    ensures
      var taken := After(overshoot, run + more + [Poll(o)]);
      && taken.Some? && taken.value.attempts[o] == Claimed(After(overshoot, run + more).value.now)
      && OwnedBy(taken.value.cell, o) && Unexpired(taken.value.cell, taken.value.now)
  {
    RunKeepsInv(overshoot, run);
    Extend(overshoot, run + more, Poll(o));
  }
}
