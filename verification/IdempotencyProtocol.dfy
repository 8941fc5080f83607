/**
 Concurrent requests over the idempotency table. A request begins, its handler runs, and the
 middleware completes or fails the record; each of the three is one step, and a crash may replace
 the last. The log records what a client or an operator can observe.
 */
module IdempotencyProtocol {
  import opened Prelude
  import opened IdempotencyStore

  datatype Progress = Running | Answered | Lost | Crashed

  /** One execution of a handler, with the request it was started for. */
  datatype Execution = Execution(
    slot: Slot,
    pk: nat,
    endpoint: string,
    hash: string,
    startedAt: int,
    progress: Progress)

  datatype Entry = Entry(endpoint: string, hash: string, response: Response)

  datatype Observation =
    | Executed(slot: Slot, entry: Entry)
    | Replayed(slot: Slot, entry: Entry)
    | Purged(slots: set<Slot>)

  datatype System = System(store: Store, now: int, executions: seq<Execution>, log: seq<Observation>)

  datatype Action =
    | Tick(elapsed: nat)
    | Start(slot: Slot, endpoint: string, hash: string)
    | Finish(id: nat, response: Response)
    | Crash(id: nat)
    | PurgeAll

  const INITIAL := System(Store(map[], 0), 0, [], [])

  predicate Enabled(y: System, a: Action) {
    match a
    case Finish(id, _) => id < |y.executions| && y.executions[id].progress.Running?
    case Crash(id) => id < |y.executions| && y.executions[id].progress.Running?
    case _ => true
  }

  function WithProgress(y: System, id: nat, p: Progress): System
    requires id < |y.executions|
  {
    y.(executions := y.executions[id := y.executions[id].(progress := p)])
  }

  function StartStep(cfg: Config, y: System, slot: Slot, endpoint: string, hash: string): System {
    var (store, outcome) := Begin(cfg, y.store, y.now, slot, endpoint, hash);
    match outcome
    case Fresh(r) =>
      y.(store := store, executions := y.executions + [Execution(slot, r.pk, endpoint, hash, y.now, Running)])
    case Replay(r) =>
      if r.response.Some?
      then y.(log := y.log + [Replayed(slot, Entry(endpoint, hash, r.response.value))])
      else y
    case _ => y
  }

  function FinishStep(y: System, id: nat, response: Response): System
    requires id < |y.executions|
  {
    var e := y.executions[id];
    var saved := if Storable(response.status) then Complete(y.store, e.slot, e.pk, response) else Fail(y.store, e.slot, e.pk);
    if saved.None? then WithProgress(y, id, Lost)
    else
      var answered := WithProgress(y, id, Answered).(store := saved.value);
      if Storable(response.status)
      then answered.(log := y.log + [Executed(e.slot, Entry(e.endpoint, e.hash, response))])
      else answered
  }

  function Step(cfg: Config, y: System, a: Action): System
    requires Enabled(y, a)
  {
    match a
    case Tick(d) => y.(now := y.now + d)
    case Start(slot, endpoint, hash) => StartStep(cfg, y, slot, endpoint, hash)
    case Finish(id, response) => FinishStep(y, id, response)
    case Crash(id) => WithProgress(y, id, Crashed)
    case PurgeAll => y.(store := Purge(y.store, y.now), log := y.log + [Purged(Expired(y.store, y.now))])
  }

  /** The timing assumption: no running handler is older than `limit`. */
  predicate HandlersWithin(limit: nat, y: System, a: Action) {
    a.Tick? ==>
      forall i :: 0 <= i < |y.executions| && y.executions[i].progress.Running? ==>
        y.now + a.elapsed - y.executions[i].startedAt <= limit
  }

  /** The purge never meets the expired record of a running handler. */
  predicate PurgeSparesRunning(y: System, a: Action) {
    a.PurgeAll? ==>
      forall i :: 0 <= i < |y.executions| && y.executions[i].progress.Running? ==>
        y.executions[i].slot !in Expired(y.store, y.now)
  }

  /** A rule callers can keep: an existing record is taken over only `margin` before it expires. */
  predicate TakeoverKeeps(cfg: Config, margin: nat, y: System, a: Action) {
    a.Start? && a.slot in y.store.rows && Begin(cfg, y.store, y.now, a.slot, a.endpoint, a.hash).1.Fresh? ==>
      y.now + margin <= y.store.rows[a.slot].expiresAt
  }

  function After(cfg: Config, run: seq<Action>): Option<System> {
    if run == [] then Some(INITIAL)
    else
      var before := After(cfg, run[..|run| - 1]);
      var a := run[|run| - 1];
      if before.Some? && Enabled(before.value, a) then Some(Step(cfg, before.value, a)) else None
  }

  predicate AllWithin(cfg: Config, limit: nat, run: seq<Action>) {
    run != [] && After(cfg, run).Some? ==>
      && AllWithin(cfg, limit, run[..|run| - 1])
      && HandlersWithin(limit, After(cfg, run[..|run| - 1]).value, run[|run| - 1])
  }

  predicate AllPurgesSpare(cfg: Config, run: seq<Action>) {
    run != [] && After(cfg, run).Some? ==>
      && AllPurgesSpare(cfg, run[..|run| - 1])
      && PurgeSparesRunning(After(cfg, run[..|run| - 1]).value, run[|run| - 1])
  }

  predicate AllTakeoversKeep(cfg: Config, margin: nat, run: seq<Action>) {
    run != [] && After(cfg, run).Some? ==>
      && AllTakeoversKeep(cfg, margin, run[..|run| - 1])
      && TakeoverKeeps(cfg, margin, After(cfg, run[..|run| - 1]).value, run[|run| - 1])
  }

  predicate Timely(cfg: Config, limit: nat, run: seq<Action>) {
    After(cfg, run).Some? && AllWithin(cfg, limit, run)
  }

  // ---- the plain map the protocol refines ----

  /** One observation against the map of answers: execute once, replay what is there, forget. */
  function SpecStep(m: map<Slot, Entry>, o: Observation): Option<map<Slot, Entry>> {
    match o
    case Executed(slot, entry) => if slot in m then None else Some(m[slot := entry])
    case Replayed(slot, entry) => if slot in m && m[slot] == entry then Some(m) else None
    case Purged(slots) => Some(m - slots)
  }

  function SpecRun(log: seq<Observation>): Option<map<Slot, Entry>> {
    if log == [] then Some(map[])
    else
      var m := SpecRun(log[..|log| - 1]);
      if m.Some? then SpecStep(m.value, log[|log| - 1]) else None
  }

  predicate Answered?(s: Store, slot: Slot) {
    slot in s.rows && s.rows[slot].status.Completed? && s.rows[slot].response.Some?
  }

  function Answers(s: Store): map<Slot, Entry> {
    map slot | slot in s.rows && Answered?(s, slot) ::
      Entry(s.rows[slot].endpoint, s.rows[slot].requestHash, s.rows[slot].response.value)
  }

  // ---- what timely runs keep ----

  predicate IsRunning(y: System, i: int) {
    0 <= i < |y.executions| && y.executions[i].progress.Running?
  }

  /** A running execution whose record is still there holds it, exactly as it began it. */
  predicate Owns(y: System, e: Execution) {
    HasRow(y.store, e.slot, e.pk) ==>
      var r := y.store.rows[e.slot];
      r.status.InProgress? && r.lockedAt == e.startedAt && r.endpoint == e.endpoint && r.requestHash == e.hash
  }

  ghost predicate RunningOwn(limit: nat, y: System) {
    forall i :: IsRunning(y, i) ==>
      Owns(y, y.executions[i]) && y.now - y.executions[i].startedAt <= limit && y.executions[i].pk < y.store.nextPk
  }

  /** No two running executions hold the same record. */
  ghost predicate OnePerRecord(y: System) {
    forall i, j :: i < j && IsRunning(y, i) && IsRunning(y, j) ==>
      y.executions[i].slot != y.executions[j].slot || y.executions[i].pk != y.executions[j].pk
  }

  /** At most one execution per (user, key) is live. */
  ghost predicate OneLive(y: System) {
    forall i, j :: i < j && IsRunning(y, i) && IsRunning(y, j) ==> y.executions[i].slot != y.executions[j].slot
  }

  predicate RowsOk(s: Store, now: int) {
    forall slot :: slot in s.rows ==>
      && s.rows[slot].pk < s.nextPk
      && s.rows[slot].lockedAt <= now
      && (s.rows[slot].status.Completed? ==> s.rows[slot].response.Some?)
  }

  ghost predicate Inv(limit: nat, y: System) {
    && RunningOwn(limit, y) && OnePerRecord(y) && RowsOk(y.store, y.now)
    && SpecRun(y.log) == Some(Answers(y.store))
  }

  lemma StepKeepsOwners(cfg: Config, limit: nat, y: System, a: Action)
    requires limit <= cfg.guard && Enabled(y, a) && HandlersWithin(limit, y, a)
    requires RunningOwn(limit, y) && OnePerRecord(y) && RowsOk(y.store, y.now)
    ensures RunningOwn(limit, Step(cfg, y, a))
  {
    var z := Step(cfg, y, a);
    forall i | IsRunning(z, i)
      ensures Owns(z, z.executions[i]) && z.now - z.executions[i].startedAt <= limit
      ensures z.executions[i].pk < z.store.nextPk
    {
      if i < |y.executions| {
        assert IsRunning(y, i);
        if a.Finish? {
          assert IsRunning(y, a.id);
        }
      }
    }
  }

  lemma StepKeepsOnePerRecord(cfg: Config, limit: nat, y: System, a: Action)
    requires limit <= cfg.guard && Enabled(y, a)
    requires RunningOwn(limit, y) && OnePerRecord(y) && RowsOk(y.store, y.now)
    ensures OnePerRecord(Step(cfg, y, a))
  {
    var z := Step(cfg, y, a);
    forall i, j | i < j && IsRunning(z, i) && IsRunning(z, j)
      ensures z.executions[i].slot != z.executions[j].slot || z.executions[i].pk != z.executions[j].pk
    {
      assert IsRunning(y, i);
      assert j < |y.executions| ==> IsRunning(y, j);
    }
  }

  lemma StepKeepsRows(cfg: Config, y: System, a: Action)
    requires RowsOk(y.store, y.now) && Enabled(y, a)
    ensures RowsOk(Step(cfg, y, a).store, Step(cfg, y, a).now)
  {
  }

  lemma BeginKeepsAnswers(cfg: Config, s: Store, now: int, slot: Slot, endpoint: string, hash: string)
    requires RowsOk(s, now)
    ensures
      var (s', outcome) := Begin(cfg, s, now, slot, endpoint, hash);
      && Answers(s') == Answers(s)
      && (outcome.Replay? ==>
            && outcome.record.response.Some?
            && slot in Answers(s)
            && Answers(s)[slot] == Entry(endpoint, hash, outcome.record.response.value))
  {
  }

  lemma FinishAnswers(s: Store, slot: Slot, pk: nat, response: Response)
    requires HasRow(s, slot, pk) && s.rows[slot].status.InProgress?
    ensures slot !in Answers(s)
    ensures Answers(Fail(s, slot, pk).value) == Answers(s)
    ensures Answers(Complete(s, slot, pk, response).value)
            == Answers(s)[slot := Entry(s.rows[slot].endpoint, s.rows[slot].requestHash, response)]
  {
  }

  lemma PurgeForgets(s: Store, now: int)
    ensures Answers(Purge(s, now)) == Answers(s) - Expired(s, now)
  {
  }

  /** Each step's observation is one the plain map allows, and leads to the new map of answers. */
  lemma StepRefines(cfg: Config, limit: nat, y: System, a: Action)
    requires RunningOwn(limit, y) && RowsOk(y.store, y.now) && Enabled(y, a)
    requires SpecRun(y.log) == Some(Answers(y.store))
    ensures SpecRun(Step(cfg, y, a).log) == Some(Answers(Step(cfg, y, a).store))
  {
    var z := Step(cfg, y, a);
    if z.log != y.log {
      assert z.log[..|z.log| - 1] == y.log;
    }
    match a
    case Tick(_) =>
    case Crash(_) =>
    case Start(slot, endpoint, hash) =>
      BeginKeepsAnswers(cfg, y.store, y.now, slot, endpoint, hash);
    case Finish(id, response) =>
      var e := y.executions[id];
      assert IsRunning(y, id);
      if HasRow(y.store, e.slot, e.pk) {
        FinishAnswers(y.store, e.slot, e.pk, response);
      }
    case PurgeAll =>
      PurgeForgets(y.store, y.now);
  }

  lemma {:induction false} RunKeepsInv(cfg: Config, limit: nat, run: seq<Action>)
    requires limit <= cfg.guard && Timely(cfg, limit, run)
    ensures Inv(limit, After(cfg, run).value)
  {
    if run == [] {
    } else {
      var y, a := After(cfg, run[..|run| - 1]).value, run[|run| - 1];
      RunKeepsInv(cfg, limit, run[..|run| - 1]);
      StepKeepsOwners(cfg, limit, y, a);
      StepKeepsOnePerRecord(cfg, limit, y, a);
      StepKeepsRows(cfg, y, a);
      StepRefines(cfg, limit, y, a);
    }
  }

  // ---- refinement ----

  /**
   Everything observed in a run whose handlers end within the guard is a run of the plain map from
   (user, key) to its answer, however purges and crashes fall.
   */
  lemma RefinesPlainMap(cfg: Config, run: seq<Action>)
    requires Timely(cfg, cfg.guard, run)
    ensures SpecRun(After(cfg, run).value.log) == Some(Answers(After(cfg, run).value.store))
  {
    RunKeepsInv(cfg, cfg.guard, run);
  }

  predicate Touches(o: Observation, slot: Slot) {
    (o.Executed? && o.slot == slot) || (o.Purged? && slot in o.slots)
  }

  /** The plain map holds, for each key, the last execution that no purge has removed. */
  lemma {:induction false} SpecRemembersLast(log: seq<Observation>, slot: Slot) returns (i: nat)
    requires SpecRun(log).Some? && slot in SpecRun(log).value
    ensures i < |log| && log[i] == Executed(slot, SpecRun(log).value[slot])
    ensures forall k :: i < k < |log| ==> !Touches(log[k], slot)
  {
    var last := log[|log| - 1];
    if last.Executed? && last.slot == slot {
      i := |log| - 1;
    } else {
      i := SpecRemembersLast(log[..|log| - 1], slot);
    }
  }

  lemma {:induction false} SpecPrefix(log: seq<Observation>, n: nat)
    requires SpecRun(log).Some? && n <= |log|
    ensures SpecRun(log[..n]).Some?
  {
    if n == |log| {
      assert log[..n] == log;
    } else {
      SpecPrefix(log[..|log| - 1], n);
      assert log[..|log| - 1][..n] == log[..n];
    }
  }

  lemma SpecReplay(log: seq<Observation>, j: nat) returns (i: nat)
    requires SpecRun(log).Some? && j < |log| && log[j].Replayed?
    ensures i < j && log[i] == Executed(log[j].slot, log[j].entry)
    ensures forall k :: i < k < j ==> !Touches(log[k], log[j].slot)
  {
    SpecPrefix(log, j + 1);
    assert log[..j + 1][..j] == log[..j];
    i := SpecRemembersLast(log[..j], log[j].slot);
  }

  /** A replay repeats status, body and headers of an execution with its own key, endpoint and hash. */
  lemma ReplaySoundness(cfg: Config, run: seq<Action>, j: nat) returns (i: nat)
    requires Timely(cfg, cfg.guard, run)
    requires j < |After(cfg, run).value.log| && After(cfg, run).value.log[j].Replayed?
    ensures
      var log := After(cfg, run).value.log;
      && i < j
      && log[i] == Executed(log[j].slot, log[j].entry)
      && forall k :: i < k < j ==> !Touches(log[k], log[j].slot)
  {
    RefinesPlainMap(cfg, run);
    i := SpecReplay(After(cfg, run).value.log, j);
  }

  /** Between two completed executions of one key lies a purge of its record. */
  lemma ExecutedOnceUntilPurged(cfg: Config, run: seq<Action>, i: nat, j: nat)
    requires Timely(cfg, cfg.guard, run)
    requires i < j < |After(cfg, run).value.log|
    requires var log := After(cfg, run).value.log;
             log[i].Executed? && log[j].Executed? && log[i].slot == log[j].slot
    ensures
      var log := After(cfg, run).value.log;
      exists k :: i < k < j && log[k].Purged? && log[i].slot in log[k].slots
  {
    var log := After(cfg, run).value.log;
    RefinesPlainMap(cfg, run);
    SpecPrefix(log, j + 1);
    assert log[..j + 1][..j] == log[..j];
    SpecPrefix(log, i + 1);
    assert log[..i + 1][..i] == log[..i];
    StaysUntilPurged(log[..j], i);
  }

  lemma {:induction false} StaysUntilPurged(log: seq<Observation>, i: nat)
    requires i < |log| && log[i].Executed? && SpecRun(log).Some?
    requires log[i].slot !in SpecRun(log).value
    ensures exists k :: i < k < |log| && log[k].Purged? && log[i].slot in log[k].slots
  {
    var last := log[|log| - 1];
    if !(last.Purged? && log[i].slot in last.slots) {
      assert i < |log| - 1;
      StaysUntilPurged(log[..|log| - 1], i);
    }
  }

  /** The record as it was, and no execution of its key since. */
  predicate AnswerKept(y: System, z: System, slot: Slot)
    requires slot in y.store.rows
  {
    && slot in z.store.rows && z.store.rows[slot] == y.store.rows[slot]
    && forall k :: |y.executions| <= k < |z.executions| ==> z.executions[k].slot != slot
  }

  predicate PurgedSince(y: System, z: System, slot: Slot) {
    exists k :: |y.log| <= k < |z.log| && z.log[k].Purged? && slot in z.log[k].slots
  }

  /** The record is gone, or another one was inserted after it went. */
  predicate RecordLost(y: System, z: System, slot: Slot) {
    slot in z.store.rows ==> z.store.rows[slot].pk >= y.store.nextPk
  }

  lemma StepKeepsAnswer(cfg: Config, limit: nat, y: System, z: System, a: Action, slot: Slot)
    requires RunningOwn(limit, z) && Enabled(z, a)
    requires slot in y.store.rows && Answered?(y.store, slot)
    requires |y.executions| <= |z.executions| && AnswerKept(y, z, slot)
    requires !(a.PurgeAll? && slot in Expired(z.store, z.now))
    ensures AnswerKept(y, Step(cfg, z, a), slot)
  {
    if a.Finish? {
      assert IsRunning(z, a.id) && Owns(z, z.executions[a.id]);
    }
  }

  lemma StepKeepsLost(cfg: Config, y: System, z: System, a: Action, slot: Slot)
    requires Enabled(z, a) && y.store.nextPk <= z.store.nextPk && RecordLost(y, z, slot)
    ensures RecordLost(y, Step(cfg, z, a), slot)
  {
  }

  lemma StepGrows(cfg: Config, z: System, a: Action)
    requires Enabled(z, a)
    ensures
      var x := Step(cfg, z, a);
      && |z.executions| <= |x.executions| && z.store.nextPk <= x.store.nextPk
      && (x.log == z.log || (|x.log| == |z.log| + 1 && x.log[..|z.log|] == z.log))
      && (a.PurgeAll? ==> x.log == z.log + [Purged(Expired(z.store, z.now))])
      && (!a.PurgeAll? && x.log != z.log ==> !x.log[|z.log|].Purged?)
  {
  }

  /**
   Once a key is answered, its record changes, and another execution of it starts, only after a
   purge that removed this record: purges that spare it leave it final.
   */
  lemma {:induction false} AnswerIsFinal(cfg: Config, run: seq<Action>, more: seq<Action>, slot: Slot)
    requires Timely(cfg, cfg.guard, run + more)
    requires After(cfg, run).Some? && Answered?(After(cfg, run).value.store, slot)
    ensures
      var y, z := After(cfg, run).value, After(cfg, run + more).value;
      && y.log <= z.log && |y.executions| <= |z.executions| && y.store.nextPk <= z.store.nextPk
      && (AnswerKept(y, z, slot) <==> !PurgedSince(y, z, slot))
      && (RecordLost(y, z, slot) <==> PurgedSince(y, z, slot))
  {
    var y := After(cfg, run).value;
    RunKeepsRows(cfg, run);
    if more == [] {
      assert run + more == run;
    } else {
      var shorter, a := more[..|more| - 1], more[|more| - 1];
      assert (run + more)[..|run + more| - 1] == run + shorter;
      AnswerIsFinal(cfg, run, shorter, slot);
      var z := After(cfg, run + shorter).value;
      RunKeepsInv(cfg, cfg.guard, run + shorter);
      AnswerStep(cfg, y, z, a, slot);
    }
  }

  lemma AnswerStep(cfg: Config, y: System, z: System, a: Action, slot: Slot)
    requires Answered?(y.store, slot) && y.store.rows[slot].pk < y.store.nextPk
    requires RunningOwn(cfg.guard, z) && Enabled(z, a)
    requires y.log <= z.log && |y.executions| <= |z.executions| && y.store.nextPk <= z.store.nextPk
    requires AnswerKept(y, z, slot) <==> !PurgedSince(y, z, slot)
    requires RecordLost(y, z, slot) <==> PurgedSince(y, z, slot)
    ensures
      var x := Step(cfg, z, a);
      && y.log <= x.log && |y.executions| <= |x.executions| && y.store.nextPk <= x.store.nextPk
      && (AnswerKept(y, x, slot) <==> !PurgedSince(y, x, slot))
      && (RecordLost(y, x, slot) <==> PurgedSince(y, x, slot))
  {
    var x := Step(cfg, z, a);
    StepGrows(cfg, z, a);
    if PurgedSince(y, z, slot) {
      var k :| |y.log| <= k < |z.log| && z.log[k].Purged? && slot in z.log[k].slots;
      assert x.log[k] == z.log[k];
      StepKeepsLost(cfg, y, z, a, slot);
    } else if a.PurgeAll? && slot in Expired(z.store, z.now) {
      assert x.log[|z.log|].Purged? && slot in x.log[|z.log|].slots;
    } else {
      StepKeepsAnswer(cfg, cfg.guard, y, z, a, slot);
      assert forall k :: |y.log| <= k < |z.log| ==> x.log[k] == z.log[k];
    }
  }

  /** In any run, timely or not, a record keeps its endpoint for as long as it exists. */
  lemma {:induction false} EndpointNeverChanges(cfg: Config, run: seq<Action>, more: seq<Action>, slot: Slot)
    requires After(cfg, run).Some? && After(cfg, run + more).Some?
    requires slot in After(cfg, run).value.store.rows && slot in After(cfg, run + more).value.store.rows
    requires After(cfg, run).value.store.rows[slot].pk == After(cfg, run + more).value.store.rows[slot].pk
    ensures After(cfg, run).value.store.rows[slot].endpoint == After(cfg, run + more).value.store.rows[slot].endpoint
    ensures After(cfg, run).value.store.nextPk <= After(cfg, run + more).value.store.nextPk
  {
    KeptRecord(cfg, run, more, slot);
  }

  lemma {:induction false} KeptRecord(cfg: Config, run: seq<Action>, more: seq<Action>, slot: Slot)
    requires After(cfg, run).Some? && After(cfg, run + more).Some?
    requires slot in After(cfg, run).value.store.rows
    ensures
      var s, t := After(cfg, run).value.store, After(cfg, run + more).value.store;
      && s.rows[slot].pk < s.nextPk <= t.nextPk
      && (slot in t.rows ==>
            t.rows[slot].pk < t.nextPk &&
            (t.rows[slot].pk >= s.nextPk
             || (t.rows[slot].pk == s.rows[slot].pk && t.rows[slot].endpoint == s.rows[slot].endpoint)))
  {
    if more == [] {
      assert run + more == run;
      RunKeepsRows(cfg, run);
    } else {
      var shorter := more[..|more| - 1];
      assert (run + more)[..|run + more| - 1] == run + shorter;
      KeptRecord(cfg, run, shorter, slot);
    }
  }

  lemma {:induction false} RunKeepsRows(cfg: Config, run: seq<Action>)
    requires After(cfg, run).Some?
    ensures RowsOk(After(cfg, run).value.store, After(cfg, run).value.now)
  {
    if run == [] {
    } else {
      RunKeepsRows(cfg, run[..|run| - 1]);
      StepKeepsRows(cfg, After(cfg, run[..|run| - 1]).value, run[|run| - 1]);
    }
  }

  /** After a pause longer than the guard no key is stuck: its own request starts or is replayed. */
  lemma {:induction false} NoKeyIsStuck(cfg: Config, run: seq<Action>, pause: nat, slot: Slot, endpoint: string, hash: string)
    requires After(cfg, run).Some? && pause > cfg.guard
    requires var s := After(cfg, run).value.store;
             slot in s.rows ==> s.rows[slot].endpoint == endpoint && s.rows[slot].requestHash == hash
    ensures
      var y := After(cfg, run).value;
      var outcome := Begin(cfg, y.store, y.now + pause, slot, endpoint, hash).1;
      outcome.Fresh? || outcome.Replay?
  {
    RunKeepsRows(cfg, run);
  }

  // ---- at most one live execution ----

  ghost predicate RunningHaveRecord(y: System) {
    forall i :: IsRunning(y, i) ==> HasRow(y.store, y.executions[i].slot, y.executions[i].pk)
  }

  lemma StepKeepsRecords(cfg: Config, y: System, a: Action)
    requires RunningHaveRecord(y) && Enabled(y, a) && PurgeSparesRunning(y, a)
    ensures RunningHaveRecord(Step(cfg, y, a))
  {
    var z := Step(cfg, y, a);
    forall i | IsRunning(z, i)
      ensures HasRow(z.store, z.executions[i].slot, z.executions[i].pk)
    {
      assert i < |y.executions| ==> IsRunning(y, i);
    }
  }

  lemma {:induction false} RunKeepsRecords(cfg: Config, run: seq<Action>)
    requires After(cfg, run).Some? && AllPurgesSpare(cfg, run)
    ensures RunningHaveRecord(After(cfg, run).value)
  {
    if run == [] {
    } else {
      RunKeepsRecords(cfg, run[..|run| - 1]);
      StepKeepsRecords(cfg, After(cfg, run[..|run| - 1]).value, run[|run| - 1]);
    }
  }

  /** With handlers within the guard and purges that spare running ones, no key runs twice at once. */
  lemma AtMostOneLive(cfg: Config, limit: nat, run: seq<Action>)
    requires limit <= cfg.guard && Timely(cfg, limit, run) && AllPurgesSpare(cfg, run)
    ensures OneLive(After(cfg, run).value)
  {
    var y := After(cfg, run).value;
    RunKeepsInv(cfg, limit, run);
    RunKeepsRecords(cfg, run);
    forall i, j | i < j && IsRunning(y, i) && IsRunning(y, j)
      ensures y.executions[i].slot != y.executions[j].slot
    {
      assert HasRow(y.store, y.executions[i].slot, y.executions[i].pk);
      assert HasRow(y.store, y.executions[j].slot, y.executions[j].pk);
    }
  }

  // ---- the takeover rule ----

  /** What the rule buys: a running execution's record is its own and outlives it. */
  predicate Outlived(limit: nat, y: System, e: Execution) {
    && HasRow(y.store, e.slot, e.pk)
    && y.now - e.startedAt <= limit
    && var r := y.store.rows[e.slot];
       r.status.InProgress? && r.lockedAt == e.startedAt && e.startedAt + limit <= r.expiresAt
  }

  predicate SpansOk(cfg: Config, y: System) {
    forall slot :: slot in y.store.rows ==>
      y.store.rows[slot].lockedAt <= y.now && y.store.rows[slot].expiresAt <= y.store.rows[slot].lockedAt + cfg.retention
  }

  ghost predicate Protected(cfg: Config, limit: nat, y: System) {
    && OneLive(y) && SpansOk(cfg, y)
    && forall i :: IsRunning(y, i) ==> Outlived(limit, y, y.executions[i])
  }

  /** Handlers shorter than the retention, than the margin and than the guard, as far as each can matter. */
  predicate Suffices(cfg: Config, limit: nat, margin: nat) {
    && limit <= cfg.retention
    && (margin <= cfg.retention ==> limit <= margin)
    && (cfg.guard + 1 + margin <= cfg.retention ==> limit <= cfg.guard)
  }

  lemma StepKeepsSpans(cfg: Config, y: System, a: Action)
    requires SpansOk(cfg, y) && Enabled(y, a)
    ensures SpansOk(cfg, Step(cfg, y, a))
  {
  }

  lemma ProtectedSparesRunning(cfg: Config, limit: nat, y: System, a: Action)
    requires Protected(cfg, limit, y)
    ensures PurgeSparesRunning(y, a)
  {
    forall i | IsRunning(y, i)
      ensures y.executions[i].slot !in Expired(y.store, y.now)
    {
      assert Outlived(limit, y, y.executions[i]);
    }
  }

  /** No running execution's record can be taken over under the rule. */
  lemma NoTakeoverUnderRunning(cfg: Config, limit: nat, margin: nat, y: System, a: Action, i: nat)
    requires Suffices(cfg, limit, margin) && Protected(cfg, limit, y) && TakeoverKeeps(cfg, margin, y, a)
    requires a.Start? && IsRunning(y, i) && y.executions[i].slot == a.slot
    ensures Step(cfg, y, a) == y
  {
    assert Outlived(limit, y, y.executions[i]);
  }

  lemma StepKeepsOutlived(cfg: Config, limit: nat, margin: nat, y: System, a: Action, i: nat)
    requires Suffices(cfg, limit, margin) && Protected(cfg, limit, y) && Enabled(y, a)
    requires HandlersWithin(limit, y, a) && TakeoverKeeps(cfg, margin, y, a)
    requires IsRunning(Step(cfg, y, a), i)
    ensures Outlived(limit, Step(cfg, y, a), Step(cfg, y, a).executions[i])
  {
    if i < |y.executions| {
      assert IsRunning(y, i) && Outlived(limit, y, y.executions[i]);
      if a.Start? && y.executions[i].slot == a.slot {
        NoTakeoverUnderRunning(cfg, limit, margin, y, a, i);
      }
      if a.Finish? {
        assert IsRunning(y, a.id);
      }
    }
  }

  lemma StepKeepsProtected(cfg: Config, limit: nat, margin: nat, y: System, a: Action)
    requires Suffices(cfg, limit, margin) && Protected(cfg, limit, y) && Enabled(y, a)
    requires HandlersWithin(limit, y, a) && TakeoverKeeps(cfg, margin, y, a)
    ensures Protected(cfg, limit, Step(cfg, y, a))
  {
    var z := Step(cfg, y, a);
    StepKeepsSpans(cfg, y, a);
    forall i | IsRunning(z, i)
      ensures Outlived(limit, z, z.executions[i])
    {
      StepKeepsOutlived(cfg, limit, margin, y, a, i);
    }
    forall i, j | i < j && IsRunning(z, i) && IsRunning(z, j)
      ensures z.executions[i].slot != z.executions[j].slot
    {
      assert IsRunning(y, i);
      if j < |y.executions| {
        assert IsRunning(y, j);
      } else if y.executions[i].slot == a.slot {
        NoTakeoverUnderRunning(cfg, limit, margin, y, a, i);
      }
    }
  }

  /** Under the rule purges spare running handlers by themselves. */
  lemma {:induction false} TakeoverRuleProtects(cfg: Config, limit: nat, margin: nat, run: seq<Action>)
    requires Suffices(cfg, limit, margin) && Timely(cfg, limit, run) && AllTakeoversKeep(cfg, margin, run)
    ensures Protected(cfg, limit, After(cfg, run).value) && AllPurgesSpare(cfg, run)
  {
    if run == [] {
    } else {
      var y, a := After(cfg, run[..|run| - 1]).value, run[|run| - 1];
      TakeoverRuleProtects(cfg, limit, margin, run[..|run| - 1]);
      ProtectedSparesRunning(cfg, limit, y, a);
      StepKeepsProtected(cfg, limit, margin, y, a);
    }
  }

  // ---- exact conditions ----

  lemma AfterOneMore(cfg: Config, run: seq<Action>, a: Action)
    requires After(cfg, run).Some? && Enabled(After(cfg, run).value, a)
    ensures After(cfg, run + [a]) == Some(Step(cfg, After(cfg, run).value, a))
  {
    assert (run + [a])[..|run + [a]| - 1] == run;
  }

  lemma Extend(cfg: Config, limit: nat, margin: nat, run: seq<Action>, a: Action)
    requires After(cfg, run).Some? && Enabled(After(cfg, run).value, a)
    ensures After(cfg, run + [a]) == Some(Step(cfg, After(cfg, run).value, a))
    ensures AllWithin(cfg, limit, run + [a]) <==>
              AllWithin(cfg, limit, run) && HandlersWithin(limit, After(cfg, run).value, a)
    ensures AllPurgesSpare(cfg, run + [a]) <==>
              AllPurgesSpare(cfg, run) && PurgeSparesRunning(After(cfg, run).value, a)
    ensures AllTakeoversKeep(cfg, margin, run + [a]) <==>
              AllTakeoversKeep(cfg, margin, run) && TakeoverKeeps(cfg, margin, After(cfg, run).value, a)
  {
    assert (run + [a])[..|run + [a]| - 1] == run;
  }

  const SLOT := Slot(0, "key")
  const OK_RESPONSE := Response(200, "", map[])
  const ERROR_RESPONSE := Response(503, "", map[])

  /** One execution of a key, started at the beginning. */
  lemma Begun(cfg: Config, limit: nat, margin: nat) returns (run: seq<Action>)
    ensures Timely(cfg, limit, run) && AllPurgesSpare(cfg, run) && AllTakeoversKeep(cfg, margin, run)
    ensures After(cfg, run).value ==
              System(Store(map[SLOT := Inserted(cfg, 0, 0, "/pay", "first")], 1), 0,
                     [Execution(SLOT, 0, "/pay", "first", 0, Running)], [])
  {
    Extend(cfg, limit, margin, [], Start(SLOT, "/pay", "first"));
    run := [] + [Start(SLOT, "/pay", "first")];
  }

  /** A handler one tick slower than the guard: its retry, with another body, runs beside it. */
  lemma SlowHandlerOverlaps(cfg: Config, limit: nat, margin: nat) returns (run: seq<Action>)
    requires limit > cfg.guard
    ensures Timely(cfg, limit, run) && AllPurgesSpare(cfg, run) && !OneLive(After(cfg, run).value)
    ensures cfg.guard + 1 + margin <= cfg.retention ==> AllTakeoversKeep(cfg, margin, run)
    ensures
      var y := After(cfg, run).value;
      && y.log == [] && |y.executions| == 2 && IsRunning(y, 0) && IsRunning(y, 1)
      && y.executions[0] == Execution(SLOT, 0, "/pay", "first", 0, Running)
      && y.now == cfg.guard + 1
      && SLOT in y.store.rows
      && y.store.rows[SLOT] ==
           Inserted(cfg, 0, 0, "/pay", "first").(lockedAt := cfg.guard + 1, requestHash := "second")
  {
    run := Begun(cfg, limit, margin);
    Extend(cfg, limit, margin, run, Tick(cfg.guard + 1));
    run := run + [Tick(cfg.guard + 1)];
    Extend(cfg, limit, margin, run, Start(SLOT, "/pay", "second"));
    run := run + [Start(SLOT, "/pay", "second")];
    var y := After(cfg, run).value;
    assert IsRunning(y, 0) && IsRunning(y, 1) && y.executions[0].slot == y.executions[1].slot;
  }

  /** Its answer is then stored under the retry's body and replayed to it. */
  lemma SlowHandlerLeaks(cfg: Config, limit: nat) returns (run: seq<Action>)
    requires limit > cfg.guard
    ensures Timely(cfg, limit, run) && AllPurgesSpare(cfg, run)
    ensures After(cfg, run).value.log ==
              [Executed(SLOT, Entry("/pay", "first", OK_RESPONSE)), Replayed(SLOT, Entry("/pay", "second", OK_RESPONSE))]
    ensures SpecRun(After(cfg, run).value.log).None?
  {
    run := SlowHandlerOverlaps(cfg, limit, 0);
    Extend(cfg, limit, 0, run, Finish(0, OK_RESPONSE));
    run := run + [Finish(0, OK_RESPONSE)];
    Extend(cfg, limit, 0, run, Start(SLOT, "/pay", "second"));
    run := run + [Start(SLOT, "/pay", "second")];
    var log := After(cfg, run).value.log;
    assert log[..1] == [Executed(SLOT, Entry("/pay", "first", OK_RESPONSE))] && log[..1][..0] == [];
    assert SpecRun(log[..1]) == Some(map[SLOT := Entry("/pay", "first", OK_RESPONSE)]);
  }

  /** A purge under a retry that took its record over too near the expiry, or after it. */
  lemma LateTakeoverOverlaps(cfg: Config, limit: nat, margin: nat, wait: nat, work: nat) returns (run: seq<Action>)
    requires wait + work > cfg.retention && work <= limit
    ensures Timely(cfg, limit, run) && !OneLive(After(cfg, run).value)
    ensures wait + margin <= cfg.retention ==> AllTakeoversKeep(cfg, margin, run)
  {
    run := Begun(cfg, limit, margin);
    Extend(cfg, limit, margin, run, Finish(0, ERROR_RESPONSE));
    run := run + [Finish(0, ERROR_RESPONSE)];
    Extend(cfg, limit, margin, run, Tick(wait));
    run := run + [Tick(wait)];
    Extend(cfg, limit, margin, run, Start(SLOT, "/pay", "first"));
    run := run + [Start(SLOT, "/pay", "first")];
    run := PurgedAndBegunAgain(cfg, limit, margin, run, 1, work);
  }

  /** The record of a running execution expires, is purged, and its key starts anew. */
  lemma PurgedAndBegunAgain(cfg: Config, limit: nat, margin: nat, before: seq<Action>, i: nat, work: nat)
    returns (run: seq<Action>)
    requires Timely(cfg, limit, before) && work <= limit
    requires
      var y := After(cfg, before).value;
      && IsRunning(y, i) && y.executions[i].slot == SLOT && y.executions[i].startedAt == y.now
      && (forall k :: IsRunning(y, k) ==> k == i)
      && SLOT in y.store.rows && y.store.rows[SLOT].expiresAt < y.now + work
    ensures Timely(cfg, limit, run) && !OneLive(After(cfg, run).value)
    ensures AllTakeoversKeep(cfg, margin, before) ==> AllTakeoversKeep(cfg, margin, run)
  {
    var y0 := After(cfg, before).value;
    assert HandlersWithin(limit, y0, Tick(work)) by {
      assert forall k :: 0 <= k < |y0.executions| && y0.executions[k].progress.Running? ==> IsRunning(y0, k);
    }
    Extend(cfg, limit, margin, before, Tick(work));
    run := before + [Tick(work)];
    Extend(cfg, limit, margin, run, PurgeAll);
    run := run + [PurgeAll];
    Extend(cfg, limit, margin, run, Start(SLOT, "/pay", "first"));
    run := run + [Start(SLOT, "/pay", "first")];
    var y := After(cfg, run).value;
    assert IsRunning(y, i) && IsRunning(y, |y.executions| - 1) && y.executions[i].slot == y.executions[|y.executions| - 1].slot;
  }

  /** The protocol refines the plain map, over all runs of handlers within a limit, iff the guard is no shorter. */
  lemma RefinementExactly(cfg: Config, limit: nat)
    ensures (forall run :: Timely(cfg, limit, run) ==>
               SpecRun(After(cfg, run).value.log) == Some(Answers(After(cfg, run).value.store)))
            <==> limit <= cfg.guard
  {
    if limit <= cfg.guard {
      forall run | Timely(cfg, limit, run)
        ensures SpecRun(After(cfg, run).value.log) == Some(Answers(After(cfg, run).value.store))
      {
        RunKeepsInv(cfg, limit, run);
      }
    } else {
      var run := SlowHandlerLeaks(cfg, limit);
    }
  }

  /** Where purges spare running handlers, no key ever runs twice at once iff the guard is no shorter. */
  lemma AtMostOneLiveExactly(cfg: Config, limit: nat)
    ensures (forall run :: Timely(cfg, limit, run) && AllPurgesSpare(cfg, run) ==> OneLive(After(cfg, run).value))
            <==> limit <= cfg.guard
  {
    if limit <= cfg.guard {
      forall run | Timely(cfg, limit, run) && AllPurgesSpare(cfg, run)
        ensures OneLive(After(cfg, run).value)
      {
        AtMostOneLive(cfg, limit, run);
      }
    } else {
      var run := SlowHandlerOverlaps(cfg, limit, 0);
    }
  }

  /**
   With purges at any time and a takeover rule instead, no key ever runs twice at once iff the
   handlers' limit is within the retention, within the margin, and within the guard, the last two
   as far as takeovers, or takeovers of orphans, are possible at all.
   */
  lemma TakeoverRuleExactly(cfg: Config, limit: nat, margin: nat)
    ensures (forall run :: Timely(cfg, limit, run) && AllTakeoversKeep(cfg, margin, run) ==> OneLive(After(cfg, run).value))
            <==> Suffices(cfg, limit, margin)
  {
    if Suffices(cfg, limit, margin) {
      forall run | Timely(cfg, limit, run) && AllTakeoversKeep(cfg, margin, run)
        ensures OneLive(After(cfg, run).value)
      {
        TakeoverRuleProtects(cfg, limit, margin, run);
      }
    } else if limit > cfg.retention {
      var run := Begun(cfg, limit, margin);
      run := PurgedAndBegunAgain(cfg, limit, margin, run, 0, limit);
    } else if margin <= cfg.retention && limit > margin {
      var run := LateTakeoverOverlaps(cfg, limit, margin, cfg.retention - margin, limit);
    } else {
      var run := SlowHandlerOverlaps(cfg, limit, margin);
    }
  }

  /** The service keeps no such rule, so no limit, however short, excludes a second execution. */
  lemma NoLimitSuffices(cfg: Config, limit: nat) returns (run: seq<Action>)
    ensures Timely(cfg, limit, run) && !OneLive(After(cfg, run).value)
  {
    run := LateTakeoverOverlaps(cfg, limit, 0, cfg.retention + 1, 0);
  }
}
