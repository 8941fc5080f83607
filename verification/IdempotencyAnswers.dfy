/** What each answer of `begin` says about the executions of its key, over every run. */
module IdempotencyAnswers {
  import opened Prelude
  import opened IdempotencyStore
  import opened IdempotencyProtocol

  /** Begun and never answered: the handler still runs, or crashed. */
  predicate Unanswered(e: Execution) {
    e.progress.Running? || e.progress.Crashed?
  }

  predicate Holds(e: Execution, slot: Slot, r: Record) {
    && e.slot == slot && e.pk == r.pk && e.startedAt == r.lockedAt && e.endpoint == r.endpoint && e.hash == r.requestHash
    && Unanswered(e)
  }

  /** Every row in progress was last taken by an execution that has not answered. */
  ghost predicate RowsHeld(y: System) {
    forall slot :: slot in y.store.rows && y.store.rows[slot].status.InProgress? ==>
      exists i :: 0 <= i < |y.executions| && Holds(y.executions[i], slot, y.store.rows[slot])
  }

  lemma StepKeepsHeld(cfg: Config, y: System, a: Action)
    requires RowsHeld(y) && Enabled(y, a)
    ensures RowsHeld(Step(cfg, y, a))
  {
    var z := Step(cfg, y, a);
    forall slot | slot in z.store.rows && z.store.rows[slot].status.InProgress?
      ensures exists i :: 0 <= i < |z.executions| && Holds(z.executions[i], slot, z.store.rows[slot])
    {
      if slot in y.store.rows && z.store.rows[slot] == y.store.rows[slot] {
        var i :| 0 <= i < |y.executions| && Holds(y.executions[i], slot, y.store.rows[slot]);
        assert Holds(z.executions[i], slot, z.store.rows[slot]);
      } else {
        assert Holds(z.executions[|y.executions|], slot, z.store.rows[slot]);
      }
    }
  }

  lemma {:induction false} RunKeepsHeld(cfg: Config, run: seq<Action>)
    requires After(cfg, run).Some?
    ensures RowsHeld(After(cfg, run).value)
  {
    if run == [] {
    } else {
      RunKeepsHeld(cfg, run[..|run| - 1]);
      StepKeepsHeld(cfg, After(cfg, run[..|run| - 1]).value, run[|run| - 1]);
    }
  }

  /** In any run, "in progress" is answered only for an execution begun at most the guard ago and never answered. */
  lemma ConflictMeansUnanswered(cfg: Config, run: seq<Action>, slot: Slot, endpoint: string, hash: string)
    requires After(cfg, run).Some?
    requires
      var y := After(cfg, run).value;
      Begin(cfg, y.store, y.now, slot, endpoint, hash).1.StillRunning?
    ensures
      var y := After(cfg, run).value;
      exists i ::
        && 0 <= i < |y.executions| && y.executions[i].slot == slot && y.executions[i].endpoint == endpoint
        && Unanswered(y.executions[i]) && y.now <= y.executions[i].startedAt + cfg.guard
  {
    RunKeepsHeld(cfg, run);
  }

  /** While a handler runs, every request with its key is refused, whatever its body. */
  lemma RefusedWhileRunning(cfg: Config, run: seq<Action>, i: nat, endpoint: string, hash: string)
    requires Timely(cfg, cfg.guard, run) && AllPurgesSpare(cfg, run) && IsRunning(After(cfg, run).value, i)
    ensures
      var y := After(cfg, run).value;
      var e := y.executions[i];
      Begin(cfg, y.store, y.now, e.slot, endpoint, hash) ==
        (y.store, if endpoint == e.endpoint then StillRunning else OtherEndpoint)
  {
    RunKeepsInv(cfg, cfg.guard, run);
    RunKeepsRecords(cfg, run);
    var y := After(cfg, run).value;
    assert Owns(y, y.executions[i]);
  }

  /**
   With handlers in time, the log alone decides between replay and refusal: a key that was answered
   and not purged since is replayed to the same endpoint and hash, and refused to any other.
   */
  lemma LogDecidesReplay(cfg: Config, run: seq<Action>, slot: Slot, endpoint: string, hash: string)
    requires Timely(cfg, cfg.guard, run)
    ensures
      var y := After(cfg, run).value;
      var answered := SpecRun(y.log);
      var outcome := Begin(cfg, y.store, y.now, slot, endpoint, hash).1;
      && answered.Some?
      && (outcome.Replay? <==>
            && slot in answered.value
            && answered.value[slot].endpoint == endpoint && answered.value[slot].hash == hash)
      && (outcome.OtherRequest? <==>
            && slot in answered.value
            && answered.value[slot].endpoint == endpoint && answered.value[slot].hash != hash)
      && (slot in answered.value && answered.value[slot].endpoint != endpoint ==> outcome.OtherEndpoint?)
  {
    RunKeepsInv(cfg, cfg.guard, run);
  }
}
