/**
 The idempotency service as it writes its table. Its history is the run of the protocol that its
 calls make up, so what the protocol's runs guarantee holds of each call.
 */
module IdempotencyDesk {
  import opened Prelude
  import opened IdempotencyStore
  import opened IdempotencyProtocol

  class IdempotencyService {
    const cfg: Config
    var rows: map<Slot, Record>
    var nextPk: nat
    ghost var history: seq<Action>

    ghost function View(): Store
      reads this
    {
      Store(rows, nextPk)
    }

    ghost predicate Valid()
      reads this
    {
      && After(cfg, history).Some?
      && After(cfg, history).value.store == View()
      && RowsOk(View(), After(cfg, history).value.now)
    }

    /** The protocol's state after the calls so far. */
    ghost function Seen(): System
      requires Valid()
      reads this
    {
      After(cfg, history).value
    }

    constructor (cfg: Config)
      ensures Valid() && this.cfg == cfg && history == []
    {
      this.cfg := cfg;
      rows := map[];
      nextPk := 0;
      history := [];
    }

    /** The insert is the lock: `false` stands for the violated unique constraint. */
    method TryInsert(slot: Slot, r: Record) returns (inserted: bool)
      modifies this`rows, this`nextPk
      ensures inserted <==> slot !in old(rows)
      ensures inserted ==> rows == old(rows)[slot := r] && nextPk == old(nextPk) + 1
      ensures !inserted ==> View() == old(View())
    {
      inserted := slot !in rows;
      if inserted {
        rows := rows[slot := r];
        nextPk := nextPk + 1;
      }
    }

    method Take(now: int, slot: Slot, hash: string) returns (outcome: BeginResult)
      requires slot in rows
      modifies this`rows
      ensures rows == old(rows)[slot := old(rows)[slot].(status := InProgress, lockedAt := now, requestHash := hash)]
      ensures outcome == Fresh(rows[slot])
    {
      var record := rows[slot];
      record := record.(status := InProgress);
      record := record.(lockedAt := now);
      record := record.(requestHash := hash);
      rows := rows[slot := record];
      return Fresh(record);
    }

    method Decide(now: int, slot: Slot, endpoint: string, hash: string) returns (outcome: BeginResult)
      modifies this`rows, this`nextPk
      ensures (View(), outcome) == Begin(cfg, old(View()), now, slot, endpoint, hash)
    {
      var record := Inserted(cfg, nextPk, now, endpoint, hash);
      var inserted := TryInsert(slot, record);
      if inserted {
        return Fresh(record);
      }

      record := rows[slot];
      if record.endpoint != endpoint {
        return OtherEndpoint;
      }
      if record.status == Completed {
        return if record.requestHash != hash then OtherRequest else Replay(record);
      }
      if record.status == InProgress && !Orphaned(cfg, record, now) {
        return StillRunning;
      }
      outcome := Take(now, slot, hash);
    }

    /** Records a call in the history: the time since the last one, then the step itself. */
    ghost method Note(now: int, a: Action)
      requires After(cfg, history).Some? && After(cfg, history).value.now <= now
      requires Enabled(After(cfg, history).value, a) && !a.Tick?
      modifies this`history
      ensures
        var y := After(cfg, old(history)).value;
        && history == old(history) + [Tick(now - y.now), a]
        && After(cfg, history) == Some(Step(cfg, y.(now := now), a))
    {
      var y := After(cfg, history).value;
      var tick := Tick(now - y.now);
      AfterOneMore(cfg, history, tick);
      AfterOneMore(cfg, history + [tick], a);
      assert history + [tick] + [a] == history + [tick, a];
      history := history + [tick, a];
    }

    /**
     The answer is told by the stored row alone: each refusal exactly when its reason holds, a replay
     exactly of the answer stored for this endpoint and hash, otherwise a fresh start that takes the
     row. A replay repeats an execution of the same key, endpoint and hash, and a fresh start meets
     no other live execution of the key, as far as the timing assumptions hold.
     */
    method BeginRequest(now: int, slot: Slot, endpoint: string, hash: string) returns (outcome: BeginResult)
      requires Valid() && Seen().now <= now
      modifies this
      ensures Valid() && Seen().now == now
      ensures history == old(history) + [Tick(now - old(Seen()).now), Start(slot, endpoint, hash)]
      ensures (View(), outcome) == Begin(cfg, old(View()), now, slot, endpoint, hash)
      ensures outcome.OtherEndpoint? <==> slot in old(rows) && old(rows)[slot].endpoint != endpoint
      ensures
        var answers := Answers(old(View()));
        && (outcome.OtherRequest? <==>
              slot in answers && answers[slot].endpoint == endpoint && answers[slot].hash != hash)
        && (outcome.Replay? <==>
              slot in answers && answers[slot].endpoint == endpoint && answers[slot].hash == hash)
        && (outcome.Replay? ==> outcome.record.response == Some(answers[slot].response))
      ensures outcome.StillRunning? <==>
                && slot in old(rows) && old(rows)[slot].endpoint == endpoint
                && old(rows)[slot].status == InProgress && now <= old(rows)[slot].lockedAt + cfg.guard
      ensures outcome.Fresh? ==>
                && rows == old(rows)[slot := outcome.record]
                && outcome.record ==
                     if slot in old(rows)
                     then old(rows)[slot].(status := InProgress, lockedAt := now, requestHash := hash)
                     else Record(old(nextPk), endpoint, hash, InProgress, None, now, now + cfg.retention)
      ensures !outcome.Fresh? ==> View() == old(View())
      ensures Seen().executions == old(Seen()).executions +
                if outcome.Fresh? then [Execution(slot, outcome.record.pk, endpoint, hash, now, Running)] else []
      ensures outcome.Replay? && Timely(cfg, cfg.guard, history) ==>
                Executed(slot, Entry(endpoint, hash, outcome.record.response.value)) in old(Seen()).log
      ensures outcome.Fresh? && Timely(cfg, cfg.guard, history) && AllPurgesSpare(cfg, history) ==>
                forall i :: IsRunning(old(Seen()), i) ==> old(Seen()).executions[i].slot != slot
    {
      ghost var y := Seen();
      ghost var before := history;
      Note(now, Start(slot, endpoint, hash));
      outcome := Decide(now, slot, endpoint, hash);
      StepKeepsRows(cfg, y.(now := now), Start(slot, endpoint, hash));
      if outcome.Replay? && Timely(cfg, cfg.guard, history) {
        ReplaysAnExecution(cfg, history, y.log, slot);
      }
      if outcome.Fresh? && Timely(cfg, cfg.guard, history) && AllPurgesSpare(cfg, history) {
        StartsAlone(cfg, history, y);
      }
    }

    /** The first answer of its key since the last purge of it, as far as the guard was kept. */
    method CompleteRequest(now: int, ghost id: nat, slot: Slot, pk: nat, response: Response) returns (saved: bool)
      requires Valid() && Seen().now <= now && Storable(response.status)
      requires IsRunning(Seen(), id) && Seen().executions[id].slot == slot && Seen().executions[id].pk == pk
      modifies this
      ensures Valid() && Seen().now == now
      ensures history == old(history) + [Tick(now - old(Seen()).now), Finish(id, response)]
      ensures saved <==> slot in old(rows) && old(rows)[slot].pk == pk
      ensures saved ==> rows == old(rows)[slot := old(rows)[slot].(status := Completed, response := Some(response))]
      ensures Some(View()) == if saved then Complete(old(View()), slot, pk, response) else Some(old(View()))
      ensures saved && Timely(cfg, cfg.guard, old(history)) ==> slot !in Answers(old(View()))
    {
      ghost var y := Seen();
      if Timely(cfg, cfg.guard, history) {
        RunnerOwns(cfg, history, id);
      }
      Note(now, Finish(id, response));
      StepKeepsRows(cfg, y.(now := now), Finish(id, response));
      saved := slot in rows && rows[slot].pk == pk;
      if saved {
        var row := rows[slot];
        row := row.(status := Completed);
        row := row.(response := Some(response));
        rows := rows[slot := row];
      }
    }

    /** `answer` is the response that is not stored. */
    method FailRequest(now: int, ghost id: nat, slot: Slot, pk: nat, ghost answer: Response) returns (saved: bool)
      requires Valid() && Seen().now <= now && !Storable(answer.status)
      requires IsRunning(Seen(), id) && Seen().executions[id].slot == slot && Seen().executions[id].pk == pk
      modifies this
      ensures Valid() && Seen().now == now
      ensures history == old(history) + [Tick(now - old(Seen()).now), Finish(id, answer)]
      ensures saved <==> slot in old(rows) && old(rows)[slot].pk == pk
      ensures saved ==> rows == old(rows)[slot := old(rows)[slot].(status := Failed)]
      ensures Some(View()) == if saved then Fail(old(View()), slot, pk) else Some(old(View()))
      ensures Timely(cfg, cfg.guard, old(history)) ==> Answers(View()) == Answers(old(View()))
    {
      ghost var y := Seen();
      if Timely(cfg, cfg.guard, history) {
        RunnerOwns(cfg, history, id);
      }
      Note(now, Finish(id, answer));
      StepKeepsRows(cfg, y.(now := now), Finish(id, answer));
      saved := slot in rows && rows[slot].pk == pk;
      if saved {
        rows := rows[slot := rows[slot].(status := Failed)];
      }
    }

    method PurgeExpired(now: int) returns (deleted: nat)
      requires Valid() && Seen().now <= now
      modifies this
      ensures Valid() && Seen().now == now
      ensures history == old(history) + [Tick(now - old(Seen()).now), PurgeAll]
      ensures View() == Purge(old(View()), now) && deleted == |Expired(old(View()), now)|
      ensures forall slot :: slot in rows <==> slot in old(rows) && now <= old(rows)[slot].expiresAt
      ensures forall slot :: slot in rows ==> rows[slot] == old(rows)[slot]
      ensures |rows| + deleted == |old(rows)|
      ensures Answers(View()) == Answers(old(View())) - Expired(old(View()), now)
    {
      ghost var y := Seen();
      Note(now, PurgeAll);
      StepKeepsRows(cfg, y.(now := now), PurgeAll);
      PurgeForgets(View(), now);
      var expired := set slot | slot in rows && rows[slot].expiresAt < now;
      rows := rows - expired;
      deleted := |expired|;
    }
  }

  lemma RunnerOwns(cfg: Config, history: seq<Action>, id: nat)
    requires Timely(cfg, cfg.guard, history) && IsRunning(After(cfg, history).value, id)
    ensures Owns(After(cfg, history).value, After(cfg, history).value.executions[id])
  {
    RunKeepsInv(cfg, cfg.guard, history);
  }

  lemma ReplaysAnExecution(cfg: Config, history: seq<Action>, log: seq<Observation>, slot: Slot)
    requires Timely(cfg, cfg.guard, history)
    requires
      var z := After(cfg, history).value;
      |z.log| == |log| + 1 && z.log[..|log|] == log && z.log[|log|].Replayed? && z.log[|log|].slot == slot
    ensures Executed(slot, After(cfg, history).value.log[|log|].entry) in log
  {
    var i := ReplaySoundness(cfg, history, |log|);
    assert After(cfg, history).value.log[i] == log[i];
  }

  lemma StartsAlone(cfg: Config, history: seq<Action>, y: System)
    requires Timely(cfg, cfg.guard, history) && AllPurgesSpare(cfg, history)
    requires
      var z := After(cfg, history).value;
      |z.executions| == |y.executions| + 1 && z.executions[..|y.executions|] == y.executions
      && z.executions[|y.executions|].progress.Running?
    ensures forall i :: IsRunning(y, i) ==>
              y.executions[i].slot != After(cfg, history).value.executions[|y.executions|].slot
  {
    var z := After(cfg, history).value;
    AtMostOneLive(cfg, cfg.guard, history);
    forall i | IsRunning(y, i)
      ensures y.executions[i].slot != z.executions[|y.executions|].slot
    {
      assert z.executions[i] == y.executions[i];
      assert IsRunning(z, i) && IsRunning(z, |y.executions|);
    }
  }
}
