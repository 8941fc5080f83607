/** Every run of code requests, confirmations, protected operations and outside changes. */
module ChallengeRuns {
  import opened Prelude
  import opened ScannerCodes
  import opened ScannerChallenges

  datatype Verdict = WrongCode | RolledBack | Accepted

  /** One comparison of a typed code with a challenge; rolling back does not erase it from this log. */
  datatype Try = Try(id: nat, at: int, verdict: Verdict)

  datatype State = State(db: Database, now: int, tries: seq<Try>)

  datatype Action =
    | Tick(elapsed: nat)
    | AskCode(subject: Subject)
    | Confirm(subject: Subject, id: nat, code: string, version: nat, operation: Operation)
    | OtherWrite(rows: Rows)

  /** The confirmation gets as far as comparing the code. */
  predicate Compares(s: State, subject: Subject, id: nat, version: nat) {
    && Current(s.db.rows, subject, version)
    && Usable(s.db.challenges, s.now, subject, id)
    && s.db.challenges[id].attempts < s.db.challenges[id].maxAttempts
  }

  function VerdictOf(reply: Reply): Verdict {
    if reply.Ran? then Accepted else if reply.OperationFailed? then RolledBack else WrongCode
  }

  function ConfirmStep(keys: Keys, s: State, subject: Subject, id: nat, code: string, version: nat,
                       operation: Operation): State
  {
    var (db, reply) := ConsumeAndRun(keys, s.db, s.now, subject, id, code, version, operation);
    var tries := if Compares(s, subject, id, version) then s.tries + [Try(id, s.now, VerdictOf(reply))] else s.tries;
    State(db, s.now, tries)
  }

  function AskStep(keys: Keys, s: State, subject: Subject): State {
    var r := Request(keys, s.db, s.now, subject);
    if r.Ok? then s.(db := r.value) else s
  }

  function Step(keys: Keys, s: State, a: Action): State {
    match a
    case Tick(d) => s.(now := s.now + d)
    case AskCode(subject) => AskStep(keys, s, subject)
    case Confirm(subject, id, code, version, operation) => ConfirmStep(keys, s, subject, id, code, version, operation)
    case OtherWrite(rows) => s.(db := s.db.(rows := rows))
  }

  const INITIAL := State(Database(Rows(map[], []), []), 0, [])

  function After(keys: Keys, run: seq<Action>): State {
    if run == [] then INITIAL else Step(keys, After(keys, run[..|run| - 1]), run[|run| - 1])
  }

  function Count(tries: seq<Try>, id: nat, verdict: Verdict): nat {
    if tries == [] then 0
    else
      var last := tries[|tries| - 1];
      Count(tries[..|tries| - 1], id, verdict) + if last.id == id && last.verdict == verdict then 1 else 0
  }

  function WrongTries(tries: seq<Try>): nat {
    if tries == [] then 0
    else WrongTries(tries[..|tries| - 1]) + if tries[|tries| - 1].verdict.WrongCode? then 1 else 0
  }

  function Attempts(cs: seq<Challenge>): nat {
    if cs == [] then 0 else Attempts(cs[..|cs| - 1]) + cs[|cs| - 1].attempts
  }

  // ---- what every run keeps ----

  predicate ChallengesOk(cs: seq<Challenge>, now: int) {
    forall i :: 0 <= i < |cs| ==>
      && cs[i].maxAttempts == MAX_ATTEMPTS
      && cs[i].attempts <= MAX_ATTEMPTS
      && cs[i].expiresAt <= now + TTL_SECONDS
      && (cs[i].attempts == MAX_ATTEMPTS ==> cs[i].consumedAt.Some?)
  }

  /** Of the challenges of one subject, only the newest may be open. */
  predicate OnlyNewestOpen(cs: seq<Challenge>) {
    forall i, j :: 0 <= i < j < |cs| && cs[i].subject == cs[j].subject ==> cs[i].consumedAt.Some?
  }

  predicate CodesOk(keys: Keys, cs: seq<Challenge>) {
    forall i :: 0 <= i < |cs| ==> cs[i].codeHash == keys.hash(Derive(keys, i))
  }

  predicate Tallied(s: State, id: nat) {
    && Count(s.tries, id, WrongCode) == (if id < |s.db.challenges| then s.db.challenges[id].attempts else 0)
    && Count(s.tries, id, Accepted) <= 1
    && (Count(s.tries, id, Accepted) == 1 ==> id < |s.db.challenges| && s.db.challenges[id].consumedAt.Some?)
  }

  /** Every comparison happened during the life of its challenge. */
  predicate TriesInTime(s: State) {
    forall k :: 0 <= k < |s.tries| ==>
      && s.tries[k].id < |s.db.challenges|
      && s.db.challenges[s.tries[k].id].expiresAt - TTL_SECONDS <= s.tries[k].at
      && s.tries[k].at < s.db.challenges[s.tries[k].id].expiresAt
  }

  lemma StepKeepsChallenges(keys: Keys, s: State, a: Action)
    requires ChallengesOk(s.db.challenges, s.now) && OnlyNewestOpen(s.db.challenges) && CodesOk(keys, s.db.challenges)
    ensures
      var t := Step(keys, s, a);
      && ChallengesOk(t.db.challenges, t.now) && OnlyNewestOpen(t.db.challenges) && CodesOk(keys, t.db.challenges)
  {
  }

  lemma CountAppend(tries: seq<Try>, one: Try, id: nat, verdict: Verdict)
    ensures Count(tries + [one], id, verdict)
            == Count(tries, id, verdict) + if one.id == id && one.verdict == verdict then 1 else 0
  {
    assert (tries + [one])[..|tries + [one]| - 1] == tries;
  }

  /** A confirmation touches one challenge; a comparison needs it open and closes it on success. */
  lemma ConfirmTouchesOne(keys: Keys, s: State, a: Action)
    requires a.Confirm?
    ensures
      var t := Step(keys, s, a);
      var cs, ds := s.db.challenges, t.db.challenges;
      && |ds| == |cs|
      && (forall i :: 0 <= i < |cs| && i != a.id ==> ds[i] == cs[i])
      && (a.id < |cs| && cs[a.id].consumedAt.Some? ==> ds[a.id].consumedAt.Some?)
      && (t.tries == s.tries ==> a.id < |cs| ==> ds[a.id].attempts == cs[a.id].attempts)
      && (t.tries != s.tries ==>
            && |t.tries| == |s.tries| + 1 && t.tries[..|s.tries|] == s.tries
            && t.tries[|s.tries|].id == a.id < |cs| && cs[a.id].consumedAt.None?
            && ds[a.id].attempts == cs[a.id].attempts + (if t.tries[|s.tries|].verdict.WrongCode? then 1 else 0)
            && (t.tries[|s.tries|].verdict.Accepted? ==> ds[a.id].consumedAt.Some?))
  {
  }

  lemma ConfirmKeepsTally(keys: Keys, s: State, a: Action, id: nat)
    requires a.Confirm? && Tallied(s, id)
    ensures Tallied(Step(keys, s, a), id)
  {
    var t := Step(keys, s, a);
    ConfirmTouchesOne(keys, s, a);
    if t.tries != s.tries {
      assert t.tries == s.tries + [t.tries[|s.tries|]];
      CountAppend(s.tries, t.tries[|s.tries|], id, WrongCode);
      CountAppend(s.tries, t.tries[|s.tries|], id, Accepted);
    }
  }

  lemma StepKeepsTally(keys: Keys, s: State, a: Action, id: nat)
    requires Tallied(s, id)
    ensures Tallied(Step(keys, s, a), id)
  {
    if a.Confirm? {
      ConfirmKeepsTally(keys, s, a, id);
    }
  }

  lemma {:induction false} RunKeepsTally(keys: Keys, run: seq<Action>, id: nat)
    ensures Tallied(After(keys, run), id)
  {
    if run == [] {
    } else {
      RunKeepsTally(keys, run[..|run| - 1], id);
      StepKeepsTally(keys, After(keys, run[..|run| - 1]), run[|run| - 1], id);
    }
  }

  lemma StepKeepsTimes(keys: Keys, s: State, a: Action)
    requires ChallengesOk(s.db.challenges, s.now) && TriesInTime(s)
    ensures TriesInTime(Step(keys, s, a))
  {
    var t := Step(keys, s, a);
    StepKeepsExpiries(keys, s, a);
    if a.Confirm? && t.tries != s.tries {
      assert Compares(s, a.subject, a.id, a.version);
    }
  }

  lemma StepKeepsExpiries(keys: Keys, s: State, a: Action)
    ensures
      var cs, ds := s.db.challenges, Step(keys, s, a).db.challenges;
      |cs| <= |ds| && forall i :: 0 <= i < |cs| ==> ds[i].expiresAt == cs[i].expiresAt
  {
  }

  lemma {:induction false} RunKeepsChallenges(keys: Keys, run: seq<Action>)
    ensures
      var s := After(keys, run);
      && ChallengesOk(s.db.challenges, s.now) && OnlyNewestOpen(s.db.challenges) && CodesOk(keys, s.db.challenges)
      && TriesInTime(s)
  {
    if run == [] {
    } else {
      var s, a := After(keys, run[..|run| - 1]), run[|run| - 1];
      RunKeepsChallenges(keys, run[..|run| - 1]);
      StepKeepsChallenges(keys, s, a);
      StepKeepsTimes(keys, s, a);
    }
  }

  lemma AfterOneMore(keys: Keys, run: seq<Action>, a: Action)
    ensures After(keys, run + [a]) == Step(keys, After(keys, run), a)
  {
    assert (run + [a])[..|run + [a]| - 1] == run;
  }

  // ---- main results ----

  /**
   Over every run a challenge compares at most five wrong codes, and the fifth closes it; it
   succeeds at most once, and never both.
   */
  lemma ChallengeIsBounded(keys: Keys, run: seq<Action>, id: nat)
    ensures
      var s := After(keys, run);
      && Count(s.tries, id, WrongCode) <= MAX_ATTEMPTS
      && Count(s.tries, id, Accepted) <= 1
      && (Count(s.tries, id, WrongCode) == MAX_ATTEMPTS || Count(s.tries, id, Accepted) == 1
          ==> id < |s.db.challenges| && s.db.challenges[id].consumedAt.Some?)
      && !(Count(s.tries, id, WrongCode) == MAX_ATTEMPTS && Count(s.tries, id, Accepted) == 1)
  {
    RunKeepsChallenges(keys, run);
    RunKeepsTally(keys, run, id);
    NotBoth(keys, run, id);
  }

  /** Every comparison, right or wrong, falls inside the five minutes of its challenge. */
  lemma TriesFallInsideLifetime(keys: Keys, run: seq<Action>, k: nat)
    requires k < |After(keys, run).tries|
    ensures
      var s := After(keys, run);
      var one := s.tries[k];
      && one.id < |s.db.challenges|
      && s.db.challenges[one.id].expiresAt - TTL_SECONDS <= one.at < s.db.challenges[one.id].expiresAt
  {
    RunKeepsChallenges(keys, run);
  }

  /** A challenge spent by wrong codes never succeeded, and one that succeeded stopped counting. */
  lemma {:induction false} NotBoth(keys: Keys, run: seq<Action>, id: nat)
    ensures
      var s := After(keys, run);
      !(Count(s.tries, id, WrongCode) == MAX_ATTEMPTS && Count(s.tries, id, Accepted) == 1)
  {
    if run == [] {
    } else {
      var s, a := After(keys, run[..|run| - 1]), run[|run| - 1];
      var t := Step(keys, s, a);
      NotBoth(keys, run[..|run| - 1], id);
      RunKeepsChallenges(keys, run[..|run| - 1]);
      RunKeepsTally(keys, run[..|run| - 1], id);
      if t.tries != s.tries {
        CountAppend(s.tries, t.tries[|s.tries|], id, WrongCode);
        CountAppend(s.tries, t.tries[|s.tries|], id, Accepted);
      }
    }
  }

  /** At most one challenge per (organizer, scanner, requester, action) is open: the newest. */
  lemma {:induction false} AtMostOneOpen(keys: Keys, run: seq<Action>, i: nat, j: nat)
    requires i < |After(keys, run).db.challenges| && j < |After(keys, run).db.challenges|
    requires var cs := After(keys, run).db.challenges;
             cs[i].subject == cs[j].subject && cs[i].consumedAt.None?
    ensures j <= i
    ensures After(keys, run).db.challenges[j].consumedAt.None? ==> i == j
  {
    RunKeepsChallenges(keys, run);
  }

  lemma StepFreezesClosed(keys: Keys, s: State, a: Action, id: nat)
    requires id < |s.db.challenges| && s.db.challenges[id].consumedAt.Some?
    ensures
      var t := Step(keys, s, a);
      && id < |t.db.challenges| && t.db.challenges[id] == s.db.challenges[id]
      && s.tries <= t.tries
      && forall k :: |s.tries| <= k < |t.tries| ==> t.tries[k].id != id
  {
  }

  /** A closed challenge is never written again, and no later code is compared with it. */
  lemma {:induction false} ClosedIsFinal(keys: Keys, run: seq<Action>, more: seq<Action>, id: nat)
    requires id < |After(keys, run).db.challenges| && After(keys, run).db.challenges[id].consumedAt.Some?
    ensures
      var s, t := After(keys, run), After(keys, run + more);
      && id < |t.db.challenges| && t.db.challenges[id] == s.db.challenges[id]
      && s.tries <= t.tries
      && forall k :: |s.tries| <= k < |t.tries| ==> t.tries[k].id != id
  {
    if more == [] {
      assert run + more == run;
    } else {
      var shorter := more[..|more| - 1];
      assert (run + more)[..|run + more| - 1] == run + shorter;
      ClosedIsFinal(keys, run, shorter, id);
      StepFreezesClosed(keys, After(keys, run + shorter), more[|more| - 1], id);
    }
  }

  predicate OnlyDiffersAt(before: seq<Challenge>, after: seq<Challenge>, id: nat) {
    |after| == |before| && forall i :: 0 <= i < |before| && i != id ==> after[i] == before[i]
  }

  /** The challenge goes from open to consumed, with no attempt added. */
  predicate Consumes(before: seq<Challenge>, after: seq<Challenge>, id: nat, now: int) {
    id < |before| == |after| && before[id].consumedAt.None? && after[id] == before[id].(consumedAt := Some(now))
  }

  lemma GuardHolds(keys: Keys, s: State, subject: Subject, id: nat, code: string, version: nat, operation: Operation)
    requires ChallengesOk(s.db.challenges, s.now) && CodesOk(keys, s.db.challenges)
    ensures
      var (db, reply) := ConsumeAndRun(keys, s.db, s.now, subject, id, code, version, operation);
      var consumed := Consumes(s.db.challenges, db.challenges, id, s.now);
      && OnlyDiffersAt(s.db.challenges, db.challenges, id)
      && (reply.Ran? <==> consumed)
      && (reply.Ran? <==> Compares(s, subject, id, version)
                          && CodeHash(keys, code) == keys.hash(Derive(keys, id)) && operation(s.db.rows).Finished?)
      && (reply.OperationFailed? ==> db == s.db)
      && db.rows == (if consumed then operation(s.db.rows).rows else s.db.rows)
  {
  }

  /**
   The guard is atomic. The operation's effect is committed exactly when its challenge goes, in the
   same step and without a new attempt, from open to consumed; otherwise no table but the
   challenges' changes. It needs the current scanner version and the code mailed for that
   challenge, up to the hash.
   */
  lemma GuardIsAtomic(keys: Keys, run: seq<Action>, subject: Subject, id: nat, code: string, version: nat,
                      operation: Operation)
    ensures
      var s := After(keys, run);
      var (db, reply) := ConsumeAndRun(keys, s.db, s.now, subject, id, code, version, operation);
      var consumed := Consumes(s.db.challenges, db.challenges, id, s.now);
      && OnlyDiffersAt(s.db.challenges, db.challenges, id)
      && (reply.Ran? <==> consumed)
      && (reply.Ran? <==> Compares(s, subject, id, version)
                          && CodeHash(keys, code) == keys.hash(Derive(keys, id)) && operation(s.db.rows).Finished?)
      && (reply.OperationFailed? ==> db == s.db)
      && db.rows == (if consumed then operation(s.db.rows).rows else s.db.rows)
  {
    RunKeepsChallenges(keys, run);
    GuardHolds(keys, After(keys, run), subject, id, code, version, operation);
  }

  /** A failed operation restores everything: until it expires, the same code still serves. */
  lemma FailureRestoresEverything(keys: Keys, run: seq<Action>, subject: Subject, id: nat, code: string, version: nat,
                                  failing: Operation, elapsed: nat, other: Operation)
    requires var s := After(keys, run);
             ConsumeAndRun(keys, s.db, s.now, subject, id, code, version, failing).1.OperationFailed?
    ensures
      var s := After(keys, run);
      var t := After(keys, run + [Confirm(subject, id, code, version, failing), Tick(elapsed)]);
      && t.db == s.db && id < |t.db.challenges|
      && (other(t.db.rows).Finished? ==>
            (ConsumeAndRun(keys, t.db, t.now, subject, id, code, version, other).1.Ran?
             <==> s.now + elapsed < s.db.challenges[id].expiresAt))
  {
    var a := Confirm(subject, id, code, version, failing);
    AfterOneMore(keys, run, a);
    AfterOneMore(keys, run + [a], Tick(elapsed));
    assert run + [a] + [Tick(elapsed)] == run + [a, Tick(elapsed)];
  }

  predicate WrongCodeTried(keys: Keys, s: State, subject: Subject, id: nat, code: string, version: nat) {
    Compares(s, subject, id, version) && CodeHash(keys, code) != s.db.challenges[id].codeHash
  }

  /** The challenge after one more wrong code. */
  function Marked(c: Challenge, now: int): Challenge {
    c.(attempts := c.attempts + 1, consumedAt := if c.attempts + 1 >= c.maxAttempts then Some(now) else c.consumedAt)
  }

  lemma WrongCodeOutcome(keys: Keys, s: State, subject: Subject, id: nat, code: string, version: nat,
                         operation: Operation)
    requires WrongCodeTried(keys, s, subject, id, code, version)
    ensures
      var c := s.db.challenges[id];
      ConsumeAndRun(keys, s.db, s.now, subject, id, code, version, operation) ==
        (s.db.(challenges := s.db.challenges[id := Marked(c, s.now)]),
         Refused(if c.attempts + 1 >= c.maxAttempts then OtpMaxAttempts else OtpInvalid))
  {
  }

  lemma OtherOutcomes(keys: Keys, s: State, subject: Subject, id: nat, code: string, version: nat,
                      operation: Operation)
    requires !WrongCodeTried(keys, s, subject, id, code, version)
    requires forall i :: 0 <= i < |s.db.challenges| && s.db.challenges[i].consumedAt.None? ==>
               s.db.challenges[i].attempts < s.db.challenges[i].maxAttempts
    ensures
      var (db, reply) := ConsumeAndRun(keys, s.db, s.now, subject, id, code, version, operation);
      reply != Refused(OtpMaxAttempts) && (reply == Refused(OtpInvalid) ==> db == s.db)
  {
  }

  /**
   A wrong code commits exactly one attempt and nothing else, but for closing the challenge with
   the fifth; and "too many attempts" is only ever the answer to that fifth one.
   */
  lemma WrongCodeCommitsOneAttempt(keys: Keys, run: seq<Action>, subject: Subject, id: nat, code: string, version: nat,
                                   operation: Operation)
    ensures
      var s := After(keys, run);
      var (db, reply) := ConsumeAndRun(keys, s.db, s.now, subject, id, code, version, operation);
      var cs := s.db.challenges;
      var wrong := Compares(s, subject, id, version) && CodeHash(keys, code) != keys.hash(Derive(keys, id));
      && (wrong ==>
            && db.rows == s.db.rows
            && db.challenges == cs[id := cs[id].(attempts := cs[id].attempts + 1,
                                                 consumedAt := db.challenges[id].consumedAt)]
            && (db.challenges[id].consumedAt.Some? <==> cs[id].attempts == MAX_ATTEMPTS - 1))
      && (reply == Refused(OtpMaxAttempts) <==> wrong && cs[id].attempts == MAX_ATTEMPTS - 1)
      && (reply == Refused(OtpInvalid) && !wrong ==> db == s.db)
  {
    RunKeepsChallenges(keys, run);
    var s := After(keys, run);
    if WrongCodeTried(keys, s, subject, id, code, version) {
      WrongCodeOutcome(keys, s, subject, id, code, version, operation);
    } else {
      OtherOutcomes(keys, s, subject, id, code, version, operation);
    }
  }

  lemma {:induction false} AttemptsUpdate(cs: seq<Challenge>, i: nat, c: Challenge)
    requires i < |cs|
    ensures Attempts(cs[i := c]) == Attempts(cs) - cs[i].attempts + c.attempts
  {
    var ds := cs[i := c];
    if i < |cs| - 1 {
      AttemptsUpdate(cs[..|cs| - 1], i, c);
      assert ds[..|ds| - 1] == cs[..|cs| - 1][i := c];
    } else {
      assert ds[..|ds| - 1] == cs[..|cs| - 1];
    }
  }

  lemma {:induction false} AttemptsSame(cs: seq<Challenge>, ds: seq<Challenge>)
    requires |cs| == |ds| && forall i :: 0 <= i < |cs| ==> ds[i].attempts == cs[i].attempts
    ensures Attempts(ds) == Attempts(cs)
  {
    if cs == [] {
    } else {
      AttemptsSame(cs[..|cs| - 1], ds[..|ds| - 1]);
    }
  }

  lemma AskCountsNothing(keys: Keys, s: State, subject: Subject)
    ensures Attempts(AskStep(keys, s, subject).db.challenges) == Attempts(s.db.challenges)
  {
    var cs, ds := s.db.challenges, AskStep(keys, s, subject).db.challenges;
    if |ds| > |cs| {
      assert ds[..|ds| - 1] == CloseOpen(cs, subject, s.now);
      AttemptsSame(cs, CloseOpen(cs, subject, s.now));
    }
  }

  lemma ConfirmChangesOne(keys: Keys, s: State, a: Action)
    requires a.Confirm?
    ensures
      var t := Step(keys, s, a);
      var cs, ds := s.db.challenges, t.db.challenges;
      && (ds == cs || (a.id < |cs| && |ds| == |cs| && ds == cs[a.id := ds[a.id]]))
      && (t.tries == s.tries || (t.tries == s.tries + [t.tries[|s.tries|]] && a.id < |cs| == |ds|))
      && (a.id < |cs| == |ds| ==>
            ds[a.id].attempts - cs[a.id].attempts ==
              if t.tries != s.tries && t.tries[|s.tries|].verdict.WrongCode? then 1 else 0)
  {
  }

  lemma WrongTriesAppend(tries: seq<Try>, one: Try)
    ensures WrongTries(tries + [one]) == WrongTries(tries) + if one.verdict.WrongCode? then 1 else 0
  {
    assert (tries + [one])[..|tries + [one]| - 1] == tries;
  }

  lemma StepCountsWrongTries(keys: Keys, s: State, a: Action)
    requires WrongTries(s.tries) == Attempts(s.db.challenges)
    ensures WrongTries(Step(keys, s, a).tries) == Attempts(Step(keys, s, a).db.challenges)
  {
    var t := Step(keys, s, a);
    if a.AskCode? {
      AskCountsNothing(keys, s, a.subject);
    } else if a.Confirm? {
      ConfirmChangesOne(keys, s, a);
      var cs, ds := s.db.challenges, t.db.challenges;
      if t.tries != s.tries {
        WrongTriesAppend(s.tries, t.tries[|s.tries|]);
      }
      if a.id < |cs| {
        AttemptsUpdate(cs, a.id, ds[a.id]);
        assert ds == cs ==> ds[a.id] == cs[a.id];
      }
    }
  }

  /** However codes are requested and tried, all wrong codes together are at most five per challenge. */
  lemma {:induction false} GuessesArePaidFor(keys: Keys, run: seq<Action>)
    ensures
      var s := After(keys, run);
      && WrongTries(s.tries) == Attempts(s.db.challenges)
      && WrongTries(s.tries) <= MAX_ATTEMPTS * |s.db.challenges|
  {
    if run == [] {
    } else {
      GuessesArePaidFor(keys, run[..|run| - 1]);
      StepCountsWrongTries(keys, After(keys, run[..|run| - 1]), run[|run| - 1]);
    }
    RunKeepsChallenges(keys, run);
    AttemptsBounded(After(keys, run).db.challenges);
  }

  lemma {:induction false} AttemptsBounded(cs: seq<Challenge>)
    requires forall i :: 0 <= i < |cs| ==> cs[i].attempts <= MAX_ATTEMPTS
    ensures Attempts(cs) <= MAX_ATTEMPTS * |cs|
  {
    if cs == [] {
    } else {
      AttemptsBounded(cs[..|cs| - 1]);
    }
  }
}
