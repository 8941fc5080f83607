/** When a challenge may be created, and what each answer to a confirmation says, over every run. */
module ChallengeAnswers {
  import opened Prelude
  import opened ScannerCodes
  import opened ScannerChallenges
  import opened ChallengeRuns

  /** The scanner is this organizer's and not archived. */
  predicate Manages(rows: Rows, subject: Subject) {
    && subject.scanner in rows.scanners
    && rows.scanners[subject.scanner].organizer == subject.organizer && !rows.scanners[subject.scanner].archived
  }

  /** Where the scanner's life allows the action. */
  predicate Allows(status: ScannerStatus, action: GuardedAction) {
    || (action == Revoke && status in {Invited, EmailSent, LinkOpened, Active})
    || (action == LeaveAccept && status == LeaveRequested)
    || (action == LeaveRequest && status == Active)
  }

  /** A challenge as it is created: unused, for five attempts and five minutes. */
  predicate Created(keys: Keys, c: Challenge, id: nat, subject: Subject, now: int) {
    c == Challenge(subject, keys.hash(Derive(keys, id)), 0, 5, now + 300, None)
  }

  /** A code is issued exactly for a managed scanner in an allowed state; each other state has its own refusal. */
  lemma RequestToldExactly(keys: Keys, db: Database, now: int, subject: Subject)
    ensures
      var result := Request(keys, db, now, subject);
      && (result == Err(UnknownScanner) <==> !Manages(db.rows, subject))
      && (Manages(db.rows, subject) ==>
            var status, action := db.rows.scanners[subject.scanner].status, subject.action;
            && (result.Ok? <==> Allows(status, action))
            && (result == Err(RevocationNotAllowed) <==>
                  action == Revoke && status in {InvitationCancelled, Deleted, LeaveRequested})
            && (result == Err(NoPendingLeave) <==> action == LeaveAccept && status != LeaveRequested)
            && (result == Err(LeaveAlreadyRequested) <==> action == LeaveRequest && status == LeaveRequested)
            && (result == Err(LeaveNotAllowed) <==>
                  action == LeaveRequest && status !in {LeaveRequested, Active}))
      && (result.Ok? ==>
            var cs := result.value.challenges;
            && result.value.rows == db.rows && |cs| == |db.challenges| + 1
            && Created(keys, cs[|db.challenges|], |db.challenges|, subject, now)
            && forall i :: 0 <= i < |db.challenges| ==>
                 cs[i] == if db.challenges[i].subject == subject && db.challenges[i].consumedAt == None
                          then db.challenges[i].(consumedAt := Some(now)) else db.challenges[i])
  {
    if Manages(db.rows, subject) {
      EveryStatus(db.rows.scanners[subject.scanner].status);
    }
  }

  lemma EveryStatus(status: ScannerStatus)
    ensures status in {Invited, EmailSent, LinkOpened, Active, Deleted, InvitationCancelled, LeaveRequested}
  {
    match status
    case _ =>
  }

  /** The step that asks for a challenge's code finds its scanner in an allowed state. */
  predicate IssuedBy(keys: Keys, s: State, a: Action, id: nat, c: Challenge) {
    && a.AskCode? && a.subject == c.subject
    && Manages(s.db.rows, a.subject) && Allows(s.db.rows.scanners[a.subject.scanner].status, a.subject.action)
    && c.maxAttempts == 5 && c.expiresAt == s.now + 300 && c.codeHash == keys.hash(Derive(keys, id))
  }

  /** Later steps leave a challenge's subject, code and limits alone. */
  predicate SameTerms(c: Challenge, d: Challenge) {
    && d.subject == c.subject && d.codeHash == c.codeHash && d.maxAttempts == c.maxAttempts && d.expiresAt == c.expiresAt
  }

  lemma StepKeepsTerms(keys: Keys, s: State, a: Action, id: nat)
    requires id < |s.db.challenges|
    ensures id < |Step(keys, s, a).db.challenges|
    ensures SameTerms(s.db.challenges[id], Step(keys, s, a).db.challenges[id])
  {
  }

  lemma StepIssues(keys: Keys, s: State, a: Action, id: nat)
    requires |s.db.challenges| <= id < |Step(keys, s, a).db.challenges|
    ensures id == |s.db.challenges| && IssuedBy(keys, s, a, id, Step(keys, s, a).db.challenges[id])
  {
    if a.AskCode? {
      RequestToldExactly(keys, s.db, s.now, a.subject);
    }
  }

  /** Over every run each challenge was issued while its scanner's state allowed its action. */
  lemma {:induction false} ChallengesWereAllowed(keys: Keys, run: seq<Action>, id: nat) returns (n: nat)
    requires id < |After(keys, run).db.challenges|
    ensures n < |run| && |After(keys, run[..n]).db.challenges| == id
    ensures IssuedBy(keys, After(keys, run[..n]), run[n], id, After(keys, run).db.challenges[id])
  {
    var shorter, a := run[..|run| - 1], run[|run| - 1];
    if id < |After(keys, shorter).db.challenges| {
      n := ChallengesWereAllowed(keys, shorter, id);
      assert shorter[..n] == run[..n];
      StepKeepsTerms(keys, After(keys, shorter), a, id);
    } else {
      n := |run| - 1;
      StepIssues(keys, After(keys, shorter), a, id);
    }
  }

  predicate ReplyTells(keys: Keys, s: State, subject: Subject, id: nat, code: string, version: nat,
                       operation: Operation, reply: Reply)
  {
    var rows, cs := s.db.rows.scanners, s.db.challenges;
    var known := subject.scanner in rows && rows[subject.scanner].organizer == subject.organizer;
    var current := known && rows[subject.scanner].version == version;
    var open := id < |cs| && cs[id].subject == subject && cs[id].consumedAt == None && s.now < cs[id].expiresAt;
    var right := CodeHash(keys, code) == keys.hash(Derive(keys, id));
    && (reply == ScannerMissing <==> !known)
    && (reply.StaleScanner? <==> known && !current)
    && (reply.StaleScanner? ==> reply.current == rows[subject.scanner].version)
    && (reply == Refused(OtpInvalid) <==> current && (!open || (!right && cs[id].attempts < 4)))
    && (reply == Refused(OtpMaxAttempts) <==> current && open && !right && cs[id].attempts == 4)
    && (reply == OperationFailed <==> current && open && right && operation(s.db.rows).Raised?)
    && (reply == Ran <==> current && open && right && operation(s.db.rows).Finished?)
  }

  lemma ReplyHolds(keys: Keys, s: State, subject: Subject, id: nat, code: string, version: nat, operation: Operation)
    requires ChallengesOk(s.db.challenges, s.now) && CodesOk(keys, s.db.challenges)
    ensures ReplyTells(keys, s, subject, id, code, version, operation,
                       ConsumeAndRun(keys, s.db, s.now, subject, id, code, version, operation).1)
  {
  }

  /**
   In every reachable state each answer to a confirmation has its one reason: no such scanner, another
   version, a challenge that is not this subject's or not open or past its time, a wrong code, the
   last one allowed, an operation that raised, or success.
   */
  lemma ConfirmToldExactly(keys: Keys, run: seq<Action>, subject: Subject, id: nat, code: string, version: nat,
                           operation: Operation)
    ensures
      var s := After(keys, run);
      var reply := ConsumeAndRun(keys, s.db, s.now, subject, id, code, version, operation).1;
      ReplyTells(keys, s, subject, id, code, version, operation, reply)
  {
    RunKeepsChallenges(keys, run);
    ReplyHolds(keys, After(keys, run), subject, id, code, version, operation);
  }
}
