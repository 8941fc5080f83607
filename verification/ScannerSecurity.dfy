/**
 The scanner security service on a database connection with savepoints. The service writes in place;
 only the connection's blocks undo anything.
 */
module ScannerSecurity {
  import opened Prelude
  import opened ScannerCodes
  import opened ScannerChallenges
  import opened ChallengeAnswers
  import opened ChallengeRuns

  /** The tables as this connection sees them, and the copies to return to, outermost first. */
  class Connection {
    var working: Database
    var savepoints: seq<Database>

    /** What is committed: the tables as they were before the outermost open block. */
    ghost function Committed(): Database
      reads this
    {
      if savepoints == [] then working else savepoints[0]
    }

    constructor (db: Database)
      ensures working == db && savepoints == []
    {
      working := db;
      savepoints := [];
    }

    method Begin()
      modifies this`savepoints
      ensures savepoints == old(savepoints) + [working]
    {
      savepoints := savepoints + [working];
    }

    /** The block ended normally. */
    method Release()
      requires savepoints != []
      modifies this`savepoints
      ensures savepoints == old(savepoints[..|savepoints| - 1])
    {
      savepoints := savepoints[..|savepoints| - 1];
    }

    /** An exception left the block. */
    method RollBack()
      requires savepoints != []
      modifies this
      ensures working == old(savepoints[|savepoints| - 1])
      ensures savepoints == old(savepoints[..|savepoints| - 1])
    {
      working := savepoints[|savepoints| - 1];
      savepoints := savepoints[..|savepoints| - 1];
    }
  }

  lemma SuccessTallied(keys: Keys, s: State, subject: Subject, id: nat, code: string, version: nat, operation: Operation)
    requires ChallengesOk(s.db.challenges, s.now) && CodesOk(keys, s.db.challenges) && Tallied(s, id)
    requires ConsumeAndRun(keys, s.db, s.now, subject, id, code, version, operation).1.Ran?
    ensures Count(Step(keys, s, Action.Confirm(subject, id, code, version, operation)).tries, id, Accepted) == 1
  {
    GuardHolds(keys, s, subject, id, code, version, operation);
    CountAppend(s.tries, Try(id, s.now, Accepted), id, Accepted);
  }

  lemma AttemptsTallied(keys: Keys, s: State, a: Action, id: nat)
    requires ChallengesOk(s.db.challenges, s.now) && OnlyNewestOpen(s.db.challenges) && CodesOk(keys, s.db.challenges)
    requires Tallied(s, id)
    ensures
      var t := Step(keys, s, a);
      && Count(t.tries, id, WrongCode) <= MAX_ATTEMPTS && Count(t.tries, id, Accepted) <= 1
      && Count(t.tries, id, WrongCode) == if id < |t.db.challenges| then t.db.challenges[id].attempts else 0
  {
    StepKeepsTally(keys, s, a, id);
    StepKeepsChallenges(keys, s, a);
  }

  /** What one confirmation, some time after a run, answers and does. */
  lemma ConfirmTold(keys: Keys, run: seq<Action>, now: int, subject: Subject, id: nat, code: string, version: nat,
                    operation: Operation)
    requires After(keys, run).now <= now
    ensures
      var s := After(keys, run).(now := now);
      var (db, reply) := ConsumeAndRun(keys, s.db, now, subject, id, code, version, operation);
      && ReplyTells(keys, s, subject, id, code, version, operation, reply)
      && (reply.Ran? <==> Consumes(s.db.challenges, db.challenges, id, now))
      && db.rows == (if reply.Ran? then operation(s.db.rows).rows else s.db.rows)
      && (reply.OperationFailed? ==> db == s.db)
      && OnlyDiffersAt(s.db.challenges, db.challenges, id)
  {
    RunKeepsChallenges(keys, run);
    ReplyHolds(keys, After(keys, run).(now := now), subject, id, code, version, operation);
    GuardHolds(keys, After(keys, run).(now := now), subject, id, code, version, operation);
  }

  /** And how its attempts are counted. */
  lemma ConfirmTallied(keys: Keys, run: seq<Action>, now: int, subject: Subject, id: nat, code: string, version: nat,
                       operation: Operation)
    requires After(keys, run).now <= now
    ensures
      var s := After(keys, run).(now := now);
      var t := Step(keys, s, Action.Confirm(subject, id, code, version, operation));
      && Count(t.tries, id, WrongCode) <= MAX_ATTEMPTS && Count(t.tries, id, Accepted) <= 1
      && (ConsumeAndRun(keys, s.db, now, subject, id, code, version, operation).1.Ran? ==>
            Count(t.tries, id, Accepted) == 1)
      && Count(t.tries, id, WrongCode) == if id < |t.db.challenges| then t.db.challenges[id].attempts else 0
  {
    var s := After(keys, run).(now := now);
    RunKeepsChallenges(keys, run);
    RunKeepsTally(keys, run, id);
    AttemptsTallied(keys, s, Action.Confirm(subject, id, code, version, operation), id);
    if ConsumeAndRun(keys, s.db, now, subject, id, code, version, operation).1.Ran? {
      SuccessTallied(keys, s, subject, id, code, version, operation);
    }
  }

  class ScannerSecurityService {
    const keys: Keys
    const connection: Connection
    ghost var history: seq<Action>

    /** Between calls no block is open, and the tables are those the run of all calls leads to. */
    ghost predicate Valid()
      reads this, connection
    {
      connection.savepoints == [] && connection.working == After(keys, history).db
    }

    ghost function Seen(): State
      reads this
    {
      After(keys, history)
    }

    constructor (keys: Keys)
      ensures Valid() && fresh(connection) && this.keys == keys && history == []
    {
      this.keys := keys;
      connection := new Connection(INITIAL.db);
      history := [];
    }

    ghost method Note(now: int, a: Action)
      requires Seen().now <= now && !a.Tick?
      modifies this`history
      ensures
        var s := After(keys, old(history));
        && history == old(history) + [Tick(now - s.now), a]
        && Seen() == Step(keys, s.(now := now), a)
    {
      var tick := Tick(now - Seen().now);
      AfterOneMore(keys, history, tick);
      AfterOneMore(keys, history + [tick], a);
      assert history + [tick] + [a] == history + [tick, a];
      history := history + [tick, a];
    }

    /** Any other transaction that writes scanner rows or other tables, but not challenges. */
    method WriteRows(now: int, rows: Rows)
      requires Valid() && Seen().now <= now
      modifies this, connection
      ensures Valid() && Seen().now == now
      ensures connection.working == old(connection.working).(rows := rows)
    {
      Note(now, OtherWrite(rows));
      connection.working := connection.working.(rows := rows);
    }

    /** A created challenge is the only open one of its subject. */
    method RequestCode(now: int, subject: Subject) returns (result: Result<nat, RequestError>)
      requires Valid() && Seen().now <= now
      modifies this, connection
      ensures Valid() && history == old(history) + [Tick(now - old(Seen()).now), AskCode(subject)]
      ensures
        match Request(keys, old(connection.working), now, subject)
        case Err(error) => result == Err(error) && connection.working == old(connection.working)
        case Ok(db) => connection.working == db && result == Ok(old(|connection.working.challenges|))
      ensures
        var scanners := old(connection.working.rows.scanners);
        var managed := subject.scanner in scanners && scanners[subject.scanner].organizer == subject.organizer
                       && !scanners[subject.scanner].archived;
        && (result == Err(UnknownScanner) <==> !managed)
        && (managed ==>
              var status := scanners[subject.scanner].status;
              result ==
                match subject.action
                case Revoke =>
                  if status in {Invited, EmailSent, LinkOpened, Active} then Ok(old(|connection.working.challenges|))
                  else Err(RevocationNotAllowed)
                case LeaveAccept =>
                  if status == LeaveRequested then Ok(old(|connection.working.challenges|)) else Err(NoPendingLeave)
                case LeaveRequest =>
                  if status == Active then Ok(old(|connection.working.challenges|))
                  else if status == LeaveRequested then Err(LeaveAlreadyRequested)
                  else Err(LeaveNotAllowed))
      ensures result.Err? ==> connection.working == old(connection.working)
      ensures result.Ok? ==>
                var cs := connection.working.challenges;
                && Created(keys, cs[|cs| - 1], |cs| - 1, subject, now)
                && result.value < |cs| && OpenOf(cs[result.value], subject)
                && forall i :: 0 <= i < |cs| && OpenOf(cs[i], subject) ==> i == result.value
    {
      Note(now, AskCode(subject));
      RunKeepsChallenges(keys, history);
      RequestToldExactly(keys, connection.working, now, subject);
      connection.Begin();
      var db := connection.working;
      if subject.scanner !in db.rows.scanners {
        connection.RollBack();
        return Err(UnknownScanner);
      }
      var scanner := db.rows.scanners[subject.scanner];
      if scanner.organizer != subject.organizer || scanner.archived {
        connection.RollBack();
        return Err(UnknownScanner);
      }
      var error := StatusError(scanner.status, subject.action);
      if error.Some? {
        connection.RollBack();
        return Err(error.value);
      }
      var closed := CloseOpen(db.challenges, subject, now);
      var id := |closed|;
      var code := Derive(keys, id);
      var created := Challenge(subject, keys.hash(code), 0, MAX_ATTEMPTS, now + TTL_SECONDS, None);
      connection.working := db.(challenges := closed + [created]);
      connection.Release();
      return Ok(id);
    }

    method WriteChallenge(id: nat, c: Challenge)
      requires id < |connection.working.challenges|
      modifies connection`working
      ensures connection.working == WithChallenge(old(connection.working), id, c)
    {
      connection.working := connection.working.(challenges := connection.working.challenges[id := c]);
    }

    /** `raised` is the exception that leaves the call. */
    method ConsumeCode(now: int, subject: Subject, id: nat, code: string) returns (raised: Option<OtpError>)
      modifies connection
      ensures connection.savepoints == old(connection.savepoints)
      ensures
        match Consume(keys, old(connection.working), now, subject, id, code)
        case Normal(after, _) => connection.working == after && raised.None?
        case Raising(after, exception) => connection.working == after && raised.Some? && exception == Otp(raised.value)
    {
      var errorToRaise := None;

      connection.Begin();
      var challenges := connection.working.challenges;
      if id >= |challenges| || challenges[id].subject != subject || challenges[id].consumedAt.Some?
         || challenges[id].expiresAt <= now
      {
        connection.RollBack();
        return Some(OtpInvalid);
      }
      var c := challenges[id];
      if c.attempts >= c.maxAttempts {
        c := c.(consumedAt := Some(now));
        errorToRaise := Some(OtpMaxAttempts);
      } else if CodeHash(keys, code) != c.codeHash {
        c := c.(attempts := c.attempts + 1);
        if c.attempts >= c.maxAttempts {
          c := c.(consumedAt := Some(now));
          errorToRaise := Some(OtpMaxAttempts);
        } else {
          errorToRaise := Some(OtpInvalid);
        }
      } else {
        c := c.(consumedAt := Some(now));
      }
      WriteChallenge(id, c);
      connection.Release();

      return errorToRaise;
    }

    /** Runs the operation in place; what it wrote before raising is still there. */
    method RunOperation(operation: Operation) returns (raised: bool)
      modifies connection`working
      ensures raised == operation(old(connection.working.rows)).Raised?
      ensures connection.working == Perform(old(connection.working), operation).db
    {
      match operation(connection.working.rows)
      case Finished(written) =>
        connection.working := connection.working.(rows := written);
        return false;
      case Raised(written) =>
        connection.working := connection.working.(rows := written);
        return true;
    }

    method ConsumeCodeAndRun(now: int, subject: Subject, id: nat, code: string, version: nat, operation: Operation)
      returns (reply: Reply)
      requires connection.savepoints == []
      modifies connection
      ensures connection.savepoints == []
      ensures (connection.Committed(), reply) ==
              ConsumeAndRun(keys, old(connection.Committed()), now, subject, id, code, version, operation)
    {
      var otpError := None;

      connection.Begin();
      var rows := connection.working.rows;
      if subject.scanner !in rows.scanners || rows.scanners[subject.scanner].organizer != subject.organizer {
        connection.RollBack();
        return ScannerMissing;
      }
      if rows.scanners[subject.scanner].version != version {
        connection.RollBack();
        return StaleScanner(rows.scanners[subject.scanner].version);
      }
      otpError := ConsumeCode(now, subject, id, code);
      if otpError.None? {
        var raised := RunOperation(operation);
        if raised {
          connection.RollBack();
          return OperationFailed;
        }
      }
      connection.Release();

      return if otpError.Some? then Refused(otpError.value) else Ran;
    }

    /**
     The operation's effect is committed exactly if the call consumes the challenge, and a failed
     operation or a refused code leaves every business row alone; a wrong code leaves one attempt.
     */
    method Confirm(now: int, subject: Subject, id: nat, code: string, version: nat, operation: Operation)
      returns (reply: Reply)
      requires Valid() && Seen().now <= now
      modifies this, connection
      ensures Valid()
      ensures history == old(history) + [Tick(now - old(Seen()).now),
                                         Action.Confirm(subject, id, code, version, operation)]
      ensures (connection.working, reply) ==
              ConsumeAndRun(keys, old(connection.working), now, subject, id, code, version, operation)
      ensures
        var before, after := old(connection.working), connection.working;
        && (reply.Ran? <==> Consumes(before.challenges, after.challenges, id, now))
        && after.rows == (if reply.Ran? then operation(before.rows).rows else before.rows)
        && (reply.OperationFailed? ==> after == before)
        && OnlyDiffersAt(before.challenges, after.challenges, id)
      ensures ReplyTells(keys, old(Seen()).(now := now), subject, id, code, version, operation, reply)
      ensures Count(Seen().tries, id, WrongCode) <= MAX_ATTEMPTS && Count(Seen().tries, id, Accepted) <= 1
      ensures reply.Ran? ==> Count(Seen().tries, id, Accepted) == 1
      ensures Count(Seen().tries, id, WrongCode) ==
              if id < |connection.working.challenges| then connection.working.challenges[id].attempts else 0
    {
      ConfirmTold(keys, history, now, subject, id, code, version, operation);
      ConfirmTallied(keys, history, now, subject, id, code, version, operation);
      Note(now, Action.Confirm(subject, id, code, version, operation));
      reply := ConsumeCodeAndRun(now, subject, id, code, version, operation);
    }
  }
}
