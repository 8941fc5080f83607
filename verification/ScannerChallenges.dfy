/**
 One-time-code challenges that guard destructive scanner actions. A confirmation runs the code check
 and the protected operation in one transaction; each service call is one atomic step.
 */
module ScannerChallenges {
  import opened Prelude
  import opened ScannerCodes

  datatype ScannerStatus =
    | Invited | EmailSent | LinkOpened | Active | Deleted | InvitationCancelled | LeaveRequested

  datatype ScannerRow = ScannerRow(organizer: nat, status: ScannerStatus, version: nat, archived: bool)

  /** What operations may write: the scanner rows, and a journal standing for every other table. */
  datatype Rows = Rows(scanners: map<nat, ScannerRow>, journal: seq<nat>)

  datatype GuardedAction = Revoke | LeaveAccept | LeaveRequest

  datatype Subject = Subject(organizer: nat, scanner: nat, requester: nat, action: GuardedAction)

  datatype Challenge = Challenge(
    subject: Subject,
    codeHash: nat,
    attempts: nat,
    maxAttempts: nat,
    expiresAt: int,
    consumedAt: Option<int>)

  /** Challenges in creation order; a position stands for the identifier. */
  datatype Database = Database(rows: Rows, challenges: seq<Challenge>)

  datatype RequestError =
    | UnknownScanner | RevocationNotAllowed | NoPendingLeave | LeaveAlreadyRequested | LeaveNotAllowed

  datatype OtpError = OtpInvalid | OtpMaxAttempts

  /** An operation ends normally or raises; either way it may have written first. */
  datatype Outcome = Finished(rows: Rows) | Raised(partial: Rows)

  type Operation = Rows -> Outcome

  datatype Reply = ScannerMissing | StaleScanner(current: nat) | Refused(error: OtpError) | OperationFailed | Ran

  const TTL_SECONDS := 300
  const MAX_ATTEMPTS := 5

  function StatusError(status: ScannerStatus, action: GuardedAction): Option<RequestError> {
    match action
    case Revoke =>
      if status in {InvitationCancelled, Deleted, LeaveRequested} then Some(RevocationNotAllowed) else None
    case LeaveAccept =>
      if status != LeaveRequested then Some(NoPendingLeave) else None
    case LeaveRequest =>
      if status == LeaveRequested then Some(LeaveAlreadyRequested)
      else if status != Active then Some(LeaveNotAllowed)
      else None
  }

  predicate OpenOf(c: Challenge, subject: Subject) {
    c.subject == subject && c.consumedAt.None?
  }

  /** The bulk update that closes every challenge still open for the subject. */
  function CloseOpen(cs: seq<Challenge>, subject: Subject, now: int): (r: seq<Challenge>)
    ensures |r| == |cs|
    ensures forall i :: 0 <= i < |cs| ==> !OpenOf(r[i], subject)
    ensures forall i :: 0 <= i < |cs| && !OpenOf(cs[i], subject) ==> r[i] == cs[i]
    ensures forall i :: 0 <= i < |cs| ==> r[i].(consumedAt := cs[i].consumedAt) == cs[i]
    ensures forall i :: 0 <= i < |cs| && OpenOf(cs[i], subject) ==> r[i].consumedAt == Some(now)
  {
    seq(|cs|, i requires 0 <= i < |cs| =>
      if OpenOf(cs[i], subject) then cs[i].(consumedAt := Some(now)) else cs[i])
  }

  function Request(keys: Keys, db: Database, now: int, subject: Subject): Result<Database, RequestError> {
    if subject.scanner !in db.rows.scanners then Err(UnknownScanner)
    else
      var scanner := db.rows.scanners[subject.scanner];
      var error := StatusError(scanner.status, subject.action);
      var id := |db.challenges|;
      var created := Challenge(subject, keys.hash(Derive(keys, id)), 0, MAX_ATTEMPTS, now + TTL_SECONDS, None);
      if scanner.organizer != subject.organizer || scanner.archived then Err(UnknownScanner)
      else if error.Some? then Err(error.value)
      else Ok(db.(challenges := CloseOpen(db.challenges, subject, now) + [created]))
  }

  predicate Usable(cs: seq<Challenge>, now: int, subject: Subject, id: nat) {
    id < |cs| && OpenOf(cs[id], subject) && now < cs[id].expiresAt
  }

  // ---- exceptions and nested transactions ----

  datatype Exception = ScannerNotFound | StaleResource(current: nat) | Otp(error: OtpError) | OperationError

  /** A piece of code has written `db` when it ends normally or when an exception leaves it. */
  datatype Flow<T> = Normal(db: Database, value: T) | Raising(db: Database, exception: Exception)

  /** An atomic block: an exception that leaves it restores what was there when it began. */
  function Atomic<T>(before: Database, inside: Flow<T>): Flow<T> {
    match inside
    case Normal(_, _) => inside
    case Raising(_, exception) => Raising(before, exception)
  }

  /** Inside the inner block: only the unusable challenge raises here; the others note an error for later. */
  function ConsumeInside(keys: Keys, db: Database, now: int, subject: Subject, id: nat, code: string)
    : Flow<Option<OtpError>>
  {
    if !Usable(db.challenges, now, subject, id) then Raising(db, Otp(OtpInvalid))
    else
      var c := db.challenges[id];
      var closed := c.(consumedAt := Some(now));
      var counted := c.(attempts := c.attempts + 1);
      if c.attempts >= c.maxAttempts then Normal(WithChallenge(db, id, closed), Some(OtpMaxAttempts))
      else if CodeHash(keys, code) == c.codeHash then Normal(WithChallenge(db, id, closed), None)
      else if counted.attempts >= c.maxAttempts then
        Normal(WithChallenge(db, id, counted.(consumedAt := Some(now))), Some(OtpMaxAttempts))
      else Normal(WithChallenge(db, id, counted), Some(OtpInvalid))
  }

  function WithChallenge(db: Database, id: nat, c: Challenge): Database
    requires id < |db.challenges|
  {
    db.(challenges := db.challenges[id := c])
  }

  /** The noted error is raised after the inner block has ended. */
  function Consume(keys: Keys, db: Database, now: int, subject: Subject, id: nat, code: string): Flow<()> {
    match Atomic(db, ConsumeInside(keys, db, now, subject, id, code))
    case Normal(after, noted) => if noted.Some? then Raising(after, Otp(noted.value)) else Normal(after, ())
    case Raising(after, exception) => Raising(after, exception)
  }

  function Perform(db: Database, operation: Operation): Flow<Option<OtpError>> {
    match operation(db.rows)
    case Finished(rows) => Normal(db.(rows := rows), None)
    case Raised(partial) => Raising(db.(rows := partial), OperationError)
  }

  /** Inside the outer block: the check's own errors are caught here, so they do not undo it. */
  function RunInside(keys: Keys, db: Database, now: int, subject: Subject, id: nat, code: string, version: nat,
                     operation: Operation): Flow<Option<OtpError>>
  {
    if subject.scanner !in db.rows.scanners || db.rows.scanners[subject.scanner].organizer != subject.organizer
    then Raising(db, ScannerNotFound)
    else if db.rows.scanners[subject.scanner].version != version
    then Raising(db, StaleResource(db.rows.scanners[subject.scanner].version))
    else
      match Consume(keys, db, now, subject, id, code)
      case Raising(after, Otp(error)) => Normal(after, Some(error))
      case Raising(after, exception) => Raising(after, exception)
      case Normal(after, _) => Perform(after, operation)
  }

  function ReplyTo(exception: Exception): Reply {
    match exception
    case ScannerNotFound => ScannerMissing
    case StaleResource(current) => StaleScanner(current)
    case Otp(error) => Refused(error)
    case OperationError => OperationFailed
  }

  /** What the two nested transactions leave committed, and what the caller sees. */
  function ConsumeAndRun(keys: Keys, db: Database, now: int, subject: Subject, id: nat, code: string, version: nat,
                         operation: Operation): (Database, Reply)
  {
    match Atomic(db, RunInside(keys, db, now, subject, id, code, version, operation))
    case Normal(after, caught) => (after, if caught.Some? then Refused(caught.value) else Ran)
    case Raising(after, exception) => (after, ReplyTo(exception))
  }

  predicate Current(rows: Rows, subject: Subject, version: nat) {
    && subject.scanner in rows.scanners
    && rows.scanners[subject.scanner].organizer == subject.organizer
    && rows.scanners[subject.scanner].version == version
  }
}
