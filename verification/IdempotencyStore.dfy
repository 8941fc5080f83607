/**
 The table of idempotency records and what the operations of `core/idempotency/service.py` do to it.

 A row is identified by the unique pair (user, key); `pk` tells a row from a later one inserted
 under the same pair after a purge. `complete` and `fail` write the row they were handed by `pk`.
 */
module IdempotencyStore {
  import opened Prelude

  datatype Slot = Slot(user: nat, key: string)

  datatype Status = InProgress | Completed | Failed

  datatype Response = Response(status: int, body: string, headers: map<string, string>)

  datatype Record = Record(
    pk: nat,
    endpoint: string,
    requestHash: string,
    status: Status,
    response: Option<Response>,
    lockedAt: int,
    expiresAt: int)

  datatype Config = Config(guard: nat, retention: nat)

  datatype Store = Store(rows: map<Slot, Record>, nextPk: nat)

  /** `Fresh` hands the caller a record to complete; the last three are the error responses. */
  datatype BeginResult =
    | Fresh(record: Record)
    | Replay(record: Record)
    | OtherEndpoint
    | OtherRequest
    | StillRunning

  predicate Orphaned(cfg: Config, r: Record, now: int) {
    now - r.lockedAt > cfg.guard
  }

  predicate HasRow(s: Store, slot: Slot, pk: nat) {
    slot in s.rows && s.rows[slot].pk == pk
  }

  function Inserted(cfg: Config, pk: nat, now: int, endpoint: string, hash: string): Record {
    Record(pk, endpoint, hash, InProgress, None, now, now + cfg.retention)
  }

  function Begin(cfg: Config, s: Store, now: int, slot: Slot, endpoint: string, hash: string)
    : (Store, BeginResult)
  {
    if slot !in s.rows then
      var r := Inserted(cfg, s.nextPk, now, endpoint, hash);
      (Store(s.rows[slot := r], s.nextPk + 1), Fresh(r))
    else
      var r := s.rows[slot];
      if r.endpoint != endpoint then (s, OtherEndpoint)
      else if r.status.Completed? then
        if r.requestHash != hash then (s, OtherRequest) else (s, Replay(r))
      else if r.status.InProgress? && !Orphaned(cfg, r, now) then (s, StillRunning)
      else
        var taken := r.(status := InProgress, lockedAt := now, requestHash := hash);
        (s.(rows := s.rows[slot := taken]), Fresh(taken))
  }

  /** The save of a row that was deleted meanwhile raises and writes nothing. */
  function Complete(s: Store, slot: Slot, pk: nat, response: Response): Option<Store> {
    if HasRow(s, slot, pk)
    then Some(s.(rows := s.rows[slot := s.rows[slot].(status := Completed, response := Some(response))]))
    else None
  }

  function Fail(s: Store, slot: Slot, pk: nat): Option<Store> {
    if HasRow(s, slot, pk) then Some(s.(rows := s.rows[slot := s.rows[slot].(status := Failed)])) else None
  }

  function Expired(s: Store, now: int): set<Slot> {
    set slot | slot in s.rows && s.rows[slot].expiresAt < now
  }

  function Purge(s: Store, now: int): Store {
    s.(rows := s.rows - Expired(s, now))
  }

  /** Answers below 500 are stored; the others leave the record to a later retry. */
  predicate Storable(status: int) {
    200 <= status < 500
  }
}
