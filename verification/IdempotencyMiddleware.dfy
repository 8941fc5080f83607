/**
 The driver around a handler: begin, run, complete or fail, or replay. JSON coding and the body
 fingerprint are uninterpreted functions; errors of `begin` are the statuses of their exceptions.
 */
module IdempotencyMiddleware {
  import opened Prelude
  import opened IdempotencyStore
  import opened IdempotencyProtocol
  import opened IdempotencyDesk

  datatype Request = Request(verb: string, user: Option<nat>, key: string, path: string, body: string)

  datatype HttpResponse = HttpResponse(status: int, content: string, headers: map<string, string>)

  /** `load` turns response content into the stored payload, `dump` a payload into content. */
  datatype Codec = Codec(load: string -> string, dump: string -> string, hash: string -> string)

  type Handler = Request -> HttpResponse

  const REPLAYABLE: seq<string> := ["Content-Type", "Location", "Retry-After"]
  const MARKER: string := "Idempotency-Replayed"

  predicate Guarded(q: Request) {
    q.verb in ["POST", "PUT", "PATCH", "DELETE"] && q.key != "" && q.user.Some?
  }

  function SlotOf(q: Request): Slot
    requires Guarded(q)
  {
    Slot(q.user.value, q.key)
  }

  function Kept(headers: map<string, string>): map<string, string> {
    map name | name in headers && name in REPLAYABLE :: headers[name]
  }

  function Stored(codec: Codec, r: HttpResponse): Response {
    Response(r.status, codec.load(r.content), Kept(r.headers))
  }

  function ReplayOf(codec: Codec, r: Response): HttpResponse {
    HttpResponse(r.status, codec.dump(r.body),
                 map["Content-Type" := "application/json"] + r.headers + map[MARKER := "true"])
  }

  function ErrorOf(outcome: BeginResult): HttpResponse
    requires !outcome.Fresh? && !outcome.Replay?
  {
    match outcome
    case OtherEndpoint => HttpResponse(422, "IDEMPOTENCY_KEY_REUSE", map[])
    case OtherRequest => HttpResponse(422, "IDEMPOTENCY_KEY_REUSE", map[])
    case StillRunning => HttpResponse(409, "REQUEST_IN_PROGRESS", map[])
  }

  datatype Disposition = Ran | Repeated | Rejected

  /** The new table, the response, and what became of the request. */
  function Call(cfg: Config, codec: Codec, s: Store, now: int, q: Request, handler: Handler)
    : (Store, HttpResponse, Disposition)
    requires RowsOk(s, now)
  {
    if !Guarded(q) then (s, handler(q), Ran)
    else
      var (begun, outcome) := Begin(cfg, s, now, SlotOf(q), q.path, codec.hash(q.body));
      match outcome
      case Replay(r) => (begun, ReplayOf(codec, r.response.value), Repeated)
      case Fresh(r) =>
        var response := handler(q);
        var saved := if Storable(response.status)
                     then Complete(begun, SlotOf(q), r.pk, Stored(codec, response))
                     else Fail(begun, SlotOf(q), r.pk);
        (saved.value, response, Ran)
      case _ => (begun, ErrorOf(outcome), Rejected)
  }

  lemma CallKeepsRows(cfg: Config, codec: Codec, s: Store, now: int, q: Request, handler: Handler)
    requires RowsOk(s, now)
    ensures RowsOk(Call(cfg, codec, s, now, q, handler).0, now)
  {
  }

  /** What may come between two requests: any other request with its own handler, or the purge. */
  datatype Visit = Ask(elapsed: nat, request: Request, handler: Handler) | Sweep(elapsed: nat)

  function TimeAfter(now: int, visits: seq<Visit>): (at: int)
    ensures now <= at
  {
    if visits == [] then now else TimeAfter(now, visits[..|visits| - 1]) + visits[|visits| - 1].elapsed
  }

  function Visited(cfg: Config, codec: Codec, s: Store, at: int, v: Visit): (t: Store)
    requires RowsOk(s, at)
    ensures RowsOk(t, at)
  {
    match v
    case Ask(_, request, handler) =>
      CallKeepsRows(cfg, codec, s, at, request, handler);
      Call(cfg, codec, s, at, request, handler).0
    case Sweep(_) => Purge(s, at)
  }

  lemma RowsStayOk(s: Store, now: int, later: int)
    requires RowsOk(s, now) && now <= later
    ensures RowsOk(s, later)
  {
  }

  /** The table after serving the visits in turn. */
  function Serve(cfg: Config, codec: Codec, s: Store, now: int, visits: seq<Visit>): (t: Store)
    requires RowsOk(s, now)
    ensures RowsOk(t, TimeAfter(now, visits))
  {
    if visits == [] then s
    else
      var t := Serve(cfg, codec, s, now, visits[..|visits| - 1]);
      RowsStayOk(t, TimeAfter(now, visits[..|visits| - 1]), TimeAfter(now, visits));
      Visited(cfg, codec, t, TimeAfter(now, visits), visits[|visits| - 1])
  }

  /** No purge among the visits runs later than this instant. */
  predicate NoPurgeAfter(expiresAt: int, now: int, visits: seq<Visit>) {
    visits != [] ==>
      && NoPurgeAfter(expiresAt, now, visits[..|visits| - 1])
      && (visits[|visits| - 1].Sweep? ==> TimeAfter(now, visits) <= expiresAt)
  }

  lemma CallKeepsAnswer(cfg: Config, codec: Codec, s: Store, now: int, q: Request, handler: Handler, slot: Slot)
    requires RowsOk(s, now)
    ensures
      var t := Call(cfg, codec, s, now, q, handler).0;
      && s.nextPk <= t.nextPk
      && (Answered?(s, slot) ==> slot in t.rows && t.rows[slot] == s.rows[slot])
      && (slot in t.rows ==> t.rows[slot].pk >= s.nextPk || HasRow(s, slot, t.rows[slot].pk))
  {
  }

  /** A stored answer stays, as it is, exactly until a purge runs after its expiry. */
  lemma {:induction false} VisitsKeepAnswer(cfg: Config, codec: Codec, s: Store, now: int, visits: seq<Visit>, slot: Slot)
    requires RowsOk(s, now) && Answered?(s, slot)
    ensures
      var t := Serve(cfg, codec, s, now, visits);
      && s.nextPk <= t.nextPk
      && (NoPurgeAfter(s.rows[slot].expiresAt, now, visits) ==> slot in t.rows && t.rows[slot] == s.rows[slot])
      && (!NoPurgeAfter(s.rows[slot].expiresAt, now, visits) ==> slot in t.rows ==> t.rows[slot].pk >= s.nextPk)
  {
    if visits == [] {
    } else {
      var t := Serve(cfg, codec, s, now, visits[..|visits| - 1]);
      var v := visits[|visits| - 1];
      VisitsKeepAnswer(cfg, codec, s, now, visits[..|visits| - 1], slot);
      if v.Ask? {
        CallKeepsAnswer(cfg, codec, t, TimeAfter(now, visits), v.request, v.handler, slot);
      }
    }
  }

  predicate Repeats(codec: Codec, first: HttpResponse, second: HttpResponse) {
    && second.status == first.status
    && second.content == codec.dump(codec.load(first.content))
    && "Idempotency-Replayed" in second.headers && second.headers["Idempotency-Replayed"] == "true"
    && (forall name :: name in {"Content-Type", "Location", "Retry-After"} && name in first.headers ==>
          name in second.headers && second.headers[name] == first.headers[name])
    && second.headers.Keys <= {"Content-Type", "Location", "Retry-After", "Idempotency-Replayed"}
  }

  /** A request that ran and answered below 500 leaves its answer, to be kept for the retention. */
  lemma RunLeavesAnswer(cfg: Config, codec: Codec, s: Store, now: int, q: Request, h: Handler)
    requires RowsOk(s, now) && Guarded(q)
    requires Call(cfg, codec, s, now, q, h).2 == Ran && Storable(h(q).status)
    ensures
      var (t, first, _) := Call(cfg, codec, s, now, q, h);
      && RowsOk(t, now) && Answered?(t, SlotOf(q))
      && t.rows[SlotOf(q)].response == Some(Stored(codec, first))
      && t.rows[SlotOf(q)].endpoint == q.path && t.rows[SlotOf(q)].requestHash == codec.hash(q.body)
      && t.rows[SlotOf(q)].expiresAt ==
           (if SlotOf(q) in s.rows then s.rows[SlotOf(q)].expiresAt else now + cfg.retention)
  {
    CallKeepsRows(cfg, codec, s, now, q, h);
  }

  lemma KeptAnswerRepeats(cfg: Config, codec: Codec, u: Store, at: int, q: Request, h: Handler, first: HttpResponse)
    requires RowsOk(u, at) && Guarded(q) && Answered?(u, SlotOf(q))
    requires u.rows[SlotOf(q)].response == Some(Stored(codec, first))
    requires u.rows[SlotOf(q)].endpoint == q.path && u.rows[SlotOf(q)].requestHash == codec.hash(q.body)
    ensures
      var (v, second, fate) := Call(cfg, codec, u, at, q, h);
      fate == Repeated && v == u && Repeats(codec, first, second)
  {
  }

  /**
   Repeating a request that ran and answered below 500, after any other requests and purges and
   with any handler: it is answered from that run, with the same status, the kept headers and the
   re-encoded body, exactly if no purge in between ran later than the record's expiry. Otherwise
   the record is gone, and unless a later request took the key, the handler runs again.
   */
  lemma RetryIsReplayedExactly(cfg: Config, codec: Codec, s: Store, now: int, q: Request, h1: Handler,
                               visits: seq<Visit>, h2: Handler)
    requires RowsOk(s, now) && Guarded(q)
    requires Call(cfg, codec, s, now, q, h1).2 == Ran && 200 <= h1(q).status < 500
    ensures
      var (t, first, _) := Call(cfg, codec, s, now, q, h1);
      && RowsOk(t, now) && SlotOf(q) in t.rows
      && var u := Serve(cfg, codec, t, now, visits);
         var (v, second, fate) := Call(cfg, codec, u, TimeAfter(now, visits), q, h2);
         var kept := NoPurgeAfter(t.rows[SlotOf(q)].expiresAt, now, visits);
         && (kept <==> HasRow(u, SlotOf(q), t.rows[SlotOf(q)].pk))
         && (kept ==> fate == Repeated && v == u && Repeats(codec, first, second))
         && (!kept && SlotOf(q) !in u.rows ==> fate == Ran && second == h2(q))
  {
    RunLeavesAnswer(cfg, codec, s, now, q, h1);
    var t := Call(cfg, codec, s, now, q, h1).0;
    VisitsKeepAnswer(cfg, codec, t, now, visits, SlotOf(q));
    if NoPurgeAfter(t.rows[SlotOf(q)].expiresAt, now, visits) {
      KeptAnswerRepeats(cfg, codec, Serve(cfg, codec, t, now, visits), TimeAfter(now, visits), q, h2, h1(q));
    }
  }

  /** After a server error the record allows an immediate clean retry, whatever its body. */
  lemma ServerErrorIsRetried(cfg: Config, codec: Codec, s: Store, now: int, later: int, q: Request, retry: Request,
                             h1: Handler, h2: Handler)
    requires RowsOk(s, now) && Guarded(q) && now <= later
    requires retry == q.(body := retry.body)
    requires Call(cfg, codec, s, now, q, h1).2 == Ran && !(200 <= h1(q).status < 500)
    ensures
      var t := Call(cfg, codec, s, now, q, h1).0;
      && RowsOk(t, later)
      && Call(cfg, codec, t, later, retry, h2).2 == Ran
      && Call(cfg, codec, t, later, retry, h2).1 == h2(retry)
  {
    CallKeepsRows(cfg, codec, s, now, q, h1);
  }

  /** A key never replays one endpoint's answer, nor one user's, to another. */
  lemma ReplayStaysInScope(cfg: Config, codec: Codec, s: Store, now: int, q: Request, handler: Handler)
    requires RowsOk(s, now) && Guarded(q)
    requires Call(cfg, codec, s, now, q, handler).2 == Repeated
    ensures
      && Answered?(s, SlotOf(q))
      && s.rows[SlotOf(q)].endpoint == q.path
      && s.rows[SlotOf(q)].requestHash == codec.hash(q.body)
      && Call(cfg, codec, s, now, q, handler).1 == ReplayOf(codec, s.rows[SlotOf(q)].response.value)
  {
  }

  /** The key's request is still in progress at this path, within the guard. */
  predicate InProgressHere(cfg: Config, s: Store, now: int, slot: Slot, path: string) {
    && slot in s.rows && s.rows[slot].endpoint == path
    && s.rows[slot].status == InProgress && now <= s.rows[slot].lockedAt + cfg.guard
  }

  /** The key belongs to another path, or was answered for another body. */
  predicate KeyReused(s: Store, slot: Slot, path: string, hash: string) {
    && slot in s.rows
    && (s.rows[slot].endpoint != path || (s.rows[slot].status == Completed && s.rows[slot].requestHash != hash))
  }

  predicate AnswerFor(s: Store, slot: Slot, path: string, hash: string) {
    slot in Answers(s) && Answers(s)[slot].endpoint == path && Answers(s)[slot].hash == hash
  }

  /** The row after a run: answered if the status is from 200 to 499, failed otherwise. */
  predicate RanRow(cfg: Config, codec: Codec, s: Store, now: int, slot: Slot, q: Request, response: HttpResponse,
                   r: Record)
  {
    && r.endpoint == q.path && r.requestHash == codec.hash(q.body) && r.lockedAt == now
    && r.expiresAt == (if slot in s.rows then s.rows[slot].expiresAt else now + cfg.retention)
    && (if 200 <= response.status < 500
        then
          && r.status == Completed && r.response.Some?
          && r.response.value.status == response.status && r.response.value.body == codec.load(response.content)
          && r.response.value.headers ==
               map name | name in response.headers && name in {"Content-Type", "Location", "Retry-After"}
               :: response.headers[name]
        else r.status == Failed && r.response == (if slot in s.rows then s.rows[slot].response else None))
  }

  /**
   What becomes of a guarded request is told by the stored row: a conflict with the one in progress,
   a refused reuse of the key, a replay, or a run whose answer is stored if its status allows.
   */
  lemma CallTellsExactly(cfg: Config, codec: Codec, s: Store, now: int, q: Request, handler: Handler)
    requires RowsOk(s, now) && q.user.Some? && q.key != "" && q.verb in {"POST", "PUT", "PATCH", "DELETE"}
    ensures
      var slot := Slot(q.user.value, q.key);
      var (t, response, fate) := Call(cfg, codec, s, now, q, handler);
      && (fate == Rejected <==>
            InProgressHere(cfg, s, now, slot, q.path) || KeyReused(s, slot, q.path, codec.hash(q.body)))
      && (fate == Rejected ==>
            t == s && response == if InProgressHere(cfg, s, now, slot, q.path)
                                  then HttpResponse(409, "REQUEST_IN_PROGRESS", map[])
                                  else HttpResponse(422, "IDEMPOTENCY_KEY_REUSE", map[]))
      && (fate == Repeated <==> AnswerFor(s, slot, q.path, codec.hash(q.body)))
      && (fate == Repeated ==>
            var stored := s.rows[slot].response.value;
            && t == s && response.status == stored.status && response.content == codec.dump(stored.body)
            && response.headers == map["Content-Type" := "application/json"] + stored.headers
                                   + map["Idempotency-Replayed" := "true"])
      && (fate == Ran ==>
            && response == handler(q) && slot in t.rows && t.rows == s.rows[slot := t.rows[slot]]
            && RanRow(cfg, codec, s, now, slot, q, response, t.rows[slot]))
  {
    if Call(cfg, codec, s, now, q, handler).2 == Ran {
      KeptIsLiteral(handler(q).headers);
    }
  }

  lemma KeptIsLiteral(headers: map<string, string>)
    ensures Kept(headers) == map name | name in headers && name in {"Content-Type", "Location", "Retry-After"} :: headers[name]
  {
  }

  class Middleware {
    const service: IdempotencyService
    const codec: Codec
    ghost var runs: nat

    constructor (service: IdempotencyService, codec: Codec)
      ensures this.service == service && this.codec == codec && runs == 0
    {
      this.service := service;
      this.codec := codec;
      this.runs := 0;
    }

    method KeptHeaders(response: HttpResponse) returns (kept: map<string, string>)
      ensures kept == Kept(response.headers)
      ensures kept.Keys == {"Content-Type", "Location", "Retry-After"} * response.headers.Keys
      ensures forall name :: name in kept ==> kept[name] == response.headers[name]
    {
      kept := map[];
      var i := 0;
      while i < |REPLAYABLE|
        invariant 0 <= i <= |REPLAYABLE|
        invariant kept == map name | name in response.headers && name in REPLAYABLE[..i] :: response.headers[name]
      {
        var name := REPLAYABLE[i];
        if name in response.headers {
          kept := kept[name := response.headers[name]];
        }
        i := i + 1;
      }
      assert REPLAYABLE[..i] == REPLAYABLE;
    }

    method CopiedHeaders(stored: map<string, string>) returns (headers: map<string, string>)
      ensures headers == map["Content-Type" := "application/json"] + stored
    {
      headers := map["Content-Type" := "application/json"];
      var rest := stored.Keys;
      while rest != {}
        invariant rest <= stored.Keys
        invariant headers ==
                  map["Content-Type" := "application/json"] + map name | name in stored && name !in rest :: stored[name]
        decreases rest
      {
        var name :| name in rest;
        headers := headers[name := stored[name]];
        rest := rest - {name};
      }
      assert stored == map name | name in stored && name !in rest :: stored[name];
    }

    method Conclude(done: int, ghost id: nat, slot: Slot, pk: nat, response: HttpResponse)
      requires service.Valid() && service.Seen().now <= done && HasRow(service.View(), slot, pk)
      requires IsRunning(service.Seen(), id)
      requires service.Seen().executions[id].slot == slot && service.Seen().executions[id].pk == pk
      modifies service
      ensures service.Valid() && old(service.history) <= service.history
      ensures Some(service.View()) ==
              if Storable(response.status) then Complete(old(service.View()), slot, pk, Stored(codec, response))
              else Fail(old(service.View()), slot, pk)
    {
      var payload := codec.load(response.content);
      if 200 <= response.status < 500 {
        var headers := KeptHeaders(response);
        var _ := service.CompleteRequest(done, id, slot, pk, Response(response.status, payload, headers));
      } else {
        var _ := service.FailRequest(done, id, slot, pk, Response(response.status, payload, map[]));
      }
    }

    method ReplayedResponse(stored: Response) returns (response: HttpResponse)
      ensures response == ReplayOf(codec, stored)
    {
      var headers := CopiedHeaders(stored.headers);
      headers := headers[MARKER := "true"];
      return HttpResponse(stored.status, codec.dump(stored.body), headers);
    }

    /** The handler's answer comes at `done`; only its time differs from the begin step's. */
    method Handle(now: int, done: int, request: Request, getResponse: Handler) returns (response: HttpResponse)
      requires service.Valid() && service.Seen().now <= now <= done
      modifies this, service
      ensures service.Valid() && old(service.history) <= service.history
      ensures RowsOk(old(service.View()), now)
      ensures
        var (s, r, fate) := Call(service.cfg, codec, old(service.View()), now, request, getResponse);
        && service.View() == s && response == r
        && runs == old(runs) + if fate == Ran then 1 else 0
      ensures request.verb !in {"POST", "PUT", "PATCH", "DELETE"} || request.key == "" || request.user.None? ==>
                response == getResponse(request) && runs == old(runs) + 1 && service.View() == old(service.View())
      ensures request.verb in {"POST", "PUT", "PATCH", "DELETE"} && request.key != "" && request.user.Some? ==>
                var slot, s := Slot(request.user.value, request.key), old(service.View());
                var inProgress := InProgressHere(service.cfg, s, now, slot, request.path);
                var reused := KeyReused(s, slot, request.path, codec.hash(request.body));
                var answered := AnswerFor(s, slot, request.path, codec.hash(request.body));
                && (inProgress ==> response == HttpResponse(409, "REQUEST_IN_PROGRESS", map[]))
                && (reused ==> response == HttpResponse(422, "IDEMPOTENCY_KEY_REUSE", map[]))
                && (answered ==>
                      && response.status == Answers(s)[slot].response.status
                      && response.content == codec.dump(Answers(s)[slot].response.body)
                      && response.headers == map["Content-Type" := "application/json"] + Answers(s)[slot].response.headers
                                             + map["Idempotency-Replayed" := "true"])
                && (if inProgress || reused || answered then service.View() == s && runs == old(runs)
                    else
                      && response == getResponse(request) && runs == old(runs) + 1
                      && slot in service.rows && service.rows == s.rows[slot := service.rows[slot]]
                      && RanRow(service.cfg, codec, s, now, slot, request, response, service.rows[slot]))
    {
      if Guarded(request) {
        CallTellsExactly(service.cfg, codec, service.View(), now, request, getResponse);
      }
      if request.verb !in ["POST", "PUT", "PATCH", "DELETE"] || request.key == "" {
        runs := runs + 1;
        return getResponse(request);
      }
      if request.user.None? {
        runs := runs + 1;
        return getResponse(request);
      }

      var slot := Slot(request.user.value, request.key);
      ghost var id := |service.Seen().executions|;
      var outcome := service.BeginRequest(now, slot, request.path, codec.hash(request.body));
      if !outcome.Fresh? && !outcome.Replay? {
        return ErrorOf(outcome);
      }

      if outcome.Replay? {
        response := ReplayedResponse(outcome.record.response.value);
        return;
      }

      runs := runs + 1;
      response := getResponse(request);
      Conclude(done, id, slot, outcome.record.pk, response);
    }
  }
}
