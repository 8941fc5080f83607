/**
 The response interceptor of one browser tab: callers' requests, the shared refresh promise and
 the single replay. Network answers, the refresh's outcome and the resumption of each awaiting
 request are separate steps in any order.
 */
module HttpReplay {
  import opened Prelude

  /** What reaches a waiting request: a token, an error worth reporting as such, or any other error. */
  datatype RefreshResult = Token(value: string) | Transient | Refused

  /** How the server or the network answers a request; `access` is the token in a refresh's payload. */
  datatype Answer =
    | Success(access: string)
    | Unauthorized
    | InvalidSession
    | NetworkOrServerError
    | OtherError

  /** A rejected request reports its own error, or the refresh's when that one was transient. */
  datatype Cause = OwnError(transient: bool) | RefreshError

  datatype Phase = InFlight | Waiting(promise: nat) | Resolved(access: string) | Rejected(cause: Cause)

  /** A request with the access token, one that skips the refresh, such as a login, or the refresh's own. */
  datatype Kind = Authorized | Skipping | OwnRefresh

  datatype Call = Call(phase: Phase, kind: Kind, retried: bool, sends: nat, bearer: Option<string>) {
    /** The mark that tells the interceptor to let an error pass. */
    predicate Skips() {
      kind != Authorized
    }
  }

  /**
   `refreshing` is the module's `refreshPromise`; `outstanding` the refreshes truly running;
   `posted` names the request that each refresh has sent.
   */
  datatype Tab = Tab(
    calls: map<nat, Call>,
    accessToken: Option<string>,
    refreshing: Option<nat>,
    outstanding: set<nat>,
    posted: map<nat, nat>,
    settled: map<nat, RefreshResult>,
    started: nat,
    invalidations: nat)

  datatype Action =
    | Send(id: nat, skip: bool)
    | PostRefresh(id: nat)
    | Respond(id: nat, answer: Answer)
    | SettleRefresh
    | Resume(id: nat)

  const INITIAL := Tab(map[], None, None, {}, map[], map[], 0, 0)

  function Invalidated(t: Tab): Tab {
    t.(accessToken := None, invalidations := t.invalidations + 1)
  }

  function WithPhase(t: Tab, id: nat, phase: Phase): Tab
    requires id in t.calls
  {
    t.(calls := t.calls[id := t.calls[id].(phase := phase)])
  }

  /** `refreshAccessTokenOnce`: join the running refresh or start one. */
  function JoinRefresh(t: Tab): (Tab, nat) {
    match t.refreshing
    case Some(promise) => (t, promise)
    case None =>
      (t.(refreshing := Some(t.started), outstanding := t.outstanding + {t.started}, started := t.started + 1),
       t.started)
  }

  function OnUnauthorized(t: Tab, id: nat): Tab
    requires id in t.calls
  {
    if t.calls[id].retried then WithPhase(Invalidated(t), id, Rejected(OwnError(false)))
    else
      var (joined, promise) := JoinRefresh(t);
      joined.(calls := joined.calls[id := joined.calls[id].(retried := true, phase := Waiting(promise))])
  }

  /** The interceptor's branch for a request that skips the refresh. */
  function OnSkippedError(t: Tab, id: nat, answer: Answer): Tab
    requires id in t.calls
  {
    var ended := t.calls[id].kind == OwnRefresh && (answer.Unauthorized? || answer.InvalidSession?);
    var seen := if ended then Invalidated(t) else t;
    WithPhase(seen, id, Rejected(OwnError(answer.NetworkOrServerError?)))
  }

  /** The response interceptor, the same for callers' requests and the refresh's own. */
  function OnAnswer(t: Tab, id: nat, answer: Answer): Tab
    requires id in t.calls
  {
    if answer.Success? then WithPhase(t, id, Resolved(answer.access))
    else if t.calls[id].Skips() then OnSkippedError(t, id, answer)
    else if answer.InvalidSession? then WithPhase(Invalidated(t), id, Rejected(OwnError(false)))
    else if answer.Unauthorized? then OnUnauthorized(t, id)
    else WithPhase(t, id, Rejected(OwnError(answer.NetworkOrServerError?)))
  }

  predicate Over(p: Phase) {
    p.Resolved? || p.Rejected?
  }

  /** `performTokenRefresh` once its request is over. */
  function OnRefreshOver(t: Tab, p: Phase): (Tab, RefreshResult)
    requires Over(p)
  {
    match p
    case Resolved(access) =>
      if access != "" then (t.(accessToken := Some(access)), Token(access)) else (Invalidated(t), Refused)
    case Rejected(cause) => (t, if cause == OwnError(true) then Transient else Refused)
  }

  predicate Enabled(t: Tab, a: Action) {
    match a
    case Send(id, _) => id !in t.calls
    case PostRefresh(id) => id !in t.calls && t.refreshing.Some? && t.refreshing.value !in t.posted
    case Respond(id, _) => id in t.calls && t.calls[id].phase.InFlight?
    case SettleRefresh =>
      && t.refreshing.Some? && t.refreshing.value in t.posted
      && t.posted[t.refreshing.value] in t.calls && Over(t.calls[t.posted[t.refreshing.value]].phase)
    case Resume(id) => id in t.calls && t.calls[id].phase.Waiting? && t.calls[id].phase.promise in t.settled
  }

  function Step(t: Tab, a: Action): Tab
    requires Enabled(t, a)
  {
    match a
    case Send(id, skip) =>
      var call := if skip then Call(InFlight, Skipping, false, 1, None) else Call(InFlight, Authorized, false, 1, t.accessToken);
      t.(calls := t.calls[id := call])
    case PostRefresh(id) =>
      t.(calls := t.calls[id := Call(InFlight, OwnRefresh, false, 1, None)], posted := t.posted[t.refreshing.value := id])
    case Respond(id, answer) => OnAnswer(t, id, answer)
    case SettleRefresh =>
      var promise := t.refreshing.value;
      var (after, result) := OnRefreshOver(t, t.calls[t.posted[promise]].phase);
      after.(refreshing := None, outstanding := after.outstanding - {promise},
             settled := after.settled[promise := result])
    case Resume(id) =>
      var call := t.calls[id];
      match t.settled[call.phase.promise]
      case Token(token) =>
        var bearer := if t.accessToken.Some? then t.accessToken else Some(token);
        t.(calls := t.calls[id := call.(phase := InFlight, sends := call.sends + 1, bearer := bearer)])
      case Transient => WithPhase(t, id, Rejected(RefreshError))
      case Refused => WithPhase(t, id, Rejected(OwnError(false)))
  }

  function After(run: seq<Action>): Option<Tab> {
    if run == [] then Some(INITIAL)
    else
      var before := After(run[..|run| - 1]);
      var a := run[|run| - 1];
      if before.Some? && Enabled(before.value, a) then Some(Step(before.value, a)) else None
  }

  // ---- what every run keeps ----

  function Retried(t: Tab): set<nat> {
    set id | id in t.calls && t.calls[id].retried
  }

  predicate CallOk(t: Tab, c: Call) {
    && 1 <= c.sends <= 2
    && (c.phase.Waiting? ==> c.retried && c.sends == 1)
    && (!c.retried ==> c.sends == 1)
    && (c.phase.InFlight? && c.retried ==> c.sends == 2)
    && (c.phase.Waiting? ==> c.phase.promise in t.settled || t.refreshing == Some(c.phase.promise))
    && (c.Skips() ==> !c.retried)
  }

  predicate CallsOk(t: Tab) {
    forall id :: id in t.calls ==> CallOk(t, t.calls[id])
  }

  predicate PromisesOk(t: Tab) {
    && t.outstanding == (if t.refreshing.Some? then {t.refreshing.value} else {})
    && (forall promise :: promise in t.settled ==> promise < t.started && t.refreshing != Some(promise))
    && (t.refreshing.Some? ==> t.refreshing.value < t.started)
  }

  predicate PostedOk(t: Tab) {
    forall promise :: promise in t.posted ==>
      promise < t.started && t.posted[promise] in t.calls && t.calls[t.posted[promise]].kind == OwnRefresh
  }

  predicate Inv(t: Tab) {
    CallsOk(t) && PromisesOk(t) && PostedOk(t) && t.started <= |Retried(t)|
  }

  lemma RetriedGrows(t: Tab, t': Tab, id: nat)
    requires id in t.calls && !t.calls[id].retried && t'.calls.Keys == t.calls.Keys && t'.calls[id].retried
    requires forall other :: other in t.calls && other != id ==> t'.calls[other] == t.calls[other]
    ensures |Retried(t')| == |Retried(t)| + 1
  {
    assert Retried(t') == Retried(t) + {id};
  }

  /** What an answer may touch: one call, the token, and a refresh it starts; it settles nothing. */
  predicate OnlyTouches(t: Tab, u: Tab, id: nat)
    requires id in t.calls && id in u.calls
  {
    && u.calls == t.calls[id := u.calls[id]]
    && u.calls[id].kind == t.calls[id].kind && u.calls[id].sends == t.calls[id].sends
    && u.settled == t.settled && u.posted == t.posted
    && (u.accessToken == t.accessToken || u.accessToken.None?)
    && (SameRefresh(t, u) || StartedRefresh(t, u))
  }

  predicate SameRefresh(t: Tab, u: Tab) {
    u.refreshing == t.refreshing && u.outstanding == t.outstanding && u.started == t.started
  }

  predicate StartedRefresh(t: Tab, u: Tab) {
    && t.refreshing.None? && u.refreshing == Some(t.started)
    && u.outstanding == t.outstanding + {t.started} && u.started == t.started + 1
  }

  lemma UnauthorizedTouches(t: Tab, id: nat)
    requires id in t.calls
    ensures id in OnUnauthorized(t, id).calls && OnlyTouches(t, OnUnauthorized(t, id), id)
  {
    var u := OnUnauthorized(t, id);
    assert SameRefresh(t, u) || StartedRefresh(t, u);
  }

  lemma AnswerTouches(t: Tab, id: nat, answer: Answer)
    requires id in t.calls
    ensures id in OnAnswer(t, id, answer).calls && OnlyTouches(t, OnAnswer(t, id, answer), id)
  {
    UnauthorizedTouches(t, id);
  }

  /** A promise stays awaited until it is settled, and settled promises stay. */
  lemma PromisesLast(t: Tab, a: Action, p: nat)
    requires Enabled(t, a) && (p in t.settled || t.refreshing == Some(p))
    ensures p in Step(t, a).settled || Step(t, a).refreshing == Some(p)
  {
    if a.Respond? {
      AnswerTouches(t, a.id, a.answer);
    }
  }

  lemma OthersStay(t: Tab, a: Action, id: nat)
    requires Enabled(t, a) && id in t.calls && !((a.Respond? || a.Resume?) && a.id == id)
    ensures id in Step(t, a).calls && Step(t, a).calls[id] == t.calls[id]
  {
    if a.Respond? {
      AnswerTouches(t, a.id, a.answer);
    }
  }

  lemma TouchedCallOk(t: Tab, a: Action)
    requires Enabled(t, a) && (a.Respond? || a.Resume?) && CallOk(t, t.calls[a.id])
    ensures CallOk(Step(t, a), Step(t, a).calls[a.id])
  {
  }

  lemma NewCallOk(t: Tab, a: Action)
    requires Enabled(t, a) && (a.Send? || a.PostRefresh?)
    ensures CallOk(Step(t, a), Step(t, a).calls[a.id])
    ensures Step(t, a).calls.Keys == t.calls.Keys + {a.id}
  {
  }

  lemma StepKeepsCalls(t: Tab, a: Action)
    requires CallsOk(t) && Enabled(t, a)
    ensures CallsOk(Step(t, a))
  {
    var t' := Step(t, a);
    if a.Respond? {
      AnswerTouches(t, a.id, a.answer);
    }
    forall id | id in t'.calls
      ensures CallOk(t', t'.calls[id])
    {
      if id !in t.calls {
        NewCallOk(t, a);
      } else if (a.Respond? || a.Resume?) && a.id == id {
        TouchedCallOk(t, a);
      } else {
        OthersStay(t, a, id);
        if t.calls[id].phase.Waiting? {
          PromisesLast(t, a, t.calls[id].phase.promise);
        }
      }
    }
  }

  lemma StepKeepsPromises(t: Tab, a: Action)
    requires PromisesOk(t) && Enabled(t, a)
    ensures PromisesOk(Step(t, a))
  {
    if a.Respond? {
      AnswerTouches(t, a.id, a.answer);
    }
  }

  lemma StepKeepsPosted(t: Tab, a: Action)
    requires PostedOk(t) && PromisesOk(t) && Enabled(t, a)
    ensures PostedOk(Step(t, a))
  {
    if a.Respond? {
      AnswerTouches(t, a.id, a.answer);
    }
  }

  lemma StepKeepsBudget(t: Tab, a: Action)
    requires t.started <= |Retried(t)| && Enabled(t, a)
    ensures Step(t, a).started <= |Retried(Step(t, a))|
  {
    var t' := Step(t, a);
    if a.Respond? && a.answer.Unauthorized? && !t.calls[a.id].Skips() && !t.calls[a.id].retried {
      RetriedGrows(t, t', a.id);
    } else {
      assert Retried(t') == Retried(t);
    }
  }

  lemma {:induction false} RunKeepsInv(run: seq<Action>)
    requires After(run).Some?
    ensures Inv(After(run).value)
  {
    if run == [] {
    } else {
      var t, a := After(run[..|run| - 1]).value, run[|run| - 1];
      RunKeepsInv(run[..|run| - 1]);
      StepKeepsCalls(t, a);
      StepKeepsPromises(t, a);
      StepKeepsPosted(t, a);
      StepKeepsBudget(t, a);
    }
  }

  // ---- main results ----

  /** Each request is sent at most twice, refreshes run one at a time and at most one per request. */
  predicate Bounded(t: Tab) {
    && (forall id :: id in t.calls ==> 1 <= t.calls[id].sends <= 2)
    && |t.outstanding| <= 1
    && t.started <= |Refreshable(t)|
  }

  /** The requests that may ask for a refresh. */
  function Refreshable(t: Tab): set<nat> {
    set id | id in t.calls && !t.calls[id].Skips()
  }

  lemma BoundedReplay(run: seq<Action>)
    requires After(run).Some?
    ensures Bounded(After(run).value)
  {
    var t := After(run).value;
    RunKeepsInv(run);
    forall id | id in t.calls
      ensures 1 <= t.calls[id].sends <= 2
    {
      assert CallOk(t, t.calls[id]);
    }
    forall id | id in Retried(t)
      ensures id in Refreshable(t)
    {
      assert CallOk(t, t.calls[id]);
    }
    SubsetSize(Retried(t), Refreshable(t));
  }

  lemma {:induction false} SubsetSize(small: set<nat>, large: set<nat>)
    requires small <= large
    ensures |small| <= |large|
  {
    if small == {} {
    } else {
      var x :| x in small;
      SubsetSize(small - {x}, large - {x});
    }
  }

  /** All requests awaiting a refresh that is still running await the same one. */
  lemma SingleFlight(run: seq<Action>, a: nat, b: nat)
    requires After(run).Some?
    requires var t := After(run).value;
             && a in t.calls && b in t.calls && t.calls[a].phase.Waiting? && t.calls[b].phase.Waiting?
             && t.calls[a].phase.promise !in t.settled && t.calls[b].phase.promise !in t.settled
    ensures After(run).value.calls[a].phase == After(run).value.calls[b].phase
    ensures After(run).value.outstanding == {After(run).value.calls[a].phase.promise}
  {
    RunKeepsInv(run);
    var t := After(run).value;
    assert CallOk(t, t.calls[a]) && CallOk(t, t.calls[b]);
  }

  predicate StartsRefresh(t: Tab, id: nat, answer: Answer)
    requires id in t.calls
  {
    answer.Unauthorized? && !t.calls[id].Skips() && t.calls[id].sends == 1 && t.outstanding == {}
  }

  /** Only the first 401 of a caller's request, with no refresh running, starts one. */
  lemma WhatStartsARefresh(run: seq<Action>, a: Action)
    requires After(run).Some? && Enabled(After(run).value, a)
    ensures
      var t := After(run).value;
      Step(t, a).started ==
        t.started + (if a.Respond? && StartsRefresh(t, a.id, a.answer) then 1 else 0)
  {
    RunKeepsInv(run);
    var t := After(run).value;
    if a.Respond? {
      assert CallOk(t, t.calls[a.id]);
    }
  }

  /**
   However the refresh's own request is answered, it neither joins nor starts a refresh; it never
   waits, so a running refresh always has a next step and no promise waits for itself.
   */
  lemma RefreshNeverWaits(run: seq<Action>, answer: Answer)
    requires After(run).Some? && After(run).value.refreshing.Some?
    ensures
      var t := After(run).value;
      var p := t.refreshing.value;
      p in t.posted ==>
        && t.posted[p] in t.calls
        && var id := t.posted[p];
           if Over(t.calls[id].phase) then Enabled(t, SettleRefresh)
           else
             && Enabled(t, Respond(id, answer))
             && var u := Step(t, Respond(id, answer));
                && Over(u.calls[id].phase) && Enabled(u, SettleRefresh)
                && u.refreshing == t.refreshing && u.outstanding == t.outstanding && u.started == t.started
                && forall other :: other in t.calls && other != id ==> u.calls[other] == t.calls[other]
    ensures After(run).value.refreshing.value !in After(run).value.posted ==>
              forall id :: id !in After(run).value.calls ==> Enabled(After(run).value, PostRefresh(id))
  {
    RunKeepsInv(run);
    var t := After(run).value;
    if t.refreshing.value in t.posted {
      assert CallOk(t, t.calls[t.posted[t.refreshing.value]]);
    }
  }

  /** Without the skip the refresh's own 401 would make it wait for its own promise. */
  lemma SkipIsNeeded(run: seq<Action>)
    requires After(run).Some? && After(run).value.refreshing.Some?
    requires After(run).value.refreshing.value in After(run).value.posted
    ensures
      var t := After(run).value;
      var p := t.refreshing.value;
      t.posted[p] in t.calls && OnUnauthorized(t, t.posted[p]).calls[t.posted[p]].phase == Waiting(p)
  {
    RunKeepsInv(run);
    var t := After(run).value;
    assert CallOk(t, t.calls[t.posted[t.refreshing.value]]);
  }

  /** The access token in memory is the one the latest successful refresh granted. */
  ghost predicate TokenIsLatest(t: Tab) {
    t.accessToken.Some? ==>
      exists p ::
        && p in t.settled
        && t.settled[p] == Token(t.accessToken.value)
        && forall q :: q in t.settled && t.settled[q].Token? ==> q <= p
  }

  ghost predicate PromisesInOrder(t: Tab) {
    t.refreshing.Some? ==> forall q :: q in t.settled ==> q < t.refreshing.value
  }

  lemma SettleKeepsToken(t: Tab)
    requires Enabled(t, SettleRefresh) && TokenIsLatest(t) && PromisesInOrder(t)
    ensures TokenIsLatest(Step(t, SettleRefresh)) && PromisesInOrder(Step(t, SettleRefresh))
  {
    var t', p := Step(t, SettleRefresh), t.refreshing.value;
    if t'.settled[p].Token? {
      assert t'.settled[p] == Token(t'.accessToken.value);
    } else if t'.accessToken.Some? {
      var q :| q in t.settled && t.settled[q] == Token(t.accessToken.value)
               && forall r :: r in t.settled && t.settled[r].Token? ==> r <= q;
      assert q in t'.settled && t'.settled[q] == t.settled[q];
    }
  }

  lemma OthersKeepToken(t: Tab, a: Action)
    requires Enabled(t, a) && !a.SettleRefresh? && PromisesOk(t) && TokenIsLatest(t) && PromisesInOrder(t)
    ensures TokenIsLatest(Step(t, a)) && PromisesInOrder(Step(t, a))
  {
    if a.Respond? {
      AnswerTouches(t, a.id, a.answer);
    }
  }

  lemma {:induction false} RunKeepsToken(run: seq<Action>)
    requires After(run).Some?
    ensures TokenIsLatest(After(run).value) && PromisesInOrder(After(run).value)
  {
    if run == [] {
    } else {
      var t, a := After(run[..|run| - 1]).value, run[|run| - 1];
      RunKeepsToken(run[..|run| - 1]);
      RunKeepsInv(run[..|run| - 1]);
      if a.SettleRefresh? {
        SettleKeepsToken(t);
      } else {
        OthersKeepToken(t, a);
      }
    }
  }

  /** The token a replay carries was granted no earlier than by this refresh. */
  ghost predicate FreshBearer(t: Tab, bearer: Option<string>, promise: nat) {
    exists p :: p in t.settled && promise <= p && t.settled[p].Token? && bearer == Some(t.settled[p].value)
  }

  /** A replay never goes out with a token older than the refresh its request waited for. */
  lemma ReplayCarriesFreshToken(run: seq<Action>, id: nat)
    requires After(run).Some? && Enabled(After(run).value, Resume(id))
    requires After(run).value.settled[After(run).value.calls[id].phase.promise].Token?
    ensures
      var t := After(run).value;
      var replay := Step(t, Resume(id)).calls[id];
      && replay.sends == 2
      && FreshBearer(t, replay.bearer, t.calls[id].phase.promise)
  {
    RunKeepsToken(run);
    RunKeepsInv(run);
    var t := After(run).value;
    assert CallOk(t, t.calls[id]);
    if t.accessToken.Some? {
      var p :| p in t.settled && t.settled[p] == Token(t.accessToken.value)
               && forall q :: q in t.settled && t.settled[q].Token? ==> q <= p;
    } else {
      var p := t.calls[id].phase.promise;
      assert t.settled[p].Token?;
    }
  }

  // ---- when the session is lost ----

  /**
   The answers that end the session: "invalid session" to any request but those that merely skip the
   refresh, a 401 to the refresh itself or to a replay, and a refresh whose payload has no token.
   */
  predicate LosesSession(t: Tab, a: Action)
    requires Enabled(t, a)
  {
    match a
    case Respond(id, answer) =>
      || (answer.InvalidSession? && t.calls[id].kind != Skipping)
      || (answer.Unauthorized? && (t.calls[id].kind == OwnRefresh || t.calls[id].sends == 2))
    case SettleRefresh => t.calls[t.posted[t.refreshing.value]].phase == Resolved("")
    case _ => false
  }

  predicate GrantsToken(t: Tab, a: Action)
    requires Enabled(t, a)
  {
    a.SettleRefresh? &&
    var p := t.calls[t.posted[t.refreshing.value]].phase;
    p.Resolved? && p.access != ""
  }

  /** The tokens granted and lost along a run: how often the session ended, and the token still held. */
  function Sessions(run: seq<Action>): (nat, Option<string>)
    requires After(run).Some?
  {
    if run == [] then (0, None)
    else
      var t, a := After(run[..|run| - 1]).value, run[|run| - 1];
      var (lost, token) := Sessions(run[..|run| - 1]);
      if LosesSession(t, a) then (lost + 1, None)
      else if GrantsToken(t, a) then (lost, Some(t.calls[t.posted[t.refreshing.value]].phase.access))
      else (lost, token)
  }

  lemma StepTellsSession(t: Tab, a: Action)
    requires Enabled(t, a) && CallsOk(t)
    ensures
      var u := Step(t, a);
      && u.invalidations == t.invalidations + (if LosesSession(t, a) then 1 else 0)
      && u.accessToken == if LosesSession(t, a) then None
                          else if GrantsToken(t, a) then Some(t.calls[t.posted[t.refreshing.value]].phase.access)
                          else t.accessToken
  {
    if a.Respond? {
      assert CallOk(t, t.calls[a.id]);
    }
  }

  /** Over every run the session is reported lost exactly as often as it was, and the token held is the last granted since. */
  lemma {:induction false} SessionTellsRun(run: seq<Action>)
    requires After(run).Some?
    ensures (After(run).value.invalidations, After(run).value.accessToken) == Sessions(run)
  {
    if run == [] {
    } else {
      SessionTellsRun(run[..|run| - 1]);
      RunKeepsInv(run[..|run| - 1]);
      StepTellsSession(After(run[..|run| - 1]).value, run[|run| - 1]);
    }
  }

  /** Every first send of an authorized request carries the token held then; other requests carry none. */
  lemma FirstSendCarriesToken(run: seq<Action>, a: Action)
    requires After(run).Some? && Enabled(After(run).value, a) && (a.Send? || a.PostRefresh?)
    ensures
      var call := Step(After(run).value, a).calls[a.id];
      && call.sends == 1 && call.phase == InFlight && !call.retried
      && call.kind == (if a.PostRefresh? then OwnRefresh else if a.skip then Skipping else Authorized)
      && call.bearer == if call.kind == Authorized then Sessions(run).1 else None
  {
    SessionTellsRun(run);
  }

  // ---- the module's variables ----

  lemma AnswerTold(run: seq<Action>, id: nat, answer: Answer)
    requires After(run).Some? && Enabled(After(run).value, Respond(id, answer))
    ensures
      var t := After(run).value;
      var u, call := OnAnswer(t, id, answer), t.calls[id];
      var refreshes := answer.Unauthorized? && call.kind == Authorized && call.sends == 1;
      && u.calls == t.calls[id := call.(
           retried := call.retried || refreshes,
           phase := if answer.Success? then Resolved(answer.access)
                    else if refreshes then Waiting(if t.refreshing.Some? then t.refreshing.value else t.started)
                    else Rejected(OwnError(answer.NetworkOrServerError?)))]
      && (refreshes ==> u.refreshing == Some(u.calls[id].phase.promise))
      && (!refreshes ==> SameRefresh(t, u))
  {
    RunKeepsInv(run);
    assert CallOk(After(run).value, After(run).value.calls[id]);
  }

  class HttpClient {
    var accessToken: Option<string>
    var refreshPromise: Option<nat>
    var calls: map<nat, Call>
    var posted: map<nat, nat>
    var settled: map<nat, RefreshResult>
    ghost var outstanding: set<nat>
    var started: nat
    var invalidations: nat
    ghost var history: seq<Action>

    ghost function View(): Tab
      reads this
    {
      Tab(calls, accessToken, refreshPromise, outstanding, posted, settled, started, invalidations)
    }

    ghost predicate Valid()
      reads this
    {
      After(history) == Some(View())
    }

    constructor ()
      ensures Valid() && history == []
    {
      accessToken, refreshPromise, calls, posted, settled := None, None, map[], map[], map[];
      outstanding, started, invalidations := {}, 0, 0;
      history := [];
    }

    ghost method Note(a: Action)
      requires Valid() && Enabled(View(), a)
      modifies this`history
      ensures history == old(history) + [a]
      ensures After(history) == Some(Step(View(), a)) && Bounded(Step(View(), a))
    {
      assert (history + [a])[..|history + [a]| - 1] == history;
      history := history + [a];
      BoundedReplay(history);
    }

    method NotifySessionInvalidated()
      modifies this`accessToken, this`invalidations
      ensures View() == Invalidated(old(View()))
      ensures accessToken == None && invalidations == old(invalidations) + 1
    {
      accessToken := None;
      invalidations := invalidations + 1;
    }

    method SendRequest(id: nat, skip: bool)
      requires Valid() && Enabled(View(), Send(id, skip))
      modifies this
      ensures Valid() && history == old(history) + [Send(id, skip)]
      ensures View() == Step(old(View()), Send(id, skip)) && Bounded(View())
      ensures calls == old(calls)[id := if skip then Call(InFlight, Skipping, false, 1, None)
                                        else Call(InFlight, Authorized, false, 1, old(accessToken))]
    {
      Note(Send(id, skip));
      var call := Call(InFlight, if skip then Skipping else Authorized, false, 1, None);
      if !skip {
        call := call.(bearer := accessToken);
      }
      calls := calls[id := call];
    }

    method RefreshAccessTokenOnce() returns (promise: nat)
      modifies this`refreshPromise, this`outstanding, this`started
      ensures (View(), promise) == JoinRefresh(old(View()))
      ensures refreshPromise == Some(promise)
      ensures if old(refreshPromise).Some? then View() == old(View())
              else promise == old(started) && started == promise + 1
    {
      if refreshPromise.None? {
        refreshPromise := Some(started);
        outstanding := outstanding + {started};
        started := started + 1;
      }
      promise := refreshPromise.value;
    }

    /** `performTokenRefresh` up to its await, once the lock is held: its request carries the skip mark. */
    method PerformTokenRefresh(id: nat)
      requires Valid() && Enabled(View(), Action.PostRefresh(id))
      modifies this
      ensures Valid() && history == old(history) + [Action.PostRefresh(id)]
      ensures View() == Step(old(View()), Action.PostRefresh(id)) && Bounded(View())
      ensures calls == old(calls)[id := Call(InFlight, OwnRefresh, false, 1, None)]
      ensures posted == old(posted)[refreshPromise.value := id] && refreshPromise == old(refreshPromise)
    {
      Note(Action.PostRefresh(id));
      calls := calls[id := Call(InFlight, OwnRefresh, false, 1, None)];
      posted := posted[refreshPromise.value := id];
    }

    /**
     The response interceptor up to its await: only the first 401 of a caller's request, with no
     refresh running, starts one, and the refresh's own request never waits.
     */
    method OnResponse(id: nat, answer: Answer)
      requires Valid() && Enabled(View(), Respond(id, answer))
      modifies this
      ensures Valid() && history == old(history) + [Respond(id, answer)]
      ensures View() == Step(old(View()), Respond(id, answer)) && Bounded(View())
      ensures started == old(started) + if StartsRefresh(old(View()), id, answer) then 1 else 0
      ensures old(calls)[id].Skips() ==> Over(calls[id].phase) && refreshPromise == old(refreshPromise)
      ensures
        var call := old(calls)[id];
        var refreshes := answer.Unauthorized? && call.kind == Authorized && call.sends == 1;
        var lost := (answer.InvalidSession? && call.kind != Skipping)
                    || (answer.Unauthorized? && (call.kind == OwnRefresh || call.sends == 2));
        && calls == old(calls)[id := call.(
             retried := call.retried || refreshes,
             phase := if answer.Success? then Resolved(answer.access)
                      else if refreshes then Waiting(if old(refreshPromise).Some? then old(refreshPromise).value else old(started))
                      else Rejected(OwnError(answer.NetworkOrServerError?)))]
        && (refreshes ==> refreshPromise == Some(calls[id].phase.promise))
        && (!refreshes ==> refreshPromise == old(refreshPromise) && started == old(started))
        && accessToken == (if lost then None else old(accessToken))
        && invalidations == old(invalidations) + (if lost then 1 else 0)
    {
      WhatStartsARefresh(history, Respond(id, answer));
      AnswerTold(history, id, answer);
      RunKeepsInv(history);
      StepTellsSession(View(), Respond(id, answer));
      Note(Respond(id, answer));
      Intercept(id, answer);
    }

    method Intercept(id: nat, answer: Answer)
      requires id in calls
      modifies this`calls, this`accessToken, this`invalidations, this`refreshPromise, this`outstanding, this`started
      ensures View() == OnAnswer(old(View()), id, answer)
    {
      var original := calls[id];
      if answer.Success? {
        calls := calls[id := original.(phase := Resolved(answer.access))];
        return;
      }
      if original.Skips() {
        if original.kind == OwnRefresh && (answer.Unauthorized? || answer.InvalidSession?) {
          NotifySessionInvalidated();
        }
        calls := calls[id := original.(phase := Rejected(OwnError(answer.NetworkOrServerError?)))];
        return;
      }
      if answer.InvalidSession? {
        NotifySessionInvalidated();
        calls := calls[id := original.(phase := Rejected(OwnError(false)))];
        return;
      }
      if answer.Unauthorized? && !original.retried {
        original := original.(retried := true);
        var promise := RefreshAccessTokenOnce();
        calls := calls[id := original.(phase := Waiting(promise))];
        return;
      } else if answer.Unauthorized? {
        NotifySessionInvalidated();
      }
      calls := calls[id := original.(phase := Rejected(OwnError(answer.NetworkOrServerError?)))];
    }

    /** `performTokenRefresh` settling, then the `finally` that forgets the promise. */
    method OnRefreshSettled()
      requires Valid() && Enabled(View(), SettleRefresh)
      modifies this
      ensures Valid() && history == old(history) + [SettleRefresh]
      ensures View() == Step(old(View()), SettleRefresh) && Bounded(View())
      ensures started == old(started) && outstanding == {}
      ensures
        var promise := old(refreshPromise).value;
        var own := old(calls)[old(posted)[promise]].phase;
        && refreshPromise == None && calls == old(calls)
        && settled == old(settled)[promise := if own.Resolved? && own.access != "" then Token(own.access)
                                              else if own == Rejected(OwnError(true)) then Transient
                                              else Refused]
        && accessToken == (if own.Rejected? then old(accessToken)
                           else if own.access != "" then Some(own.access) else None)
        && invalidations == old(invalidations) + (if own == Resolved("") then 1 else 0)
    {
      WhatStartsARefresh(history, SettleRefresh);
      RunKeepsInv(history);
      Note(SettleRefresh);
      Settle();
    }

    method Settle()
      requires Enabled(View(), SettleRefresh)
      modifies this`accessToken, this`invalidations, this`refreshPromise, this`outstanding, this`settled
      ensures View() == Step(old(View()), SettleRefresh)
    {
      var promise := refreshPromise.value;
      var result := Refused;
      match calls[posted[promise]].phase {
        case Resolved(access) =>
          if access == "" {
            NotifySessionInvalidated();
          } else {
            accessToken := Some(access);
            result := Token(access);
          }
        case Rejected(cause) =>
          if cause == OwnError(true) {
            result := Transient;
          }
      }
      refreshPromise := None;
      outstanding := outstanding - {promise};
      settled := settled[promise := result];
    }

    /** The interceptor after its await: replay with the new token, or reject. */
    method OnResumed(id: nat)
      requires Valid() && Enabled(View(), Resume(id))
      modifies this
      ensures Valid() && history == old(history) + [Resume(id)]
      ensures View() == Step(old(View()), Resume(id)) && Bounded(View())
      ensures
        var call := old(calls)[id];
        calls == old(calls)[id :=
          match old(settled)[call.phase.promise]
          case Token(token) =>
            call.(phase := InFlight, sends := 2, bearer := if old(accessToken).Some? then old(accessToken) else Some(token))
          case Transient => call.(phase := Rejected(RefreshError))
          case Refused => call.(phase := Rejected(OwnError(false)))]
      ensures (accessToken, refreshPromise, invalidations) == (old(accessToken), old(refreshPromise), old(invalidations))
      ensures old(settled)[old(calls)[id].phase.promise].Token? ==>
                calls[id].sends == 2 && FreshBearer(old(View()), calls[id].bearer, old(calls)[id].phase.promise)
    {
      if settled[calls[id].phase.promise].Token? {
        ReplayCarriesFreshToken(history, id);
      }
      Note(Resume(id));
      var original := calls[id];
      match settled[original.phase.promise] {
        case Token(token) =>
          var bearer := Some(token);
          if accessToken.Some? {
            bearer := accessToken;
          }
          calls := calls[id := original.(phase := InFlight, sends := original.sends + 1, bearer := bearer)];
        case Transient =>
          calls := calls[id := original.(phase := Rejected(RefreshError))];
        case Refused =>
          calls := calls[id := original.(phase := Rejected(OwnError(false)))];
      }
    }
  }
}
