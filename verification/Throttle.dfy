/**
 The fixed-window rate limit over a shared cache. Time is counted in ticks, `unit` of them per
 second, so any clock resolution is covered. A request reads the clock, tries `add`, and if the
 bucket already exists does `incr`; other requests and the clock may run in between.
 */
module Throttle {
  import opened Prelude

  /** `limit` requests per `seconds`. */
  datatype Rate = Rate(limit: nat, seconds: nat, unit: nat) {
    predicate Valid() {
      seconds > 0 && unit > 0
    }

    /** The window's length in ticks. */
    function Span(): (n: nat)
      requires Valid()
      ensures n > 0
    {
      assert seconds * unit > 0;
      seconds * unit
    }

    function Window(now: nat): nat
      requires Valid()
    {
      now / Span()
    }

    function Remaining(now: nat): nat
      requires Valid()
    {
      Span() - now % Span()
    }

    /** Whole seconds, as the cache takes them. */
    function Timeout(now: nat): nat
      requires Valid()
    {
      var whole := Remaining(now) / unit + 1;
      if whole < 1 then 1 else whole
    }
  }

  datatype Bucket = Bucket(count: nat, expiresAt: nat)

  datatype Decision = Decision(readAt: nat, window: nat, count: nat)

  /** `failedAdd` is true between an unsuccessful `add` and the `incr`. */
  datatype Pending = Pending(readAt: nat, failedAdd: bool)

  datatype State = State(now: nat, cache: map<nat, Bucket>, pending: map<nat, Pending>, log: seq<Decision>)

  datatype Action = Tick(elapsed: nat) | Read(id: nat) | TryAdd(id: nat) | Increment(id: nat)

  const INITIAL := State(0, map[], map[], [])

  predicate Live(cache: map<nat, Bucket>, w: nat, now: nat) {
    w in cache && now < cache[w].expiresAt
  }

  predicate Enabled(s: State, a: Action) {
    match a
    case Tick(_) => true
    case Read(id) => id !in s.pending
    case TryAdd(id) => id in s.pending && !s.pending[id].failedAdd
    case Increment(id) => id in s.pending && s.pending[id].failedAdd
  }

  function Decide(s: State, id: nat, w: nat, b: Bucket): State
    requires id in s.pending
  {
    s.(cache := s.cache[w := b], pending := s.pending - {id},
       log := s.log + [Decision(s.pending[id].readAt, w, b.count)])
  }

  /** The bucket of a request that finds none. */
  function NewBucket(rate: Rate, s: State, id: nat): Bucket
    requires rate.Valid() && id in s.pending
  {
    Bucket(1, s.now + rate.Timeout(s.pending[id].readAt) * rate.unit)
  }

  function Step(rate: Rate, s: State, a: Action): State
    requires rate.Valid() && Enabled(s, a)
  {
    match a
    case Tick(d) => s.(now := s.now + d)
    case Read(id) => s.(pending := s.pending[id := Pending(s.now, false)])
    case TryAdd(id) =>
      var p := s.pending[id];
      var w := rate.Window(p.readAt);
      if Live(s.cache, w, s.now) then s.(pending := s.pending[id := p.(failedAdd := true)])
      else Decide(s, id, w, NewBucket(rate, s, id))
    case Increment(id) =>
      var p := s.pending[id];
      var w := rate.Window(p.readAt);
      if Live(s.cache, w, s.now) then Decide(s, id, w, s.cache[w].(count := s.cache[w].count + 1))
      else Decide(s, id, w, NewBucket(rate, s, id))
  }

  function After(rate: Rate, run: seq<Action>): Option<State>
    requires rate.Valid()
  {
    if run == [] then Some(INITIAL)
    else
      var before := After(rate, run[..|run| - 1]);
      var a := run[|run| - 1];
      if before.Some? && Enabled(before.value, a) then Some(Step(rate, before.value, a)) else None
  }

  /** The cache call `a` makes, if it makes one, comes at most `late` ticks after its request read the clock. */
  predicate Prompt(late: nat, s: State, a: Action) {
    (a.TryAdd? || a.Increment?) && a.id in s.pending ==> s.now <= s.pending[a.id].readAt + late
  }

  /** A request reaches the cache before the bucket of the window it read has expired. */
  predicate Punctual(rate: Rate, s: State, a: Action)
    requires rate.Valid()
  {
    (a.TryAdd? || a.Increment?) && a.id in s.pending ==>
      var w := rate.Window(s.pending[a.id].readAt);
      w in s.cache ==> s.now < s.cache[w].expiresAt
  }

  predicate AllPrompt(rate: Rate, late: nat, run: seq<Action>)
    requires rate.Valid()
  {
    run != [] && After(rate, run).Some? ==>
      && AllPrompt(rate, late, run[..|run| - 1])
      && Prompt(late, After(rate, run[..|run| - 1]).value, run[|run| - 1])
  }

  predicate AllPunctual(rate: Rate, run: seq<Action>)
    requires rate.Valid()
  {
    run != [] && After(rate, run).Some? ==>
      && AllPunctual(rate, run[..|run| - 1])
      && Punctual(rate, After(rate, run[..|run| - 1]).value, run[|run| - 1])
  }

  // ---- counting decisions ----

  function InWindow(log: seq<Decision>, w: nat): nat {
    if log == [] then 0
    else InWindow(log[..|log| - 1], w) + if log[|log| - 1].window == w then 1 else 0
  }

  function AllowedInWindow(log: seq<Decision>, w: nat, limit: nat): nat {
    if log == [] then 0
    else
      var d := log[|log| - 1];
      AllowedInWindow(log[..|log| - 1], w, limit) + if d.window == w && d.count <= limit then 1 else 0
  }

  /** Allowed requests whose clock reading lies in `[start, start + span)`. */
  function AllowedSince(log: seq<Decision>, start: nat, span: nat, limit: nat): nat {
    if log == [] then 0
    else
      var d := log[|log| - 1];
      AllowedSince(log[..|log| - 1], start, span, limit)
      + if start <= d.readAt < start + span && d.count <= limit then 1 else 0
  }

  function Min(a: nat, b: nat): nat {
    if a < b then a else b
  }

  /** Within each window the counts handed out are 1, 2, 3, … */
  predicate CountsInOrder(log: seq<Decision>) {
    log == [] ||
    (CountsInOrder(log[..|log| - 1])
     && log[|log| - 1].count == InWindow(log[..|log| - 1], log[|log| - 1].window) + 1)
  }

  predicate CacheOk(rate: Rate, s: State)
    requires rate.Valid()
  {
    && (forall w :: w in s.cache ==>
          s.cache[w].count == InWindow(s.log, w) && s.cache[w].expiresAt > (w + 1) * rate.Span())
    && (forall i :: 0 <= i < |s.log| ==> s.log[i].window in s.cache && s.log[i].window == rate.Window(s.log[i].readAt))
    && (forall id :: id in s.pending ==> s.pending[id].readAt <= s.now)
  }

  lemma {:induction false} NoneInWindow(log: seq<Decision>, w: nat)
    requires forall i :: 0 <= i < |log| ==> log[i].window != w
    ensures InWindow(log, w) == 0
  {
    if log == [] {
    } else {
      NoneInWindow(log[..|log| - 1], w);
    }
  }

  /** The bucket's timeout, whenever it is set, outlives the window it counts for. */
  lemma TimeoutOutlivesWindow(rate: Rate, readAt: nat, setAt: nat)
    requires rate.Valid() && readAt <= setAt
    ensures setAt + rate.Timeout(readAt) * rate.unit > (rate.Window(readAt) + 1) * rate.Span()
  {
    var span, rest, u := rate.Span(), rate.Remaining(readAt), rate.unit;
    assert readAt == span * (readAt / span) + readAt % span;
    assert (readAt / span + 1) * span == span * (readAt / span) + span == readAt + rest;
    assert rest == u * (rest / u) + rest % u;
    assert (rest / u + 1) * u == u * (rest / u) + u;
    assert rest < (rest / u + 1) * u;
  }

  lemma FirstCallKeepsCache(rate: Rate, s: State, a: Action)
    requires rate.Valid() && Enabled(s, a) && (a.TryAdd? || a.Increment?)
    requires rate.Window(s.pending[a.id].readAt) !in s.cache
    requires CacheOk(rate, s) && CountsInOrder(s.log)
    ensures CacheOk(rate, Step(rate, s, a)) && CountsInOrder(Step(rate, s, a).log)
  {
    var w := rate.Window(s.pending[a.id].readAt);
    TimeoutOutlivesWindow(rate, s.pending[a.id].readAt, s.now);
    NoneInWindow(s.log, w);
    DecideKeepsCache(rate, s, a.id, w, NewBucket(rate, s, a.id));
  }

  lemma IncrementKeepsCache(rate: Rate, s: State, a: Action)
    requires rate.Valid() && Enabled(s, a) && Punctual(rate, s, a) && a.Increment?
    requires rate.Window(s.pending[a.id].readAt) in s.cache
    requires CacheOk(rate, s) && CountsInOrder(s.log)
    ensures CacheOk(rate, Step(rate, s, a)) && CountsInOrder(Step(rate, s, a).log)
  {
    var w := rate.Window(s.pending[a.id].readAt);
    DecideKeepsCache(rate, s, a.id, w, s.cache[w].(count := s.cache[w].count + 1));
  }

  lemma FailedAddKeepsCache(rate: Rate, s: State, a: Action)
    requires rate.Valid() && Enabled(s, a) && Punctual(rate, s, a) && a.TryAdd?
    requires rate.Window(s.pending[a.id].readAt) in s.cache
    requires CacheOk(rate, s) && CountsInOrder(s.log)
    ensures CacheOk(rate, Step(rate, s, a)) && CountsInOrder(Step(rate, s, a).log)
  {
    assert Step(rate, s, a) == s.(pending := s.pending[a.id := s.pending[a.id].(failedAdd := true)]);
  }

  lemma StepKeepsCache(rate: Rate, s: State, a: Action)
    requires rate.Valid() && Enabled(s, a) && Punctual(rate, s, a)
    requires CacheOk(rate, s) && CountsInOrder(s.log)
    ensures CacheOk(rate, Step(rate, s, a)) && CountsInOrder(Step(rate, s, a).log)
  {
    if a.TryAdd? || a.Increment? {
      if rate.Window(s.pending[a.id].readAt) !in s.cache {
        FirstCallKeepsCache(rate, s, a);
      } else if a.Increment? {
        IncrementKeepsCache(rate, s, a);
      } else {
        FailedAddKeepsCache(rate, s, a);
      }
    }
  }

  /** The next decision of a window, kept in a bucket that outlives it. */
  lemma DecideKeepsCache(rate: Rate, s: State, id: nat, w: nat, b: Bucket)
    requires rate.Valid() && id in s.pending && CacheOk(rate, s) && CountsInOrder(s.log)
    requires w == rate.Window(s.pending[id].readAt)
    requires b.count == InWindow(s.log, w) + 1 && b.expiresAt > (w + 1) * rate.Span()
    ensures CacheOk(rate, Decide(s, id, w, b)) && CountsInOrder(Decide(s, id, w, b).log)
  {
    var log := Decide(s, id, w, b).log;
    assert log[..|log| - 1] == s.log;
  }

  lemma {:induction false} RunKeepsCache(rate: Rate, run: seq<Action>)
    requires rate.Valid() && After(rate, run).Some? && AllPunctual(rate, run)
    ensures CacheOk(rate, After(rate, run).value) && CountsInOrder(After(rate, run).value.log)
  {
    if run == [] {
    } else {
      RunKeepsCache(rate, run[..|run| - 1]);
      StepKeepsCache(rate, After(rate, run[..|run| - 1]).value, run[|run| - 1]);
    }
  }

  lemma {:induction false} AllowedIsMin(log: seq<Decision>, w: nat, limit: nat)
    requires CountsInOrder(log)
    ensures AllowedInWindow(log, w, limit) == Min(InWindow(log, w), limit)
  {
    if log == [] {
    } else {
      AllowedIsMin(log[..|log| - 1], w, limit);
    }
  }

  /** With every cache call in time for its bucket: of the requests decided in a window, exactly the smaller of their number and the limit pass. */
  lemma WindowAdmitsLimit(rate: Rate, run: seq<Action>, w: nat)
    requires rate.Valid() && After(rate, run).Some? && AllPunctual(rate, run)
    ensures
      var log := After(rate, run).value.log;
      AllowedInWindow(log, w, rate.limit) == Min(InWindow(log, w), rate.limit)
  {
    RunKeepsCache(rate, run);
    AllowedIsMin(After(rate, run).value.log, w, rate.limit);
  }

  lemma {:induction false} IntervalMeetsTwoWindows(rate: Rate, log: seq<Decision>, start: nat)
    requires rate.Valid()
    requires forall i :: 0 <= i < |log| ==> log[i].window == rate.Window(log[i].readAt)
    ensures
      var w := rate.Window(start);
      AllowedSince(log, start, rate.Span(), rate.limit)
        <= AllowedInWindow(log, w, rate.limit) + AllowedInWindow(log, w + 1, rate.limit)
  {
    if log == [] {
    } else {
      IntervalMeetsTwoWindows(rate, log[..|log| - 1], start);
      var d, span := log[|log| - 1], rate.Span();
      if start <= d.readAt < start + span {
        WindowsOfInterval(start, d.readAt, span);
      }
    }
  }

  lemma WindowsOfInterval(start: nat, at: nat, span: nat)
    requires span > 0 && start <= at < start + span
    ensures at / span == start / span || at / span == start / span + 1
  {
    var q := start / span;
    assert start == span * q + start % span;
    if at < span * (q + 1) {
      QuotientIs(at, span, q);
    } else {
      QuotientIs(at, span, q + 1);
    }
  }

  lemma QuotientIs(at: nat, span: nat, q: nat)
    requires span > 0 && span * q <= at < span * (q + 1)
    ensures at / span == q
  {
    var r := at / span;
    assert at == span * r + at % span;
    assert r < q ==> span * (r + 1) <= span * q;
    assert r > q ==> span * (q + 1) <= span * r;
  }

  /** Then, however it is placed, an interval as long as the window admits at most twice the limit. */
  lemma SlidingIntervalBound(rate: Rate, run: seq<Action>, start: nat)
    requires rate.Valid() && After(rate, run).Some? && AllPunctual(rate, run)
    ensures AllowedSince(After(rate, run).value.log, start, rate.Span(), rate.limit) <= 2 * rate.limit
  {
    RunKeepsCache(rate, run);
    var w := rate.Window(start);
    IntervalMeetsTwoWindows(rate, After(rate, run).value.log, start);
    WindowAdmitsLimit(rate, run, w);
    WindowAdmitsLimit(rate, run, w + 1);
  }

  /** A request whose cache calls happen inside its own window is always punctual. */
  lemma InsideWindowIsPunctual(rate: Rate, run: seq<Action>, a: Action)
    requires rate.Valid() && After(rate, run).Some? && AllPunctual(rate, run) && Enabled(After(rate, run).value, a)
    requires (a.TryAdd? || a.Increment?) ==>
               var s := After(rate, run).value;
               s.now < (rate.Window(s.pending[a.id].readAt) + 1) * rate.Span()
    ensures Punctual(rate, After(rate, run).value, a)
  {
    RunKeepsCache(rate, run);
  }

  /** A refused caller told to wait `Remaining` is sent exactly to the start of the next window. */
  lemma WaitReachesNextWindow(rate: Rate, now: nat)
    requires rate.Valid()
    ensures rate.Window(now + rate.Remaining(now)) == rate.Window(now) + 1
    ensures forall earlier :: now <= earlier < now + rate.Remaining(now) ==> rate.Window(earlier) == rate.Window(now)
  {
    var span := rate.Span();
    var q := now / span;
    assert now == span * q + now % span;
    assert now + rate.Remaining(now) == span * (q + 1);
    QuotientIs(span * (q + 1), span, q + 1);
    forall earlier | now <= earlier < now + rate.Remaining(now)
      ensures earlier / span == q
    {
      QuotientIs(earlier, span, q);
    }
  }
}
