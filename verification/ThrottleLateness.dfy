/**
 How late after its clock reading a request may reach the cache. Cache calls later than that can
 meet an expired bucket, whose count starts anew while its window's admissions stand.
 */
module ThrottleLateness {
  import opened Prelude
  import opened Throttle

  /** A run whose cache calls come at most `late` ticks after the readings. */
  predicate Within(rate: Rate, late: nat, run: seq<Action>)
    requires rate.Valid()
  {
    After(rate, run).Some? && AllPrompt(rate, late, run)
  }

  ghost predicate WindowsExact(rate: Rate, log: seq<Decision>) {
    forall w :: AllowedInWindow(log, w, rate.limit) == Min(InWindow(log, w), rate.limit)
  }

  ghost predicate IntervalsBounded(rate: Rate, log: seq<Decision>)
    requires rate.Valid()
  {
    forall start :: AllowedSince(log, start, rate.Span(), rate.limit) <= 2 * rate.limit
  }

  // ---- one tick late is never too late ----

  lemma ReadingBeforeWindowEnd(rate: Rate, at: nat)
    requires rate.Valid()
    ensures at < (rate.Window(at) + 1) * rate.Span()
  {
    assert at == rate.Span() * (at / rate.Span()) + at % rate.Span();
  }

  lemma {:induction false} PromptIsPunctual(rate: Rate, late: nat, run: seq<Action>)
    requires rate.Valid() && late <= 1 && Within(rate, late, run)
    ensures AllPunctual(rate, run)
  {
    if run == [] {
    } else {
      var s, a := After(rate, run[..|run| - 1]).value, run[|run| - 1];
      PromptIsPunctual(rate, late, run[..|run| - 1]);
      RunKeepsCache(rate, run[..|run| - 1]);
      if a.TryAdd? || a.Increment? {
        ReadingBeforeWindowEnd(rate, s.pending[a.id].readAt);
      }
    }
  }

  // ---- runs of late requests ----

  lemma Extend(rate: Rate, late: nat, run: seq<Action>, a: Action)
    requires rate.Valid() && Within(rate, late, run)
    requires Enabled(After(rate, run).value, a) && Prompt(late, After(rate, run).value, a)
    ensures Within(rate, late, run + [a])
    ensures After(rate, run + [a]).value == Step(rate, After(rate, run).value, a)
  {
    assert (run + [a])[..|run + [a]| - 1] == run;
  }

  function Ids(base: nat, n: nat): (ids: set<nat>)
    ensures forall id :: id in ids <==> base <= id < base + n
  {
    if n == 0 then {} else Ids(base, n - 1) + {base + n - 1}
  }

  function Reads(base: nat, n: nat, at: nat): map<nat, Pending> {
    map id | id in Ids(base, n) :: Pending(at, false)
  }

  /** Decisions with counts 1 to n, all read at one instant. */
  function Decisions(at: nat, w: nat, n: nat): seq<Decision> {
    if n == 0 then [] else Decisions(at, w, n - 1) + [Decision(at, w, n)]
  }

  /** New requests `base` to `base + n - 1` read the clock. */
  lemma {:induction false} ReadMany(rate: Rate, late: nat, before: seq<Action>, base: nat, n: nat)
    returns (run: seq<Action>)
    requires rate.Valid() && Within(rate, late, before)
    requires forall id :: base <= id < base + n ==> id !in After(rate, before).value.pending
    ensures Within(rate, late, run)
    ensures
      var s := After(rate, before).value;
      After(rate, run).value == s.(pending := s.pending + Reads(base, n, s.now))
    decreases n
  {
    var s := After(rate, before).value;
    if n == 0 {
      run := before;
      assert s.pending + Reads(base, n, s.now) == s.pending;
    } else {
      run := ReadMany(rate, late, before, base, n - 1);
      Extend(rate, late, run, Read(base + n - 1));
      run := run + [Read(base + n - 1)];
      assert (s.pending + Reads(base, n - 1, s.now))[base + n - 1 := Pending(s.now, false)]
             == s.pending + Reads(base, n, s.now);
    }
  }

  /** What n decisions on an expired or missing bucket leave behind. */
  function Called(rate: Rate, s: State, base: nat, n: nat, readAt: nat): State
    requires rate.Valid()
  {
    var w := rate.Window(readAt);
    var expiresAt := s.now + rate.Timeout(readAt) * rate.unit;
    s.(cache := if n == 0 then s.cache else s.cache[w := Bucket(n, expiresAt)],
       pending := s.pending - Ids(base, n),
       log := s.log + Decisions(readAt, w, n))
  }

  lemma TimeoutIsPositive(rate: Rate, at: nat)
    requires rate.Valid()
    ensures rate.Timeout(at) * rate.unit > 0
  {
  }

  /** The first of them adds the bucket. */
  lemma CallFirst(rate: Rate, late: nat, before: seq<Action>, base: nat, readAt: nat) returns (run: seq<Action>)
    requires rate.Valid() && Within(rate, late, before)
    requires
      var s := After(rate, before).value;
      && base in s.pending && s.pending[base] == Pending(readAt, false)
      && s.now <= readAt + late && !Live(s.cache, rate.Window(readAt), s.now)
    ensures Within(rate, late, run)
    ensures After(rate, run).value == Called(rate, After(rate, before).value, base, 1, readAt)
  {
    var s := After(rate, before).value;
    Extend(rate, late, before, TryAdd(base));
    run := before + [TryAdd(base)];
    assert Ids(base, 1) == {base};
    assert Decisions(readAt, rate.Window(readAt), 1) == [Decision(readAt, rate.Window(readAt), 1)];
  }

  /** The others fail to and increment it. */
  lemma CallNext(rate: Rate, late: nat, before: seq<Action>, s: State, base: nat, n: nat, readAt: nat)
    returns (run: seq<Action>)
    requires rate.Valid() && Within(rate, late, before) && n > 0
    requires After(rate, before).value == Called(rate, s, base, n, readAt)
    requires base + n in s.pending && s.pending[base + n] == Pending(readAt, false) && s.now <= readAt + late
    ensures Within(rate, late, run)
    ensures After(rate, run).value == Called(rate, s, base, n + 1, readAt)
  {
    var id, w := base + n, rate.Window(readAt);
    var t, goal := After(rate, before).value, Called(rate, s, base, n + 1, readAt);
    TimeoutIsPositive(rate, readAt);
    Extend(rate, late, before, TryAdd(id));
    run := before + [TryAdd(id)];
    assert After(rate, run).value == t.(pending := t.pending[id := Pending(readAt, true)]);
    Extend(rate, late, run, Increment(id));
    run := run + [Increment(id)];
    assert t.pending[id := Pending(readAt, true)] - {id} == goal.pending;
    assert t.cache[w := goal.cache[w]] == goal.cache;
    assert After(rate, run).value.log == goal.log;
  }

  lemma {:induction false} CallMany(rate: Rate, late: nat, before: seq<Action>, base: nat, n: nat, readAt: nat)
    returns (run: seq<Action>)
    requires rate.Valid() && Within(rate, late, before)
    requires
      var s := After(rate, before).value;
      && (forall id :: base <= id < base + n ==> id in s.pending && s.pending[id] == Pending(readAt, false))
      && s.now <= readAt + late && !Live(s.cache, rate.Window(readAt), s.now)
    ensures Within(rate, late, run)
    ensures After(rate, run).value == Called(rate, After(rate, before).value, base, n, readAt)
    decreases n
  {
    var s := After(rate, before).value;
    if n == 0 {
      run := before;
      assert s.pending - Ids(base, n) == s.pending;
      assert s.log + Decisions(readAt, rate.Window(readAt), 0) == s.log;
    } else if n == 1 {
      run := CallFirst(rate, late, before, base, readAt);
    } else {
      run := CallMany(rate, late, before, base, n - 1, readAt);
      run := CallNext(rate, late, run, s, base, n - 1, readAt);
    }
  }

  /** n requests that read and call at the present instant, in a window without a bucket. */
  lemma Fill(rate: Rate, late: nat, before: seq<Action>, base: nat, n: nat) returns (run: seq<Action>)
    requires rate.Valid() && Within(rate, late, before)
    requires
      var s := After(rate, before).value;
      && !Live(s.cache, rate.Window(s.now), s.now)
      && forall id :: base <= id < base + n ==> id !in s.pending
    ensures Within(rate, late, run)
    ensures
      var s, t := After(rate, before).value, After(rate, run).value;
      var w := rate.Window(s.now);
      && t.now == s.now && t.pending == s.pending && t.log == s.log + Decisions(s.now, w, n)
      && t.cache == if n == 0 then s.cache else s.cache[w := Bucket(n, s.now + rate.Timeout(s.now) * rate.unit)]
  {
    var s := After(rate, before).value;
    run := ReadMany(rate, late, before, base, n);
    run := CallMany(rate, late, run, base, n, s.now);
    assert s.pending + Reads(base, n, s.now) - Ids(base, n) == s.pending;
  }

  // ---- counting them ----

  lemma {:induction false} CountDecisions(log: seq<Decision>, at: nat, w: nat, n: nat, limit: nat, start: nat, span: nat)
    requires n <= limit
    ensures InWindow(log + Decisions(at, w, n), w) == InWindow(log, w) + n
    ensures AllowedInWindow(log + Decisions(at, w, n), w, limit) == AllowedInWindow(log, w, limit) + n
    ensures AllowedSince(log + Decisions(at, w, n), start, span, limit)
            == AllowedSince(log, start, span, limit) + if start <= at < start + span then n else 0
    decreases n
  {
    if n == 0 {
      assert log + Decisions(at, w, 0) == log;
    } else {
      var longer := log + Decisions(at, w, n);
      CountDecisions(log, at, w, n - 1, limit, start, span);
      assert longer[..|longer| - 1] == log + Decisions(at, w, n - 1);
    }
  }

  lemma OneDecision(log: seq<Decision>, at: nat, w: nat, limit: nat, start: nat, span: nat)
    requires limit >= 1
    ensures InWindow(log + [Decision(at, w, 1)], w) == InWindow(log, w) + 1
    ensures AllowedInWindow(log + [Decision(at, w, 1)], w, limit) == AllowedInWindow(log, w, limit) + 1
    ensures AllowedSince(log + [Decision(at, w, 1)], start, span, limit)
            == AllowedSince(log, start, span, limit) + if start <= at < start + span then 1 else 0
  {
    assert Decisions(at, w, 1) == [Decision(at, w, 1)];
    CountDecisions(log, at, w, 1, limit, start, span);
  }

  // ---- two ticks late ----

  /** Ticks before the window's end at which the bucket's timeout outlives the window by one tick. */
  function Rest(rate: Rate): nat
    requires rate.Valid()
  {
    if rate.unit == 1 then 1 else rate.unit - 1
  }

  lemma RestFits(rate: Rate)
    requires rate.Valid()
    ensures 1 <= Rest(rate) <= rate.Span()
    ensures rate.Span() >= 2 ==> Rest(rate) < rate.Span()
  {
    assert rate.Span() >= rate.unit;
  }

  lemma TightTimeout(rate: Rate)
    requires rate.Valid()
    ensures
      var at := rate.Span() - Rest(rate);
      && 0 <= at && rate.Window(at) == 0 && at + rate.Timeout(at) * rate.unit == rate.Span() + 1
  {
    RestFits(rate);
    var at, span := rate.Span() - Rest(rate), rate.Span();
    QuotientIs(at, span, 0);
    assert at == span * (at / span) + at % span;
    assert rate.Remaining(at) == Rest(rate);
    if rate.unit > 1 {
      QuotientIs(rate.unit - 1, rate.unit, 0);
    }
  }

  /** The window is filled as late as its bucket allows; one more request reads on its last tick. */
  lemma FullWindow(rate: Rate, late: nat) returns (run: seq<Action>)
    requires rate.Valid() && rate.limit >= 1
    ensures Within(rate, late, run)
    ensures
      var s, n := After(rate, run).value, rate.limit;
      && s.now == rate.Span() - 1 && s.pending == map[n := Pending(rate.Span() - 1, false)]
      && s.cache == map[0 := Bucket(n, rate.Span() + 1)]
      && s.log == Decisions(rate.Span() - Rest(rate), 0, n)
  {
    var n := rate.limit;
    RestFits(rate);
    TightTimeout(rate);
    Extend(rate, late, [], Tick(rate.Span() - Rest(rate)));
    run := [] + [Tick(rate.Span() - Rest(rate))];
    run := Fill(rate, late, run, 0, n);
    Extend(rate, late, run, Tick(Rest(rate) - 1));
    run := run + [Tick(Rest(rate) - 1)];
    Extend(rate, late, run, Read(n));
    run := run + [Read(n)];
    assert map[][n := Pending(rate.Span() - 1, false)] == map[n := Pending(rate.Span() - 1, false)];
    assert [] + Decisions(rate.Span() - Rest(rate), 0, n) == Decisions(rate.Span() - Rest(rate), 0, n);
  }

  lemma LastTickIsInside(rate: Rate)
    requires rate.Valid()
    ensures rate.Window(rate.Span() - 1) == 0 && rate.Window(rate.Span()) == 1
  {
    QuotientIs(rate.Span() - 1, rate.Span(), 0);
    QuotientIs(rate.Span(), rate.Span(), 1);
  }

  /** The waiting request then calls the cache and, its bucket gone, is let in. */
  lemma LateCallPasses(rate: Rate, late: nat, before: seq<Action>) returns (run: seq<Action>)
    requires rate.Valid() && rate.limit >= 1 && late >= 2 && Within(rate, late, before)
    requires
      var s := After(rate, before).value;
      && s.now == rate.Span() + 1 && rate.limit in s.pending
      && s.pending[rate.limit] == Pending(rate.Span() - 1, false)
      && 0 in s.cache && s.cache[0].expiresAt == rate.Span() + 1
    ensures Within(rate, late, run)
    ensures After(rate, run).value.log == After(rate, before).value.log + [Decision(rate.Span() - 1, 0, 1)]
  {
    LastTickIsInside(rate);
    Extend(rate, late, before, TryAdd(rate.limit));
    run := before + [TryAdd(rate.limit)];
  }

  lemma LateCallOverfillsWindow(rate: Rate, late: nat) returns (run: seq<Action>)
    requires rate.Valid() && rate.limit >= 1 && late >= 2
    ensures Within(rate, late, run)
    ensures AllowedInWindow(After(rate, run).value.log, 0, rate.limit) == rate.limit + 1
    ensures InWindow(After(rate, run).value.log, 0) == rate.limit + 1
  {
    run := FullWindow(rate, late);
    var log, at := After(rate, run).value.log, rate.Span() - Rest(rate);
    RestFits(rate);
    CountDecisions([], at, 0, rate.limit, rate.limit, 0, 0);
    assert [] + Decisions(at, 0, rate.limit) == log;
    Extend(rate, late, run, Tick(2));
    run := run + [Tick(2)];
    OneDecision(log, rate.Span() - 1, 0, rate.limit, 0, 0);
    run := LateCallPasses(rate, late, run);
  }

  /** The next window is filled on its first tick, still inside the interval that began with the first. */
  lemma FullWindows(rate: Rate, late: nat) returns (run: seq<Action>)
    requires rate.Valid() && rate.limit >= 1 && rate.Span() >= 2
    ensures Within(rate, late, run)
    ensures
      var s, n := After(rate, run).value, rate.limit;
      && s.now == rate.Span() && n in s.pending && s.pending[n] == Pending(rate.Span() - 1, false)
      && 0 in s.cache && s.cache[0].expiresAt == rate.Span() + 1
      && AllowedSince(s.log, rate.Span() - Rest(rate), rate.Span(), n) == 2 * n
  {
    RestFits(rate);
    LastTickIsInside(rate);
    var at, span, n := rate.Span() - Rest(rate), rate.Span(), rate.limit;
    run := FullWindow(rate, late);
    BothCounted(rate);
    Extend(rate, late, run, Tick(1));
    run := run + [Tick(1)];
    run := Fill(rate, late, run, n + 1, n);
  }

  lemma BothCounted(rate: Rate)
    requires rate.Valid() && rate.Span() >= 2
    ensures
      var at, span, n := rate.Span() - Rest(rate), rate.Span(), rate.limit;
      0 <= at && AllowedSince(Decisions(at, 0, n) + Decisions(span, 1, n), at, span, n) == 2 * n
  {
    RestFits(rate);
    var at, span, n := rate.Span() - Rest(rate), rate.Span(), rate.limit;
    CountDecisions([], at, 0, n, n, at, span);
    assert [] + Decisions(at, 0, n) == Decisions(at, 0, n);
    CountDecisions(Decisions(at, 0, n), span, 1, n, n, at, span);
  }

  /** One interval then admits the limit twice and one more. */
  lemma LateCallOverfillsInterval(rate: Rate, late: nat) returns (run: seq<Action>)
    requires rate.Valid() && rate.limit >= 1 && late >= 2 && rate.Span() >= 2
    ensures Within(rate, late, run)
    ensures AllowedSince(After(rate, run).value.log, rate.Span() - Rest(rate), rate.Span(), rate.limit)
            == 2 * rate.limit + 1
  {
    var at, span, n := rate.Span() - Rest(rate), rate.Span(), rate.limit;
    RestFits(rate);
    run := FullWindows(rate, late);
    Extend(rate, late, run, Tick(1));
    run := run + [Tick(1)];
    OneDecision(After(rate, run).value.log, span - 1, 0, n, at, span);
    run := LateCallPasses(rate, late, run);
  }

  // ---- windows of a single tick ----

  /** Every bucket then lasts two ticks, so lateness up to three reaches a second bucket at most. */
  predicate TwoBuckets(rate: Rate, s: State) {
    && (forall w :: w in s.cache ==>
          var admitted, count := AllowedInWindow(s.log, w, rate.limit), Min(s.cache[w].count, rate.limit);
          || (admitted <= count && w + 2 <= s.cache[w].expiresAt)
          || (admitted <= rate.limit + count && w + 4 <= s.cache[w].expiresAt))
    && (forall i :: 0 <= i < |s.log| ==> s.log[i].window in s.cache && s.log[i].window == s.log[i].readAt)
  }

  lemma {:induction false} NoneAllowed(log: seq<Decision>, w: nat, limit: nat)
    requires forall i :: 0 <= i < |log| ==> log[i].window != w
    ensures AllowedInWindow(log, w, limit) == 0
  {
    if log == [] {
    } else {
      NoneAllowed(log[..|log| - 1], w, limit);
    }
  }

  lemma DecideKeepsTwoBuckets(rate: Rate, s: State, id: nat, w: nat, b: Bucket)
    requires TwoBuckets(rate, s) && id in s.pending && s.pending[id].readAt == w
    requires
      if Live(s.cache, w, s.now) then b == s.cache[w].(count := s.cache[w].count + 1)
      else b == Bucket(1, s.now + 2) && w <= s.now <= w + 3
    ensures TwoBuckets(rate, Decide(s, id, w, b))
  {
    var t := Decide(s, id, w, b);
    assert t.log[..|t.log| - 1] == s.log;
    if w !in s.cache {
      NoneAllowed(s.log, w, rate.limit);
    }
  }

  lemma OneTickWindows(rate: Rate, at: nat)
    requires rate.Valid() && rate.Span() == 1
    ensures rate.unit == 1 && rate.Window(at) == at && rate.Timeout(at) * rate.unit == 2
  {
    assert rate.seconds * rate.unit == 1;
    assert rate.unit == 1 by {
      assert rate.unit >= 2 ==> rate.seconds * rate.unit >= 2;
    }
    QuotientIs(at, 1, at);
    assert at % 1 == 0;
  }

  lemma CallKeepsTwoBuckets(rate: Rate, late: nat, s: State, a: Action)
    requires rate.Valid() && rate.Span() == 1 && late <= 3 && Enabled(s, a) && Prompt(late, s, a)
    requires TwoBuckets(rate, s) && (a.TryAdd? || a.Increment?) && s.pending[a.id].readAt <= s.now
    ensures TwoBuckets(rate, Step(rate, s, a))
  {
    var w := s.pending[a.id].readAt;
    OneTickWindows(rate, w);
    if !Live(s.cache, w, s.now) {
      var b := Bucket(1, s.now + 2);
      DecideKeepsTwoBuckets(rate, s, a.id, w, b);
      assert Step(rate, s, a) == Decide(s, a.id, w, b);
    } else if a.Increment? {
      var b := s.cache[w].(count := s.cache[w].count + 1);
      DecideKeepsTwoBuckets(rate, s, a.id, w, b);
      assert Step(rate, s, a) == Decide(s, a.id, w, b);
    } else {
      assert Step(rate, s, a) == s.(pending := s.pending[a.id := s.pending[a.id].(failedAdd := true)]);
    }
  }

  predicate ReadBefore(s: State) {
    forall id :: id in s.pending ==> s.pending[id].readAt <= s.now
  }

  lemma StepKeepsReadBefore(rate: Rate, s: State, a: Action)
    requires rate.Valid() && Enabled(s, a) && ReadBefore(s)
    ensures ReadBefore(Step(rate, s, a))
  {
  }

  lemma StepKeepsTwoBuckets(rate: Rate, late: nat, s: State, a: Action)
    requires rate.Valid() && rate.Span() == 1 && late <= 3 && Enabled(s, a) && Prompt(late, s, a)
    requires TwoBuckets(rate, s) && ReadBefore(s)
    ensures TwoBuckets(rate, Step(rate, s, a))
  {
    if a.TryAdd? || a.Increment? {
      CallKeepsTwoBuckets(rate, late, s, a);
    }
  }

  lemma {:induction false} RunKeepsTwoBuckets(rate: Rate, late: nat, run: seq<Action>)
    requires rate.Valid() && rate.Span() == 1 && late <= 3 && Within(rate, late, run)
    ensures TwoBuckets(rate, After(rate, run).value) && ReadBefore(After(rate, run).value)
  {
    if run == [] {
    } else {
      RunKeepsTwoBuckets(rate, late, run[..|run| - 1]);
      StepKeepsTwoBuckets(rate, late, After(rate, run[..|run| - 1]).value, run[|run| - 1]);
      StepKeepsReadBefore(rate, After(rate, run[..|run| - 1]).value, run[|run| - 1]);
    }
  }

  lemma {:induction false} OneTickInterval(log: seq<Decision>, start: nat, limit: nat)
    requires forall i :: 0 <= i < |log| ==> log[i].window == log[i].readAt
    ensures AllowedSince(log, start, 1, limit) == AllowedInWindow(log, start, limit)
  {
    if log == [] {
    } else {
      OneTickInterval(log[..|log| - 1], start, limit);
    }
  }

  lemma OneTickIntervalsBounded(rate: Rate, late: nat, run: seq<Action>)
    requires rate.Valid() && rate.Span() == 1 && late <= 3 && Within(rate, late, run)
    ensures IntervalsBounded(rate, After(rate, run).value.log)
  {
    var s := After(rate, run).value;
    RunKeepsTwoBuckets(rate, late, run);
    forall start: nat
      ensures AllowedSince(s.log, start, rate.Span(), rate.limit) <= 2 * rate.limit
    {
      OneTickInterval(s.log, start, rate.limit);
      if start !in s.cache {
        NoneAllowed(s.log, start, rate.limit);
      }
    }
  }

  /** Two ticks on, the bucket has expired and n waiting requests start another. */
  lemma NextBucket(rate: Rate, late: nat, before: seq<Action>, base: nat, n: nat) returns (run: seq<Action>)
    requires rate.Valid() && rate.Span() == 1 && Within(rate, late, before) && 1 <= n <= rate.limit
    requires
      var s := After(rate, before).value;
      && (forall id :: id in Ids(base, n) ==> id in s.pending && s.pending[id] == Pending(0, false))
      && s.now + 2 <= late && (0 in s.cache ==> s.cache[0].expiresAt <= s.now + 2)
    ensures Within(rate, late, run)
    ensures
      var s, t := After(rate, before).value, After(rate, run).value;
      && t.now == s.now + 2 && t.pending == s.pending - Ids(base, n)
      && 0 in t.cache && t.cache[0].expiresAt == t.now + 2
      && AllowedSince(t.log, 0, 1, rate.limit) == AllowedSince(s.log, 0, 1, rate.limit) + n
  {
    OneTickWindows(rate, 0);
    Extend(rate, late, before, Tick(2));
    run := before + [Tick(2)];
    CountDecisions(After(rate, run).value.log, 0, 0, n, rate.limit, 0, 1);
    run := CallMany(rate, late, run, base, n, 0);
  }

  lemma FirstBucket(rate: Rate, late: nat) returns (run: seq<Action>)
    requires rate.Valid() && rate.Span() == 1 && rate.limit >= 1
    ensures Within(rate, late, run)
    ensures
      var s, n := After(rate, run).value, rate.limit;
      && s.now == 0 && s.pending == Reads(n, n + 1, 0)
      && 0 in s.cache && s.cache[0].expiresAt == 2
      && AllowedSince(s.log, 0, 1, n) == n
  {
    var n := rate.limit;
    OneTickWindows(rate, 0);
    run := Fill(rate, late, [], 0, n);
    CountDecisions([], 0, 0, n, n, 0, 1);
    run := ReadMany(rate, late, run, n, n + 1);
    assert map[] + Reads(n, n + 1, 0) == Reads(n, n + 1, 0);
  }

  /** Four ticks late, a third bucket admits one more request of the same tick. */
  lemma ThirdBucketOverfills(rate: Rate, late: nat) returns (run: seq<Action>)
    requires rate.Valid() && rate.limit >= 1 && rate.Span() == 1 && late >= 4
    ensures Within(rate, late, run)
    ensures AllowedSince(After(rate, run).value.log, 0, 1, rate.limit) == 2 * rate.limit + 1
  {
    var n := rate.limit;
    run := FirstBucket(rate, late);
    run := NextBucket(rate, late, run, n, n);
    run := NextBucket(rate, late, run, 2 * n, 1);
  }

  // ---- a limit of zero admits nothing ----

  predicate CountsPositive(s: State) {
    && (forall w :: w in s.cache ==> s.cache[w].count >= 1)
    && (forall i :: 0 <= i < |s.log| ==> s.log[i].count >= 1)
  }

  lemma StepKeepsPositive(rate: Rate, s: State, a: Action)
    requires rate.Valid() && Enabled(s, a) && CountsPositive(s)
    ensures CountsPositive(Step(rate, s, a))
  {
  }

  lemma {:induction false} RunKeepsPositive(rate: Rate, run: seq<Action>)
    requires rate.Valid() && After(rate, run).Some?
    ensures CountsPositive(After(rate, run).value)
  {
    if run == [] {
    } else {
      RunKeepsPositive(rate, run[..|run| - 1]);
      StepKeepsPositive(rate, After(rate, run[..|run| - 1]).value, run[|run| - 1]);
    }
  }

  lemma {:induction false} ZeroAdmitsNone(log: seq<Decision>, w: nat, start: nat, span: nat)
    requires forall i :: 0 <= i < |log| ==> log[i].count >= 1
    ensures AllowedInWindow(log, w, 0) == 0 && AllowedSince(log, start, span, 0) == 0
  {
    if log == [] {
    } else {
      ZeroAdmitsNone(log[..|log| - 1], w, start, span);
    }
  }

  // ---- exact conditions ----

  lemma WindowsHold(rate: Rate, late: nat, run: seq<Action>)
    requires rate.Valid() && Within(rate, late, run) && (rate.limit == 0 || late <= 1)
    ensures WindowsExact(rate, After(rate, run).value.log)
  {
    var log := After(rate, run).value.log;
    forall w: nat
      ensures AllowedInWindow(log, w, rate.limit) == Min(InWindow(log, w), rate.limit)
    {
      if rate.limit == 0 {
        RunKeepsPositive(rate, run);
        ZeroAdmitsNone(log, w, 0, 0);
      } else {
        PromptIsPunctual(rate, late, run);
        WindowAdmitsLimit(rate, run, w);
      }
    }
  }

  /**
   Over all runs whose cache calls come within some lateness, every window admits exactly the
   smaller of its requests and the limit iff that lateness is at most one tick.
   */
  lemma WindowLimitExactly(rate: Rate, late: nat)
    requires rate.Valid()
    ensures (forall run :: Within(rate, late, run) ==> WindowsExact(rate, After(rate, run).value.log))
            <==> rate.limit == 0 || late <= 1
  {
    if rate.limit == 0 || late <= 1 {
      forall run | Within(rate, late, run)
        ensures WindowsExact(rate, After(rate, run).value.log)
      {
        WindowsHold(rate, late, run);
      }
    } else {
      var run := LateCallOverfillsWindow(rate, late);
      assert !WindowsExact(rate, After(rate, run).value.log);
    }
  }

  /** The lateness that intervals bear: one tick, or three if a window is a single tick. */
  predicate Bearable(rate: Rate, late: nat)
    requires rate.Valid()
  {
    rate.limit == 0 || late <= 1 || (rate.Span() == 1 && late <= 3)
  }

  lemma IntervalsHold(rate: Rate, late: nat, run: seq<Action>)
    requires rate.Valid() && Within(rate, late, run) && Bearable(rate, late)
    ensures IntervalsBounded(rate, After(rate, run).value.log)
  {
    var log := After(rate, run).value.log;
    if rate.limit == 0 {
      RunKeepsPositive(rate, run);
      forall start: nat
        ensures AllowedSince(log, start, rate.Span(), rate.limit) <= 2 * rate.limit
      {
        ZeroAdmitsNone(log, 0, start, rate.Span());
      }
    } else if late <= 1 {
      PromptIsPunctual(rate, late, run);
      forall start: nat
        ensures AllowedSince(log, start, rate.Span(), rate.limit) <= 2 * rate.limit
      {
        SlidingIntervalBound(rate, run, start);
      }
    } else {
      OneTickIntervalsBounded(rate, late, run);
    }
  }

  lemma IntervalsFail(rate: Rate, late: nat) returns (run: seq<Action>)
    requires rate.Valid() && !Bearable(rate, late)
    ensures Within(rate, late, run) && !IntervalsBounded(rate, After(rate, run).value.log)
  {
    if rate.Span() >= 2 {
      run := LateCallOverfillsInterval(rate, late);
      RestFits(rate);
      assert AllowedSince(After(rate, run).value.log, rate.Span() - Rest(rate), rate.Span(), rate.limit) > 2 * rate.limit;
    } else {
      run := ThirdBucketOverfills(rate, late);
      assert AllowedSince(After(rate, run).value.log, 0, rate.Span(), rate.limit) > 2 * rate.limit;
    }
  }

  /** Every interval as long as the window admits at most twice the limit iff the lateness is bearable. */
  lemma IntervalBoundExactly(rate: Rate, late: nat)
    requires rate.Valid()
    ensures (forall run :: Within(rate, late, run) ==> IntervalsBounded(rate, After(rate, run).value.log))
            <==> Bearable(rate, late)
  {
    if Bearable(rate, late) {
      forall run | Within(rate, late, run)
        ensures IntervalsBounded(rate, After(rate, run).value.log)
      {
        IntervalsHold(rate, late, run);
      }
    } else {
      var run := IntervalsFail(rate, late);
    }
  }
}
