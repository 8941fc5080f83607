/** The throttle as it reads the clock and calls the shared cache. */
module ThrottleDesk {
  import opened Prelude
  import opened Throttle

  class FixedWindowThrottle {
    const rate: Rate
    var cache: map<nat, Bucket>
    var waitTicks: nat
    ghost var history: seq<Action>

    ghost predicate Valid()
      reads this
    {
      rate.Valid() && After(rate, history).Some? && After(rate, history).value.cache == cache
    }

    ghost function Seen(): State
      requires Valid()
      reads this
    {
      After(rate, history).value
    }

    constructor (rate: Rate)
      requires rate.Valid()
      ensures Valid() && this.rate == rate && history == []
    {
      this.rate := rate;
      cache := map[];
      waitTicks := 0;
      history := [];
    }

    /** Records a step that happens at an instant. */
    ghost method Note(at: nat, a: Action)
      requires rate.Valid() && After(rate, history).Some? && After(rate, history).value.now <= at
      requires !a.Tick? && Enabled(After(rate, history).value, a)
      modifies this`history
      ensures
        var s := After(rate, old(history)).value;
        && history == old(history) + [Tick(at - s.now), a]
        && After(rate, history) == Some(Step(rate, s.(now := at), a))
    {
      var tick := Tick(at - After(rate, history).value.now);
      assert (history + [tick])[..|history + [tick]| - 1] == history;
      assert (history + [tick, a])[..|history + [tick, a]| - 1] == history + [tick];
      history := history + [tick, a];
    }

    method Add(w: nat, now: nat, timeout: nat) returns (added: bool)
      modifies this`cache
      ensures added <==> !Live(old(cache), w, now)
      ensures cache == if added then old(cache)[w := Bucket(1, now + timeout * rate.unit)] else old(cache)
    {
      added := !(w in cache && now < cache[w].expiresAt);
      if added {
        cache := cache[w := Bucket(1, now + timeout * rate.unit)];
      }
    }

    /** `None` is the cache's `ValueError` for a missing key. */
    method Incr(w: nat, now: nat) returns (count: Option<nat>)
      modifies this`cache
      ensures count == if Live(old(cache), w, now) then Some(old(cache)[w].count + 1) else None
      ensures cache ==
              if count.Some? then old(cache)[w := old(cache)[w].(count := count.value)] else old(cache)
    {
      if w in cache && now < cache[w].expiresAt {
        cache := cache[w := cache[w].(count := cache[w].count + 1)];
        return Some(cache[w].count);
      }
      return None;
    }

    /**
     One request that reads the clock at `now` and calls the cache at `addAt` and, if it must, at
     `incrAt`: one more decision, and while no call has come too late for its bucket, every window
     has admitted exactly the smaller of its requests and the limit.
     */
    method AllowRequest(id: nat, now: nat, addAt: nat, incrAt: nat) returns (allowed: bool)
      requires Valid() && Seen().now <= now <= addAt <= incrAt && id !in Seen().pending
      modifies this
      ensures Valid() && old(history) < history
      ensures
        var before, after := old(Seen()).log, Seen().log;
        && |after| == |before| + 1 && after[..|before|] == before
        && after[|before|].readAt == now && after[|before|].window == now / rate.Span()
        && (allowed <==> after[|before|].count <= rate.limit)
        && (AllPunctual(rate, history) ==> after[|before|].count == InWindow(before, rate.Window(now)) + 1)
      ensures AllPunctual(rate, history) ==>
                forall w :: AllowedInWindow(Seen().log, w, rate.limit) == Min(InWindow(Seen().log, w), rate.limit)
      ensures waitTicks == rate.Span() - now % rate.Span()
    {
      var count := Count(id, now, addAt, incrAt);
      waitTicks := rate.Span() - now % rate.Span();
      if AllPunctual(rate, history) {
        RunKeepsCache(rate, history);
        forall w
          ensures AllowedInWindow(Seen().log, w, rate.limit) == Min(InWindow(Seen().log, w), rate.limit)
        {
          WindowAdmitsLimit(rate, history, w);
        }
      }
      return count <= rate.limit;
    }

    method Count(id: nat, now: nat, addAt: nat, incrAt: nat) returns (count: nat)
      requires Valid() && Seen().now <= now <= addAt <= incrAt && id !in Seen().pending
      modifies this`cache, this`history
      ensures Valid() && old(history) < history
      ensures Seen().log == old(Seen()).log + [Decision(now, rate.Window(now), count)]
    {
      Note(now, Read(id));
      var added := FirstCall(id, now, addAt);
      if added {
        return 1;
      }
      count := SecondCall(id, now, incrAt);
    }

    /** `cache.add`. */
    method FirstCall(id: nat, readAt: nat, at: nat) returns (added: bool)
      requires Valid() && Seen().now <= at && id in Seen().pending && Seen().pending[id] == Pending(readAt, false)
      modifies this`cache, this`history
      ensures Valid() && old(history) < history && Seen().now == at
      ensures added ==> Seen().log == old(Seen()).log + [Decision(readAt, rate.Window(readAt), 1)]
      ensures !added ==>
                Seen().log == old(Seen()).log && id in Seen().pending && Seen().pending[id] == Pending(readAt, true)
    {
      Note(at, TryAdd(id));
      added := Add(readAt / rate.Span(), at, rate.Timeout(readAt));
    }

    /** `cache.incr`, or `cache.set` when the bucket is gone. */
    method SecondCall(id: nat, readAt: nat, at: nat) returns (count: nat)
      requires Valid() && Seen().now <= at && id in Seen().pending && Seen().pending[id] == Pending(readAt, true)
      modifies this`cache, this`history
      ensures Valid() && old(history) < history
      ensures Seen().log == old(Seen()).log + [Decision(readAt, rate.Window(readAt), count)]
    {
      Note(at, Increment(id));
      var window := readAt / rate.Span();
      var incremented := Incr(window, at);
      if incremented.Some? {
        return incremented.value;
      }
      cache := cache[window := Bucket(1, at + rate.Timeout(readAt) * rate.unit)];
      return 1;
    }
  }
}
