/**
 The in-memory write limiter (`_charge_memory`, src/darkpulse/api/rate_limit.py): one bucket of
 recent acceptance times per key, trimmed lazily, and a sweep of stale keys once there are many.
 The clock is monotonic.
 */
module RateLimit {
  const WINDOW_SECONDS := 60.0
  const WRITE_LIMIT := 60
  const MAX_KEYS := 10_000

  predicate Sorted(ts: seq<real>) {
    forall i, j :: 0 <= i < j < |ts| ==> ts[i] <= ts[j]
  }

  /** How many acceptances lie within the last 60 seconds. */
  function Recent(ts: seq<real>, now: real): nat {
    if ts == [] then 0 else (if now - ts[0] <= WINDOW_SECONDS then 1 else 0) + Recent(ts[1..], now)
  }

  /** How many acceptances lie in the 60 seconds from `start` on. */
  function InWindow(ts: seq<real>, start: real): nat {
    if ts == [] then 0
    else (if start <= ts[0] <= start + WINDOW_SECONDS then 1 else 0) + InWindow(ts[1..], start)
  }

  /** Any 61 acceptances in a row span more than 60 seconds. */
  predicate Spaced(ts: seq<real>) {
    forall i :: 0 <= i && i + WRITE_LIMIT < |ts| ==> ts[i + WRITE_LIMIT] - ts[i] > WINDOW_SECONDS
  }

  lemma {:induction false} RecentCount(ts: seq<real>, now: real, n: nat)
    requires n <= |ts|
    requires forall i :: 0 <= i < n ==> now - ts[i] > WINDOW_SECONDS
    requires forall i :: n <= i < |ts| ==> now - ts[i] <= WINDOW_SECONDS
    ensures Recent(ts, now) == |ts| - n
  {
    if ts != [] {
      RecentCount(ts[1..], now, if n == 0 then 0 else n - 1);
    }
  }

  lemma {:induction false} LateOnesOutside(ts: seq<real>, start: real)
    requires forall i :: 0 <= i < |ts| ==> ts[i] > start + WINDOW_SECONDS
    ensures InWindow(ts, start) == 0
  {
    if ts != [] { LateOnesOutside(ts[1..], start); }
  }

  lemma {:induction false} WindowSplits(ts: seq<real>, n: nat, start: real)
    requires n <= |ts|
    ensures InWindow(ts, start) <= n + InWindow(ts[n..], start)
  {
    if n > 0 {
      WindowSplits(ts[1..], n - 1, start);
      assert ts[1..][n - 1..] == ts[n..];
    } else {
      assert ts[0..] == ts;
    }
  }

  /** No window of 60 seconds, wherever it starts, holds more than 60 acceptances. */
  lemma {:induction false} WindowBound(ts: seq<real>, start: real)
    requires Sorted(ts) && Spaced(ts)
    ensures InWindow(ts, start) <= WRITE_LIMIT
  {
    if ts != [] {
      if ts[0] < start {
        WindowBound(ts[1..], start);
      } else if |ts| > WRITE_LIMIT {
        forall i | 0 <= i < |ts[WRITE_LIMIT..]| ensures ts[WRITE_LIMIT..][i] > start + WINDOW_SECONDS {
          assert ts[0 + WRITE_LIMIT] - ts[0] > WINDOW_SECONDS;
          assert ts[WRITE_LIMIT] <= ts[WRITE_LIMIT + i];
        }
        LateOnesOutside(ts[WRITE_LIMIT..], start);
        WindowSplits(ts, WRITE_LIMIT, start);
      } else {
        WindowSplits(ts, |ts|, start);
      }
    }
  }

  // --- buckets and history ---------------------------------------------------------------------

  function Get(m: map<string, seq<real>>, key: string): seq<real> {
    if key in m then m[key] else []
  }

  /** A bucket is what is left of the history after dropping expired acceptances. */
  ghost predicate Remnant(bucket: seq<real>, ts: seq<real>, clock: real) {
    && |bucket| <= |ts| && bucket == ts[|ts| - |bucket|..]
    && forall i :: 0 <= i < |ts| - |bucket| ==> clock - ts[i] > WINDOW_SECONDS
  }

  ghost predicate History(ts: seq<real>, clock: real) {
    Sorted(ts) && Spaced(ts) && forall i :: 0 <= i < |ts| ==> ts[i] <= clock
  }

  ghost predicate KeyOk(hits: map<string, seq<real>>, accepted: map<string, seq<real>>, clock: real, key: string) {
    History(Get(accepted, key), clock) && Remnant(Get(hits, key), Get(accepted, key), clock)
  }

  ghost predicate AllOk(hits: map<string, seq<real>>, accepted: map<string, seq<real>>, clock: real) {
    forall key :: KeyOk(hits, accepted, clock, key)
  }

  predicate Stale(bucket: seq<real>, now: real) {
    bucket == [] || now - bucket[|bucket| - 1] > WINDOW_SECONDS
  }

  /** Forgetting a key whose last acceptance has expired loses nothing that counts. */
  lemma ForgettingStale(hits: map<string, seq<real>>, accepted: map<string, seq<real>>, now: real, item: string)
    requires AllOk(hits, accepted, now) && item in hits && Stale(hits[item], now)
    ensures AllOk(hits - {item}, accepted, now)
  {
    assert KeyOk(hits, accepted, now, item);
    StaleIsEmpty(hits[item], Get(accepted, item), now);
    hide History, Remnant, Stale;
    forall key ensures KeyOk(hits - {item}, accepted, now, key) {
      assert KeyOk(hits, accepted, now, key);
    }
  }

  lemma StaleIsEmpty(bucket: seq<real>, ts: seq<real>, now: real)
    requires History(ts, now) && Remnant(bucket, ts, now) && Stale(bucket, now)
    ensures Remnant([], ts, now)
  {
  }

  lemma TimePasses(hits: map<string, seq<real>>, accepted: map<string, seq<real>>, clock: real, now: real)
    requires AllOk(hits, accepted, clock) && clock <= now
    ensures AllOk(hits, accepted, now)
  {
    forall key ensures KeyOk(hits, accepted, now, key) {
      assert KeyOk(hits, accepted, clock, key);
    }
  }

  /** Once the head is not expired, the bucket counts the recent acceptances. */
  lemma TrimmedCounts(bucket: seq<real>, ts: seq<real>, now: real)
    requires History(ts, now) && Remnant(bucket, ts, now)
    requires bucket == [] || now - bucket[0] <= WINDOW_SECONDS
    ensures Recent(ts, now) == |bucket|
  {
    var n := |ts| - |bucket|;
    forall i | n <= i < |ts| ensures now - ts[i] <= WINDOW_SECONDS {
      assert ts[n] == bucket[0];
    }
    RecentCount(ts, now, n);
  }

  lemma Accepting(bucket: seq<real>, ts: seq<real>, now: real)
    requires History(ts, now) && Remnant(bucket, ts, now) && |bucket| < WRITE_LIMIT
    ensures History(ts + [now], now) && Remnant(bucket + [now], ts + [now], now)
  {
    var more := ts + [now];
    forall i | 0 <= i && i + WRITE_LIMIT < |more| ensures more[i + WRITE_LIMIT] - more[i] > WINDOW_SECONDS {
      if i + WRITE_LIMIT == |ts| {
        assert i < |ts| - |bucket|;
      }
    }
  }

  lemma OneKeyChanges(hits: map<string, seq<real>>, accepted: map<string, seq<real>>, now: real,
                      key: string, bucket: seq<real>, ts: seq<real>)
    requires AllOk(hits, accepted, now) && History(ts, now) && Remnant(bucket, ts, now)
    ensures AllOk(hits[key := bucket], accepted[key := ts], now)
    ensures ts == Get(accepted, key) ==> AllOk(hits[key := bucket], accepted, now)
  {
    hide History, Remnant;
    var hits', accepted' := hits[key := bucket], accepted[key := ts];
    forall k ensures KeyOk(hits', accepted', now, k) {
      assert KeyOk(hits, accepted, now, k);
    }
    if ts == Get(accepted, key) {
      forall k ensures KeyOk(hits', accepted, now, k) {
        assert KeyOk(hits, accepted, now, k);
      }
    }
  }

  class WriteLimiter {
    var hits: map<string, seq<real>>
    /** Every acceptance ever, by key, and the last clock reading. */
    ghost var accepted: map<string, seq<real>>
    ghost var clock: real

    ghost predicate Valid()
      reads this
    {
      AllOk(hits, accepted, clock)
    }

    constructor (start: real)
      ensures Valid() && hits == map[] && accepted == map[] && clock == start
    {
      hits, accepted, clock := map[], map[], start;
    }

    /** The sweep, which runs only when there are too many keys. */
    method Sweep(now: real)
      requires Valid() && clock <= now
      modifies this
      ensures Valid() && clock == now && accepted == old(accepted)
      ensures |old(hits)| <= MAX_KEYS ==> hits == old(hits)
      ensures |old(hits)| > MAX_KEYS ==> hits.Keys == set k | k in old(hits) && !Stale(old(hits)[k], now)
      ensures forall k :: k in hits ==> k in old(hits) && hits[k] == old(hits)[k]
    {
      TimePasses(hits, accepted, clock, now);
      clock := now;
      if |hits| > MAX_KEYS {
        var stale := set key | key in hits && Stale(hits[key], now);
        ghost var was := hits;
        while stale != {}
          invariant AllOk(hits, accepted, now) && clock == now && accepted == old(accepted)
          invariant stale == set key | key in hits && Stale(hits[key], now)
          invariant forall k :: k in hits ==> k in was && hits[k] == was[k]
          invariant forall k :: k in was && !Stale(was[k], now) ==> k in hits
          decreases |stale|
        {
          var item :| item in stale;
          ForgettingStale(hits, accepted, now, item);
          hits := hits - {item};
          stale := stale - {item};
        }
        assert forall k :: k in hits ==> k !in stale;
      }
    }

    /**
     `_charge_memory`: the decision depends on the history of the key alone, whatever the sweep
     and the trimming have dropped.
     */
    method ChargeMemory(key: string, now: real) returns (allowed: bool)
      requires Valid() && clock <= now
      modifies this
      ensures Valid() && clock == now
      ensures allowed <==> Recent(Get(old(accepted), key), now) < WRITE_LIMIT
      ensures accepted == if allowed then old(accepted)[key := Get(old(accepted), key) + [now]] else old(accepted)
    {
      Sweep(now);
      ghost var ts := Get(accepted, key);
      assert KeyOk(hits, accepted, now, key);
      var bucket := Get(hits, key);
      while bucket != [] && now - bucket[0] > WINDOW_SECONDS
        invariant Remnant(bucket, ts, now)
        decreases |bucket|
      {
        bucket := bucket[1..];
      }
      TrimmedCounts(bucket, ts, now);
      allowed := |bucket| < WRITE_LIMIT;
      if allowed {
        Accepting(bucket, ts, now);
        bucket := bucket + [now];
        ts := ts + [now];
      }
      OneKeyChanges(hits, accepted, now, key, bucket, ts);
      hits := hits[key := bucket];
      if allowed {
        accepted := accepted[key := ts];
      }
    }
  }

  /** So for every key, at any time, every 60-second window of its history holds at most 60 acceptances. */
  lemma NoWindowOverfull(hits: map<string, seq<real>>, accepted: map<string, seq<real>>, clock: real, key: string, start: real)
    requires AllOk(hits, accepted, clock)
    ensures InWindow(Get(accepted, key), start) <= WRITE_LIMIT
  {
    assert KeyOk(hits, accepted, clock, key);
    WindowBound(Get(accepted, key), start);
  }
}
