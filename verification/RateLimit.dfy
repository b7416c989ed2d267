/** The per-key token bucket of `coordinator/internal/ratelimit/ratelimit.go`.
    Times are nanoseconds; the floating-point token count is read as an exact real. */
module RateLimit {

  const SECOND: int := 1_000_000_000
  const MILLISECOND: int := 1_000_000

  datatype Bucket = Bucket(tokens: real, last: int)
  type Buckets = map<string, Bucket>

  datatype Limit = Limit(ratePerSec: real, burst: real)

  function LimitOf(ratePerMin: int): Limit {
    Limit(ratePerMin as real / 60.0, ratePerMin as real)
  }

  /** Tokens earned in `ns` nanoseconds. */
  function Earned(limit: Limit, ns: int): real {
    ns as real / SECOND as real * limit.ratePerSec
  }

  function Min(a: real, b: real): real {
    if a > b then b else a
  }

  /** The bucket of `key` as of `now`, before a token is spent. */
  function Refilled(limit: Limit, buckets: Buckets, key: string, now: int): Bucket {
    var b := if key in buckets then buckets[key] else Bucket(limit.burst, now);
    Bucket(Min(b.tokens + Earned(limit, now - b.last), limit.burst), now)
  }

  predicate Admits(limit: Limit, buckets: Buckets, key: string, now: int) {
    Refilled(limit, buckets, key, now).tokens >= 1.0
  }

  function Spend(limit: Limit, buckets: Buckets, key: string, now: int): Buckets {
    var b := Refilled(limit, buckets, key, now);
    buckets[key := if b.tokens >= 1.0 then b.(tokens := b.tokens - 1.0) else b]
  }

  /** How long a refused caller is told to wait. */
  function Wait(limit: Limit, tokens: real): int
    requires limit.ratePerSec > 0.0
  {
    ((1.0 - tokens) / limit.ratePerSec * SECOND as real).Floor + MILLISECOND
  }

  class Limiter {
    const limit: Limit
    var buckets: Buckets

    constructor (ratePerMin: int)
      ensures limit == LimitOf(ratePerMin) && buckets == map[]
    {
      limit := Limit(ratePerMin as real / 60.0, ratePerMin as real);
      buckets := map[];
    }

    method Allow(key: string, now: int) returns (ok: bool, wait: int)
      modifies this
      ensures limit.ratePerSec <= 0.0 ==> ok && wait == 0 && buckets == old(buckets)
      ensures limit.ratePerSec > 0.0 ==>
        && ok == Admits(limit, old(buckets), key, now)
        && buckets == Spend(limit, old(buckets), key, now)
        && wait == if ok then 0 else Wait(limit, Refilled(limit, old(buckets), key, now).tokens)
    {
      if limit.ratePerSec <= 0.0 {
        return true, 0;
      }
      if key !in buckets {
        buckets := buckets[key := Bucket(limit.burst, now)];
      }
      var b := buckets[key];
      var tokens := b.tokens + (now - b.last) as real / SECOND as real * limit.ratePerSec;
      if tokens > limit.burst {
        tokens := limit.burst;
      }
      if tokens >= 1.0 {
        buckets := buckets[key := Bucket(tokens - 1.0, now)];
        return true, 0;
      }
      buckets := buckets[key := Bucket(tokens, now)];
      wait := ((1.0 - tokens) / limit.ratePerSec * SECOND as real).Floor + MILLISECOND;
      ok := false;
    }
  }

  // ---------------------------------------------------------------- runs

  datatype Call = Call(key: string, now: int)

  ghost predicate InTimeOrder(calls: seq<Call>) {
    forall i, j | 0 <= i < j < |calls| :: calls[i].now <= calls[j].now
  }

  /** The buckets after the first `n` calls. */
  function After(limit: Limit, calls: seq<Call>, n: nat): Buckets
    requires n <= |calls|
  {
    if n == 0 then map[] else Spend(limit, After(limit, calls, n - 1), calls[n - 1].key, calls[n - 1].now)
  }

  predicate Admitted(limit: Limit, calls: seq<Call>, i: nat)
    requires i < |calls|
  {
    Admits(limit, After(limit, calls, i), calls[i].key, calls[i].now)
  }

  /** Requests for `key` admitted among calls `i` to `j - 1`. */
  function Count(limit: Limit, calls: seq<Call>, key: string, i: nat, j: nat): nat
    requires i <= j <= |calls|
    decreases j - i
  {
    if i == j then 0
    else
      var admitted := calls[j - 1].key == key && Admitted(limit, calls, j - 1);
      Count(limit, calls, key, i, j - 1) + (if admitted then 1 else 0)
  }

  /** What `key` may use from call `i` to call `j`: the burst plus what the elapsed time earns. */
  function Allowance(limit: Limit, calls: seq<Call>, i: nat, j: nat): real
    requires i <= j < |calls|
  {
    limit.burst + Earned(limit, calls[j].now - calls[i].now)
  }

  lemma EarnedAdds(limit: Limit, a: int, b: int)
    ensures Earned(limit, a + b) == Earned(limit, a) + Earned(limit, b)
    ensures limit.ratePerSec > 0.0 && a >= 0 ==> Earned(limit, a) >= 0.0
  {
    assert (a + b) as real / SECOND as real == a as real / SECOND as real + b as real / SECOND as real;
  }

  // ---------------------------------------------------------------- never too many

  /** Counting from a call of the key, admissions plus the tokens left stay within the allowance
      up to the key's last call — whatever the clock readings. */
  lemma {:induction false} CountPlusTokens(limit: Limit, calls: seq<Call>, key: string, i: nat, j: nat)
    requires limit.ratePerSec > 0.0 && limit.burst >= 1.0
    requires i <= j < |calls| && calls[i].key == key
    ensures key in After(limit, calls, j + 1)
    ensures var b := After(limit, calls, j + 1)[key];
      Count(limit, calls, key, i, j + 1) as real + b.tokens <= limit.burst + Earned(limit, b.last - calls[i].now)
    decreases j - i
  {
    var c := calls[j];
    if i == j {
      assert Count(limit, calls, key, i, j) == 0;
    } else {
      CountPlusTokens(limit, calls, key, i, j - 1);
      if c.key == key {
        var b := After(limit, calls, j)[key];
        EarnedAdds(limit, b.last - calls[i].now, c.now - b.last);
        assert c.now - calls[i].now == (b.last - calls[i].now) + (c.now - b.last);
      }
    }
  }

  /** From any call of a key to any admitted call of it, the number admitted is at most burst +
      rate * elapsed, even when clock readings are out of order. */
  lemma KeyWindowBound(limit: Limit, calls: seq<Call>, i: nat, j: nat)
    requires limit.ratePerSec > 0.0 && limit.burst >= 1.0
    requires i <= j < |calls| && calls[i].key == calls[j].key && Admitted(limit, calls, j)
    ensures Count(limit, calls, calls[j].key, i, j + 1) as real <= Allowance(limit, calls, i, j)
  {
    CountPlusTokens(limit, calls, calls[j].key, i, j);
  }

  /** Every call of `key` from call `i` up to call `j` reads a clock between `lo` and `hi`. */
  ghost predicate ReadsWithin(calls: seq<Call>, key: string, i: nat, j: nat, lo: int, hi: int)
    requires j <= |calls|
  {
    lo <= hi && forall k | i <= k < j && calls[k].key == key :: lo <= calls[k].now <= hi
  }

  /** The number admitted for a key over any stretch of calls is at most burst + rate * the time
      its clock readings span, in whatever order they come. */
  lemma {:induction false} SpanBound(limit: Limit, calls: seq<Call>, key: string, i: nat, j: nat, lo: int, hi: int)
    requires limit.ratePerSec > 0.0 && limit.burst >= 1.0
    requires i <= j <= |calls| && ReadsWithin(calls, key, i, j, lo, hi)
    ensures Count(limit, calls, key, i, j) as real <= limit.burst + Earned(limit, hi - lo)
    decreases j - i
  {
    EarnedAdds(limit, hi - lo, 0);
    if i == j {
    } else if calls[j - 1].key != key || !Admitted(limit, calls, j - 1) {
      SpanBound(limit, calls, key, i, j - 1, lo, hi);
    } else if calls[i].key != key {
      SpanBound(limit, calls, key, i + 1, j, lo, hi);
      SkipOther(limit, calls, key, i, j);
    } else {
      KeyWindowBound(limit, calls, i, j - 1);
      EarnedGrows(limit, calls[j - 1].now - calls[i].now, hi - lo);
    }
  }

  lemma EarnedGrows(limit: Limit, a: int, b: int)
    requires limit.ratePerSec > 0.0 && a <= b
    ensures Earned(limit, a) <= Earned(limit, b)
  {
    EarnedAdds(limit, b - a, a);
  }

  /** The number admitted for a key between any two calls is at most burst + rate * elapsed, unless
      a call of the key between them reads a clock outside of theirs. */
  lemma WindowBound(limit: Limit, calls: seq<Call>, key: string, i: nat, j: nat)
    requires limit.ratePerSec > 0.0 && limit.burst >= 1.0
    requires i <= j < |calls| && ReadsWithin(calls, key, i, j + 1, calls[i].now, calls[j].now)
    ensures Count(limit, calls, key, i, j + 1) as real <= Allowance(limit, calls, i, j)
  {
    SpanBound(limit, calls, key, i, j + 1, calls[i].now, calls[j].now);
  }

  /** Readings in order never do. */
  lemma OrderedReadsAreWithin(calls: seq<Call>, key: string, i: nat, j: nat)
    requires i <= j < |calls| && InTimeOrder(calls)
    ensures ReadsWithin(calls, key, i, j + 1, calls[i].now, calls[j].now)
  {
  }

  lemma {:induction false} SkipOther(limit: Limit, calls: seq<Call>, key: string, i: nat, j: nat)
    requires i < j <= |calls| && calls[i].key != key
    ensures Count(limit, calls, key, i, j) == Count(limit, calls, key, i + 1, j)
    decreases j - i
  {
    if i + 1 < j {
      SkipOther(limit, calls, key, i, j - 1);
    } else {
      assert Count(limit, calls, key, i, i) == 0;
    }
  }

  // ---------------------------------------------------------------- never too few

  /** Since call `s` the bucket of `key` has accounted for every token: none was thrown away. */
  ghost predicate Accounted(limit: Limit, calls: seq<Call>, key: string, s: nat, n: nat)
    requires n <= |calls|
  {
    && s < n && calls[s].key == key && key in After(limit, calls, n)
    && var b := After(limit, calls, n)[key];
       Count(limit, calls, key, s, n) as real + b.tokens == limit.burst + Earned(limit, b.last - calls[s].now)
  }

  /** Some call of the key found the bucket full, and no token was thrown away since. */
  lemma {:induction false} FullSince(limit: Limit, calls: seq<Call>, key: string, n: nat) returns (s: nat)
    requires limit.ratePerSec > 0.0 && limit.burst >= 1.0
    requires n <= |calls| && key in After(limit, calls, n)
    ensures Accounted(limit, calls, key, s, n)
  {
    var before, c := After(limit, calls, n - 1), calls[n - 1];
    if c.key != key {
      s := FullSince(limit, calls, key, n - 1);
      OtherKeyKeepsAccount(limit, calls, key, s, n);
    } else if key !in before || before[key].tokens + Earned(limit, c.now - before[key].last) > limit.burst {
      s := n - 1;
      FullAt(limit, calls, n);
    } else {
      s := FullSince(limit, calls, key, n - 1);
      StillFullSince(limit, calls, key, n, s);
    }
  }

  lemma OtherKeyKeepsAccount(limit: Limit, calls: seq<Call>, key: string, s: nat, n: nat)
    requires 0 < n <= |calls| && calls[n - 1].key != key && Accounted(limit, calls, key, s, n - 1)
    ensures Accounted(limit, calls, key, s, n)
  {
  }

  lemma FullAt(limit: Limit, calls: seq<Call>, n: nat)
    requires limit.ratePerSec > 0.0 && limit.burst >= 1.0 && 0 < n <= |calls|
    requires var key, before := calls[n - 1].key, After(limit, calls, n - 1);
      key !in before || before[key].tokens + Earned(limit, calls[n - 1].now - before[key].last) > limit.burst
    ensures Accounted(limit, calls, calls[n - 1].key, n - 1, n)
  {
    assert Count(limit, calls, calls[n - 1].key, n - 1, n - 1) == 0;
  }

  lemma StillFullSince(limit: Limit, calls: seq<Call>, key: string, n: nat, s: nat)
    requires limit.ratePerSec > 0.0 && limit.burst >= 1.0
    requires 0 < n <= |calls| && calls[n - 1].key == key && Accounted(limit, calls, key, s, n - 1)
    requires var b := After(limit, calls, n - 1)[key];
      b.tokens + Earned(limit, calls[n - 1].now - b.last) <= limit.burst
    ensures Accounted(limit, calls, key, s, n)
  {
    var b, now := After(limit, calls, n - 1)[key], calls[n - 1].now;
    EarnedAdds(limit, b.last - calls[s].now, now - b.last);
    assert now - calls[s].now == (b.last - calls[s].now) + (now - b.last);
  }

  /** Call `i` may be admitted without any window that ends at it exceeding its allowance. */
  ghost predicate RoomFor(limit: Limit, calls: seq<Call>, i: nat)
    requires i < |calls|
  {
    forall s | 0 <= s <= i && calls[s].key == calls[i].key ::
      Count(limit, calls, calls[i].key, s, i) as real + 1.0 <= Allowance(limit, calls, s, i)
  }

  /** The limiter is exact: it admits a call precisely when every window ending there has room,
      whatever the clock readings. */
  lemma AdmittedIffRoom(limit: Limit, calls: seq<Call>, i: nat)
    requires limit.ratePerSec > 0.0 && limit.burst >= 1.0
    requires i < |calls|
    ensures Admitted(limit, calls, i) <==> RoomFor(limit, calls, i)
  {
    if Admitted(limit, calls, i) {
      forall s | 0 <= s <= i && calls[s].key == calls[i].key
        ensures Count(limit, calls, calls[i].key, s, i) as real + 1.0 <= Allowance(limit, calls, s, i)
      {
        KeyWindowBound(limit, calls, s, i);
      }
    } else {
      RefusedHasNoRoom(limit, calls, i);
    }
  }

  lemma RefusedHasNoRoom(limit: Limit, calls: seq<Call>, i: nat)
    requires limit.ratePerSec > 0.0 && limit.burst >= 1.0
    requires i < |calls| && !Admitted(limit, calls, i)
    ensures !RoomFor(limit, calls, i)
  {
    var key, before := calls[i].key, After(limit, calls, i);
    EarnedAdds(limit, 0, 0);
    assert key in before;
    var b := before[key];
    var s := FullSince(limit, calls, key, i);
    EarnedAdds(limit, b.last - calls[s].now, calls[i].now - b.last);
    assert calls[i].now - calls[s].now == (b.last - calls[s].now) + (calls[i].now - b.last);
    assert Count(limit, calls, key, s, i) as real + 1.0 > Allowance(limit, calls, s, i);
  }

  /** A refused caller that waits as told, and is the key's next request, is admitted. */
  lemma WaitingAsToldIsEnough(limit: Limit, calls: seq<Call>, i: nat, j: nat)
    requires limit.ratePerSec > 0.0 && limit.burst >= 1.0
    requires i < j < |calls| && calls[i].key == calls[j].key && !Admitted(limit, calls, i)
    requires forall k | i < k < j :: calls[k].key != calls[j].key
    requires var b := Refilled(limit, After(limit, calls, i), calls[i].key, calls[i].now);
      calls[j].now >= calls[i].now + Wait(limit, b.tokens)
    ensures Admitted(limit, calls, j)
  {
    var key := calls[i].key;
    var b := Refilled(limit, After(limit, calls, i), key, calls[i].now);
    RefusedKeepsBucket(limit, calls, i);
    Untouched(limit, calls, key, i + 1, j);
    WaitEarns(limit, b.tokens, calls[j].now - calls[i].now);
    EarnedAdmits(limit, After(limit, calls, j), key, calls[j].now);
  }

  lemma RefusedKeepsBucket(limit: Limit, calls: seq<Call>, i: nat)
    requires i < |calls| && !Admitted(limit, calls, i)
    ensures calls[i].key in After(limit, calls, i + 1)
    ensures After(limit, calls, i + 1)[calls[i].key]
         == Refilled(limit, After(limit, calls, i), calls[i].key, calls[i].now)
    ensures After(limit, calls, i + 1)[calls[i].key].last == calls[i].now
  {
  }

  lemma EarnedAdmits(limit: Limit, buckets: Buckets, key: string, now: int)
    requires limit.burst >= 1.0 && key in buckets
    requires buckets[key].tokens + Earned(limit, now - buckets[key].last) >= 1.0
    ensures Admits(limit, buckets, key, now)
  {
  }

  lemma WaitEarns(limit: Limit, tokens: real, elapsed: int)
    requires limit.ratePerSec > 0.0 && elapsed >= Wait(limit, tokens)
    ensures tokens + Earned(limit, elapsed) >= 1.0
  {
    var missing := (1.0 - tokens) / limit.ratePerSec;
    var ns := missing * SECOND as real;
    assert ns < ns.Floor as real + 1.0;
    assert elapsed as real >= ns;
    var seconds := elapsed as real / SECOND as real;
    assert seconds * SECOND as real == elapsed as real;
    assert seconds >= missing;
    EnoughEarned(limit.ratePerSec, seconds, 1.0 - tokens);
  }

  lemma EnoughEarned(rate: real, seconds: real, need: real)
    requires rate > 0.0 && seconds >= need / rate
    ensures seconds * rate >= need
  {
    assert need / rate * rate == need;
    assert (seconds - need / rate) * rate >= 0.0;
  }

  lemma {:induction false} Untouched(limit: Limit, calls: seq<Call>, key: string, i: nat, j: nat)
    requires i <= j <= |calls| && forall k | i <= k < j :: calls[k].key != key
    requires key in After(limit, calls, i)
    ensures key in After(limit, calls, j) && After(limit, calls, j)[key] == After(limit, calls, i)[key]
    decreases j - i
  {
    if i < j {
      Untouched(limit, calls, key, i, j - 1);
    }
  }

  /** Every positive per-minute setting meets the assumptions above. */
  lemma PositiveSettingIsALimit(ratePerMin: int)
    requires ratePerMin > 0
    ensures LimitOf(ratePerMin).ratePerSec > 0.0 && LimitOf(ratePerMin).burst >= 1.0
    ensures LimitOf(ratePerMin).ratePerSec * 60.0 == LimitOf(ratePerMin).burst
  {
  }

  // ---------------------------------------------------------------- the told wait is not too long

  /** Nor is it told to wait longer than needed: coming more than a millisecond early it is refused
      again. */
  lemma ComingEarlyIsRefused(limit: Limit, calls: seq<Call>, i: nat, j: nat)
    requires limit.ratePerSec > 0.0 && limit.burst >= 1.0
    requires i < j < |calls| && calls[i].key == calls[j].key && !Admitted(limit, calls, i)
    requires forall k | i < k < j :: calls[k].key != calls[j].key
    requires var b := Refilled(limit, After(limit, calls, i), calls[i].key, calls[i].now);
      calls[j].now < calls[i].now + Wait(limit, b.tokens) - 1_000_000
    ensures !Admitted(limit, calls, j)
  {
    var key := calls[i].key;
    var b := Refilled(limit, After(limit, calls, i), key, calls[i].now);
    RefusedKeepsBucket(limit, calls, i);
    Untouched(limit, calls, key, i + 1, j);
    TooEarlyEarns(limit, b.tokens, calls[j].now - calls[i].now);
  }

  lemma TooEarlyEarns(limit: Limit, tokens: real, elapsed: int)
    requires limit.ratePerSec > 0.0 && elapsed < Wait(limit, tokens) - MILLISECOND
    ensures tokens + Earned(limit, elapsed) < 1.0
  {
    var missing := (1.0 - tokens) / limit.ratePerSec;
    var seconds := elapsed as real / SECOND as real;
    assert elapsed as real < missing * SECOND as real;
    assert seconds * SECOND as real == elapsed as real;
    assert seconds < missing;
    NotEnoughEarned(limit.ratePerSec, seconds, 1.0 - tokens);
  }

  lemma NotEnoughEarned(rate: real, seconds: real, need: real)
    requires rate > 0.0 && seconds < need / rate
    ensures seconds * rate < need
  {
    assert need / rate * rate == need;
    assert (need / rate - seconds) * rate > 0.0;
  }

  /** In the setting's own units: what a key may use from one call to another is as many requests
      as it may make a minute, and that many more for every minute between them. */
  lemma AllowanceIsPerMinute(ratePerMin: int, calls: seq<Call>, i: nat, j: nat)
    requires i <= j < |calls|
    ensures Allowance(LimitOf(ratePerMin), calls, i, j)
         == ratePerMin as real + ratePerMin as real * ((calls[j].now - calls[i].now) as real / 60_000_000_000.0)
  {
    PerMinute(ratePerMin as real, (calls[j].now - calls[i].now) as real);
  }

  lemma PerMinute(rate: real, ns: real)
    ensures ns / 1_000_000_000.0 * (rate / 60.0) == rate * (ns / 60_000_000_000.0)
  {
  }
}
