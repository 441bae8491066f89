/** The token bucket of the rate limiter, with calls one after another on a clock
    that does not run backwards. Times are in milliseconds. */
module TokenBuckets {
  import opened Orders
  import opened Int64

  const STANDARD_CAPACITY := 100
  const STANDARD_REFILL_RATE := 100

  datatype Bucket = Bucket(capacity: nat, refillPerSecond: nat, tokens: int, lastRefill: int)

  function Fresh(capacity: nat, refillPerSecond: nat, now: int): Bucket {
    Bucket(capacity, refillPerSecond, capacity, now)
  }

  /** Tokens earned between two times. */
  function EarnedSince(rate: nat, last: int, now: int): int {
    Quot((now - last) * rate, 1000)
  }

  /** The remainder of the division is not lost unless a refill happens. */
  function Earned(b: Bucket, now: int): int {
    EarnedSince(b.refillPerSecond, b.lastRefill, now)
  }

  function Refill(b: Bucket, now: int): Bucket {
    if now - b.lastRefill <= 0 || Earned(b, now) <= 0 then b
    else b.(tokens := Min(b.capacity, b.tokens + Earned(b, now)), lastRefill := now)
  }

  predicate Grants(b: Bucket, now: int) {
    Refill(b, now).tokens > 0
  }

  function TryConsume(b: Bucket, now: int): Bucket {
    var r := Refill(b, now);
    if r.tokens > 0 then r.(tokens := r.tokens - 1) else r
  }

  function SecondsUntilRefill(b: Bucket, now: int): int {
    if Earned(b, now) > 0 then 0 else 1
  }

  // ------------------------------------------------------------------
  //  Runs of calls
  // ------------------------------------------------------------------

  function After(b: Bucket, times: seq<int>): Bucket
    decreases |times|
  {
    if times == [] then b else After(TryConsume(b, times[0]), times[1..])
  }

  /** How many of the calls are granted. */
  function Granted(b: Bucket, times: seq<int>): nat
    decreases |times|
  {
    if times == [] then 0
    else (if Grants(b, times[0]) then 1 else 0) + Granted(TryConsume(b, times[0]), times[1..])
  }

  ghost predicate Monotone(start: int, times: seq<int>) {
    && (forall i | 0 <= i < |times| :: start <= times[i])
    && (forall i, j | 0 <= i < j < |times| :: times[i] <= times[j])
  }

  ghost predicate Ok(b: Bucket) {
    0 <= b.tokens <= b.capacity
  }

  lemma EarnedBounds(b: Bucket, now: int)
    requires b.lastRefill <= now
    ensures 0 <= Earned(b, now) && 1000 * Earned(b, now) <= (now - b.lastRefill) * b.refillPerSecond
    ensures (now - b.lastRefill) * b.refillPerSecond <= 1000 * Earned(b, now) + 999
  {
    assert 0 <= (now - b.lastRefill) * b.refillPerSecond;
  }

  lemma ConsumeOk(b: Bucket, now: int)
    requires Ok(b) && b.lastRefill <= now
    ensures var b' := TryConsume(b, now);
            && Ok(b') && b'.lastRefill <= now
            && (b'.lastRefill == b.lastRefill || b'.lastRefill == now)
            && b'.capacity == b.capacity && b'.refillPerSecond == b.refillPerSecond
  {
    EarnedBounds(b, now);
  }

  /** Thousandths of a token a bucket can still hand out until `end`. */
  ghost function Budget(b: Bucket, end: int): int {
    1000 * b.tokens + (end - b.lastRefill) * b.refillPerSecond
  }

  lemma RefillKeepsBudget(b: Bucket, now: int, end: int)
    requires Ok(b) && b.lastRefill <= now <= end
    ensures Budget(Refill(b, now), end) <= Budget(b, end)
  {
    EarnedBounds(b, now);
    var r := b.refillPerSecond;
    assert (end - b.lastRefill) * r == (end - now) * r + (now - b.lastRefill) * r;
  }

  /** Every grant costs a whole token of the budget. */
  lemma ConsumeSpends(b: Bucket, now: int, end: int)
    requires Ok(b) && b.lastRefill <= now <= end
    ensures Budget(TryConsume(b, now), end) + (if Grants(b, now) then 1000 else 0) <= Budget(b, end)
  {
    RefillKeepsBudget(b, now, end);
    hide Refill;
  }

  lemma {:induction false} GrantsWithinBudget(b: Bucket, times: seq<int>, end: int)
    requires Ok(b) && Monotone(b.lastRefill, times) && b.lastRefill <= end
    requires forall i | 0 <= i < |times| :: times[i] <= end
    ensures 1000 * Granted(b, times) <= Budget(b, end)
    decreases |times|
  {
    if times == [] {
      assert 0 <= (end - b.lastRefill) * b.refillPerSecond;
    } else {
      ConsumeOk(b, times[0]);
      ConsumeSpends(b, times[0], end);
      hide Budget, TryConsume, Grants;
      GrantsWithinBudget(TryConsume(b, times[0]), times[1..], end);
    }
  }

  /** From its creation on, a bucket grants at most its capacity plus what it earned. */
  lemma RateBoundFromCreation(capacity: nat, rate: nat, created: int, times: seq<int>, end: int)
    requires Monotone(created, times) && created <= end && forall i | 0 <= i < |times| :: times[i] <= end
    ensures Granted(Fresh(capacity, rate, created), times) <= capacity + ((end - created) * rate) / 1000
  {
    GrantsWithinBudget(Fresh(capacity, rate, created), times, end);
  }

  /** In a window that starts anywhere, the bound is off by less than one token: the
      fraction earned before the window and not yet credited. */
  lemma WindowBound(b: Bucket, times: seq<int>, start: int, end: int)
    requires Ok(b) && Monotone(b.lastRefill, times) && times != [] && start <= times[0]
    requires forall i | 0 <= i < |times| :: times[i] <= end
    ensures Granted(b, times) <= b.capacity + ((end - start) * b.refillPerSecond + 999) / 1000
  {
    var now := times[0];
    var f := Refill(b, now);
    EarnedBounds(b, now);
    RefillTwice(b, now);
    assert Granted(f, times) == Granted(b, times);
    WindowBudget(b, now, start, end);
    hide Budget, Earned, Refill, Granted;
    GrantsWithinBudget(f, times, end);
  }

  lemma WindowBudget(b: Bucket, now: int, start: int, end: int)
    requires Ok(b) && b.lastRefill <= now && start <= now <= end
    ensures var f := Refill(b, now);
            && Ok(f) && b.lastRefill <= f.lastRefill <= now
            && Budget(f, end) <= 1000 * b.capacity + (end - start) * b.refillPerSecond + 999
  {
    var f, r := Refill(b, now), b.refillPerSecond;
    EarnedBounds(b, now);
    assert (end - f.lastRefill) * r == (end - now) * r + (now - f.lastRefill) * r;
    MulMonotone(end - now, end - start, r);
  }

  /** A second refill at the same instant does nothing. */
  lemma RefillTwice(b: Bucket, now: int)
    ensures Refill(Refill(b, now), now) == Refill(b, now)
  {
  }

  lemma {:induction false} AfterOk(b: Bucket, times: seq<int>)
    requires Ok(b) && Monotone(b.lastRefill, times)
    ensures var b' := After(b, times);
            && Ok(b') && b'.capacity == b.capacity && b'.refillPerSecond == b.refillPerSecond
            && (b'.lastRefill == b.lastRefill || b'.lastRefill in times)
    decreases |times|
  {
    if times != [] {
      ConsumeOk(b, times[0]);
      AfterOk(TryConsume(b, times[0]), times[1..]);
      assert forall t | t in times[1..] :: t in times;
    }
  }

  /** The rate bound over any window of any run: calls `i` to `j` of a run since the
      creation of the bucket, all made between `start` and `end`. */
  lemma RateBound(capacity: nat, rate: nat, created: int, times: seq<int>, i: nat, j: nat, start: int, end: int)
    requires Monotone(created, times) && i < j <= |times| && start <= times[i] && times[j - 1] <= end
    ensures Granted(After(Fresh(capacity, rate, created), times[..i]), times[i..j])
            <= capacity + ((end - start) * rate + 999) / 1000
  {
    var b0, earlier, calls := Fresh(capacity, rate, created), times[..i], times[i..j];
    AfterOk(b0, earlier);
    var b := After(b0, earlier);
    if b.lastRefill in earlier {
      var k :| 0 <= k < |earlier| && earlier[k] == b.lastRefill;
      assert times[k] == b.lastRefill;
    }
    assert calls[0] == times[i] && forall k | 0 <= k < |calls| :: calls[k] == times[i + k];
    WindowBound(b, calls, start, end);
  }

  // ------------------------------------------------------------------
  //  The bound is attained
  // ------------------------------------------------------------------

  /** Calls at one instant are granted as long as there are tokens. */
  lemma {:induction false} BurstIsGranted(b: Bucket, now: int, n: nat)
    requires b.lastRefill == now && n <= b.tokens
    ensures Granted(b, seq(n, _ => now)) == n
    ensures After(b, seq(n, _ => now)) == b.(tokens := b.tokens - n)
    decreases n
  {
    if n > 0 {
      var calls, rest := seq(n, _ => now), seq(n - 1, _ => now);
      assert calls[0] == now && calls[1..] == rest;
      BurstIsGranted(b.(tokens := b.tokens - 1), now, n - 1);
    }
  }

  lemma {:induction false} RunConcat(b: Bucket, a: seq<int>, c: seq<int>)
    ensures Granted(b, a + c) == Granted(b, a) + Granted(After(b, a), c)
    decreases |a|
  {
    if a == [] {
      assert a + c == c;
    } else {
      assert (a + c)[1..] == a[1..] + c;
      RunConcat(TryConsume(b, a[0]), a[1..], c);
    }
  }

  /** A full burst, then another one after as long as it takes to earn it: the bound
      from creation is exact. With the standard settings that is 200 grants within
      one second, twice what "100 orders per second" suggests. */
  lemma BoundIsAttained(capacity: nat, rate: nat, created: int, millis: nat)
    requires 1 <= (millis * rate) / 1000 <= capacity
    ensures var earned := (millis * rate) / 1000;
            var times := seq(capacity, _ => created) + seq(earned, _ => created + millis);
            Granted(Fresh(capacity, rate, created), times) == capacity + earned
  {
    var earned, b := (millis * rate) / 1000, Fresh(capacity, rate, created);
    var first, second := seq(capacity, _ => created), seq(earned, _ => created + millis);
    BurstIsGranted(b, created, capacity);
    RunConcat(b, first, second);
    var drained := b.(tokens := 0);
    var refilled := drained.(tokens := earned, lastRefill := created + millis);
    assert Refill(drained, created + millis) == refilled;
    BurstIsGranted(refilled, created + millis, earned);
    RefillTwice(drained, created + millis);
    assert second[0] == created + millis;
    assert Granted(drained, second) == Granted(refilled, second);
  }

  lemma StandardBurst(created: int)
    ensures Granted(Fresh(STANDARD_CAPACITY, STANDARD_REFILL_RATE, created),
                    seq(100, _ => created) + seq(100, _ => created + 1000)) == 200
  {
    BoundIsAttained(STANDARD_CAPACITY, STANDARD_REFILL_RATE, created, 1000);
  }

  // ------------------------------------------------------------------
  //  Fractions of a token are not lost
  // ------------------------------------------------------------------

  /** While less than a token has been earned a call changes nothing but the tokens, so
      the time goes on counting; from a whole token on it is granted. */
  lemma CallByTime(b: Bucket, now: int)
    requires Ok(b) && b.capacity >= 1 && b.lastRefill <= now
    ensures var b' := TryConsume(b, now);
            if (now - b.lastRefill) * b.refillPerSecond < 1000
            then b'.lastRefill == b.lastRefill && b'.tokens == Max(0, b.tokens - 1) && (Grants(b, now) <==> b.tokens > 0)
            else b'.lastRefill == now && Grants(b, now)
                 && b'.tokens == Min(b.capacity, b.tokens + ((now - b.lastRefill) * b.refillPerSecond) / 1000) - 1
  {
    EarnedBounds(b, now);
  }

  /** However often a bucket is called, a call is granted by the time a whole token has
      been earned. */
  lemma {:induction false} NobodyStarves(b: Bucket, times: seq<int>)
    requires Ok(b) && b.capacity >= 1 && Monotone(b.lastRefill, times) && times != []
    requires (times[|times| - 1] - b.lastRefill) * b.refillPerSecond >= 1000
    ensures Granted(b, times) >= 1
    decreases |times|
  {
    CallByTime(b, times[0]);
    ConsumeOk(b, times[0]);
    if !Grants(b, times[0]) {
      hide TryConsume, Grants;
      NobodyStarves(TryConsume(b, times[0]), times[1..]);
    }
  }

  /** The time before call `i`. */
  function Gap(start: int, times: seq<int>, i: nat): int
    requires i < |times|
  {
    times[i] - if i == 0 then start else times[i - 1]
  }

  /** Calls come at least as often as tokens are earned. */
  ghost predicate Frequent(start: int, times: seq<int>, rate: nat) {
    forall i | 0 <= i < |times| :: Gap(start, times, i) * rate <= 1000
  }

  lemma FrequentTail(start: int, times: seq<int>, rate: nat)
    requires times != [] && Frequent(start, times, rate)
    ensures (times[0] - start) * rate <= 1000 && Frequent(times[0], times[1..], rate)
  {
    assert Gap(start, times, 0) == times[0] - start;
    forall i | 0 <= i < |times[1..]| ensures Gap(times[0], times[1..], i) * rate <= 1000 {
      assert Gap(times[0], times[1..], i) == Gap(start, times, i + 1);
    }
  }

  lemma ElapsedSplits(x: int, y: int, z: int, r: int)
    ensures (z - x) * r == (z - y) * r + (y - x) * r
  {
  }

  /** The lower bound: a bucket that is called that often grants at least one call for
      every two tokens earned, up to the last fraction. */
  lemma {:induction false} PolledBucketGrants(b: Bucket, times: seq<int>, previous: int)
    requires Ok(b) && b.capacity >= 1 && Monotone(previous, times) && times != []
    requires b.lastRefill <= previous && (previous - b.lastRefill) * b.refillPerSecond < 1000
    requires Frequent(previous, times, b.refillPerSecond)
    ensures (times[|times| - 1] - b.lastRefill) * b.refillPerSecond < 2000 * Granted(b, times) + 1000
    decreases |times|
  {
    var r, now, last, rest := b.refillPerSecond, times[0], times[|times| - 1], times[1..];
    FrequentTail(previous, times, r);
    ElapsedSplits(b.lastRefill, previous, now, r);
    ElapsedSplits(b.lastRefill, now, last, r);
    CallByTime(b, now);
    ConsumeOk(b, now);
    var b' := TryConsume(b, now);
    hide TryConsume, Grants, Frequent;
    if rest != [] {
      assert Monotone(now, rest) && rest[|rest| - 1] == last;
      PolledBucketGrants(b', rest, now);
    }
  }

  // ------------------------------------------------------------------
  //  Retry-After
  // ------------------------------------------------------------------

  /** An empty bucket advertises zero seconds exactly when a retry at once is granted. */
  lemma ZeroMeansNow(b: Bucket, now: int)
    requires Ok(b) && b.tokens == 0 && b.capacity >= 1 && b.lastRefill <= now
    ensures SecondsUntilRefill(b, now) == 0 <==> Grants(b, now)
    ensures SecondsUntilRefill(b, now) == 0 || SecondsUntilRefill(b, now) == 1
  {
    EarnedBounds(b, now);
  }

  /** After a refusal, a retry made at least the advertised number of seconds later,
      with no other call in between, is granted. */
  lemma RetryAfterIsHonoured(b: Bucket, refused: int, asked: int, retry: int)
    requires Ok(b) && b.capacity >= 1 && b.refillPerSecond >= 1
    requires b.lastRefill <= refused <= asked && !Grants(b, refused)
    requires retry >= asked + 1000 * SecondsUntilRefill(TryConsume(b, refused), asked)
    ensures Grants(TryConsume(b, refused), retry)
  {
    ConsumeOk(b, refused);
    var d := TryConsume(b, refused);
    var r := d.refillPerSecond;
    EarnedBounds(d, asked);
    EarnedBounds(d, retry);
    if Earned(d, asked) > 0 {
      MulMonotone(asked - d.lastRefill, retry - d.lastRefill, r);
    } else {
      MulMonotone(1000, retry - d.lastRefill, r);
    }
    assert Earned(d, retry) >= 1;
  }
}
