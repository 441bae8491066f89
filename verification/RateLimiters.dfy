/** The rate limiter: one token bucket per account and endpoint, made on first use. */
module RateLimiters {
  import opened Orders
  import opened Int64
  import opened TokenBuckets

  /** The account and endpoint of a call, as one key. */
  type Key(==, !new)

  /** A call: the clock when its bucket is looked up, and when it is refilled. */
  datatype Call = Call(key: Key, looked: int, now: int)

  type Buckets = map<Key, Bucket>

  function BucketFor(m: Buckets, c: Call): Bucket {
    if c.key in m then m[c.key] else Fresh(STANDARD_CAPACITY, STANDARD_REFILL_RATE, c.looked)
  }

  function Acquire(m: Buckets, c: Call): Buckets {
    m[c.key := TryConsume(BucketFor(m, c), c.now)]
  }

  predicate Acquires(m: Buckets, c: Call) {
    Grants(BucketFor(m, c), c.now)
  }

  function AfterCalls(m: Buckets, calls: seq<Call>): Buckets
    decreases |calls|
  {
    if calls == [] then m else AfterCalls(Acquire(m, calls[0]), calls[1..])
  }

  /** How many of the calls of one key are granted. */
  function GrantedTo(m: Buckets, calls: seq<Call>, k: Key): nat
    decreases |calls|
  {
    if calls == [] then 0
    else (if calls[0].key == k && Acquires(m, calls[0]) then 1 else 0) + GrantedTo(Acquire(m, calls[0]), calls[1..], k)
  }

  function TimesOf(calls: seq<Call>, k: Key): seq<int> {
    if calls == [] then []
    else (if calls[0].key == k then [calls[0].now] else []) + TimesOf(calls[1..], k)
  }

  /** The clock does not run backwards, and starts no earlier than `start`. */
  ghost predicate InOrder(start: int, calls: seq<Call>) {
    && (forall i | 0 <= i < |calls| :: start <= calls[i].looked <= calls[i].now)
    && (forall i, j | 0 <= i < j < |calls| :: calls[i].now <= calls[j].looked)
  }

  ghost predicate AllOk(m: Buckets, now: int) {
    forall k | k in m :: BucketOk(m[k], now)
  }

  ghost predicate BucketOk(b: Bucket, now: int) {
    Ok(b) && b.lastRefill <= now && b.capacity == STANDARD_CAPACITY && b.refillPerSecond == STANDARD_REFILL_RATE
  }

  /** A key's calls fare as if it had the limiter to itself. */
  lemma {:induction false} KeysAreIndependent(m: Buckets, calls: seq<Call>, k: Key)
    requires k in m
    ensures GrantedTo(m, calls, k) == Granted(m[k], TimesOf(calls, k))
    decreases |calls|
  {
    if calls != [] {
      KeysAreIndependent(Acquire(m, calls[0]), calls[1..], k);
      hide TryConsume, Grants;
      var rest := TimesOf(calls[1..], k);
      assert TimesOf(calls, k) == if calls[0].key == k then [calls[0].now] + rest else rest;
      if calls[0].key == k {
        assert TimesOf(calls, k)[1..] == rest;
      } else {
        assert Acquire(m, calls[0])[k] == m[k];
      }
    }
  }

  lemma {:induction false} TimesInOrder(start: int, calls: seq<Call>, k: Key, end: int)
    requires InOrder(start, calls) && forall i | 0 <= i < |calls| :: calls[i].now <= end
    ensures var times := TimesOf(calls, k);
            Monotone(start, times) && forall i | 0 <= i < |times| :: times[i] <= end
    decreases |calls|
  {
    if calls != [] {
      TimesInOrder(calls[0].now, calls[1..], k, end);
    }
  }

  lemma AcquireKeepsOk(m: Buckets, c: Call)
    requires AllOk(m, c.looked) && c.looked <= c.now
    ensures AllOk(Acquire(m, c), c.now) && BucketOk(BucketFor(m, c), c.looked)
  {
    ConsumeOk(BucketFor(m, c), c.now);
    hide TryConsume;
  }

  lemma {:induction false} AfterCallsOk(m: Buckets, calls: seq<Call>, start: int, end: int)
    requires AllOk(m, start) && InOrder(start, calls) && start <= end
    requires forall i | 0 <= i < |calls| :: calls[i].now <= end
    ensures AllOk(AfterCalls(m, calls), end)
    decreases |calls|
  {
    if calls != [] {
      AcquireKeepsOk(m, calls[0]);
      AfterCallsOk(Acquire(m, calls[0]), calls[1..], calls[0].now, end);
    }
  }

  /** Whatever the other keys do, the calls of one key in a window are within the bound. */
  lemma {:induction false} WindowBoundPerKey(m: Buckets, calls: seq<Call>, k: Key, start: int, end: int)
    requires AllOk(m, start) && InOrder(start, calls) && start <= end
    requires forall i | 0 <= i < |calls| :: calls[i].now <= end
    ensures GrantedTo(m, calls, k) <= STANDARD_CAPACITY + ((end - start) * STANDARD_REFILL_RATE + 999) / 1000
    decreases |calls|
  {
    if calls != [] {
      var c := calls[0];
      AcquireKeepsOk(m, c);
      if c.key == k {
        FirstCall(m, calls, k);
        TimesInOrder(c.looked, calls, k, end);
        assert TimesOf(calls, k) == [c.now] + TimesOf(calls[1..], k);
        KeysAreIndependent(m[k := BucketFor(m, c)], calls, k);
        WindowBound(BucketFor(m, c), TimesOf(calls, k), start, end);
      } else {
        WindowBoundPerKey(Acquire(m, c), calls[1..], k, c.now, end);
      }
    }
  }

  /** Making the bucket before the first call changes nothing. */
  lemma FirstCall(m: Buckets, calls: seq<Call>, k: Key)
    requires calls != [] && calls[0].key == k
    ensures GrantedTo(m[k := BucketFor(m, calls[0])], calls, k) == GrantedTo(m, calls, k)
  {
    var m' := m[k := BucketFor(m, calls[0])];
    assert Acquire(m', calls[0]) == Acquire(m, calls[0]);
  }

  /** A key that has not called before starts with a full bucket of 100, refilled at 100
      per second from the moment it is looked up. */
  lemma NewKeyStartsFull(m: Buckets, calls: seq<Call>, k: Key)
    requires k !in m && calls != [] && calls[0].key == k
    ensures GrantedTo(m, calls, k) == Granted(Bucket(100, 100, 100, calls[0].looked), TimesOf(calls, k))
  {
    FirstCall(m, calls, k);
    KeysAreIndependent(m[k := BucketFor(m, calls[0])], calls, k);
  }

  /** The promise per account and endpoint: in every log of calls since the start, for
      every stretch of it between two times. */
  lemma RateBoundPerKey(calls: seq<Call>, k: Key, i: nat, j: nat, start: int, end: int)
    requires i <= j <= |calls| && calls != [] && InOrder(calls[0].looked, calls) && start <= end
    requires forall n | 0 <= n < i :: calls[n].now <= start
    requires forall n | i <= n < j :: start <= calls[n].looked && calls[n].now <= end
    requires calls[0].looked <= start
    ensures GrantedTo(AfterCalls(map[], calls[..i]), calls[i..j], k) <= 100 + ((end - start) * 100 + 999) / 1000
  {
    var first, stretch := calls[..i], calls[i..j];
    assert forall n | 0 <= n < |first| :: first[n] == calls[n];
    assert forall n | 0 <= n < |stretch| :: stretch[n] == calls[i + n];
    AfterCallsOk(map[], first, calls[0].looked, start);
    WindowBoundPerKey(AfterCalls(map[], first), stretch, k, start, end);
  }

  // ------------------------------------------------------------------
  //  The objects
  // ------------------------------------------------------------------

  class TokenBucket {
    const capacity: nat
    const refillPerSecond: nat
    var tokens: int
    var lastRefillTimeMs: int

    function View(): Bucket
      reads this
    {
      Bucket(capacity, refillPerSecond, tokens, lastRefillTimeMs)
    }

    constructor (capacity: nat, refillPerSecond: nat, now: int)
      ensures View() == Fresh(capacity, refillPerSecond, now)
    {
      this.capacity, this.refillPerSecond, tokens, lastRefillTimeMs := capacity, refillPerSecond, capacity, now;
    }

    method Refill(now: int)
      modifies this
      ensures View() == TokenBuckets.Refill(old(View()), now)
    {
      var elapsed := now - lastRefillTimeMs;
      if elapsed <= 0 {
        return;
      }
      var tokensToAdd := Quot(elapsed * refillPerSecond, 1000);
      if tokensToAdd > 0 {
        tokens := Min(capacity, tokens + tokensToAdd);
        lastRefillTimeMs := now;
      }
    }

    /** Without contention the compare-and-swap succeeds at once. */
    method TryConsume(now: int) returns (granted: bool)
      modifies this
      ensures View() == TokenBuckets.TryConsume(old(View()), now)
      ensures granted == Grants(old(View()), now)
    {
      hide TokenBuckets.Refill;
      Refill(now);
      granted := tokens > 0;
      if granted {
        tokens := tokens - 1;
      }
    }

    method SecondsUntilRefill(now: int) returns (seconds: int)
      ensures seconds == TokenBuckets.SecondsUntilRefill(View(), now)
    {
      var elapsed := now - lastRefillTimeMs;
      var tokensToAdd := Quot(elapsed * refillPerSecond, 1000);
      seconds := if tokensToAdd > 0 then 0 else 1;
    }
  }

  class RateLimiter {
    var buckets: map<Key, TokenBucket>

    ghost predicate Valid()
      reads this
    {
      forall j, k | j in buckets && k in buckets && j != k :: buckets[j] != buckets[k]
    }

    ghost function View(): Buckets
      reads this, buckets.Values
    {
      map k | k in buckets :: buckets[k].View()
    }

    constructor ()
      ensures Valid() && buckets == map[] && View() == map[]
    {
      buckets := map[];
    }

    method TryAcquire(c: Call) returns (granted: bool)
      requires Valid()
      modifies this, buckets.Values
      ensures Valid() && fresh(buckets.Values - old(buckets.Values))
      ensures View() == Acquire(old(View()), c)
      ensures granted == Acquires(old(View()), c)
    {
      hide TryConsume, Grants;
      if c.key !in buckets {
        var b := new TokenBucket(STANDARD_CAPACITY, STANDARD_REFILL_RATE, c.looked);
        buckets := buckets[c.key := b];
      }
      var bucket := buckets[c.key];
      granted := bucket.TryConsume(c.now);
    }

    method RetryAfterSeconds(key: Key, now: int) returns (seconds: int)
      ensures seconds == if key in View() then SecondsUntilRefill(View()[key], now) else 0
    {
      if key !in buckets {
        return 0;
      }
      seconds := buckets[key].SecondsUntilRefill(now);
    }
  }
}
