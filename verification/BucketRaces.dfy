/** The token bucket under any number of threads: every load, compare-and-swap and
    store is a step of its own, and steps interleave freely. */
module BucketRaces {
  import opened Orders
  import opened TokenBuckets
  import opened Sums

  type ThreadId(==, !new)

  /** Where a thread stands in `tryConsume` and the refill it starts with. */
  datatype Pc =
    | Outside
    | GotLast(now: int, last: int)
    | LoadForRefill(earned: int, now: int)
    | StoreTokens(updated: int, now: int)
    | StoreLast(now: int)
    | LoadForConsume
    | Swap(current: int)
    | Returning(granted: bool)

  /** `taken` lists the values successful swaps decremented from; `returned` counts
      the calls that returned true and `stores` the refill stores. */
  datatype State = State(
    tokens: int, lastRefill: int, threads: map<ThreadId, Pc>,
    taken: seq<int>, returned: nat, stores: nat)
  {
    function At(t: ThreadId): Pc {
      if t in threads then threads[t] else Outside
    }
  }

  function Moved(s: State, t: ThreadId, p: Pc): State {
    s.(threads := s.threads[t := p])
  }

  /** One step of thread `t`. `now` is the clock it reads; `spurious` lets a weak
      compare-and-swap fail although the value matches. */
  function Next(capacity: nat, rate: nat, s: State, t: ThreadId, now: int, spurious: bool): State {
    match s.At(t)
    case Outside => Moved(s, t, GotLast(now, s.lastRefill))
    case GotLast(n, last) =>
      var earned := EarnedSince(rate, last, n);
      Moved(s, t, if n - last <= 0 || earned <= 0 then LoadForConsume else LoadForRefill(earned, n))
    case LoadForRefill(earned, n) => Moved(s, t, StoreTokens(Min(capacity, s.tokens + earned), n))
    case StoreTokens(updated, n) => Moved(s, t, StoreLast(n)).(tokens := updated, stores := s.stores + 1)
    case StoreLast(n) => Moved(s, t, LoadForConsume).(lastRefill := n)
    case LoadForConsume => Moved(s, t, Swap(s.tokens))
    case Swap(current) =>
      if current <= 0 then Moved(s, t, Returning(false))
      else if s.tokens != current || spurious then Moved(s, t, Swap(s.tokens))
      else Moved(s, t, Returning(true)).(tokens := current - 1, taken := s.taken + [s.tokens])
    case Returning(granted) => Moved(s, t, Outside).(returned := s.returned + if granted then 1 else 0)
  }

  datatype Move = Move(t: ThreadId, now: int, spurious: bool)

  function Start(capacity: nat, created: int): State {
    State(capacity, created, map[], [], 0, 0)
  }

  /** The state after any sequence of steps. */
  function Run(capacity: nat, rate: nat, s: State, moves: seq<Move>): State {
    if moves == [] then s else
      var m := moves[|moves| - 1];
      Next(capacity, rate, Run(capacity, rate, s, moves[..|moves| - 1]), m.t, m.now, m.spurious)
  }

  /** A thread that has decremented but not returned yet. */
  function Owed(p: Pc): int {
    if p == Returning(true) then 1 else 0
  }

  /** Every decrement belongs to a call that returned true or is about to. */
  ghost predicate Tallied(s: State, threads: set<ThreadId>) {
    s.returned + Sum(threads, t => Owed(s.At(t))) == |s.taken|
  }

  ghost predicate Inv(capacity: nat, s: State) {
    && 0 <= s.tokens <= capacity
    && (forall t | t in s.threads :: PcOk(capacity, s.threads[t]))
    && (forall i | 0 <= i < |s.taken| :: s.taken[i] > 0)
    && |s.taken| + s.tokens <= capacity * (1 + s.stores)
  }

  predicate PcOk(capacity: nat, p: Pc) {
    match p
    case LoadForRefill(earned, _) => earned > 0
    case StoreTokens(updated, _) => 0 <= updated <= capacity
    case _ => true
  }

  lemma StepKeepsTally(capacity: nat, rate: nat, s: State, m: Move, threads: set<ThreadId>)
    requires Tallied(s, threads) && m.t in threads
    ensures Tallied(Next(capacity, rate, s, m.t, m.now, m.spurious), threads)
  {
    var s' := Next(capacity, rate, s, m.t, m.now, m.spurious);
    SumChange(threads, t => Owed(s.At(t)), t => Owed(s'.At(t)), m.t);
  }

  lemma StepKeepsInv(capacity: nat, rate: nat, s: State, m: Move)
    requires Inv(capacity, s)
    ensures Inv(capacity, Next(capacity, rate, s, m.t, m.now, m.spurious))
  {
    var s' := Next(capacity, rate, s, m.t, m.now, m.spurious);
    assert PcOk(capacity, s.At(m.t));
    assert capacity * (1 + (s.stores + 1)) == capacity * (1 + s.stores) + capacity;
    hide EarnedSince;
  }

  lemma {:induction false} AlwaysInv(capacity: nat, rate: nat, created: int, moves: seq<Move>, threads: set<ThreadId>)
    requires forall k | 0 <= k < |moves| :: moves[k].t in threads
    ensures var s := Run(capacity, rate, Start(capacity, created), moves); Inv(capacity, s) && Tallied(s, threads)
  {
    if moves == [] {
      SumZero(threads, t => Owed(Start(capacity, created).At(t)));
    } else {
      var init, m := moves[..|moves| - 1], moves[|moves| - 1];
      AlwaysInv(capacity, rate, created, init, threads);
      hide Inv, Next, Tallied;
      StepKeepsInv(capacity, rate, Run(capacity, rate, Start(capacity, created), init), m);
      StepKeepsTally(capacity, rate, Run(capacity, rate, Start(capacity, created), init), m, threads);
    }
  }

  lemma {:induction false} ThreadsAreMovers(capacity: nat, rate: nat, s: State, moves: seq<Move>)
    ensures forall k | 0 <= k < |moves| :: moves[k].t in Run(capacity, rate, s, moves).threads
  {
    if moves != [] {
      var init, m := moves[..|moves| - 1], moves[|moves| - 1];
      ThreadsAreMovers(capacity, rate, s, init);
      var r := Run(capacity, rate, s, init);
      assert Next(capacity, rate, r, m.t, m.now, m.spurious).threads.Keys == r.threads.Keys + {m.t};
      assert forall k | 0 <= k < |init| :: init[k] == moves[k];
    }
  }

  /** Under every interleaving: the token count stays between zero and the capacity,
      every call that returned true, or is about to, made exactly one decrement from a
      positive value, and there are at most `capacity` of them per refill store. */
  lemma TokensAreSafe(capacity: nat, rate: nat, created: int, moves: seq<Move>)
    ensures var s := Run(capacity, rate, Start(capacity, created), moves);
            && 0 <= s.tokens <= capacity
            && (forall k | 0 <= k < |s.taken| :: s.taken[k] > 0)
            && Tallied(s, s.threads.Keys)
            && |s.taken| <= capacity * (1 + s.stores)
  {
    var s := Run(capacity, rate, Start(capacity, created), moves);
    ThreadsAreMovers(capacity, rate, Start(capacity, created), moves);
    AlwaysInv(capacity, rate, created, moves, s.threads.Keys);
  }

  // ------------------------------------------------------------------
  //  The bound on serial calls does not survive racing refills
  // ------------------------------------------------------------------

  lemma {:induction false} RunConcat(capacity: nat, rate: nat, s: State, a: seq<Move>, b: seq<Move>)
    ensures Run(capacity, rate, s, a + b) == Run(capacity, rate, Run(capacity, rate, s, a), b)
  {
    if b == [] {
      assert a + b == a;
    } else {
      assert (a + b)[..|a + b| - 1] == a + b[..|b| - 1];
      RunConcat(capacity, rate, s, a, b[..|b| - 1]);
    }
  }

  /** `n` steps of one thread in a row. */
  function Steps(t: ThreadId, now: int, n: nat): seq<Move> {
    if n == 0 then [] else Steps(t, now, n - 1) + [Move(t, now, false)]
  }

  /** Each thread in turn takes `n` steps. */
  function Visits(ts: seq<ThreadId>, now: int, n: nat): seq<Move> {
    if ts == [] then [] else Visits(ts[..|ts| - 1], now, n) + Steps(ts[|ts| - 1], now, n)
  }

  lemma StepsFrom(capacity: nat, rate: nat, s: State, t: ThreadId, now: int, n: nat)
    requires n > 0
    ensures Run(capacity, rate, s, Steps(t, now, n))
            == Next(capacity, rate, Run(capacity, rate, s, Steps(t, now, n - 1)), t, now, false)
  {
    var moves := Steps(t, now, n);
    assert moves[..|moves| - 1] == Steps(t, now, n - 1);
  }

  lemma NoSteps(capacity: nat, rate: nat, s: State, t: ThreadId, now: int)
    ensures Run(capacity, rate, s, Steps(t, now, 0)) == s
  {
  }

  /** Time enough has passed to earn a token. */
  predicate Due(rate: nat, last: int, now: int) {
    now > last && EarnedSince(rate, last, now) > 0
  }

  lemma {:induction false} StepsConcat(t: ThreadId, now: int, a: nat, b: nat)
    ensures Steps(t, now, a + b) == Steps(t, now, a) + Steps(t, now, b)
  {
    if b > 0 {
      StepsConcat(t, now, a, b - 1);
      assert Steps(t, now, a) + (Steps(t, now, b - 1) + [Move(t, now, false)])
          == (Steps(t, now, a) + Steps(t, now, b - 1)) + [Move(t, now, false)];
    }
  }

  /** With a token due, a thread gets ready to store the refill it computed. */
  lemma Arrives(capacity: nat, rate: nat, s: State, t: ThreadId, now: int)
    requires s.At(t).Outside? && Due(rate, s.lastRefill, now)
    ensures Run(capacity, rate, s, Steps(t, now, 3))
         == Moved(s, t, StoreTokens(Min(capacity, s.tokens + EarnedSince(rate, s.lastRefill, now)), now))
  {
    hide Run, Steps, EarnedSince;
    NoSteps(capacity, rate, s, t, now);
    StepsFrom(capacity, rate, s, t, now, 1);
    StepsFrom(capacity, rate, s, t, now, 2);
    StepsFrom(capacity, rate, s, t, now, 3);
    var s2 := Moved(s, t, LoadForRefill(EarnedSince(rate, s.lastRefill, now), now));
    assert Run(capacity, rate, s, Steps(t, now, 1)) == Moved(s, t, GotLast(now, s.lastRefill));
    assert Run(capacity, rate, s, Steps(t, now, 2)) == s2;
  }

  /** What a thread leaves behind that found `tokens` to consume from. */
  function Consumed(s: State, t: ThreadId, tokens: int): State {
    var s' := Moved(s, t, Outside).(tokens := tokens);
    if tokens > 0 then s'.(tokens := tokens - 1, taken := s.taken + [tokens], returned := s.returned + 1) else s'
  }

  lemma Consumes(capacity: nat, rate: nat, s: State, t: ThreadId, now: int)
    requires s.At(t) == LoadForConsume
    ensures Run(capacity, rate, s, Steps(t, now, 3)) == Consumed(s, t, s.tokens)
  {
    hide Run, Steps, EarnedSince;
    NoSteps(capacity, rate, s, t, now);
    StepsFrom(capacity, rate, s, t, now, 1);
    StepsFrom(capacity, rate, s, t, now, 2);
    StepsFrom(capacity, rate, s, t, now, 3);
    assert Run(capacity, rate, s, Steps(t, now, 1)) == Moved(s, t, Swap(s.tokens));
  }

  /** It stores the refill, whatever was consumed meanwhile, and takes a token. */
  lemma Finishes(capacity: nat, rate: nat, s: State, t: ThreadId, now: int)
    requires s.At(t).StoreTokens? && s.At(t).now == now
    ensures Run(capacity, rate, s, Steps(t, now, 5))
         == Consumed(s, t, s.At(t).updated).(lastRefill := now, stores := s.stores + 1)
  {
    hide Run, Steps, EarnedSince;
    NoSteps(capacity, rate, s, t, now);
    StepsFrom(capacity, rate, s, t, now, 1);
    StepsFrom(capacity, rate, s, t, now, 2);
    var s1 := Moved(s, t, StoreLast(now)).(tokens := s.At(t).updated, stores := s.stores + 1);
    var s2 := Moved(s1, t, LoadForConsume).(lastRefill := now);
    assert Run(capacity, rate, s, Steps(t, now, 1)) == s1;
    assert Run(capacity, rate, s, Steps(t, now, 2)) == s2;
    hide Next;
    StepsConcat(t, now, 2, 3);
    RunConcat(capacity, rate, s, Steps(t, now, 2), Steps(t, now, 3));
    Consumes(capacity, rate, s2, t, now);
  }

  /** With nothing due it goes straight to consuming. */
  lemma Skips(capacity: nat, rate: nat, s: State, t: ThreadId, now: int)
    requires s.At(t).Outside? && !Due(rate, s.lastRefill, now)
    ensures Run(capacity, rate, s, Steps(t, now, 5)) == Consumed(s, t, s.tokens)
  {
    hide Run, Steps, EarnedSince;
    NoSteps(capacity, rate, s, t, now);
    StepsFrom(capacity, rate, s, t, now, 1);
    StepsFrom(capacity, rate, s, t, now, 2);
    var s2 := Moved(s, t, LoadForConsume);
    assert Run(capacity, rate, s, Steps(t, now, 1)) == Moved(s, t, GotLast(now, s.lastRefill));
    assert Run(capacity, rate, s, Steps(t, now, 2)) == s2;
    hide Next;
    StepsConcat(t, now, 2, 3);
    RunConcat(capacity, rate, s, Steps(t, now, 2), Steps(t, now, 3));
    Consumes(capacity, rate, s2, t, now);
  }

  /** The bucket of a state. */
  function BucketOf(capacity: nat, rate: nat, s: State): Bucket {
    Bucket(capacity, rate, s.tokens, s.lastRefill)
  }

  /** A thread that is not interrupted does what the serial call does. */
  lemma AloneIsSerial(capacity: nat, rate: nat, s: State, t: ThreadId, now: int)
    requires s.At(t).Outside?
    ensures var n := if Due(rate, s.lastRefill, now) then 8 else 5;
            var s', b := Run(capacity, rate, s, Steps(t, now, n)), BucketOf(capacity, rate, s);
            && BucketOf(capacity, rate, s') == TryConsume(b, now)
            && s'.returned == s.returned + (if Grants(b, now) then 1 else 0)
            && s'.At(t) == Outside && forall u | u != t :: s'.At(u) == s.At(u)
  {
    hide Run, Steps, EarnedSince, Next;
    if Due(rate, s.lastRefill, now) {
      StepsConcat(t, now, 3, 5);
      RunConcat(capacity, rate, s, Steps(t, now, 3), Steps(t, now, 5));
      Arrives(capacity, rate, s, t, now);
      Finishes(capacity, rate, Run(capacity, rate, s, Steps(t, now, 3)), t, now);
    } else {
      Skips(capacity, rate, s, t, now);
    }
  }

  ghost predicate Distinct(ts: seq<ThreadId>) {
    forall i, j | 0 <= i < j < |ts| :: ts[i] != ts[j]
  }

  /** The threads all stand ready to store the same refill of a full bucket. */
  ghost predicate Poised(s: State, capacity: nat, created: int, now: int, ts: seq<ThreadId>) {
    && s.tokens == capacity && s.lastRefill == created && s.returned == 0
    && (forall t :: s.At(t) == if t in ts then StoreTokens(capacity, now) else Outside)
  }

  lemma {:induction false} AllArrive(capacity: nat, rate: nat, created: int, now: int, ts: seq<ThreadId>)
    requires Distinct(ts) && Due(rate, created, now)
    ensures Poised(Run(capacity, rate, Start(capacity, created), Visits(ts, now, 3)), capacity, created, now, ts)
  {
    if ts != [] {
      var init, t := ts[..|ts| - 1], ts[|ts| - 1];
      AllArrive(capacity, rate, created, now, init);
      var s := Run(capacity, rate, Start(capacity, created), Visits(init, now, 3));
      RunConcat(capacity, rate, Start(capacity, created), Visits(init, now, 3), Steps(t, now, 3));
      Arrives(capacity, rate, s, t, now);
      hide Run, Steps, Due;
      assert ts == init + [t];
    }
  }

  lemma {:induction false} AllFinish(capacity: nat, rate: nat, s: State, now: int, ts: seq<ThreadId>)
    requires Distinct(ts) && capacity > 0 && forall t | t in ts :: s.At(t) == StoreTokens(capacity, now)
    ensures var s' := Run(capacity, rate, s, Visits(ts, now, 5));
            s'.returned == s.returned + |ts| && forall t | t !in ts :: s'.At(t) == s.At(t)
  {
    if ts != [] {
      var init, t := ts[..|ts| - 1], ts[|ts| - 1];
      assert ts == init + [t] && t !in init;
      AllFinish(capacity, rate, s, now, init);
      RunConcat(capacity, rate, s, Visits(init, now, 5), Steps(t, now, 5));
      Finishes(capacity, rate, Run(capacity, rate, s, Visits(init, now, 5)), t, now);
      hide Run, Steps;
    }
  }

  /** Once a token is due, any number of threads can be granted at one instant: each
      of them stores the same refill again. No bound that depends only on the capacity,
      the rate and the time holds under concurrency. */
  lemma RefillRaceIsUnbounded(capacity: nat, rate: nat, created: int, now: int, ts: seq<ThreadId>)
    requires Distinct(ts) && capacity > 0 && Due(rate, created, now)
    ensures var moves := Visits(ts, now, 3) + Visits(ts, now, 5);
            Run(capacity, rate, Start(capacity, created), moves).returned == |ts|
  {
    AllArrive(capacity, rate, created, now, ts);
    var s := Run(capacity, rate, Start(capacity, created), Visits(ts, now, 3));
    AllFinish(capacity, rate, s, now, ts);
    RunConcat(capacity, rate, Start(capacity, created), Visits(ts, now, 3), Visits(ts, now, 5));
  }

  /** No refill is under way and none is due. */
  ghost predicate Unrefilled(s: State, rate: nat, created: int, now: int) {
    && s.lastRefill == created && s.stores == 0
    && (forall t | t in s.threads :: match s.threads[t]
          case GotLast(n, last) => n == now && last == created
          case LoadForRefill(_, _) => false
          case StoreTokens(_, _) => false
          case StoreLast(_) => false
          case _ => true)
  }

  lemma {:induction false} StaysUnrefilled(capacity: nat, rate: nat, created: int, now: int, moves: seq<Move>)
    requires !Due(rate, created, now) && forall k | 0 <= k < |moves| :: moves[k].now == now
    ensures Unrefilled(Run(capacity, rate, Start(capacity, created), moves), rate, created, now)
  {
    if moves != [] {
      StaysUnrefilled(capacity, rate, created, now, moves[..|moves| - 1]);
      hide Run, EarnedSince;
      var s, t := Run(capacity, rate, Start(capacity, created), moves[..|moves| - 1]), moves[|moves| - 1].t;
      assert t in s.threads ==> s.At(t) == s.threads[t];
    }
  }

  lemma BoundWithoutRefill(capacity: nat, rate: nat, created: int, now: int, moves: seq<Move>)
    requires !Due(rate, created, now) && forall k | 0 <= k < |moves| :: moves[k].now == now
    ensures Run(capacity, rate, Start(capacity, created), moves).returned <= capacity
  {
    hide Run, Due, Tallied;
    var s := Run(capacity, rate, Start(capacity, created), moves);
    assert s.stores == 0 by { StaysUnrefilled(capacity, rate, created, now, moves); }
    assert capacity * (1 + s.stores) == capacity;
    TokensAreSafe(capacity, rate, created, moves);
    TallyBounds(s, s.threads.Keys);
  }

  lemma TallyBounds(s: State, threads: set<ThreadId>)
    requires Tallied(s, threads)
    ensures s.returned <= |s.taken|
  {
    SumNonNegative(threads, t => Owed(s.At(t)));
  }

  /** At one instant, under every interleaving, no more calls return true than the
      bucket holds. */
  ghost predicate BurstBoundHolds(capacity: nat, rate: nat, created: int, now: int) {
    forall moves: seq<Move> | (forall k | 0 <= k < |moves| :: moves[k].now == now) ::
      Run(capacity, rate, Start(capacity, created), moves).returned <= capacity
  }

  /** That holds exactly as long as no token is due. */
  lemma BurstBoundExactly(capacity: nat, rate: nat, created: int, now: int, ts: seq<ThreadId>)
    requires Distinct(ts) && |ts| > capacity > 0
    ensures BurstBoundHolds(capacity, rate, created, now) <==> !Due(rate, created, now)
  {
    hide Run, Visits, Due, Distinct;
    if Due(rate, created, now) {
      RefillRaceIsUnbounded(capacity, rate, created, now, ts);
      VisitsAtOnce(ts, now, 3);
      VisitsAtOnce(ts, now, 5);
      var moves := Visits(ts, now, 3) + Visits(ts, now, 5);
      assert Run(capacity, rate, Start(capacity, created), moves).returned > capacity;
    } else {
      forall moves: seq<Move> | (forall k | 0 <= k < |moves| :: moves[k].now == now)
        ensures Run(capacity, rate, Start(capacity, created), moves).returned <= capacity
      {
        BoundWithoutRefill(capacity, rate, created, now, moves);
      }
    }
  }

  lemma {:induction false} VisitsAtOnce(ts: seq<ThreadId>, now: int, n: nat)
    ensures forall k | 0 <= k < |Visits(ts, now, n)| :: Visits(ts, now, n)[k].now == now
  {
    if ts != [] {
      VisitsAtOnce(ts[..|ts| - 1], now, n);
      StepsAtOnce(ts[|ts| - 1], now, n);
    }
  }

  lemma {:induction false} StepsAtOnce(t: ThreadId, now: int, n: nat)
    ensures forall k | 0 <= k < |Steps(t, now, n)| :: Steps(t, now, n)[k].now == now
  {
    if n > 0 { StepsAtOnce(t, now, n - 1); }
  }
}
