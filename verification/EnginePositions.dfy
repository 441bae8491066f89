/** Positions: what the fill consumer's five updates per trade add up to, in every
    execution. */
module EnginePositions {
  import opened Orders
  import opened Books
  import opened Sums
  import opened EngineModel

  // ------------------------------------------------------------------
  //  Cached positions are zero-sum
  // ------------------------------------------------------------------

  /** What a thread has put on the aggressor's cached position but not yet taken
      from the passive account's. */
  function HalfLeg(p: Phase, symbol: Symbol): int {
    if p.Recording? && p.trades != [] && p.stage == CachePassive && p.trades[0].symbol == symbol
    then Delta(p.trades[0]) else 0
  }

  /** The cached positions of a symbol add up to the half-recorded legs. */
  ghost predicate Balanced(s: State, symbol: Symbol, accounts: set<Account>, threads: set<ThreadId>) {
    Sum(accounts, a => s.Cached(a, symbol)) == Sum(threads, t => HalfLeg(s.At(t), symbol))
  }

  ghost predicate Covers(s: State, accounts: set<Account>, threads: set<ThreadId>) {
    && (forall k | k in s.cache :: k.0 in accounts)
    && s.threads.Keys <= threads
  }

  /** A step that moves a thread between phases with the same half leg, and leaves
      the cache alone, keeps the balance. */
  lemma MoveKeepsBalance(s: State, s': State, symbol: Symbol, accounts: set<Account>, threads: set<ThreadId>)
    requires Balanced(s, symbol, accounts, threads)
    requires forall a | a in accounts :: s'.Cached(a, symbol) == s.Cached(a, symbol)
    requires forall t | t in threads :: HalfLeg(s'.At(t), symbol) == HalfLeg(s.At(t), symbol)
    ensures Balanced(s', symbol, accounts, threads)
  {
    SumSame(accounts, a => s.Cached(a, symbol), a => s'.Cached(a, symbol));
    SumSame(threads, t => HalfLeg(s.At(t), symbol), t => HalfLeg(s'.At(t), symbol));
  }

  /** Moving a leg into the cache and the thread's half leg together keeps the balance. */
  lemma PostKeepsBalance(s: State, s': State, symbol: Symbol, accounts: set<Account>, threads: set<ThreadId>,
                         account: Account, t: ThreadId)
    requires Balanced(s, symbol, accounts, threads) && account in accounts && t in threads
    requires forall a | a in accounts && a != account :: s'.Cached(a, symbol) == s.Cached(a, symbol)
    requires forall u | u in threads && u != t :: s'.At(u) == s.At(u)
    requires s'.Cached(account, symbol) - s.Cached(account, symbol)
          == HalfLeg(s'.At(t), symbol) - HalfLeg(s.At(t), symbol)
    ensures Balanced(s', symbol, accounts, threads)
  {
    SumChange(accounts, a => s.Cached(a, symbol), a => s'.Cached(a, symbol), account);
    SumChange(threads, u => HalfLeg(s.At(u), symbol), u => HalfLeg(s'.At(u), symbol), t);
  }

  lemma RecordKeepsBalance(s: State, t: ThreadId, now: int, symbol: Symbol, accounts: set<Account>, threads: set<ThreadId>)
    requires Balanced(s, symbol, accounts, threads) && t in threads
    requires s.At(t).Recording? && s.At(t).trades != []
    requires Covers(RecordStep(s, t, now), accounts, threads)
    ensures Balanced(RecordStep(s, t, now), symbol, accounts, threads)
  {
    var s', p := RecordStep(s, t, now), s.At(t);
    var x := p.trades[0];
    forall a: Account ensures s'.Cached(a, symbol) == s.Cached(a, symbol) + CacheChange(x, p.stage, a, symbol) {
      ConsumeEffect(s, x, p.stage, now, a, symbol);
    }
    PostingAccountIsCovered(s, t, now, accounts, threads);
    RecordShape(s, t, now);
    hide RecordStep, Balanced, Covers;
    if p.stage == CacheAggressor {
      PostKeepsBalance(s, s', symbol, accounts, threads, x.aggressorAccount, t);
    } else if p.stage == CachePassive {
      PostKeepsBalance(s, s', symbol, accounts, threads, x.passiveAccount, t);
    } else {
      MoveKeepsBalance(s, s', symbol, accounts, threads);
    }
  }

  lemma PostingAccountIsCovered(s: State, t: ThreadId, now: int, accounts: set<Account>, threads: set<ThreadId>)
    requires s.At(t).Recording? && s.At(t).trades != [] && Covers(RecordStep(s, t, now), accounts, threads)
    ensures var p := s.At(t);
            && (p.stage == CacheAggressor ==> p.trades[0].aggressorAccount in accounts)
            && (p.stage == CachePassive ==> p.trades[0].passiveAccount in accounts)
  {
    var p := s.At(t);
    var x, s' := p.trades[0], RecordStep(s, t, now);
    if p.stage == CacheAggressor { assert (x.aggressorAccount, x.symbol) in s'.cache; }
    if p.stage == CachePassive { assert (x.passiveAccount, x.symbol) in s'.cache; }
  }

  lemma StepKeepsBalance(s: State, e: Event, symbol: Symbol, accounts: set<Account>, threads: set<ThreadId>)
    requires Enabled(s, e) && Balanced(s, symbol, accounts, threads) && Covers(Next(s, e), accounts, threads)
    ensures Balanced(Next(s, e), symbol, accounts, threads)
  {
    hide Balanced, RecordStep, CheckStep, MatchStep, StopStep, Cancel;
    if e.Record? {
      RecordShape(s, e.t, e.now);
      RecordKeepsBalance(s, e.t, e.now, symbol, accounts, threads);
    } else {
      OtherShape(s, e);
      hide Next;
      MoveKeepsBalance(s, Next(s, e), symbol, accounts, threads);
    }
  }

  /** The cache and the thread map only ever grow. */
  lemma StepKeepsCover(s: State, e: Event, accounts: set<Account>, threads: set<ThreadId>)
    requires Enabled(s, e) && Covers(Next(s, e), accounts, threads)
    ensures Covers(s, accounts, threads)
  {
    hide RecordStep, CheckStep, MatchStep, StopStep, Cancel;
    var s' := Next(s, e);
    if e.Record? {
      RecordShape(s, e.t, e.now);
      assert s.cache.Keys <= s'.cache.Keys by { RecordGrowsCache(s, e.t, e.now); }
    } else {
      OtherShape(s, e);
      hide Next;
    }
  }

  lemma RecordGrowsCache(s: State, t: ThreadId, now: int)
    requires s.At(t).Recording? && s.At(t).trades != []
    ensures s.cache.Keys <= RecordStep(s, t, now).cache.Keys
  {
    var x := s.At(t).trades[0];
    ConsumeEffect(s, x, s.At(t).stage, now, x.aggressorAccount, x.symbol);
  }

  lemma {:induction false} AlwaysBalanced(states: seq<State>, events: seq<Event>, i: nat, symbol: Symbol,
                                          accounts: set<Account>, threads: set<ThreadId>)
    requires Execution(states, events) && i < |states| && Covers(states[i], accounts, threads)
    ensures Balanced(states[i], symbol, accounts, threads)
  {
    if i == 0 {
      SumZero(accounts, a => INITIAL.Cached(a, symbol));
      SumZero(threads, t => HalfLeg(INITIAL.At(t), symbol));
    } else {
      StepOf(states, events, i - 1);
      hide Execution, Next, Enabled, Balanced, Covers;
      StepKeepsCover(states[i - 1], events[i - 1], accounts, threads);
      AlwaysBalanced(states, events, i - 1, symbol, accounts, threads);
      StepKeepsBalance(states[i - 1], events[i - 1], symbol, accounts, threads);
    }
  }

  /** Whenever no thread is between the two cache updates of a fill of the symbol,
      its cached positions add up to zero over all accounts. */
  lemma PositionsAreZeroSum(states: seq<State>, events: seq<Event>, i: nat, symbol: Symbol, accounts: set<Account>)
    requires Execution(states, events) && i < |states|
    requires forall k | k in states[i].cache :: k.0 in accounts
    requires forall t | t in states[i].threads :: HalfLeg(states[i].threads[t], symbol) == 0
    ensures Sum(accounts, a => states[i].Cached(a, symbol)) == 0
  {
    var s := states[i];
    AlwaysBalanced(states, events, i, symbol, accounts, s.threads.Keys);
    SumZero(s.threads.Keys, t => HalfLeg(s.At(t), symbol));
  }

  // ------------------------------------------------------------------
  //  Positions against the tape
  // ------------------------------------------------------------------

  /** What the legs of some trades that are posted at `leg` add to an account. */
  function Legs(ts: seq<Trade>, leg: Stage, account: Account, symbol: Symbol): int {
    if ts == [] then 0
    else CacheChange(ts[0], leg, account, symbol) + Legs(ts[1..], leg, account, symbol)
  }

  lemma {:induction false} LegsConcat(a: seq<Trade>, b: seq<Trade>, leg: Stage, account: Account, symbol: Symbol)
    ensures Legs(a + b, leg, account, symbol) == Legs(a, leg, account, symbol) + Legs(b, leg, account, symbol)
  {
    if a == [] {
      assert a + b == b;
    } else {
      assert (a + b)[1..] == a[1..] + b;
      LegsConcat(a[1..], b, leg, account, symbol);
    }
  }

  /** The trades of a thread that have not been through the update `u` yet. */
  function Awaiting(p: Phase, u: Stage): seq<Trade> {
    if !p.Recording? || p.trades == [] then []
    else if Rank(p.stage) <= Rank(u) then p.trades else p.trades[1..]
  }

  function Rank(u: Stage): nat {
    match u
    case CacheAggressor => 0
    case CachePassive => 1
    case RecordPosition => 2
    case RecordPrice => 3
    case RecordBreaker => 4
  }

  /** What a thread has still to add to a cached, and to a recorded, position. */
  function Uncached(p: Phase, account: Account, symbol: Symbol): int {
    Legs(Awaiting(p, CacheAggressor), CacheAggressor, account, symbol)
    + Legs(Awaiting(p, CachePassive), CachePassive, account, symbol)
  }

  function Unrecorded(p: Phase, account: Account, symbol: Symbol): int {
    Legs(Awaiting(p, RecordPosition), CacheAggressor, account, symbol)
  }

  /** Positions and what is still to be added to them are what the tape shows. */
  ghost predicate Explained(s: State, account: Account, symbol: Symbol, threads: set<ThreadId>) {
    && s.Cached(account, symbol) + Sum(threads, t => Uncached(s.At(t), account, symbol))
       == Legs(s.tape, CacheAggressor, account, symbol) + Legs(s.tape, CachePassive, account, symbol)
    && s.risk.Position(account, symbol) + Sum(threads, t => Unrecorded(s.At(t), account, symbol))
       == Legs(s.tape, CacheAggressor, account, symbol)
  }

  /** One update moves as much into a position as is pending less afterwards. */
  lemma PendingChange(p: Phase, account: Account, symbol: Symbol)
    requires p.Recording? && p.trades != []
    ensures var x := p.trades[0];
            && Uncached(NextPhase(p), account, symbol)
               == Uncached(p, account, symbol) - CacheChange(x, p.stage, account, symbol)
            && Unrecorded(NextPhase(p), account, symbol)
               == Unrecorded(p, account, symbol) - PositionChange(x, p.stage, account, symbol)
  {
  }

  lemma RecordKeepsExplained(s: State, t: ThreadId, now: int, account: Account, symbol: Symbol, threads: set<ThreadId>)
    requires Explained(s, account, symbol, threads) && t in threads
    requires s.At(t).Recording? && s.At(t).trades != []
    ensures Explained(RecordStep(s, t, now), account, symbol, threads)
  {
    var s', p := RecordStep(s, t, now), s.At(t);
    ConsumeEffect(s, p.trades[0], p.stage, now, account, symbol);
    RecordShape(s, t, now);
    PendingChange(p, account, symbol);
    hide Consume, NextPhase, CacheChange, PositionChange, Uncached, Unrecorded, Legs;
    SumChange(threads, u => Uncached(s.At(u), account, symbol), u => Uncached(s'.At(u), account, symbol), t);
    SumChange(threads, u => Unrecorded(s.At(u), account, symbol), u => Unrecorded(s'.At(u), account, symbol), t);
  }

  /** A thread that enters with new trades has all of them to post. */
  lemma NewTradesPending(p: Phase, account: Account, symbol: Symbol)
    requires Unposted(p)
    ensures Uncached(p, account, symbol)
         == Legs(NewTrades(p), CacheAggressor, account, symbol) + Legs(NewTrades(p), CachePassive, account, symbol)
    ensures Unrecorded(p, account, symbol) == Legs(NewTrades(p), CacheAggressor, account, symbol)
  {
  }

  lemma SidestepKeepsExplained(s: State, s': State, t: ThreadId, account: Account, symbol: Symbol, threads: set<ThreadId>)
    requires Explained(s, account, symbol, threads) && Sidestep(s, s', t) && t in threads
    ensures Explained(s', account, symbol, threads)
  {
    var posted := NewTrades(s'.At(t));
    LegsConcat(s.tape, posted, CacheAggressor, account, symbol);
    LegsConcat(s.tape, posted, CachePassive, account, symbol);
    NewTradesPending(s'.At(t), account, symbol);
    assert Uncached(s.At(t), account, symbol) == 0 && Unrecorded(s.At(t), account, symbol) == 0;
    hide Uncached, Unrecorded, Legs;
    SumChange(threads, u => Uncached(s.At(u), account, symbol), u => Uncached(s'.At(u), account, symbol), t);
    SumChange(threads, u => Unrecorded(s.At(u), account, symbol), u => Unrecorded(s'.At(u), account, symbol), t);
  }

  lemma StandstillKeepsExplained(s: State, s': State, account: Account, symbol: Symbol, threads: set<ThreadId>)
    requires Explained(s, account, symbol, threads) && Standstill(s, s')
    ensures Explained(s', account, symbol, threads)
  {
    hide Uncached, Unrecorded, Legs;
    SumSame(threads, u => Uncached(s.At(u), account, symbol), u => Uncached(s'.At(u), account, symbol));
    SumSame(threads, u => Unrecorded(s.At(u), account, symbol), u => Unrecorded(s'.At(u), account, symbol));
  }

  lemma StepKeepsExplained(s: State, e: Event, account: Account, symbol: Symbol, threads: set<ThreadId>)
    requires Enabled(s, e) && Explained(s, account, symbol, threads) && Next(s, e).threads.Keys <= threads
    ensures Explained(Next(s, e), account, symbol, threads)
  {
    hide Explained, RecordStep, CheckStep, MatchStep, StopStep, Cancel;
    if e.Record? {
      RecordShape(s, e.t, e.now);
      RecordKeepsExplained(s, e.t, e.now, account, symbol, threads);
    } else {
      OtherShape(s, e);
      hide Next;
      if Standstill(s, Next(s, e)) {
        StandstillKeepsExplained(s, Next(s, e), account, symbol, threads);
      } else {
        SidestepKeepsExplained(s, Next(s, e), e.t, account, symbol, threads);
      }
    }
  }

  lemma ThreadsGrow(s: State, e: Event)
    requires Enabled(s, e)
    ensures s.threads.Keys <= Next(s, e).threads.Keys
  {
    hide RecordStep, CheckStep, MatchStep, StopStep, Cancel;
    if e.Record? {
      RecordShape(s, e.t, e.now);
    } else {
      OtherShape(s, e);
      hide Next;
    }
  }

  lemma {:induction false} AlwaysExplained(states: seq<State>, events: seq<Event>, i: nat, account: Account, symbol: Symbol,
                                           threads: set<ThreadId>)
    requires Execution(states, events) && i < |states| && states[i].threads.Keys <= threads
    ensures Explained(states[i], account, symbol, threads)
  {
    if i == 0 {
      SumZero(threads, t => Uncached(INITIAL.At(t), account, symbol));
      SumZero(threads, t => Unrecorded(INITIAL.At(t), account, symbol));
    } else {
      StepOf(states, events, i - 1);
      hide Execution, Explained, Next, Enabled;
      ThreadsGrow(states[i - 1], events[i - 1]);
      AlwaysExplained(states, events, i - 1, account, symbol, threads);
      StepKeepsExplained(states[i - 1], events[i - 1], account, symbol, threads);
    }
  }

  /** Whenever no thread has anything to add to an account's positions: the cached
      position is the signed sum of both legs over the whole tape, the recorded one that
      of the aggressor legs, and they differ by the passive legs. */
  lemma TapeExplainsPositions(states: seq<State>, events: seq<Event>, i: nat, account: Account, symbol: Symbol)
    requires Execution(states, events) && i < |states|
    requires forall t | t in states[i].threads :: Uncached(states[i].threads[t], account, symbol) == 0
    requires forall t | t in states[i].threads :: Unrecorded(states[i].threads[t], account, symbol) == 0
    ensures var s := states[i];
            var aggressor, passive := Legs(s.tape, CacheAggressor, account, symbol), Legs(s.tape, CachePassive, account, symbol);
            && s.Cached(account, symbol) == aggressor + passive
            && s.risk.Position(account, symbol) == aggressor
            && s.Cached(account, symbol) == s.risk.Position(account, symbol) + passive
  {
    var s := states[i];
    AlwaysExplained(states, events, i, account, symbol, s.threads.Keys);
    SumZero(s.threads.Keys, t => Uncached(s.At(t), account, symbol));
    SumZero(s.threads.Keys, t => Unrecorded(s.At(t), account, symbol));
  }
}
