/** The matching engine, the risk gate in front of it and the fill consumer behind
    it, as one machine. Any number of threads run `submit`; each locked region is
    one atomic step, and steps of different threads interleave freely. */
module EngineModel {
  import opened Orders
  import opened Books
  import CircuitBreakers
  import opened Risk

  type ThreadId(==, !new)

  /** The five updates the fill consumer makes for one trade, in order. */
  datatype Stage = CacheAggressor | CachePassive | RecordPosition | RecordPrice | RecordBreaker

  /** How far a thread has come with its order. `trades` are the trades not yet
      recorded completely; the first of them is at `stage`. */
  datatype Phase =
    | Idle
    | Admitted(order: Order)
    | Approved(order: Order)
    | Recording(order: Order, trades: seq<Trade>, stage: Stage)
    | Triggering(order: Order)

  /** The last three fields are history: every approved order, the ids that have been
      matched, and every trade. */
  datatype State = State(
    halted: bool,
    risk: RiskState,
    breaker: CircuitBreakers.Breaker,
    books: map<Symbol, Book>,
    stops: map<Symbol, seq<Order>>,
    threads: map<ThreadId, Phase>,
    cache: map<(Account, Symbol), int>,
    approved: map<OrderId, Order>,
    matched: set<OrderId>,
    tape: seq<Trade>)
  {
    function At(t: ThreadId): Phase {
      if t in threads then threads[t] else Idle
    }

    function BookOf(symbol: Symbol): Book {
      if symbol in books then books[symbol] else EMPTY_BOOK
    }

    function Cached(account: Account, symbol: Symbol): int {
      if (account, symbol) in cache then cache[(account, symbol)] else 0
    }
  }

  const INITIAL := State(false, NO_RISK, CircuitBreakers.CALM, map[], map[], map[], map[], map[], {}, [])

  datatype Event =
    | Submit(t: ThreadId, order: Order)
    | Check(t: ThreadId)
    | DoMatch(t: ThreadId)
    | Record(t: ThreadId, now: int)
    | CheckStops(t: ThreadId, ids: seq<OrderId>)
    | CancelOrder(symbol: Symbol, id: OrderId)
    | Halt
    | Resume
    | HaltSymbol(symbol: Symbol)
    | ResumeSymbol(symbol: Symbol)

  /** A thread takes its steps in program order; orders arrive unfilled. */
  predicate Enabled(s: State, e: Event) {
    match e
    case Submit(t, order) => s.At(t).Idle? && Unfilled(order)
    case Check(t) => s.At(t).Admitted?
    case DoMatch(t) => s.At(t).Approved?
    case Record(t, now) => s.At(t).Recording? && s.At(t).trades != []
    case CheckStops(t, ids) => s.At(t).Triggering?
    case _ => true
  }

  function Moved(s: State, t: ThreadId, p: Phase): State {
    s.(threads := s.threads[t := p])
  }

  function AddCached(s: State, account: Account, symbol: Symbol, delta: int): State {
    s.(cache := s.cache[(account, symbol) := s.Cached(account, symbol) + delta])
  }

  /** The signed change of a trade for its aggressor. */
  function Delta(t: Trade): int {
    t.aggressorSide.Signed(t.quantity)
  }

  function CheckStep(s: State, t: ThreadId): State
    requires s.At(t).Admitted?
  {
    var o := s.At(t).order;
    var halted := CircuitBreakers.IsHalted(s.breaker, o.symbol);
    var s' := s.(risk := AfterCheck(s.risk, halted, o));
    if Judge(s.risk, halted, o).Approve? then
      Moved(s', t, Approved(o)).(approved := s.approved[o.id := o])
    else Moved(s', t, Idle)
  }

  function MatchStep(s: State, t: ThreadId): State
    requires s.At(t).Approved?
  {
    var o := s.At(t).order;
    var r := Match(s.BookOf(o.symbol), o);
    Moved(s, t, if r.trades == [] then Idle else Recording(o, r.trades, CacheAggressor))
      .(books := s.books[o.symbol := r.book], matched := s.matched + {o.id}, tape := s.tape + r.trades)
  }

  /** Where a recording thread goes next: the next update, or the next trade. */
  function NextPhase(p: Phase): Phase
    requires p.Recording? && p.trades != []
  {
    match p.stage
    case CacheAggressor => p.(stage := CachePassive)
    case CachePassive => p.(stage := RecordPosition)
    case RecordPosition => p.(stage := RecordPrice)
    case RecordPrice => p.(stage := RecordBreaker)
    case RecordBreaker =>
      if |p.trades| == 1 then Triggering(p.order) else Recording(p.order, p.trades[1..], CacheAggressor)
  }

  /** One update of the fill consumer. */
  function Consume(s: State, x: Trade, stage: Stage, now: int): State {
    match stage
    case CacheAggressor => AddCached(s, x.aggressorAccount, x.symbol, Delta(x))
    case CachePassive => AddCached(s, x.passiveAccount, x.symbol, -Delta(x))
    case RecordPosition => s.(risk := RecordFill(s.risk, x.aggressorAccount, x.symbol, x.aggressorSide, x.quantity))
    case RecordPrice => s.(risk := SetLastPrice(s.risk, x.symbol, x.price))
    case RecordBreaker => s.(breaker := CircuitBreakers.RecordTrade(s.breaker, x.symbol, x.price, now))
  }

  function RecordStep(s: State, t: ThreadId, now: int): State
    requires s.At(t).Recording? && s.At(t).trades != []
  {
    var p := s.At(t);
    Moved(Consume(s, p.trades[0], p.stage, now), t, NextPhase(p))
  }

  predicate Triggered(stop: Order, last: int) {
    if stop.side.Buy? then last >= stop.stopPrice else last <= stop.stopPrice
  }

  function Fired(pending: seq<Order>, last: int): seq<Order> {
    if pending == [] then []
    else (if Triggered(pending[0], last) then [pending[0]] else []) + Fired(pending[1..], last)
  }

  function Unfired(pending: seq<Order>, last: int): seq<Order> {
    if pending == [] then []
    else (if Triggered(pending[0], last) then [] else [pending[0]]) + Unfired(pending[1..], last)
  }

  /** Match each fired stop as a limit order; `ids` are the generated order ids. */
  function MatchAll(b: Book, stops: seq<Order>, ids: seq<OrderId>): Book
    decreases |stops|
  {
    if stops == [] || ids == [] then b
    else
      var stop := stops[0];
      var o := Create(ids[0], stop.account, stop.symbol, stop.side, Limit, stop.price, 0, stop.remaining);
      MatchAll(Match(b, o).book, stops[1..], ids[1..])
  }

  function StopStep(s: State, t: ThreadId, ids: seq<OrderId>): State
    requires s.At(t).Triggering?
  {
    var symbol := s.At(t).order.symbol;
    var b := s.BookOf(symbol);
    var s' := Moved(s, t, Idle);
    if symbol !in s.stops || b.last.None? then s'
    else s'.(stops := s.stops[symbol := Unfired(s.stops[symbol], b.last.value)],
             books := s.books[symbol := MatchAll(b, Fired(s.stops[symbol], b.last.value), ids)])
  }

  function Next(s: State, e: Event): State
    requires Enabled(s, e)
  {
    match e
    case Submit(t, order) => if s.halted then s else Moved(s, t, Admitted(order))
    case Check(t) => CheckStep(s, t)
    case DoMatch(t) => MatchStep(s, t)
    case Record(t, now) => RecordStep(s, t, now)
    case CheckStops(t, ids) => StopStep(s, t, ids)
    case CancelOrder(symbol, id) =>
      if symbol !in s.books then s else s.(books := s.books[symbol := Cancel(s.books[symbol], id).book])
    case Halt => s.(halted := true)
    case Resume => s.(halted := false)
    case HaltSymbol(symbol) => s.(breaker := CircuitBreakers.HaltSymbol(s.breaker, symbol))
    case ResumeSymbol(symbol) => s.(breaker := CircuitBreakers.ResumeSymbol(s.breaker, symbol))
  }

  /** The states an execution passes through, from the start. */
  ghost predicate Execution(states: seq<State>, events: seq<Event>) {
    && |states| == |events| + 1
    && states[0] == INITIAL
    && (forall i | 0 <= i < |events| :: Enabled(states[i], events[i]) && states[i + 1] == Next(states[i], events[i]))
  }

  lemma StepOf(states: seq<State>, events: seq<Event>, i: nat)
    requires Execution(states, events) && i < |events|
    ensures Enabled(states[i], events[i]) && states[i + 1] == Next(states[i], events[i])
  {
  }

  /** Recording moves the thread on and touches only the consumer's targets. */
  lemma RecordShape(s: State, t: ThreadId, now: int)
    requires s.At(t).Recording? && s.At(t).trades != []
    ensures var s' := RecordStep(s, t, now);
            var p, x := s'.At(t), s.At(t).trades[0];
            && (p.Recording? || p.Triggering?) && p == NextPhase(s.At(t))
            && s' == s.(threads := s.threads[t := p], risk := s'.risk, breaker := s'.breaker, cache := s'.cache)
            && s'.risk == s.risk.(positions := s'.risk.positions, lastPrices := s'.risk.lastPrices)
            && (s'.breaker == s.breaker
                || s'.breaker == CircuitBreakers.RecordTrade(s.breaker, x.symbol, x.price, now))
  {
    hide CircuitBreakers.RecordTrade, NextPhase;
    var p := s.At(t);
    ConsumeShape(s, p.trades[0], p.stage, now);
    assert NextPhase(p).Recording? || NextPhase(p).Triggering? by { NextPhaseRecords(p); }
  }

  lemma NextPhaseRecords(p: Phase)
    requires p.Recording? && p.trades != []
    ensures NextPhase(p).Triggering? || (NextPhase(p).Recording? && NextPhase(p).trades != [])
  {
  }

  lemma ConsumeShape(s: State, x: Trade, stage: Stage, now: int)
    ensures var s' := Consume(s, x, stage, now);
            && s' == s.(risk := s'.risk, breaker := s'.breaker, cache := s'.cache)
            && s'.risk == s.risk.(positions := s'.risk.positions, lastPrices := s'.risk.lastPrices)
            && (s'.breaker == s.breaker
                || s'.breaker == CircuitBreakers.RecordTrade(s.breaker, x.symbol, x.price, now))
  {
    hide CircuitBreakers.RecordTrade;
  }

  /** What one update adds to a cached position. */
  function CacheChange(x: Trade, stage: Stage, account: Account, symbol: Symbol): int {
    if stage == CacheAggressor && account == x.aggressorAccount && symbol == x.symbol then Delta(x)
    else if stage == CachePassive && account == x.passiveAccount && symbol == x.symbol then -Delta(x)
    else 0
  }

  /** What one update adds to a recorded position. */
  function PositionChange(x: Trade, stage: Stage, account: Account, symbol: Symbol): int {
    if stage == RecordPosition && account == x.aggressorAccount && symbol == x.symbol then Delta(x) else 0
  }

  lemma ConsumeEffect(s: State, x: Trade, stage: Stage, now: int, account: Account, symbol: Symbol)
    ensures var s' := Consume(s, x, stage, now);
            && s'.Cached(account, symbol) == s.Cached(account, symbol) + CacheChange(x, stage, account, symbol)
            && s'.risk.Position(account, symbol)
               == s.risk.Position(account, symbol) + PositionChange(x, stage, account, symbol)
            && s.cache.Keys <= s'.cache.Keys
  {
    hide CircuitBreakers.RecordTrade;
  }

  /** A phase in which nothing of a fill has been posted yet. */
  predicate Unposted(p: Phase) {
    p.Recording? ==> p.stage == CacheAggressor
  }

  function NewTrades(p: Phase): seq<Trade> {
    if p.Recording? then p.trades else []
  }

  /** Positions are left alone, and only thread `t` moves, from and to phases in which
      nothing has been posted; what it is to post is what the tape gains. */
  ghost predicate Sidestep(s: State, s': State, t: ThreadId) {
    && s'.cache == s.cache && s'.risk.positions == s.risk.positions
    && s'.threads == s.threads[t := s'.At(t)]
    && !s.At(t).Recording? && Unposted(s'.At(t))
    && s'.tape == s.tape + NewTrades(s'.At(t))
  }

  ghost predicate Standstill(s: State, s': State) {
    && s'.cache == s.cache && s'.risk.positions == s.risk.positions
    && s'.threads == s.threads && s'.tape == s.tape
  }

  lemma CheckSidesteps(s: State, t: ThreadId)
    requires s.At(t).Admitted?
    ensures Sidestep(s, CheckStep(s, t), t)
  {
    CheckKeepsPositions(s.risk, CircuitBreakers.IsHalted(s.breaker, s.At(t).order.symbol), s.At(t).order);
    hide Judge, AfterCheck;
    assert s.tape + [] == s.tape;
  }

  lemma MatchSidesteps(s: State, t: ThreadId)
    requires s.At(t).Approved?
    ensures Sidestep(s, MatchStep(s, t), t)
  {
    hide Match;
    assert s.tape + [] == s.tape;
  }

  lemma StopsSidestep(s: State, t: ThreadId, ids: seq<OrderId>)
    requires s.At(t).Triggering?
    ensures Sidestep(s, StopStep(s, t, ids), t)
  {
    hide MatchAll, Fired, Unfired;
    assert s.tape + [] == s.tape;
  }

  /** Every step but recording is one of these two. */
  lemma OtherShape(s: State, e: Event)
    requires Enabled(s, e) && !e.Record?
    ensures || Standstill(s, Next(s, e))
            || ((e.Submit? || e.Check? || e.DoMatch? || e.CheckStops?) && Sidestep(s, Next(s, e), e.t))
  {
    hide CheckStep, MatchStep, StopStep, Cancel;
    assert s.tape + [] == s.tape;
    match e
    case Check(t) => CheckSidesteps(s, t);
    case DoMatch(t) => MatchSidesteps(s, t);
    case CheckStops(t, ids) => StopsSidestep(s, t, ids);
    case Submit(t, order) =>
    case CancelOrder(_, _) =>
    case Halt =>
    case Resume =>
    case HaltSymbol(_) =>
    case ResumeSymbol(_) =>
  }
}
