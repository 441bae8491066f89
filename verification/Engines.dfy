/** The matching engine as the program keeps it: one order book object per symbol, the
    risk engine in front and the fill consumer behind. A call of `Submit` on its own is
    proved to be a run of one thread of the machine in `EngineModel`. */
module Engines {
  import opened Orders
  import opened Books
  import opened BookLaws
  import opened OrderBooks
  import opened Snapshots
  import CircuitBreakers
  import opened Risk
  import opened RiskEngines
  import opened EngineModel

  /** What the fill consumer updates. */
  datatype Ledger = Ledger(
    risk: RiskState,
    breaker: CircuitBreakers.Breaker,
    cache: map<(Account, Symbol), int>)

  datatype Engine = Engine(halted: bool, ledger: Ledger, books: map<Symbol, Book>) {
    function BookOf(symbol: Symbol): Book {
      if symbol in books then books[symbol] else EMPTY_BOOK
    }

    function Halts(symbol: Symbol): bool {
      CircuitBreakers.IsHalted(ledger.breaker, symbol)
    }
  }

  function AfterGate(l: Ledger, o: Order): Ledger {
    l.(risk := AfterCheck(l.risk, CircuitBreakers.IsHalted(l.breaker, o.symbol), o))
  }

  function Increment(m: map<(Account, Symbol), int>, k: (Account, Symbol), delta: int): map<(Account, Symbol), int> {
    m[k := (if k in m then m[k] else 0) + delta]
  }

  /** One fill, completely consumed. */
  function AfterFill(l: Ledger, x: Trade, now: int): Ledger {
    Ledger(
      SetLastPrice(RecordFill(l.risk, x.aggressorAccount, x.symbol, x.aggressorSide, x.quantity), x.symbol, x.price),
      CircuitBreakers.RecordTrade(l.breaker, x.symbol, x.price, now),
      Increment(Increment(l.cache, (x.aggressorAccount, x.symbol), Delta(x)), (x.passiveAccount, x.symbol), -Delta(x)))
  }

  /** All fills of one order; `clock` is the time each of them is recorded at. */
  function AfterFills(l: Ledger, ts: seq<Trade>, clock: nat -> int): Ledger {
    if ts == [] then l
    else AfterFill(AfterFills(l, ts[..|ts| - 1], clock), ts[|ts| - 1], clock(|ts| - 1))
  }

  predicate Admits(e: Engine, o: Order) {
    !e.halted && Judge(e.ledger.risk, e.Halts(o.symbol), o).Approve?
  }

  function TradesFor(e: Engine, o: Order): seq<Trade> {
    if Admits(e, o) then Match(e.BookOf(o.symbol), o).trades else []
  }

  /** A submission with nothing else going on. */
  function AfterSubmit(e: Engine, o: Order, clock: nat -> int): Engine {
    if e.halted then e
    else if !Admits(e, o) then e.(ledger := AfterGate(e.ledger, o))
    else Engine(e.halted, AfterFills(AfterGate(e.ledger, o), TradesFor(e, o), clock),
                e.books[o.symbol := Match(e.BookOf(o.symbol), o).book])
  }

  function AfterCancel(e: Engine, symbol: Symbol, id: OrderId): Engine {
    if symbol !in e.books then e else e.(books := e.books[symbol := Cancel(e.books[symbol], id).book])
  }

  /** A halted engine takes no order. */
  lemma HaltedTakesNothing(e: Engine, o: Order, clock: nat -> int)
    requires e.halted
    ensures AfterSubmit(e, o, clock) == e && TradesFor(e, o) == []
  {
  }

  /** A fill reaches the recorded position of the aggressor, the last price and the
      breaker, and no other position or price. */
  lemma FillIsRecorded(l: Ledger, x: Trade, now: int, account: Account, symbol: Symbol)
    ensures var l' := AfterFill(l, x, now);
            && l'.risk.Position(account, symbol) == l.risk.Position(account, symbol)
                 + (if account == x.aggressorAccount && symbol == x.symbol
                    then (if x.aggressorSide == Buy then x.quantity else -x.quantity) else 0)
            && x.symbol in l'.risk.lastPrices && l'.risk.lastPrices[x.symbol] == x.price
            && (symbol != x.symbol && symbol in l.risk.lastPrices ==>
                  symbol in l'.risk.lastPrices && l'.risk.lastPrices[symbol] == l.risk.lastPrices[symbol])
            && l'.breaker == CircuitBreakers.RecordTrade(l.breaker, x.symbol, x.price, now)
  {
    hide CircuitBreakers.RecordTrade, Increment;
  }

  /** A cancelled order is gone unless it has no price, and other books are left alone. */
  lemma CancelledIsGone(e: Engine, symbol: Symbol, id: OrderId)
    requires symbol in e.books && Wf(e.books[symbol])
    ensures var e' := AfterCancel(e, symbol, id);
            && symbol in e'.books
            && (id in BookIds(e'.books[symbol]) <==> id in Priceless(e.books[symbol]))
            && (forall s | s != symbol :: s in e'.books <==> s in e.books)
            && (forall s | s != symbol && s in e.books :: e'.books[s] == e.books[s])
            && e' == e.(books := e'.books)
  {
    CancelRemovesIff(e.books[symbol], id);
    hide Cancel;
  }

  // ------------------------------------------------------------------
  //  The objects
  // ------------------------------------------------------------------

  /** The cached positions; each update is one atomic increment. */
  class PositionCache {
    var positions: map<(Account, Symbol), int>

    constructor ()
      ensures positions == map[]
    {
      positions := map[];
    }

    method UpdatePosition(account: Account, symbol: Symbol, delta: int)
      modifies this
      ensures positions == Increment(old(positions), (account, symbol), delta)
    {
      var n := if (account, symbol) in positions then positions[(account, symbol)] else 0;
      positions := positions[(account, symbol) := n + delta];
    }
  }

  class FillConsumer {
    const riskEngine: RiskEngine
    const cache: PositionCache

    constructor (riskEngine: RiskEngine, cache: PositionCache)
      ensures this.riskEngine == riskEngine && this.cache == cache
    {
      this.riskEngine, this.cache := riskEngine, cache;
    }

    ghost function View(): Ledger
      reads riskEngine, riskEngine.circuitBreaker, cache
    {
      Ledger(riskEngine.View(), riskEngine.circuitBreaker.View(), cache.positions)
    }

    /** Both legs to the cache, then position, price and breaker. */
    method OnFill(x: Trade, now: int)
      modifies riskEngine`positions, riskEngine`lastTradePrices, riskEngine.circuitBreaker, cache
      ensures View() == AfterFill(old(View()), x, now)
    {
      hide RiskEngine.View, CircuitBreaker.View, CircuitBreakers.RecordTrade, Increment;
      var delta := if x.aggressorSide.Buy? then x.quantity else -x.quantity;
      cache.UpdatePosition(x.aggressorAccount, x.symbol, delta);
      cache.UpdatePosition(x.passiveAccount, x.symbol, -delta);
      riskEngine.RecordFill(x.aggressorAccount, x.symbol, x.aggressorSide, x.quantity);
      riskEngine.UpdateLastTradePrice(x.symbol, x.price, now);
    }

    method OnFills(trades: seq<Trade>, clock: nat -> int)
      modifies riskEngine`positions, riskEngine`lastTradePrices, riskEngine.circuitBreaker, cache
      ensures View() == AfterFills(old(View()), trades, clock)
    {
      hide View, AfterFill;
      for i := 0 to |trades|
        invariant View() == AfterFills(old(View()), trades[..i], clock)
      {
        assert trades[..i + 1][..i] == trades[..i];
        OnFill(trades[i], clock(i));
      }
      assert trades[..|trades|] == trades;
    }
  }

  lemma MatchStaysIn(b: OrderBook, o: Order, seen: set<OrderId>)
    requires b.Valid() && o.id !in BookIds(b.View()) && BookIds(b.View()) <= seen
    ensures BookIds(Match(b.View(), o).book) <= seen + {o.id}
  {
    MatchKeepsWf(b.View(), o);
  }

  lemma CancelStaysIn(b: OrderBook, id: OrderId)
    requires b.Valid()
    ensures BookIds(Books.Cancel(b.View(), id).book) <= BookIds(b.View())
  {
    CancelKeepsWf(b.View(), id);
  }

  class MatchingEngine {
    const consumer: FillConsumer
    const riskEngine: RiskEngine
    var halted: bool
    var books: map<Symbol, OrderBook>

    ghost function BookViews(): map<Symbol, Book>
      reads this`books, books.Values
    {
      map s | s in books :: books[s].View()
    }

    ghost function View(): Engine
      reads this, consumer.riskEngine, consumer.riskEngine.circuitBreaker, consumer.cache, books.Values
    {
      Engine(halted, consumer.View(), BookViews())
    }

    /** Books are separate objects, each in order, and hold only ids from `seen`. */
    ghost predicate BooksValid(seen: set<OrderId>)
      reads this`books, books.Values
    {
      && (forall s | s in books :: books[s].Valid() && BookIds(books[s].View()) <= seen)
      && (forall r, s | r in books && s in books && r != s :: books[r] != books[s])
    }

    ghost predicate Valid()
      reads this, riskEngine, books.Values
    {
      riskEngine == consumer.riskEngine && BooksValid(riskEngine.seenOrderIds)
    }

    constructor (riskEngine: RiskEngine, consumer: FillConsumer)
      requires consumer.riskEngine == riskEngine
      ensures this.riskEngine == riskEngine && this.consumer == consumer && books == map[]
      ensures Valid() && View() == Engine(false, consumer.View(), map[])
    {
      this.riskEngine, this.consumer, halted, books := riskEngine, consumer, false, map[];
    }

    method GetOrCreateBook(symbol: Symbol, ghost seen: set<OrderId>) returns (book: OrderBook)
      requires BooksValid(seen)
      modifies this`books
      ensures BooksValid(seen) && symbol in books && books[symbol] == book
      ensures fresh(books.Values - old(books.Values))
      ensures BookViews() == old(BookViews())[symbol :=
                if symbol in old(BookViews()) then old(BookViews())[symbol] else EMPTY_BOOK]
    {
      hide OrderBook.View, OrderBook.Valid;
      if symbol !in books {
        var b := new OrderBook(symbol);
        books := books[symbol := b];
      }
      book := books[symbol];
    }

    /** Under the symbol's lock: match in its book. */
    method MatchInBook(book: OrderBook, o: Order, ghost seen: set<OrderId>) returns (trades: seq<Trade>)
      requires BooksValid(seen) && o.id !in seen && o.symbol in books && books[o.symbol] == book
      modifies book
      ensures BooksValid(seen + {o.id})
      ensures BookViews() == old(BookViews())[o.symbol := Match(old(BookViews())[o.symbol], o).book]
      ensures trades == Match(old(BookViews())[o.symbol], o).trades
    {
      hide OrderBook.View, OrderBook.Valid, Match;
      MatchStaysIn(book, o, seen);
      assert BookViews()[o.symbol] == book.View();
      trades := book.Match(o);
      forall s | s in books && s != o.symbol
        ensures books[s].View() == old(BookViews())[s] && books[s].Valid()
      {
        assert books[s] != book && old(books[s].Valid());
      }
    }

    method MatchNow(o: Order, ghost seen: set<OrderId>) returns (trades: seq<Trade>)
      requires BooksValid(seen) && o.id !in seen
      modifies this`books, books.Values
      ensures BooksValid(seen + {o.id}) && fresh(books.Values - old(books.Values))
      ensures var b := if o.symbol in old(BookViews()) then old(BookViews())[o.symbol] else EMPTY_BOOK;
              BookViews() == old(BookViews())[o.symbol := Match(b, o).book] && trades == Match(b, o).trades
    {
      hide BooksValid, BookViews, Match;
      var book := GetOrCreateBook(o.symbol, seen);
      trades := MatchInBook(book, o, seen);
    }

    /** The risk check, and what it tells about the ids in the books. */
    method Gate(o: Order) returns (approved: bool)
      requires Valid()
      modifies riskEngine
      ensures consumer.View() == AfterGate(old(consumer.View()), o)
      ensures approved == Judge(old(View()).ledger.risk, old(View()).Halts(o.symbol), o).Approve?
      ensures approved ==> o.id !in old(riskEngine.seenOrderIds)
      ensures approved ==> riskEngine.seenOrderIds == old(riskEngine.seenOrderIds) + {o.id}
      ensures old(riskEngine.seenOrderIds) <= riskEngine.seenOrderIds
    {
      hide CircuitBreaker.View, Judge, AfterCheck, Paired, BookViews, BooksValid;
      CheckSpendsId(riskEngine.View(), CircuitBreakers.IsHalted(riskEngine.circuitBreaker.View(), o.symbol), o);
      var verdict := riskEngine.CheckPreTrade(o);
      approved := verdict.Approve?;
    }

    lemma SeenGrows(seen: set<OrderId>, more: set<OrderId>)
      requires BooksValid(seen) && seen <= more
      ensures BooksValid(more)
    {
      hide OrderBook.View, OrderBook.Valid;
    }

    method Submit(o: Order, clock: nat -> int) returns (trades: seq<Trade>)
      requires Valid()
      modifies this`books, riskEngine, riskEngine.circuitBreaker, consumer.cache, books.Values
      ensures Valid() && fresh(books.Values - old(books.Values))
      ensures View() == AfterSubmit(old(View()), o, clock)
      ensures trades == TradesFor(old(View()), o)
    {
      hide BooksValid, BookViews, RiskEngine.View, CircuitBreaker.View, Match, Judge, AfterCheck, AfterFills;
      if halted {
        return [];
      }
      ghost var seen := riskEngine.seenOrderIds;
      var approved := Gate(o);
      if !approved {
        SeenGrows(seen, riskEngine.seenOrderIds);
        return [];
      }
      trades := MatchNow(o, seen);
      consumer.OnFills(trades, clock);
    }

    method Cancel(symbol: Symbol, id: OrderId) returns (removed: bool)
      requires Valid()
      modifies books.Values
      ensures Valid()
      ensures View() == AfterCancel(old(View()), symbol, id)
      ensures removed <==> symbol in old(View()).books && Books.Cancel(old(View()).books[symbol], id).removed
    {
      hide OrderBook.View, BooksValid, RiskEngine.View, CircuitBreaker.View, Books.Cancel;
      if symbol !in books {
        return false;
      }
      removed := RemoveInBook(books[symbol], symbol, id, riskEngine.seenOrderIds);
    }

    method RemoveInBook(book: OrderBook, symbol: Symbol, id: OrderId, ghost seen: set<OrderId>) returns (removed: bool)
      requires BooksValid(seen) && symbol in books && books[symbol] == book
      modifies book
      ensures BooksValid(seen)
      ensures BookViews() == old(BookViews())[symbol := Books.Cancel(old(BookViews())[symbol], id).book]
      ensures removed == Books.Cancel(old(BookViews())[symbol], id).removed
    {
      hide OrderBook.View, OrderBook.Valid, Books.Cancel;
      CancelStaysIn(book, id);
      assert BookViews()[symbol] == book.View();
      removed := book.RemoveFromBook(id);
      forall s | s in books && s != symbol
        ensures books[s].View() == old(BookViews())[s] && books[s].Valid()
      {
        assert books[s] != book && old(books[s].Valid());
      }
    }

    /** The best levels of a symbol's book, if it has one. */
    method GetSnapshot(symbol: Symbol, depth: int)
      returns (known: bool, topBids: seq<PriceLevel>, topAsks: seq<PriceLevel>, last: Option<int>)
      requires Valid()
      ensures known <==> symbol in books
      ensures known ==> var b := books[symbol].View();
                        Summarises(Buy, b.bids, depth, topBids) && Summarises(Sell, b.asks, depth, topAsks) && last == b.last
      ensures !known ==> topBids == [] && topAsks == [] && last == None
    {
      hide OrderBook.View, OrderBook.Valid, Summarises;
      if symbol !in books {
        return false, [], [], None;
      }
      known := true;
      topBids, topAsks, last := books[symbol].Snapshot(depth);
    }

    method Halt()
      requires Valid()
      modifies this`halted
      ensures Valid() && View() == old(View()).(halted := true)
    {
      hide BooksValid, BookViews, FillConsumer.View;
      halted := true;
    }

    method Resume()
      requires Valid()
      modifies this`halted
      ensures Valid() && View() == old(View()).(halted := false)
    {
      hide BooksValid, BookViews, FillConsumer.View;
      halted := false;
    }
  }

  // ------------------------------------------------------------------
  //  A call is a run of one thread
  // ------------------------------------------------------------------

  function LedgerOf(s: State): Ledger {
    Ledger(s.risk, s.breaker, s.cache)
  }

  function Core(s: State): Engine {
    Engine(s.halted, LedgerOf(s), s.books)
  }

  /** Where a sequence of events leads, if each of them is enabled in turn. */
  function Play(s: State, events: seq<Event>): Option<State> {
    if events == [] then Some(s) else
      match Play(s, events[..|events| - 1])
      case None => None
      case Some(m) =>
        var e := events[|events| - 1];
        if Enabled(m, e) then Some(Next(m, e)) else None
  }

  lemma PlayOn(s: State, events: seq<Event>, m: State, e: Event)
    requires Play(s, events) == Some(m) && Enabled(m, e)
    ensures Play(s, events + [e]) == Some(Next(m, e))
  {
    assert (events + [e])[..|events|] == events;
  }

  /** The orders that enter in a sequence of events. */
  ghost function Entering(events: seq<Event>): set<Order> {
    set e | e in events && e.Submit? :: e.order
  }

  lemma EnteringOn(events: seq<Event>, e: Event)
    ensures Entering(events + [e]) == Entering(events) + if e.Submit? then {e.order} else {}
  {
    forall x ensures x in Entering(events + [e]) <==> x in Entering(events) + (if e.Submit? then {e.order} else {}) {
      if x in Entering(events) {
        var k :| k in events && k.Submit? && k.order == x;
        assert k in events + [e];
      }
      assert e in events + [e];
    }
  }

  lemma EnteringConcat(a: seq<Event>, b: seq<Event>)
    ensures Entering(a + b) == Entering(a) + Entering(b)
  {
    forall x ensures x in Entering(a + b) <==> x in Entering(a) + Entering(b) {
      if x in Entering(a) + Entering(b) {
        var k :| (k in a || k in b) && k.Submit? && k.order == x;
        assert k in a + b;
      }
    }
  }

  /** Only thread `t` moves. */
  ghost predicate OthersStay(s: State, s': State, t: ThreadId) {
    forall u | u != t :: s'.At(u) == s.At(u)
  }

  function StageLedger(l: Ledger, x: Trade, stage: Stage, now: int): Ledger {
    match stage
    case CacheAggressor => l.(cache := Increment(l.cache, (x.aggressorAccount, x.symbol), Delta(x)))
    case CachePassive => l.(cache := Increment(l.cache, (x.passiveAccount, x.symbol), -Delta(x)))
    case RecordPosition => l.(risk := RecordFill(l.risk, x.aggressorAccount, x.symbol, x.aggressorSide, x.quantity))
    case RecordPrice => l.(risk := SetLastPrice(l.risk, x.symbol, x.price))
    case RecordBreaker => l.(breaker := CircuitBreakers.RecordTrade(l.breaker, x.symbol, x.price, now))
  }

  lemma ConsumeIsStage(s: State, x: Trade, stage: Stage, now: int)
    ensures var s' := Consume(s, x, stage, now);
            && Core(s') == Core(s).(ledger := StageLedger(LedgerOf(s), x, stage, now))
            && s'.threads == s.threads && s'.stops == s.stops
  {
    hide RecordFill, SetLastPrice, CircuitBreakers.RecordTrade, Delta;
  }

  lemma StageStep(s: State, events: seq<Event>, m: State, t: ThreadId, now: int) returns (events': seq<Event>, m': State)
    requires Play(s, events) == Some(m) && m.At(t).Recording? && m.At(t).trades != []
    ensures Play(s, events') == Some(m') && Entering(events') == Entering(events)
    ensures Core(m') == Core(m).(ledger := StageLedger(LedgerOf(m), m.At(t).trades[0], m.At(t).stage, now))
    ensures m'.At(t) == NextPhase(m.At(t)) && m'.stops == m.stops && OthersStay(m, m', t)
  {
    EnteringOn(events, Record(t, now));
    hide Play, Consume, StageLedger, NextPhase, Entering;
    ConsumeIsStage(m, m.At(t).trades[0], m.At(t).stage, now);
    PlayOn(s, events, m, Record(t, now));
    events', m' := events + [Record(t, now)], RecordStep(m, t, now);
  }

  /** Five steps consume the first trade. */
  lemma FillSteps(s: State, events: seq<Event>, m: State, t: ThreadId, now: int) returns (events': seq<Event>, m': State)
    requires Play(s, events) == Some(m) && m.At(t).Recording? && m.At(t).trades != [] && m.At(t).stage == CacheAggressor
    ensures Play(s, events') == Some(m') && Entering(events') == Entering(events)
    ensures Core(m') == Core(m).(ledger := AfterFill(LedgerOf(m), m.At(t).trades[0], now))
    ensures m'.At(t) == NextPhase(m.At(t).(stage := RecordBreaker)) && m'.stops == m.stops && OthersStay(m, m', t)
  {
    hide Play, RecordFill, SetLastPrice, CircuitBreakers.RecordTrade, Delta, Increment, Entering;
    events', m' := StageStep(s, events, m, t, now);
    events', m' := StageStep(s, events', m', t, now);
    events', m' := StageStep(s, events', m', t, now);
    events', m' := StageStep(s, events', m', t, now);
    events', m' := StageStep(s, events', m', t, now);
  }

  /** All trades, one after the other; then the stops, of which there are none. */
  lemma RecordAll(s: State, events: seq<Event>, m: State, t: ThreadId, clock: nat -> int)
    returns (events': seq<Event>, m': State)
    requires Play(s, events) == Some(m) && m.stops == map[]
    requires m.At(t).Recording? && m.At(t).trades != [] && m.At(t).stage == CacheAggressor
    ensures Play(s, events') == Some(m') && m'.At(t).Idle? && m'.stops == map[] && OthersStay(m, m', t)
    ensures Entering(events') == Entering(events)
    ensures Core(m') == Core(m).(ledger := AfterFills(LedgerOf(m), m.At(t).trades, clock))
  {
    hide Play, AfterFill, Entering;
    var o, ts := m.At(t).order, m.At(t).trades;
    events', m' := events, m;
    for k := 0 to |ts|
      invariant Play(s, events') == Some(m') && m'.stops == map[] && OthersStay(m, m', t)
      invariant Entering(events') == Entering(events)
      invariant Core(m') == Core(m).(ledger := AfterFills(LedgerOf(m), ts[..k], clock))
      invariant m'.At(t) == if k < |ts| then Recording(o, ts[k..], CacheAggressor) else Triggering(o)
    {
      assert ts[..k + 1][..k] == ts[..k] && ts[k..][1..] == ts[k + 1..];
      events', m' := FillSteps(s, events', m', t, clock(k));
    }
    assert ts[..|ts|] == ts;
    PlayOn(s, events', m', CheckStops(t, []));
    EnteringOn(events', CheckStops(t, []));
    events', m' := events' + [CheckStops(t, [])], Next(m', CheckStops(t, []));
  }

  /** The submission reaches the gate and passes it or not. */
  lemma GateSteps(s: State, t: ThreadId, o: Order) returns (events: seq<Event>, m: State)
    requires s.At(t).Idle? && Unfilled(o) && !s.halted
    ensures Play(s, events) == Some(m) && m.stops == s.stops && OthersStay(s, m, t) && Entering(events) == {o}
    ensures Core(m) == Core(s).(ledger := AfterGate(LedgerOf(s), o))
    ensures m.At(t) == if Admits(Core(s), o) then Approved(o) else Idle
  {
    EnteringOn([], Submit(t, o));
    EnteringOn([] + [Submit(t, o)], Check(t));
    assert Entering([]) == {};
    hide Play, CheckStep, Entering;
    PlayNothing(s);
    var m1 := Moved(s, t, Admitted(o));
    PlayOn(s, [], s, Submit(t, o));
    PlayOn(s, [] + [Submit(t, o)], m1, Check(t));
    CheckCore(m1, t);
    events, m := [] + [Submit(t, o)] + [Check(t)], CheckStep(m1, t);
  }

  lemma PlayNothing(s: State)
    ensures Play(s, []) == Some(s)
  {
  }

  lemma CheckCore(s: State, t: ThreadId)
    requires s.At(t).Admitted? && !s.halted
    ensures var o, m := s.At(t).order, CheckStep(s, t);
            && Core(m) == Core(s).(ledger := AfterGate(LedgerOf(s), o)) && m.stops == s.stops
            && m.At(t) == (if Admits(Core(s), o) then Approved(o) else Idle)
            && OthersStay(s, m, t)
  {
    hide Judge, AfterCheck;
  }

  /** An approved order is matched and its fills are recorded. */
  lemma MatchSteps(s: State, events: seq<Event>, m: State, t: ThreadId, clock: nat -> int)
    returns (events': seq<Event>, m': State)
    requires Play(s, events) == Some(m) && m.At(t).Approved? && m.stops == map[]
    ensures Play(s, events') == Some(m') && m'.At(t).Idle? && m'.stops == map[] && OthersStay(m, m', t)
    ensures Entering(events') == Entering(events)
    ensures var o := m.At(t).order;
            var r := Match(Core(m).BookOf(o.symbol), o);
            Core(m') == Engine(m.halted, AfterFills(LedgerOf(m), r.trades, clock), m.books[o.symbol := r.book])
  {
    EnteringOn(events, DoMatch(t));
    hide Play, Match, AfterFills, Entering;
    PlayOn(s, events, m, DoMatch(t));
    events', m' := events + [DoMatch(t)], MatchStep(m, t);
    if m'.At(t).Recording? {
      events', m' := RecordAll(s, events', m', t, clock);
    } else {
      NoFills(LedgerOf(m'), clock);
    }
  }

  /** From any state in which the thread is idle, there is a run of the machine that
      does what the call does and leaves the thread idle. */
  lemma SubmitIsARun(s: State, t: ThreadId, o: Order, clock: nat -> int) returns (events: seq<Event>, s': State)
    requires s.At(t).Idle? && Unfilled(o) && s.stops == map[]
    ensures Play(s, events) == Some(s') && s'.At(t).Idle? && s'.stops == map[] && OthersStay(s, s', t)
    ensures Entering(events) <= {o} && Core(s') == AfterSubmit(Core(s), o, clock)
  {
    if s.halted { return [], s; }
    hide Play, Judge, AfterGate, Match, AfterFills, Entering;
    events, s' := GateSteps(s, t, o);
    if s'.At(t).Approved? {
      events, s' := MatchSteps(s, events, s', t, clock);
    }
  }

  lemma NoFills(l: Ledger, clock: nat -> int)
    ensures AfterFills(l, [], clock) == l
  {
  }

  lemma {:induction false} PlayConcat(s: State, a: seq<Event>, m: State, b: seq<Event>)
    requires Play(s, a) == Some(m)
    ensures Play(s, a + b) == Play(m, b)
  {
    if b == [] {
      assert a + b == a;
    } else {
      assert (a + b)[..|a + b| - 1] == a + b[..|b| - 1];
      PlayConcat(s, a, m, b[..|b| - 1]);
      hide Next;
    }
  }

  /** Such a run is an execution of the machine. */
  lemma {:induction false} PlayIsExecution(events: seq<Event>, s: State) returns (states: seq<State>)
    requires Play(INITIAL, events) == Some(s)
    ensures Execution(states, events) && states[|events|] == s
  {
    hide Next, Enabled;
    if events == [] { return [s]; }
    var init, e := events[..|events| - 1], events[|events| - 1];
    var m := Play(INITIAL, init).value;
    states := PlayIsExecution(init, m);
    states := states + [s];
    forall i | 0 <= i < |events|
      ensures Enabled(states[i], events[i]) && states[i + 1] == Next(states[i], events[i])
    {
      if i < |init| { assert init[i] == events[i]; }
    }
  }
}
