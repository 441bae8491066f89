/** Whole sessions: any list of calls on a new engine is an execution of the machine, so
    the objects keep what the machine guarantees. */
module Sessions {
  import opened Orders
  import opened PriceTime
  import opened Books
  import opened Filling
  import opened Snapshots
  import opened Sums
  import CircuitBreakers
  import opened RiskEngines
  import opened EngineModel
  import opened EngineSafety
  import opened Engines

  datatype Call =
    | SubmitOrder(o: Order, clock: nat -> int)
    | CancelOrder(symbol: Symbol, id: OrderId)
    | HaltAll
    | ResumeAll
    | HaltOne(symbol: Symbol)
    | ResumeOne(symbol: Symbol)

  function WithBreaker(e: Engine, b: CircuitBreakers.Breaker): Engine {
    e.(ledger := e.ledger.(breaker := b))
  }

  function AfterCall(e: Engine, c: Call): Engine {
    match c
    case SubmitOrder(o, clock) => AfterSubmit(e, o, clock)
    case CancelOrder(symbol, id) => AfterCancel(e, symbol, id)
    case HaltAll => e.(halted := true)
    case ResumeAll => e.(halted := false)
    case HaltOne(symbol) => WithBreaker(e, CircuitBreakers.HaltSymbol(e.ledger.breaker, symbol))
    case ResumeOne(symbol) => WithBreaker(e, CircuitBreakers.ResumeSymbol(e.ledger.breaker, symbol))
  }

  /** A new engine after a list of calls. */
  ghost function AfterCalls(calls: seq<Call>): Engine {
    if calls == [] then Core(INITIAL) else AfterCall(AfterCalls(calls[..|calls| - 1]), calls[|calls| - 1])
  }

  /** Submitted orders satisfy `q`. */
  ghost predicate AllOrders(calls: seq<Call>, q: Order -> bool) {
    forall i | 0 <= i < |calls| :: calls[i].SubmitOrder? ==> q(calls[i].o)
  }

  // ------------------------------------------------------------------
  //  A session is an execution
  // ------------------------------------------------------------------

  function EventFor(c: Call): Event
    requires !c.SubmitOrder?
  {
    match c
    case CancelOrder(symbol, id) => Event.CancelOrder(symbol, id)
    case HaltAll => Halt
    case ResumeAll => Resume
    case HaltOne(symbol) => HaltSymbol(symbol)
    case ResumeOne(symbol) => ResumeSymbol(symbol)
  }

  lemma OtherCall(s: State, c: Call)
    requires !c.SubmitOrder?
    ensures Enabled(s, EventFor(c))
    ensures var s' := Next(s, EventFor(c));
            Core(s') == AfterCall(Core(s), c) && s'.threads == s.threads && s'.stops == s.stops
  {
    hide Cancel;
  }

  /** Whatever has been called, there is a run of one thread that does the same. */
  lemma {:induction false} SessionIsARun(calls: seq<Call>, t: ThreadId) returns (events: seq<Event>, s: State)
    requires AllOrders(calls, Unfilled)
    ensures Play(INITIAL, events) == Some(s) && Core(s) == AfterCalls(calls) && s.At(t).Idle? && s.stops == map[]
    ensures forall o | o in Entering(events) :: exists i :: 0 <= i < |calls| && calls[i].SubmitOrder? && calls[i].o == o
  {
    hide Play, AfterCall;
    if calls == [] {
      PlayNothing(INITIAL);
      events, s := [], INITIAL;
    } else {
      var init, c := calls[..|calls| - 1], calls[|calls| - 1];
      assert forall i | 0 <= i < |init| :: init[i] == calls[i];
      var events1, s1 := SessionIsARun(init, t);
      events, s := CallIsARun(events1, s1, t, c);
    }
  }

  lemma CallIsARun(events: seq<Event>, s: State, t: ThreadId, c: Call) returns (events': seq<Event>, s': State)
    requires Play(INITIAL, events) == Some(s) && s.At(t).Idle? && s.stops == map[] && (c.SubmitOrder? ==> Unfilled(c.o))
    ensures Play(INITIAL, events') == Some(s') && Core(s') == AfterCall(Core(s), c) && s'.At(t).Idle? && s'.stops == map[]
    ensures Entering(events') <= Entering(events) + if c.SubmitOrder? then {c.o} else {}
  {
    hide Play, AfterSubmit, Entering, Next, Enabled;
    if c.SubmitOrder? {
      var more;
      more, s' := SubmitIsARun(s, t, c.o, c.clock);
      PlayConcat(INITIAL, events, s, more);
      EnteringConcat(events, more);
      events' := events + more;
    } else {
      OtherCall(s, c);
      PlayOn(INITIAL, events, s, EventFor(c));
      EnteringOn(events, EventFor(c));
      events', s' := events + [EventFor(c)], Next(s, EventFor(c));
    }
  }

  // ------------------------------------------------------------------
  //  What a session keeps
  // ------------------------------------------------------------------

  /** The book is uncrossed, and with priced orders nothing in it is hidden. */
  lemma SessionKeepsBooks(calls: seq<Call>, t: ThreadId, symbol: Symbol)
    requires AllOrders(calls, Unfilled) && symbol in AfterCalls(calls).books
    ensures Uncrossed(AfterCalls(calls).books[symbol])
    ensures AllOrders(calls, CarriesPrice) ==> AfterCalls(calls).books[symbol].hidden == {}
  {
    hide Play, AfterCalls, Next, Enabled, Uncrossed;
    var events, s := SessionIsARun(calls, t);
    var states := PlayIsExecution(events, s);
    NeverCrosses(states, events, |events|, symbol);
    if AllOrders(calls, CarriesPrice) {
      forall i | 0 <= i < |events| && events[i].Submit? ensures CarriesPrice(events[i].order) {
        assert events[i].order in Entering(events);
      }
      NeverHides(states, events, |events|, symbol);
    }
  }

  /** The index holds the queued orders and nothing else. */
  ghost predicate Exact(index: map<OrderId, Order>, b: Book) {
    && index.Keys == BookIds(b)
    && (forall x | x in b.bids || x in b.asks :: x.id in index && index[x.id] == x)
    && (forall id | id in index :: index[id].id == id && (index[id] in b.bids || index[id] in b.asks))
  }

  lemma NothingHiddenIsExact(index: map<OrderId, Order>, b: Book)
    requires Wf(b) && Indexed(index, b) && b.hidden == {}
    ensures Exact(index, b)
  {
    IndexIsComplete(index, b);
    forall id | id in index ensures id in BookIds(b) {
      assert index[id].id in BookIds(b);
    }
  }

  method Handle(engine: MatchingEngine, c: Call)
    requires engine.Valid()
    modifies engine, engine.riskEngine, engine.riskEngine.circuitBreaker, engine.consumer.cache, engine.books.Values
    ensures engine.Valid() && fresh(engine.books.Values - old(engine.books.Values))
    ensures engine.View() == AfterCall(old(engine.View()), c)
  {
    hide MatchingEngine.BooksValid, MatchingEngine.BookViews, RiskEngine.View, CircuitBreaker.View;
    hide AfterSubmit, AfterCancel, CircuitBreakers.HaltSymbol, CircuitBreakers.ResumeSymbol;
    match c
    case SubmitOrder(o, clock) => var _ := engine.Submit(o, clock);
    case CancelOrder(symbol, id) => var _ := engine.Cancel(symbol, id);
    case HaltAll => engine.Halt();
    case ResumeAll => engine.Resume();
    case HaltOne(symbol) => engine.riskEngine.circuitBreaker.HaltSymbol(symbol);
    case ResumeOne(symbol) => engine.riskEngine.circuitBreaker.ResumeSymbol(symbol);
  }

  method Open() returns (engine: MatchingEngine)
    ensures fresh(engine) && fresh(engine.riskEngine) && fresh(engine.riskEngine.circuitBreaker)
    ensures fresh(engine.consumer.cache) && fresh(engine.books.Values)
    ensures engine.Valid() && engine.View() == Core(INITIAL)
  {
    hide RiskEngine.View, CircuitBreaker.View, MatchingEngine.BooksValid, MatchingEngine.BookViews;
    var breaker := new CircuitBreaker();
    var risk := new RiskEngine(breaker);
    var cache := new PositionCache();
    var consumer := new FillConsumer(risk, cache);
    assert consumer.View() == LedgerOf(INITIAL);
    engine := new MatchingEngine(risk, consumer);
  }

  /** A new engine, and any list of calls on it. */
  method Operate(calls: seq<Call>, ghost t: ThreadId) returns (engine: MatchingEngine)
    requires AllOrders(calls, Unfilled)
    ensures engine.Valid() && engine.View() == AfterCalls(calls)
    ensures forall s | s in engine.books :: Uncrossed(engine.books[s].View())
    ensures AllOrders(calls, CarriesPrice) ==>
              forall s | s in engine.books :: Exact(engine.books[s].orderIndex, engine.books[s].View())
  {
    hide MatchingEngine.Valid, MatchingEngine.View, AfterCall;
    engine := Open();
    for i := 0 to |calls|
      invariant fresh(engine) && fresh(engine.riskEngine) && fresh(engine.riskEngine.circuitBreaker)
      invariant fresh(engine.consumer.cache) && fresh(engine.books.Values)
      invariant engine.Valid() && engine.View() == AfterCalls(calls[..i])
    {
      assert calls[..i + 1][..i] == calls[..i];
      Handle(engine, calls[i]);
    }
    assert calls[..|calls|] == calls;
    Conclude(engine, calls, t);
  }

  lemma Conclude(engine: MatchingEngine, calls: seq<Call>, t: ThreadId)
    requires AllOrders(calls, Unfilled) && engine.Valid() && engine.View() == AfterCalls(calls)
    ensures forall s | s in engine.books :: Uncrossed(engine.books[s].View())
    ensures AllOrders(calls, CarriesPrice) ==>
              forall s | s in engine.books :: Exact(engine.books[s].orderIndex, engine.books[s].View())
  {
    hide AfterCalls, AllOrders, Exact, Uncrossed, Wf, Indexed, RiskEngine.View, CircuitBreaker.View;
    forall s | s in engine.books
      ensures Uncrossed(engine.books[s].View())
      ensures AllOrders(calls, CarriesPrice) ==> Exact(engine.books[s].orderIndex, engine.books[s].View())
    {
      assert engine.View().books[s] == engine.books[s].View() && engine.books[s].Valid();
      SessionKeepsBooks(calls, t, s);
      if AllOrders(calls, CarriesPrice) {
        NothingHiddenIsExact(engine.books[s].orderIndex, engine.books[s].View());
      }
    }
  }

  // ------------------------------------------------------------------
  //  Snapshot totals over the index
  // ------------------------------------------------------------------

  /** What an indexed order contributes to the level of one side and price. */
  function QtyIn(index: map<OrderId, Order>, id: OrderId, side: Side, p: int): int {
    if id in index && index[id].side == side && index[id].price == p then index[id].remaining else 0
  }

  function CountIn(index: map<OrderId, Order>, id: OrderId, side: Side, p: int): int {
    if id in index && index[id].side == side && index[id].price == p then 1 else 0
  }

  /** Adding up a list of distinct orders is adding up over their ids. */
  lemma {:induction false} ListTotals(index: map<OrderId, Order>, s: seq<Order>, side: Side, p: int)
    requires DistinctIds(s) && OnSide(side, s) && forall x | x in s :: x.id in index && index[x.id] == x
    ensures QtyAt(s, p) == Sum(Ids(s), id => QtyIn(index, id, side, p))
    ensures CountAt(s, p) == Sum(Ids(s), id => CountIn(index, id, side, p))
  {
    if s != [] {
      var id := s[0].id;
      assert s[0] in s && forall x | x in s[1..] :: x in s;
      ListTotals(index, s[1..], side, p);
      TailIds(s);
      SumPick(Ids(s), k => QtyIn(index, k, side, p), id);
      SumPick(Ids(s), k => CountIn(index, k, side, p), id);
    }
  }

  lemma TailIds(s: seq<Order>)
    requires s != [] && DistinctIds(s)
    ensures s[0].id in Ids(s) && Ids(s) - {s[0].id} == Ids(s[1..])
  {
    assert s[0] in s;
    forall x | x in s[1..] ensures x in s && x.id != s[0].id {
      var j :| 0 <= j < |s[1..]| && s[1..][j] == x;
      assert s[0].id != s[j + 1].id;
    }
    assert forall x | x in s :: x == s[0] || x in s[1..];
  }

  /** With an exact index, a level's totals are sums over the index. */
  lemma TotalsOverIndex(index: map<OrderId, Order>, b: Book, side: Side, p: int)
    requires Wf(b) && Exact(index, b)
    ensures QtyAt(b.Queue(side), p) == Sum(index.Keys, id => QtyIn(index, id, side, p))
    ensures CountAt(b.Queue(side), p) == Sum(index.Keys, id => CountIn(index, id, side, p))
  {
    var s := b.Queue(side);
    ListTotals(index, s, side, p);
    forall id | id in index.Keys - Ids(s) ensures index[id].side != side {
      var x := index[id];
      assert x in s ==> x.id in Ids(s);
      assert x in b.Queue(side.Opposite());
      var q := b.Queue(side.Opposite());
      var j :| 0 <= j < |q| && q[j] == x;
    }
    SumSuperset(Ids(s), index.Keys, id => QtyIn(index, id, side, p));
    SumSuperset(Ids(s), index.Keys, id => CountIn(index, id, side, p));
  }

  /** So every level of a snapshot shows sums over the index. */
  lemma SnapshotOverIndex(index: map<OrderId, Order>, b: Book, side: Side, depth: int, r: seq<PriceLevel>, k: nat)
    requires Wf(b) && Exact(index, b) && Summarises(side, b.Queue(side), depth, r) && k < |r|
    ensures r[k].totalQuantity == Sum(index.Keys, id => QtyIn(index, id, side, r[k].price))
    ensures r[k].orderCount == Sum(index.Keys, id => CountIn(index, id, side, r[k].price))
  {
    assert TotalsAt(b.Queue(side), r[k]);
    hide Wf, Exact, Summarises;
    TotalsOverIndex(index, b, side, r[k].price);
  }
}
