/** Executions that go beyond the position limit: two orders in flight together, and one
    order at the edge of the 64-bit range. They make the limit's conditions exact. */
module PositionRace {
  import opened Orders
  import opened PriceTime
  import opened Books
  import CircuitBreakers
  import opened Int64
  import opened Risk
  import opened Sums
  import opened EngineModel
  import opened EngineSafety
  import opened EnginePositions
  import opened EngineLimits
  import opened Engines

  function Ask(id: OrderId, account: Account, symbol: Symbol, price: int, quantity: int): Order {
    Create(id, account, symbol, Sell, Limit, price, 0, quantity)
  }

  function Bid(id: OrderId, account: Account, symbol: Symbol, price: int, quantity: int): Order {
    Create(id, account, symbol, Buy, Limit, price, 0, quantity)
  }

  predicate IsAsk(o: Order) {
    && o == Ask(o.id, o.account, o.symbol, o.price, o.quantity)
    && (o.price == 1 || o.price == 2) && 0 < o.quantity <= MAX_POSITION_SHARES
  }

  predicate IsBid(o: Order) {
    && o == Bid(o.id, o.account, o.symbol, o.price, o.quantity)
    && (o.price == 1 || o.price == 2) && 0 < o.quantity <= MAX_POSITION_SHARES
  }

  /** Nothing has traded, and these are the ids and the sellers so far. */
  ghost predicate Untraded(r: RiskState, ids: set<OrderId>, sellers: set<Account>) {
    && r.positions == map[] && r.lastPrices == map[] && r.seen == ids
    && (forall x :: r.Active(Sell, x) != {} ==> x in sellers)
  }

  lemma AskPasses(r: RiskState, ids: set<OrderId>, sellers: set<Account>, o: Order)
    requires Untraded(r, ids, sellers) && o.id !in ids && IsAsk(o) && r.Active(Buy, o.account) == {}
    ensures Judge(r, false, o).Approve?
    ensures Untraded(AfterCheck(r, false, o), ids + {o.id}, sellers + {o.account})
    ensures forall x :: AfterCheck(r, false, o).Active(Buy, x) == r.Active(Buy, x)
  {
    assert Judge(r, false, o).Approve?;
    hide Judge;
  }

  /** As long as nothing has traded, the gate does not mind what is in flight. */
  lemma BidPasses(r: RiskState, ids: set<OrderId>, sellers: set<Account>, o: Order)
    requires Untraded(r, ids, sellers) && o.id !in ids && IsBid(o) && o.account !in sellers
    ensures Judge(r, false, o).Approve?
    ensures Untraded(AfterCheck(r, false, o), ids + {o.id}, sellers)
  {
    assert Judge(r, false, o).Approve?;
    hide Judge;
  }

  lemma FirstAskRests(o: Order)
    requires IsAsk(o)
    ensures Match(EMPTY_BOOK, o) == Outcome(Book([], [o], {}, None), [], o.remaining)
  {
  }

  lemma SecondAskRests(o: Order, first: Order)
    requires IsAsk(o) && IsAsk(first) && o.price == first.price
    ensures Match(Book([], [first], {}, None), o) == Outcome(Book([], [first, o], {}, None), [], o.remaining)
  {
    assert Insert([first], o) == [first, o];
  }

  /** A bid of the size of the first ask takes it and nothing else. */
  lemma BidTakesFirst(o: Order, asks: seq<Order>, last: Option<int>)
    requires IsBid(o) && asks != [] && IsAsk(asks[0]) && o.quantity == asks[0].quantity && o.price == asks[0].price
    ensures Match(Book([], asks, {}, last), o)
         == Outcome(Book([], asks[1..], {}, Some(o.price)), [MakeTrade(o, asks[0], o.price, o.quantity)], 0)
  {
    var t := MakeTrade(o, asks[0], o.price, o.quantity);
    assert Sweep(o, asks[1..], 0, WithinLimit) == Swept([], asks[1..], 0);
    assert [t] + [] == [t];
  }

  /** Recording fills adds their aggressor legs to the positions. */
  lemma {:induction false} FillsAdd(l: Ledger, ts: seq<Trade>, clock: nat -> int, account: Account, symbol: Symbol)
    ensures AfterFills(l, ts, clock).risk.Position(account, symbol)
         == l.risk.Position(account, symbol) + Legs(ts, CacheAggressor, account, symbol)
  {
    if ts != [] {
      var init, t := ts[..|ts| - 1], ts[|ts| - 1];
      FillsAdd(l, init, clock, account, symbol);
      assert ts == init + [t];
      LegsConcat(init, [t], CacheAggressor, account, symbol);
      hide CircuitBreakers.RecordTrade;
    }
  }

  // ------------------------------------------------------------------
  //  Two asks
  // ------------------------------------------------------------------

  /** Two asks of one symbol at one price, by sellers of their own. */
  ghost predicate AreAsks(asks: seq<Order>, symbol: Symbol) {
    && |asks| == 2 && IsAsk(asks[0]) && IsAsk(asks[1]) && asks[0].id != asks[1].id
    && asks[0].symbol == symbol && asks[1].symbol == symbol && asks[0].price == asks[1].price
  }

  function IdsOf(asks: seq<Order>): set<OrderId> {
    set o | o in asks :: o.id
  }

  function AccountsOf(asks: seq<Order>): set<Account> {
    set o | o in asks :: o.account
  }

  ghost predicate AsksRest(e: Engine, symbol: Symbol, asks: seq<Order>) {
    && !e.halted && e.ledger.breaker == CircuitBreakers.CALM
    && e.books == map[symbol := Book([], asks, {}, None)]
    && Untraded(e.ledger.risk, IdsOf(asks), AccountsOf(asks))
  }

  lemma FirstSubmitted(o: Order, clock: nat -> int)
    requires IsAsk(o)
    ensures var r := AfterCheck(NO_RISK, false, o);
            && AfterSubmit(Core(INITIAL), o, clock)
               == Engine(false, LedgerOf(INITIAL).(risk := r), map[o.symbol := Book([], [o], {}, None)])
            && Untraded(r, {o.id}, {o.account}) && forall x :: r.Active(Buy, x) == {}
  {
    AskPasses(NO_RISK, {}, {}, o);
    FirstAskRests(o);
    NoFills(LedgerOf(INITIAL).(risk := AfterCheck(NO_RISK, false, o)), clock);
    assert {} + {o.id} == {o.id} && {} + {o.account} == {o.account};
    hide Judge, AfterCheck, Match, AfterFills, Untraded;
  }

  lemma AsksSubmitted(asks: seq<Order>, symbol: Symbol, clock: nat -> int)
    requires AreAsks(asks, symbol)
    ensures AsksRest(AfterSubmit(AfterSubmit(Core(INITIAL), asks[0], clock), asks[1], clock), symbol, asks)
  {
    var first, second, l := asks[0], asks[1], LedgerOf(INITIAL);
    var r := AfterCheck(NO_RISK, false, first);
    hide Judge, AfterCheck, Match, AfterFills, Untraded;
    FirstSubmitted(first, clock);
    AskPasses(r, {first.id}, {first.account}, second);
    SecondAskRests(second, first);
    NoFills(l.(risk := AfterCheck(r, false, second)), clock);
    assert asks == [first, second];
    assert {first.id} + {second.id} == IdsOf(asks) && {first.account} + {second.account} == AccountsOf(asks);
  }

  lemma AsksRun(t: ThreadId, asks: seq<Order>, symbol: Symbol, clock: nat -> int) returns (events: seq<Event>, s: State)
    requires AreAsks(asks, symbol)
    ensures Play(INITIAL, events) == Some(s) && AsksRest(Core(s), symbol, asks)
    ensures s.stops == map[] && Entering(events) <= {asks[0], asks[1]} && forall v :: s.At(v) == Idle
  {
    hide Play, AfterSubmit, AsksRest, Entering;
    AsksSubmitted(asks, symbol, clock);
    var events1, s1 := SubmitIsARun(INITIAL, t, asks[0], clock);
    var events2, s2 := SubmitIsARun(s1, t, asks[1], clock);
    PlayConcat(INITIAL, events1, s1, events2);
    EnteringConcat(events1, events2);
    events, s := events1 + events2, s2;
  }

  // ------------------------------------------------------------------
  //  Two bids in flight together
  // ------------------------------------------------------------------

  /** Two bids of one account that did not sell, each of the size of one ask. */
  ghost predicate AreBids(bids: seq<Order>, asks: seq<Order>, symbol: Symbol) {
    && AreAsks(asks, symbol) && |bids| == 2 && IsBid(bids[0]) && IsBid(bids[1])
    && bids[0].id != bids[1].id && bids[0].id !in IdsOf(asks) && bids[1].id !in IdsOf(asks)
    && bids[1].account == bids[0].account && bids[0].account !in AccountsOf(asks)
    && bids[0].symbol == symbol && bids[1].symbol == symbol
    && bids[0].price == bids[1].price == asks[0].price
    && bids[0].quantity == asks[0].quantity && bids[1].quantity == asks[1].quantity
  }

  lemma BidsPass(s: State, symbol: Symbol, asks: seq<Order>, t: ThreadId, u: ThreadId, bids: seq<Order>)
    returns (events: seq<Event>, s': State)
    requires AreBids(bids, asks, symbol) && AsksRest(Core(s), symbol, asks) && t != u
    requires s.stops == map[] && forall v :: s.At(v) == Idle
    ensures Play(s, events) == Some(s') && s'.stops == map[] && s'.books == s.books
    ensures s'.At(t) == Approved(bids[0]) && s'.At(u) == Approved(bids[1])
    ensures s'.risk.positions == map[] && Entering(events) == {bids[0], bids[1]}
  {
    var sellers := AccountsOf(asks);
    BidPasses(s.risk, IdsOf(asks), sellers, bids[0]);
    BidPasses(AfterCheck(s.risk, false, bids[0]), IdsOf(asks) + {bids[0].id}, sellers, bids[1]);
    assert AfterCheck(AfterCheck(s.risk, false, bids[0]), false, bids[1]).positions == map[];
    hide Play, Judge, AfterCheck, Untraded, IdsOf, AccountsOf, Entering;
    var events1, s1 := GateSteps(s, t, bids[0]);
    var events2, s2 := GateSteps(s1, u, bids[1]);
    PlayConcat(s, events1, s1, events2);
    EnteringConcat(events1, events2);
    events, s' := events1 + events2, s2;
  }

  lemma FillAdds(l: Ledger, o: Order, passive: Order, clock: nat -> int)
    requires IsBid(o)
    ensures AfterFills(l, [MakeTrade(o, passive, o.price, o.quantity)], clock).risk.Position(o.account, o.symbol)
         == l.risk.Position(o.account, o.symbol) + o.quantity
  {
    FillsAdd(l, [MakeTrade(o, passive, o.price, o.quantity)], clock, o.account, o.symbol);
  }

  /** Each of two orders in flight together passes the gate, and the recorded position
      ends at their sum. */
  lemma BothAreRecorded(t: ThreadId, u: ThreadId, symbol: Symbol, asks: seq<Order>, bids: seq<Order>, clock: nat -> int)
    returns (events: seq<Event>, s: State)
    requires AreBids(bids, asks, symbol) && t != u
    ensures Play(INITIAL, events) == Some(s)
    ensures s.risk.Position(bids[0].account, symbol) == bids[0].quantity + bids[1].quantity
    ensures Entering(events) <= {asks[0], asks[1], bids[0], bids[1]}
  {
    hide Play, Match, AfterFills, IdsOf, AccountsOf, Untraded, Entering;
    var events1, s1 := AsksRun(t, asks, symbol, clock);
    var events2, s2 := BidsPass(s1, symbol, asks, t, u, bids);
    PlayConcat(INITIAL, events1, s1, events2);
    EnteringConcat(events1, events2);
    BidTakesFirst(bids[0], asks, None);
    FillAdds(LedgerOf(s2), bids[0], asks[0], clock);
    var events3, s3 := MatchSteps(INITIAL, events1 + events2, s2, t, clock);
    BidTakesFirst(bids[1], asks[1..], Some(bids[0].price));
    FillAdds(LedgerOf(s3), bids[1], asks[1], clock);
    events, s := MatchSteps(INITIAL, events3, s3, u, clock);
  }

  /** The only orders of the account for the symbol are these two. */
  predicate OneOfTwo(o: Order, account: Account, symbol: Symbol, id1: OrderId, q1: int, id2: OrderId, q2: int) {
    o.account == account && o.symbol == symbol ==> (o.id == id1 && o.quantity == q1) || (o.id == id2 && o.quantity == q2)
  }

  /** However they overlap, with each other and with anybody else's orders, two orders of
      these quantities stay within the limit. */
  ghost predicate OverlapIsSafe(account: Account, symbol: Symbol, id1: OrderId, q1: int, id2: OrderId, q2: int) {
    forall states: seq<State>, events: seq<Event>, i: nat
      | Execution(states, events) && i < |states|
        && AllSubmitted(events, o => OneOfTwo(o, account, symbol, id1, q1, id2, q2)) ::
      -10_000 <= states[i].risk.Position(account, symbol) <= 10_000
  }

  lemma TwoCommit(s: State, account: Account, symbol: Symbol, id1: OrderId, q1: int, id2: OrderId, q2: int)
    requires Inv(s) && id1 != id2 && q1 > 0 && q2 > 0
    requires AllWithin(s, o => OneOfTwo(o, account, symbol, id1, q1, id2, q2))
    ensures Committed(s, account, symbol, s.approved.Keys) <= q1 + q2
  {
    var f := id => Weight(s, id, account, symbol);
    var all, two := s.approved.Keys + {id1, id2}, {id1, id2};
    forall id | id in all ensures id !in two ==> f(id) == 0 {
      if id in s.approved { assert Vouched(s, id); }
    }
    forall id | id in two ensures 0 <= f(id) <= if id == id1 then q1 else q2 {
      if id in s.approved { assert Vouched(s, id); }
    }
    SumSuperset(s.approved.Keys, all, f);
    SumSuperset(two, all, f);
    SumPick(two, f, id1);
    SumPick(two - {id1}, f, id2);
    SumZero(two - {id1} - {id2}, f);
  }

  lemma TwoAreSafe(states: seq<State>, events: seq<Event>, i: nat, account: Account, symbol: Symbol,
                   id1: OrderId, q1: int, id2: OrderId, q2: int)
    requires Execution(states, events) && i < |states| && id1 != id2 && q1 > 0 && q2 > 0
    requires AllSubmitted(events, o => OneOfTwo(o, account, symbol, id1, q1, id2, q2))
    ensures Abs(states[i].risk.Position(account, symbol)) <= q1 + q2
  {
    AlwaysInv(states, events, i);
    AlwaysWithin(states, events, i, o => OneOfTwo(o, account, symbol, id1, q1, id2, q2));
    PositionWithinCommitment(states, events, i, account, symbol);
    TwoCommit(states[i], account, symbol, id1, q1, id2, q2);
  }

  /** Two overlapping orders are always safe exactly when they fit together. The asks and
      threads are what the failing execution is made of. */
  lemma OverlapExactly(bids: seq<Order>, asks: seq<Order>, symbol: Symbol, t: ThreadId, u: ThreadId, clock: nat -> int)
    requires AreBids(bids, asks, symbol) && t != u
    ensures OverlapIsSafe(bids[0].account, symbol, bids[0].id, bids[0].quantity, bids[1].id, bids[1].quantity)
       <==> bids[0].quantity + bids[1].quantity <= 10_000
  {
    var account, id1, q1, id2, q2 := bids[0].account, bids[0].id, bids[0].quantity, bids[1].id, bids[1].quantity;
    if q1 + q2 <= MAX_POSITION_SHARES {
      forall states: seq<State>, events: seq<Event>, i: nat
        | Execution(states, events) && i < |states|
          && AllSubmitted(events, o => OneOfTwo(o, account, symbol, id1, q1, id2, q2))
        ensures -10_000 <= states[i].risk.Position(account, symbol) <= 10_000
      {
        TwoAreSafe(states, events, i, account, symbol, id1, q1, id2, q2);
      }
    } else {
      var events, s := BothAreRecorded(t, u, symbol, asks, bids, clock);
      var states := PlayIsExecution(events, s);
      OnlyTwoEnter(events, asks, bids, symbol);
      assert states[|events|].risk.Position(account, symbol) > MAX_POSITION_SHARES;
    }
  }

  lemma OnlyTwoEnter(events: seq<Event>, asks: seq<Order>, bids: seq<Order>, symbol: Symbol)
    requires AreBids(bids, asks, symbol) && Entering(events) <= {asks[0], asks[1], bids[0], bids[1]}
    ensures AllSubmitted(events, o => OneOfTwo(o, bids[0].account, symbol,
              bids[0].id, bids[0].quantity, bids[1].id, bids[1].quantity))
  {
    forall i | 0 <= i < |events| && events[i].Submit?
      ensures OneOfTwo(events[i].order, bids[0].account, symbol,
                       bids[0].id, bids[0].quantity, bids[1].id, bids[1].quantity)
    {
      assert events[i].order in Entering(events);
      assert asks[0].account in AccountsOf(asks) && asks[1].account in AccountsOf(asks);
    }
  }

  // ------------------------------------------------------------------
  //  One order at the edge
  // ------------------------------------------------------------------

  /** Two whole asks at price two, a bid for one share, and then one for as many as
      64 bits can say. */
  ghost predicate AreEdge(asks: seq<Order>, one: Order, edge: Order, symbol: Symbol) {
    && AreAsks(asks, symbol) && asks[0].price == 2
    && asks[0].quantity == MAX_POSITION_SHARES && asks[1].quantity == MAX_POSITION_SHARES
    && one == Bid(one.id, one.account, symbol, 2, 1) && edge == Bid(edge.id, one.account, symbol, 2, MAX64)
    && one.id != edge.id && one.id !in IdsOf(asks) && edge.id !in IdsOf(asks) && one.account !in AccountsOf(asks)
  }

  lemma OneIsTaken(o: Order, asks: seq<Order>, symbol: Symbol)
    requires AreAsks(asks, symbol) && asks[0].price == 2 && asks[0].quantity == MAX_POSITION_SHARES
    requires o == Bid(o.id, o.account, symbol, 2, 1)
    ensures Match(Book([], asks, {}, None), o)
         == Outcome(Book([], [asks[0].WithRemaining(MAX_POSITION_SHARES - 1), asks[1]], {}, Some(2)),
                    [MakeTrade(o, asks[0], 2, 1)], 0)
  {
    assert asks[1..] == [asks[1]];
  }

  lemma AllIsTaken(o: Order, first: Order, second: Order)
    requires IsAsk(second) && second.price == 2 && second.quantity == MAX_POSITION_SHARES
    requires first.price == 2 && first.remaining == MAX_POSITION_SHARES - 1
    requires o == Bid(o.id, o.account, o.symbol, 2, MAX64)
    ensures Match(Book([], [first, second], {}, Some(2)), o).trades
         == [MakeTrade(o, first, 2, MAX_POSITION_SHARES - 1), MakeTrade(o, second, 2, MAX_POSITION_SHARES)]
  {
    var q := MAX64 - (MAX_POSITION_SHARES - 1);
    assert [first, second][1..] == [second] && [second][1..] == [];
    assert Sweep(o, [], q - MAX_POSITION_SHARES, WithinLimit) == Swept([], [], q - MAX_POSITION_SHARES);
    assert Sweep(o, [second], q, WithinLimit).trades == [MakeTrade(o, second, 2, MAX_POSITION_SHARES)];
  }

  /** The largest quantity passes from a position of one: the sum is 2^63. */
  lemma EdgePasses(r: RiskState, o: Order)
    requires o == Bid(o.id, o.account, o.symbol, 2, MAX64) && o.id !in r.seen && r.Active(Sell, o.account) == {}
    requires r.Position(o.account, o.symbol) == 1 && o.symbol in r.lastPrices && r.lastPrices[o.symbol] == 2
    ensures AtEdge(r, o) && Judge(r, false, o).Approve?
  {
    WrapsOnce(2 * MAX64);
    WrapsOnce(MAX64 + 1);
    assert !Objects(r, false, o, PositionLimitExceeded);
    assert !Objects(r, false, o, NotionalLimitExceeded);
    assert !Objects(r, false, o, FatFingerPriceDeviation);
    assert !Objects(r, false, o, SelfTradePrevention);
  }

  ghost predicate OneHeld(e: Engine, asks: seq<Order>, one: Order, symbol: Symbol)
    requires |asks| == 2
  {
    var r := e.ledger.risk;
    && !e.halted && !e.Halts(symbol)
    && e.books == map[symbol := Book([], [asks[0].WithRemaining(MAX_POSITION_SHARES - 1), asks[1]], {}, Some(2))]
    && r.seen == IdsOf(asks) + {one.id} && r.Active(Sell, one.account) == {}
    && r.Position(one.account, symbol) == 1 && symbol in r.lastPrices && r.lastPrices[symbol] == 2
  }

  lemma OneSubmitted(e: Engine, asks: seq<Order>, one: Order, edge: Order, symbol: Symbol, clock: nat -> int)
    requires AsksRest(e, symbol, asks) && AreEdge(asks, one, edge, symbol)
    ensures OneHeld(AfterSubmit(e, one, clock), asks, one, symbol)
  {
    BidPasses(e.ledger.risk, IdsOf(asks), AccountsOf(asks), one);
    OneIsTaken(one, asks, symbol);
    var l, t := AfterGate(e.ledger, one), MakeTrade(one, asks[0], 2, 1);
    assert [t][..0] == [];
    assert AfterFills(l, [t], clock) == AfterFill(l, t, clock(0));
    hide Judge, AfterCheck, Match, AfterFills, IdsOf, AccountsOf;
  }

  lemma EdgeSubmitted(e: Engine, asks: seq<Order>, one: Order, edge: Order, symbol: Symbol, clock: nat -> int)
    requires AreEdge(asks, one, edge, symbol) && OneHeld(e, asks, one, symbol)
    ensures AtEdge(e.ledger.risk, edge) && Admits(e, edge)
    ensures AfterSubmit(e, edge, clock).ledger.risk.Position(one.account, symbol) == 2 * MAX_POSITION_SHARES
  {
    var first, second := asks[0].WithRemaining(MAX_POSITION_SHARES - 1), asks[1];
    hide Judge, AfterCheck, Match, AfterFills, Legs, IdsOf, AccountsOf;
    EdgePasses(e.ledger.risk, edge);
    AllIsTaken(edge, first, second);
    CheckKeepsPositions(e.ledger.risk, false, edge);
    var t1, t2 := MakeTrade(edge, first, 2, MAX_POSITION_SHARES - 1), MakeTrade(edge, second, 2, MAX_POSITION_SHARES);
    FillsAdd(AfterGate(e.ledger, edge), [t1, t2], clock, one.account, symbol);
    TwoLegs(t1, t2, one.account, symbol);
  }

  lemma TwoLegs(t1: Trade, t2: Trade, account: Account, symbol: Symbol)
    ensures Legs([t1, t2], CacheAggressor, account, symbol)
         == CacheChange(t1, CacheAggressor, account, symbol) + CacheChange(t2, CacheAggressor, account, symbol)
  {
    assert [t1, t2][1..] == [t2] && Legs([t2][1..], CacheAggressor, account, symbol) == 0;
  }

  /** With one thread and one order at a time: from a position of one, an order at the
      edge passes, is over the notional limit, and takes the position to twice its own. */
  lemma LimitsFailAtEdge(t: ThreadId, symbol: Symbol, asks: seq<Order>, one: Order, edge: Order, clock: nat -> int)
    returns (events: seq<Event>, s: State)
    requires AreEdge(asks, one, edge, symbol)
    ensures Play(INITIAL, events) == Some(s) && Entering(events) <= {asks[0], asks[1], one, edge}
    ensures s.risk.Position(one.account, symbol) == 20_000
    ensures edge.price * edge.quantity > 5_000_000 * 100_000_000
  {
    hide Play, AfterSubmit, AsksRest, OneHeld, Entering, IdsOf, AccountsOf;
    var events1, s1 := AsksRun(t, asks, symbol, clock);
    OneSubmitted(Core(s1), asks, one, edge, symbol, clock);
    var events2, s2 := SubmitIsARun(s1, t, one, clock);
    EdgeSubmitted(Core(s2), asks, one, edge, symbol, clock);
    var events3, s3 := SubmitIsARun(s2, t, edge, clock);
    PlayConcat(INITIAL, events1, s1, events2);
    EnteringConcat(events1, events2);
    PlayConcat(INITIAL, events1 + events2, s2, events3);
    EnteringConcat(events1 + events2, events3);
    events, s := events1 + events2 + events3, s3;
  }
}
