/** What the risk gate's limits are worth in every execution: the recorded position
    against the orders approved and in flight, and the notional of an approved order. */
module EngineLimits {
  import opened Orders
  import opened PriceTime
  import opened Books
  import opened BookLaws
  import CircuitBreakers
  import opened Int64
  import opened Risk
  import opened Sums
  import opened EngineModel
  import opened EngineSafety
  import opened EnginePositions

  // ------------------------------------------------------------------
  //  What is in flight
  // ------------------------------------------------------------------

  /** What a thread may still add to the recorded position of its order's account. */
  function Outstanding(p: Phase): int {
    match p
    case Approved(o) => Max(0, o.quantity)
    case Recording(_, _, _) => Volume(Awaiting(p, RecordPosition))
    case _ => 0
  }

  predicate InFlight(p: Phase, account: Account, symbol: Symbol) {
    (p.Approved? || p.Recording?) && p.order.account == account && p.order.symbol == symbol
  }

  function Load(p: Phase, account: Account, symbol: Symbol): int {
    if InFlight(p, account, symbol) then Outstanding(p) else 0
  }

  /** The trades a thread records are its own order's. */
  ghost predicate OwnTrades(p: Phase) {
    p.Recording? ==> p.trades != [] && forall i | 0 <= i < |p.trades| ::
      && p.trades[i].quantity > 0 && p.trades[i].aggressorSide == p.order.side
      && p.trades[i].aggressorAccount == p.order.account && p.trades[i].symbol == p.order.symbol
  }

  ghost predicate OwnedBy(s: State, p: Phase) {
    OwnTrades(p) && (p.Recording? ==> p.order.id in s.approved && s.approved[p.order.id] == p.order)
  }

  ghost predicate Owned(s: State) {
    forall t | t in s.threads :: OwnedBy(s, s.threads[t])
  }

  /** Every approved order of the account is on this side. */
  ghost predicate OnSide(s: State, account: Account, side: Side) {
    forall id | id in s.approved && s.approved[id].account == account :: s.approved[id].side == side
  }

  /** An order leaves the gate in this step. */
  predicate Approves(s: State, e: Event) {
    && e.Check? && s.At(e.t).Admitted?
    && var o := s.At(e.t).order;
       Judge(s.risk, CircuitBreakers.IsHalted(s.breaker, o.symbol), o).Approve?
  }

  /** What the step adds to the orders in flight of one account and symbol. */
  function Gain(s: State, e: Event, account: Account, symbol: Symbol): int {
    if Approves(s, e) && s.At(e.t).order.account == account && s.At(e.t).order.symbol == symbol
    then Max(0, s.At(e.t).order.quantity) else 0
  }

  /** The recorded position, counted in the direction of `side`, and everything in
      flight on top of it. */
  ghost function Demand(s: State, side: Side, account: Account, symbol: Symbol, threads: set<ThreadId>): int {
    side.Signed(s.risk.Position(account, symbol)) + Sum(threads, t => Load(s.At(t), account, symbol))
  }

  lemma {:induction false} VolumeNonNegative(ts: seq<Trade>)
    requires forall i | 0 <= i < |ts| :: ts[i].quantity > 0
    ensures Volume(ts) >= 0
  {
    if ts != [] { VolumeNonNegative(ts[1..]); }
  }

  lemma LoadNonNegative(p: Phase, account: Account, symbol: Symbol)
    requires OwnTrades(p)
    ensures Load(p, account, symbol) >= 0
  {
    if p.Recording? {
      VolumeNonNegative(p.trades);
      VolumeNonNegative(p.trades[1..]);
    }
  }

  // ------------------------------------------------------------------
  //  Each step
  // ------------------------------------------------------------------

  /** A step that leaves positions alone and changes the load of thread `t` only. */
  lemma MoveDemand(s: State, s': State, t: ThreadId, side: Side, account: Account, symbol: Symbol, threads: set<ThreadId>)
    requires s'.risk.positions == s.risk.positions && t in threads
    requires forall u | u != t :: s'.At(u) == s.At(u)
    ensures s'.risk.Position(account, symbol) == s.risk.Position(account, symbol)
    ensures Demand(s', side, account, symbol, threads) - Demand(s, side, account, symbol, threads)
         == Load(s'.At(t), account, symbol) - Load(s.At(t), account, symbol)
  {
    hide Load;
    SumChange(threads, u => Load(s.At(u), account, symbol), u => Load(s'.At(u), account, symbol), t);
  }

  lemma StillDemand(s: State, s': State, side: Side, account: Account, symbol: Symbol, threads: set<ThreadId>)
    requires Standstill(s, s')
    ensures s'.risk.Position(account, symbol) == s.risk.Position(account, symbol)
    ensures Demand(s', side, account, symbol, threads) == Demand(s, side, account, symbol, threads)
  {
    hide Load;
    SumSame(threads, u => Load(s.At(u), account, symbol), u => Load(s'.At(u), account, symbol));
  }

  /** Recording moves a fill from what is in flight to the position. */
  lemma LoadAfterRecord(p: Phase, side: Side, account: Account, symbol: Symbol)
    requires p.Recording? && OwnTrades(p) && (p.order.account == account ==> p.order.side == side)
    ensures var d := side.Signed(PositionChange(p.trades[0], p.stage, account, symbol));
            d >= 0 && Load(NextPhase(p), account, symbol) == Load(p, account, symbol) - d
  {
  }

  lemma RecordDemand(s: State, t: ThreadId, now: int, side: Side, account: Account, symbol: Symbol, threads: set<ThreadId>)
    requires s.At(t).Recording? && OwnTrades(s.At(t)) && t in threads
    requires s.At(t).order.account == account ==> s.At(t).order.side == side
    ensures var s' := RecordStep(s, t, now);
            && side.Signed(s'.risk.Position(account, symbol)) >= side.Signed(s.risk.Position(account, symbol))
            && Demand(s', side, account, symbol, threads) == Demand(s, side, account, symbol, threads)
  {
    var s', p := RecordStep(s, t, now), s.At(t);
    ConsumeEffect(s, p.trades[0], p.stage, now, account, symbol);
    RecordShape(s, t, now);
    LoadAfterRecord(p, side, account, symbol);
    hide Consume, NextPhase, PositionChange, Load, OwnTrades;
    SumChange(threads, u => Load(s.At(u), account, symbol), u => Load(s'.At(u), account, symbol), t);
  }

  lemma MatchedTradesAreOwn(b: Book, o: Order)
    requires Wf(b) && Unfilled(o)
    ensures var trades := Match(b, o).trades;
            && 0 <= Volume(trades) <= Max(0, o.quantity)
            && (trades != [] ==> OwnTrades(Recording(o, trades, CacheAggressor)))
  {
    MatchFillsIncoming(b, o);
    var trades := Match(b, o).trades;
    forall i | 0 <= i < |trades|
      ensures trades[i].quantity > 0 && trades[i].aggressorSide == o.side
      ensures trades[i].aggressorAccount == o.account && trades[i].symbol == o.symbol
    {
      TradeParties(b, o, i);
    }
  }

  /** A match fills at most what was wanted. */
  lemma MatchLoad(s: State, t: ThreadId, account: Account, symbol: Symbol)
    requires Inv(s) && s.At(t).Approved?
    ensures var s' := MatchStep(s, t);
            && Load(s'.At(t), account, symbol) <= Load(s.At(t), account, symbol)
            && OwnedBy(s', s'.At(t))
  {
    var o := s.At(t).order;
    assert Waits(s, o) && Vouched(s, o.id);
    BookIsOk(s, o.symbol);
    hide Match, Inv, Wf;
    MatchedTradesAreOwn(s.BookOf(o.symbol), o);
  }

  lemma CheckLoad(s: State, t: ThreadId, account: Account, symbol: Symbol)
    requires s.At(t).Admitted?
    ensures Load(CheckStep(s, t).At(t), account, symbol) == Gain(s, Check(t), account, symbol)
    ensures !CheckStep(s, t).At(t).Recording?
  {
    hide Judge, AfterCheck;
  }

  /** No step takes a position back, and only an approval adds to the demand. */
  lemma StepDemand(s: State, e: Event, side: Side, account: Account, symbol: Symbol, threads: set<ThreadId>)
    requires Inv(s) && Owned(s) && Enabled(s, e) && Next(s, e).threads.Keys <= threads && OnSide(s, account, side)
    ensures var s' := Next(s, e);
            && side.Signed(s'.risk.Position(account, symbol)) >= side.Signed(s.risk.Position(account, symbol))
            && Demand(s', side, account, symbol, threads)
               <= Demand(s, side, account, symbol, threads) + Gain(s, e, account, symbol)
  {
    hide Inv, CheckStep, MatchStep, RecordStep, StopStep, Cancel, Demand, Judge;
    if e.Record? {
      assert OwnedBy(s, s.At(e.t));
      RecordShape(s, e.t, e.now);
      RecordDemand(s, e.t, e.now, side, account, symbol, threads);
    } else {
      OtherShape(s, e);
      var s' := Next(s, e);
      if Standstill(s, s') {
        StillDemand(s, s', side, account, symbol, threads);
      } else {
        MoveDemand(s, s', e.t, side, account, symbol, threads);
        OtherLoad(s, e, account, symbol);
      }
    }
  }

  lemma OtherLoad(s: State, e: Event, account: Account, symbol: Symbol)
    requires Inv(s) && Enabled(s, e) && (e.Submit? || e.Check? || e.DoMatch? || e.CheckStops?)
    ensures Load(Next(s, e).At(e.t), account, symbol) <= Load(s.At(e.t), account, symbol) + Gain(s, e, account, symbol)
  {
    hide Inv, CheckStep, MatchStep, Judge;
    if e.Check? {
      CheckLoad(s, e.t, account, symbol);
    } else if e.DoMatch? {
      MatchLoad(s, e.t, account, symbol);
    } else if e.CheckStops? {
      hide MatchAll, Fired, Unfired;
    }
  }

  /** The approved orders grow by what leaves the gate, under a new id. */
  lemma ApprovedStep(s: State, e: Event)
    requires Inv(s) && Enabled(s, e)
    ensures var s' := Next(s, e);
            if Approves(s, e) then s'.approved == s.approved[s.At(e.t).order.id := s.At(e.t).order]
                                   && s.At(e.t).order.id !in s.approved
            else s'.approved == s.approved
  {
    if e.Check? {
      CheckApproves(s, e.t);
    } else if e.Record? {
      hide RecordStep;
      RecordShape(s, e.t, e.now);
    } else {
      hide Match, MatchAll, Fired, Unfired, Cancel;
    }
  }

  lemma CheckApproves(s: State, t: ThreadId)
    requires Inv(s) && s.At(t).Admitted?
    ensures var o, s' := s.At(t).order, CheckStep(s, t);
            if Approves(s, Check(t)) then s'.approved == s.approved[o.id := o] && o.id !in s.approved
            else s'.approved == s.approved
  {
    var o := s.At(t).order;
    var halted := CircuitBreakers.IsHalted(s.breaker, o.symbol);
    if Judge(s.risk, halted, o).Approve? {
      ApprovedIsOneSided(s.risk, halted, o);
      UnseenIsUnapproved(s, o.id);
    }
    hide Judge, AfterCheck, Inv;
  }

  ghost predicate Grows(s: State, s': State) {
    forall id | id in s.approved :: id in s'.approved && s'.approved[id] == s.approved[id]
  }

  lemma MoveKeepsOwned(s: State, s': State, t: ThreadId)
    requires Owned(s) && Grows(s, s') && OwnedBy(s', s'.At(t))
    requires s'.threads == s.threads || s'.threads == s.threads[t := s'.At(t)]
    ensures Owned(s')
  {
    forall u | u in s'.threads ensures OwnedBy(s', s'.threads[u]) {
      if u in s.threads { assert OwnedBy(s, s.threads[u]); }
    }
  }

  lemma StillKeepsOwned(s: State, s': State)
    requires Owned(s) && Grows(s, s') && s'.threads == s.threads
    ensures Owned(s')
  {
    hide OwnTrades;
    forall u | u in s'.threads ensures OwnedBy(s', s'.threads[u]) {
      assert OwnedBy(s, s.threads[u]);
    }
  }

  lemma RecordKeepsOwned(s: State, t: ThreadId)
    requires s.At(t).Recording? && OwnedBy(s, s.At(t))
    ensures OwnedBy(s, NextPhase(s.At(t)))
  {
  }

  lemma StepKeepsOwned(s: State, e: Event)
    requires Inv(s) && Owned(s) && Enabled(s, e)
    ensures Owned(Next(s, e)) && Grows(s, Next(s, e))
  {
    var s' := Next(s, e);
    ApprovedStep(s, e);
    hide Inv, CheckStep, MatchStep, RecordStep, StopStep, Cancel, Approves;
    assert Grows(s, s');
    if e.Record? {
      assert OwnedBy(s, s.At(e.t));
      RecordShape(s, e.t, e.now);
      RecordKeepsOwned(s, e.t);
      hide OwnTrades, Next;
      MoveKeepsOwned(s, s', e.t);
    } else {
      OtherShape(s, e);
      if Standstill(s, s') {
        StillKeepsOwned(s, s');
      } else {
        OtherOwned(s, e);
        hide OwnTrades, Next;
        MoveKeepsOwned(s, s', e.t);
      }
    }
  }

  lemma OtherOwned(s: State, e: Event)
    requires Inv(s) && Enabled(s, e) && (e.Submit? || e.Check? || e.DoMatch? || e.CheckStops?)
    requires Sidestep(s, Next(s, e), e.t)
    ensures OwnedBy(Next(s, e), Next(s, e).At(e.t))
  {
    hide Inv, CheckStep, MatchStep, Judge, Sidestep;
    if e.Check? {
      CheckLoad(s, e.t, s.At(e.t).order.account, s.At(e.t).order.symbol);
    } else if e.DoMatch? {
      MatchLoad(s, e.t, s.At(e.t).order.account, s.At(e.t).order.symbol);
    } else if e.CheckStops? {
      hide MatchAll, Fired, Unfired;
    }
  }

  lemma SideCarriesBack(s: State, s': State, account: Account, side: Side)
    requires Grows(s, s') && OnSide(s', account, side)
    ensures OnSide(s, account, side)
  {
  }

  // ------------------------------------------------------------------
  //  Positions and commitments
  // ------------------------------------------------------------------

  function Weight(s: State, id: OrderId, account: Account, symbol: Symbol): int {
    if id in s.approved && s.approved[id].account == account && s.approved[id].symbol == symbol
    then Max(0, s.approved[id].quantity) else 0
  }

  /** Everything ever approved for one account and symbol. */
  ghost function Committed(s: State, account: Account, symbol: Symbol, ids: set<OrderId>): int {
    Sum(ids, id => Weight(s, id, account, symbol))
  }

  lemma StepCommitted(s: State, e: Event, account: Account, symbol: Symbol, ids: set<OrderId>)
    requires Inv(s) && Enabled(s, e) && Next(s, e).approved.Keys <= ids
    ensures Committed(Next(s, e), account, symbol, ids) == Committed(s, account, symbol, ids) + Gain(s, e, account, symbol)
  {
    var s' := Next(s, e);
    ApprovedStep(s, e);
    hide Inv, Next, Approves;
    if Approves(s, e) {
      var id := s.At(e.t).order.id;
      assert id in s'.approved && Weight(s, id, account, symbol) == 0;
      assert Weight(s', id, account, symbol) == Gain(s, e, account, symbol);
      assert forall k | k != id :: Weight(s', k, account, symbol) == Weight(s, k, account, symbol);
      hide Weight, Gain;
      SumChange(ids, k => Weight(s, k, account, symbol), k => Weight(s', k, account, symbol), id);
    } else {
      SumSame(ids, k => Weight(s, k, account, symbol), k => Weight(s', k, account, symbol));
    }
  }

  /** A position never turns against its account's side, and together with what is in
      flight it never exceeds what was approved. */
  lemma {:induction false} AlwaysCommitted(states: seq<State>, events: seq<Event>, i: nat, side: Side, account: Account,
                                           symbol: Symbol, threads: set<ThreadId>, ids: set<OrderId>)
    requires Execution(states, events) && i < |states| && OnSide(states[i], account, side)
    requires states[i].threads.Keys <= threads && states[i].approved.Keys <= ids
    ensures Owned(states[i]) && side.Signed(states[i].risk.Position(account, symbol)) >= 0
    ensures Demand(states[i], side, account, symbol, threads) <= Committed(states[i], account, symbol, ids)
  {
    if i == 0 {
      SumZero(threads, t => Load(INITIAL.At(t), account, symbol));
      SumZero(ids, id => Weight(INITIAL, id, account, symbol));
    } else {
      StepOf(states, events, i - 1);
      var s, e := states[i - 1], events[i - 1];
      AlwaysOwned(states, events, i - 1);
      AlwaysInv(states, events, i - 1);
      hide Execution, Next, Enabled, Inv, Owned, Demand, Committed, Gain;
      StepKeepsOwned(s, e);
      SideCarriesBack(s, states[i], account, side);
      ThreadsGrow(s, e);
      AlwaysCommitted(states, events, i - 1, side, account, symbol, threads, ids);
      StepDemand(s, e, side, account, symbol, threads);
      StepCommitted(s, e, account, symbol, ids);
    }
  }

  lemma {:induction false} AlwaysOwned(states: seq<State>, events: seq<Event>, i: nat)
    requires Execution(states, events) && i < |states|
    ensures Owned(states[i])
  {
    if i > 0 {
      AlwaysOwned(states, events, i - 1);
      AlwaysInv(states, events, i - 1);
      StepOf(states, events, i - 1);
      hide Execution, Next, Enabled, Inv, Owned;
      StepKeepsOwned(states[i - 1], events[i - 1]);
    }
  }

  /** The side an account is on. */
  lemma SideOf(s: State, account: Account) returns (side: Side)
    requires Inv(s)
    ensures OnSide(s, account, side)
  {
    if id :| id in s.approved && s.approved[id].account == account {
      side := s.approved[id].side;
      assert Vouched(s, id);
      forall k | k in s.approved && s.approved[k].account == account ensures s.approved[k].side == side {
        assert Vouched(s, k);
        assert s.risk.Active(Buy, account) == {} || s.risk.Active(Sell, account) == {};
      }
    } else {
      side := Buy;
    }
  }

  lemma DemandCoversPosition(s: State, side: Side, account: Account, symbol: Symbol, threads: set<ThreadId>)
    requires Owned(s)
    ensures side.Signed(s.risk.Position(account, symbol)) <= Demand(s, side, account, symbol, threads)
  {
    forall t | t in threads ensures Load(s.At(t), account, symbol) >= 0 {
      if t in s.threads { assert OwnedBy(s, s.threads[t]); }
      LoadNonNegative(s.At(t), account, symbol);
    }
    hide Load;
    SumNonNegative(threads, t => Load(s.At(t), account, symbol));
  }

  /** In every execution, a recorded position is at most what was approved. */
  lemma PositionWithinCommitment(states: seq<State>, events: seq<Event>, i: nat, account: Account, symbol: Symbol)
    requires Execution(states, events) && i < |states|
    ensures Abs(states[i].risk.Position(account, symbol))
            <= Committed(states[i], account, symbol, states[i].approved.Keys)
  {
    AlwaysInv(states, events, i);
    var s := states[i];
    var side := SideOf(s, account);
    hide Execution, Inv, Demand, Committed;
    AlwaysCommitted(states, events, i, side, account, symbol, s.threads.Keys, s.approved.Keys);
    DemandCoversPosition(s, side, account, symbol, s.threads.Keys);
  }

  // ------------------------------------------------------------------
  //  The position limit
  // ------------------------------------------------------------------

  /** The position of an order's account once everything in flight has been recorded. */
  ghost function DemandFor(s: State, o: Order): int {
    Demand(s, o.side, o.account, o.symbol, s.threads.Keys)
  }

  /** The first `n` steps approve nothing that would, with everything in flight, lead
      beyond the limit. */
  ghost predicate Prudent(states: seq<State>, events: seq<Event>, n: nat)
    requires Execution(states, events) && n <= |events|
  {
    forall j | 0 <= j < n && Approves(states[j], events[j]) ::
      DemandFor(states[j + 1], states[j].At(events[j].t).order) <= 10_000
  }

  lemma DemandCover(s: State, side: Side, account: Account, symbol: Symbol, threads: set<ThreadId>)
    requires s.threads.Keys <= threads
    ensures Demand(s, side, account, symbol, threads) == Demand(s, side, account, symbol, s.threads.Keys)
  {
    SumSuperset(s.threads.Keys, threads, t => Load(s.At(t), account, symbol));
  }

  lemma {:induction false} AlwaysRoom(states: seq<State>, events: seq<Event>, i: nat, side: Side, account: Account,
                                      symbol: Symbol, threads: set<ThreadId>)
    requires Execution(states, events) && i < |states| && Prudent(states, events, i)
    requires OnSide(states[i], account, side) && states[i].threads.Keys <= threads
    ensures Demand(states[i], side, account, symbol, threads) <= 10_000
  {
    if i == 0 {
      SumZero(threads, t => Load(INITIAL.At(t), account, symbol));
    } else {
      StepOf(states, events, i - 1);
      var s, e := states[i - 1], events[i - 1];
      AlwaysOwned(states, events, i - 1);
      AlwaysInv(states, events, i - 1);
      ApprovedStep(s, e);
      assert Prudent(states, events, i - 1);
      hide Execution, Next, Enabled, Inv, Owned, Demand, Approves;
      if Gain(s, e, account, symbol) > 0 {
        var o := s.At(e.t).order;
        assert o.id in states[i].approved && states[i].approved[o.id] == o;
        DemandCover(states[i], side, account, symbol, threads);
      } else {
        StepKeepsOwned(s, e);
        SideCarriesBack(s, states[i], account, side);
        ThreadsGrow(s, e);
        AlwaysRoom(states, events, i - 1, side, account, symbol, threads);
        StepDemand(s, e, side, account, symbol, threads);
      }
    }
  }

  /** Such an execution, however many orders are in flight together, never records a
      position beyond the limit, not even between two fills of one order. */
  lemma PositionLimitHolds(states: seq<State>, events: seq<Event>, i: nat, account: Account, symbol: Symbol)
    requires Execution(states, events) && i < |states| && Prudent(states, events, i)
    ensures -10_000 <= states[i].risk.Position(account, symbol) <= 10_000
  {
    AlwaysInv(states, events, i);
    var s := states[i];
    var side := SideOf(s, account);
    hide Execution, Inv, Demand, Committed, Prudent;
    AlwaysCommitted(states, events, i, side, account, symbol, s.threads.Keys, s.approved.Keys);
    AlwaysRoom(states, events, i, side, account, symbol, s.threads.Keys);
    DemandCoversPosition(s, side, account, symbol, s.threads.Keys);
  }

  /** No account has an order checked while another of its orders for the same symbol is
      in flight, and no check meets the edge of the 64-bit range. */
  ghost predicate Orderly(s: State, e: Event) {
    Approves(s, e) ==>
      var o := s.At(e.t).order;
      && IsInt64(o.quantity) && !AtEdge(s.risk, o)
      && forall u | u != e.t :: !InFlight(s.At(u), o.account, o.symbol)
  }

  /** Executions that submit one order after another are prudent. */
  lemma {:induction false} OrderlyIsPrudent(states: seq<State>, events: seq<Event>, n: nat)
    requires Execution(states, events) && n <= |events| && forall j | 0 <= j < n :: Orderly(states[j], events[j])
    ensures Prudent(states, events, n)
  {
    if n > 0 {
      OrderlyIsPrudent(states, events, n - 1);
      var s, e := states[n - 1], events[n - 1];
      StepOf(states, events, n - 1);
      if Approves(s, e) {
        var o := s.At(e.t).order;
        assert Orderly(s, e);
        PositionLimitHolds(states, events, n - 1, o.account, o.symbol);
        AloneIsPrudent(s, e.t);
      }
    }
  }

  lemma AloneIsPrudent(s: State, t: ThreadId)
    requires Approves(s, Check(t)) && Orderly(s, Check(t))
    requires var o := s.At(t).order; Abs(s.risk.Position(o.account, o.symbol)) <= MAX_POSITION_SHARES
    ensures DemandFor(CheckStep(s, t), s.At(t).order) <= MAX_POSITION_SHARES
  {
    var o, s' := s.At(t).order, CheckStep(s, t);
    var halted := CircuitBreakers.IsHalted(s.breaker, o.symbol);
    PositionCheckExactly(s.risk, halted, o);
    Risk.NoObjection(s.risk, halted, o, PositionLimitExceeded);
    CheckLoad(s, t, o.account, o.symbol);
    CheckSidesteps(s, t);
    hide Judge, CheckStep, Objects;
    forall u | u in s'.threads.Keys - {t} ensures Load(s'.At(u), o.account, o.symbol) == 0 {
      assert s'.At(u) == s.At(u) && !InFlight(s.At(u), o.account, o.symbol);
    }
    hide Load;
    SumSuperset({t}, s'.threads.Keys, u => Load(s'.At(u), o.account, o.symbol));
    SumPick({t}, u => Load(s'.At(u), o.account, o.symbol), t);
    SumZero({t} - {t}, u => Load(s'.At(u), o.account, o.symbol));
  }

  // ------------------------------------------------------------------
  //  The notional limit
  // ------------------------------------------------------------------

  /** The promise of the notional check at one price, in every state of every execution. */
  ghost predicate NotionalLimitHoldsAt(price: int) {
    forall states: seq<State>, events: seq<Event>, i: nat, halted: bool, o: Order
      | Execution(states, events) && i < |states| && o.price == price
        && OffEdge(states[i].risk, o) && Judge(states[i].risk, halted, o).Approve? ::
      o.price * o.quantity <= 5_000_000 * 100_000_000
  }

  /** Whoever may buy holds no short position, and the other way round. */
  lemma ApprovedFollowsPosition(states: seq<State>, events: seq<Event>, i: nat, halted: bool, o: Order)
    requires Execution(states, events) && i < |states| && Judge(states[i].risk, halted, o).Approve?
    ensures o.side.Signed(states[i].risk.Position(o.account, o.symbol)) >= 0
  {
    var s := states[i];
    ApprovedIsOneSided(s.risk, halted, o);
    AlwaysInv(states, events, i);
    forall id | id in s.approved && s.approved[id].account == o.account ensures s.approved[id].side == o.side {
      assert Vouched(s, id);
    }
    hide Execution, Inv, Demand, Committed, Judge;
    AlwaysCommitted(states, events, i, o.side, o.account, o.symbol, s.threads.Keys, s.approved.Keys);
  }

  /** So an approved quantity is within the position limit itself. */
  lemma ApprovedQuantity(states: seq<State>, events: seq<Event>, i: nat, halted: bool, o: Order)
    requires Execution(states, events) && i < |states| && Judge(states[i].risk, halted, o).Approve?
    requires OffEdge(states[i].risk, o)
    ensures o.quantity <= 10_000
  {
    ApprovedFollowsPosition(states, events, i, halted, o);
    ApprovedProjection(states[i].risk, halted, o);
  }

  /** The notional limit holds at a price exactly up to the one at which a whole
      position's worth overflows 64 bits. */
  lemma NotionalLimitExactly(price: int, id: OrderId, account: Account, symbol: Symbol)
    requires 0 < price <= MAX64
    ensures NotionalLimitHoldsAt(price) <==> price <= 9_223_372_036_854_775_807 / 10_000
  {
    if price <= SAFE_PRICE {
      forall states: seq<State>, events: seq<Event>, i: nat, halted: bool, o: Order
        | Execution(states, events) && i < |states| && o.price == price
          && OffEdge(states[i].risk, o) && Judge(states[i].risk, halted, o).Approve?
        ensures o.price * o.quantity <= 5_000_000 * 100_000_000
      {
        ApprovedQuantity(states, events, i, halted, o);
        ApprovedNotional(states[i].risk, halted, o);
      }
    } else {
      var o := Create(id, account, symbol, Buy, Limit, price, 0, OverflowingQuantity(price));
      WrappedNotionalApproved(o);
      assert Execution([INITIAL], []);
      assert OffEdge([INITIAL][0].risk, o) && Judge([INITIAL][0].risk, false, o).Approve?;
    }
  }
}
