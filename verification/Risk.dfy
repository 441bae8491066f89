/** The six pre-trade checks and the state they read. */
module Risk {
  import opened Orders
  import opened Int64

  const PRICE_SCALE := 100_000_000
  const MAX_POSITION_SHARES := 10_000
  const MAX_NOTIONAL_FIXED := 5_000_000 * PRICE_SCALE
  const FAT_FINGER_BPS := 1000

  /** In the order they are tried. */
  datatype Reason =
    | CircuitBreakerHalt | DuplicateOrderId | NotionalLimitExceeded
    | PositionLimitExceeded | FatFingerPriceDeviation | SelfTradePrevention

  datatype Verdict = Approve | Reject(reason: Reason)

  datatype RiskState = RiskState(
    seen: set<OrderId>,
    activeBuys: map<Account, set<OrderId>>,
    activeSells: map<Account, set<OrderId>>,
    positions: map<(Account, Symbol), int>,
    lastPrices: map<Symbol, int>,
    checked: nat,
    rejected: nat)
  {
    function Active(side: Side, account: Account): set<OrderId> {
      var m := if side.Buy? then activeBuys else activeSells;
      if account in m then m[account] else {}
    }

    function Position(account: Account, symbol: Symbol): int {
      if (account, symbol) in positions then positions[(account, symbol)] else 0
    }
  }

  const NO_RISK := RiskState({}, map[], map[], map[], map[], 0, 0)

  /** What each check objects to. */
  predicate Objects(s: RiskState, halted: bool, o: Order, r: Reason) {
    match r
    case CircuitBreakerHalt => halted
    case DuplicateOrderId => o.id in s.seen
    case NotionalLimitExceeded => o.price > 0 && Wrap64(o.price * o.quantity) > MAX_NOTIONAL_FIXED
    case PositionLimitExceeded =>
      Abs64(Wrap64(s.Position(o.account, o.symbol) + o.side.Signed(o.quantity))) > MAX_POSITION_SHARES
    case FatFingerPriceDeviation =>
      && o.price > 0
      && o.symbol in s.lastPrices
      && s.lastPrices[o.symbol] > 0
      && Bps(o.price, s.lastPrices[o.symbol]) > FAT_FINGER_BPS
    case SelfTradePrevention => s.Active(o.side.Opposite(), o.account) != {}
  }

  /** The first objection, in the order the checks are tried. */
  function Judge(s: RiskState, halted: bool, o: Order): Verdict {
    if Objects(s, halted, o, CircuitBreakerHalt) then Reject(CircuitBreakerHalt)
    else if Objects(s, halted, o, DuplicateOrderId) then Reject(DuplicateOrderId)
    else JudgeLimits(s, halted, o)
  }

  /** The last four checks. */
  function JudgeLimits(s: RiskState, halted: bool, o: Order): Verdict {
    if Objects(s, halted, o, NotionalLimitExceeded) then Reject(NotionalLimitExceeded)
    else if Objects(s, halted, o, PositionLimitExceeded) then Reject(PositionLimitExceeded)
    else if Objects(s, halted, o, FatFingerPriceDeviation) then Reject(FatFingerPriceDeviation)
    else if Objects(s, halted, o, SelfTradePrevention) then Reject(SelfTradePrevention)
    else Approve
  }

  function Track(s: RiskState, o: Order): RiskState {
    var ids := s.Active(o.side, o.account) + {o.id};
    if o.side.Buy? then s.(activeBuys := s.activeBuys[o.account := ids])
    else s.(activeSells := s.activeSells[o.account := ids])
  }

  /** The state after a check: the id is spent unless the symbol was halted, and an
      approved order is tracked on its side. */
  function AfterCheck(s: RiskState, halted: bool, o: Order): RiskState {
    var v := Judge(s, halted, o);
    var s' := s.(seen := if halted then s.seen else s.seen + {o.id},
                 checked := s.checked + 1,
                 rejected := s.rejected + if v.Reject? then 1 else 0);
    if v.Approve? then Track(s', o) else s'
  }

  function RecordFill(s: RiskState, account: Account, symbol: Symbol, side: Side, quantity: int): RiskState {
    s.(positions := s.positions[(account, symbol) := s.Position(account, symbol) + side.Signed(quantity)])
  }

  function SetLastPrice(s: RiskState, symbol: Symbol, price: int): RiskState {
    s.(lastPrices := s.lastPrices[symbol := price])
  }

  // ------------------------------------------------------------------
  //  The verdict in exact arithmetic
  // ------------------------------------------------------------------

  /** Nothing the checks compute leaves the 64-bit range. */
  predicate Computable(s: RiskState, o: Order) {
    && (o.price > 0 ==> Abs(o.price * o.quantity) <= MAX64)
    && OffEdge(s, o)
    && (o.price > 0 && o.symbol in s.lastPrices && s.lastPrices[o.symbol] > 0 ==>
          Abs(o.price - s.lastPrices[o.symbol]) <= MAX_DISTANCE)
  }

  predicate OverNotional(o: Order) {
    o.price > 0 && o.price * o.quantity > 5_000_000 * 100_000_000
  }

  predicate OverPosition(s: RiskState, o: Order) {
    var held := s.Position(o.account, o.symbol);
    var after := if o.side == Buy then held + o.quantity else held - o.quantity;
    after > 10_000 || after < -10_000
  }

  predicate OffPrice(s: RiskState, o: Order) {
    && o.price > 0 && o.symbol in s.lastPrices && s.lastPrices[o.symbol] > 0
    && var last := s.lastPrices[o.symbol];
       (o.price - last) * 10_000 >= 1001 * last || (last - o.price) * 10_000 >= 1001 * last
  }

  predicate Opposed(s: RiskState, o: Order) {
    var others := if o.side == Buy then s.activeSells else s.activeBuys;
    o.account in others && others[o.account] != {}
  }

  /** The verdict and its reason: the first of six conditions in plain integers. In
      particular an order passes exactly when none of them holds. */
  lemma VerdictExactly(s: RiskState, halted: bool, o: Order)
    requires Computable(s, o)
    ensures Judge(s, halted, o) ==
            if halted then Reject(CircuitBreakerHalt)
            else if o.id in s.seen then Reject(DuplicateOrderId)
            else if OverNotional(o) then Reject(NotionalLimitExceeded)
            else if OverPosition(s, o) then Reject(PositionLimitExceeded)
            else if OffPrice(s, o) then Reject(FatFingerPriceDeviation)
            else if Opposed(s, o) then Reject(SelfTradePrevention)
            else Approve
  {
    assert Objects(s, halted, o, NotionalLimitExceeded) <==> OverNotional(o);
    PositionIsJudgedExactly(s, halted, o);
    assert Objects(s, halted, o, FatFingerPriceDeviation) <==> OffPrice(s, o) by { PriceIsJudgedExactly(s, halted, o); }
    assert Objects(s, halted, o, SelfTradePrevention) <==> Opposed(s, o);
    hide Objects, OverNotional, OverPosition, OffPrice, Opposed, Computable;
    assert Objects(s, halted, o, CircuitBreakerHalt) <==> halted by { EarlyObjections(s, halted, o); }
    assert Objects(s, halted, o, DuplicateOrderId) <==> o.id in s.seen by { EarlyObjections(s, halted, o); }
  }

  lemma EarlyObjections(s: RiskState, halted: bool, o: Order)
    ensures Objects(s, halted, o, CircuitBreakerHalt) <==> halted
    ensures Objects(s, halted, o, DuplicateOrderId) <==> o.id in s.seen
  {
  }

  lemma PositionIsJudgedExactly(s: RiskState, halted: bool, o: Order)
    requires OffEdge(s, o)
    ensures Objects(s, halted, o, PositionLimitExceeded) <==> OverPosition(s, o)
  {
    if Abs(Projected(s, o)) > MAX64 { PositionCheckExactly(s, halted, o); }
  }

  lemma PriceIsJudgedExactly(s: RiskState, halted: bool, o: Order)
    requires Computable(s, o)
    ensures Objects(s, halted, o, FatFingerPriceDeviation) <==> OffPrice(s, o)
  {
    if o.price > 0 && o.symbol in s.lastPrices && s.lastPrices[o.symbol] > 0 {
      FatFingerBand(s, halted, o);
    }
  }

  /** What a check leaves behind. The id is spent even by a rejection, unless the symbol
      was halted; positions and prices stay; both counters count. */
  lemma CheckEffect(s: RiskState, halted: bool, o: Order)
    ensures var s', passed := AfterCheck(s, halted, o), Judge(s, halted, o) == Approve;
            && s'.seen == (if halted then s.seen else s.seen + {o.id})
            && s'.positions == s.positions && s'.lastPrices == s.lastPrices
            && s'.checked == s.checked + 1 && s'.rejected == s.rejected + (if passed then 0 else 1)
  {
    var v := Judge(s, halted, o);
    var spent := s.(seen := if halted then s.seen else s.seen + {o.id}, checked := s.checked + 1,
                    rejected := s.rejected + if v.Reject? then 1 else 0);
    TrackEffect(spent, o, o.side, o.account);
    hide Judge, Track;
    assert AfterCheck(s, halted, o) == if v.Approve? then Track(spent, o) else spent;
  }

  /** Only an approval is tracked, on its own side and account. */
  lemma CheckTracks(s: RiskState, halted: bool, o: Order, side: Side, account: Account)
    ensures var s', passed := AfterCheck(s, halted, o), Judge(s, halted, o) == Approve;
            s'.Active(side, account) == s.Active(side, account)
              + (if passed && side == o.side && account == o.account then {o.id} else {})
  {
    var v := Judge(s, halted, o);
    var spent := s.(seen := if halted then s.seen else s.seen + {o.id}, checked := s.checked + 1,
                    rejected := s.rejected + if v.Reject? then 1 else 0);
    TrackEffect(spent, o, side, account);
    assert spent.Active(side, account) == s.Active(side, account);
    hide Judge, Track;
    assert AfterCheck(s, halted, o) == if v.Approve? then Track(spent, o) else spent;
  }

  lemma TrackEffect(s: RiskState, o: Order, side: Side, account: Account)
    ensures var s' := Track(s, o);
            && s'.Active(side, account) == s.Active(side, account)
                 + (if side == o.side && account == o.account then {o.id} else {})
            && s' == s.(activeBuys := s'.activeBuys, activeSells := s'.activeSells)
  {
  }

  /** After a trade has been recorded, the next price is compared with its price. */
  lemma PriceCheckFollowsTrade(s: RiskState, halted: bool, o: Order, price: int)
    requires 0 < o.price && 0 < price && Abs(o.price - price) <= MAX_DISTANCE
    ensures Objects(SetLastPrice(s, o.symbol, price), halted, o, FatFingerPriceDeviation)
       <==> (o.price - price) * 10_000 >= 1001 * price || (price - o.price) * 10_000 >= 1001 * price
    ensures forall symbol | symbol != o.symbol && symbol in s.lastPrices ::
              symbol in SetLastPrice(s, o.symbol, price).lastPrices
              && SetLastPrice(s, o.symbol, price).lastPrices[symbol] == s.lastPrices[symbol]
  {
    FatFingerBand(SetLastPrice(s, o.symbol, price), halted, o);
  }

  lemma CheckKeepsPositions(s: RiskState, halted: bool, o: Order)
    ensures AfterCheck(s, halted, o).positions == s.positions
  {
    hide Judge;
  }

  /** An approved order spends its own id, which was new. */
  lemma CheckSpendsId(s: RiskState, halted: bool, o: Order)
    ensures s.seen <= AfterCheck(s, halted, o).seen
    ensures Judge(s, halted, o).Approve? ==> o.id !in s.seen && AfterCheck(s, halted, o).seen == s.seen + {o.id}
  {
    if Judge(s, halted, o).Approve? { ApprovedIsOneSided(s, halted, o); }
    hide Judge;
  }

  // ------------------------------------------------------------------
  //  No account is on both sides
  // ------------------------------------------------------------------

  ghost predicate OneSided(s: RiskState) {
    forall a: Account :: s.Active(Buy, a) == {} || s.Active(Sell, a) == {}
  }

  /** A check keeps every account on one side, and tracking only ever grows. */
  lemma CheckKeepsOneSided(s: RiskState, halted: bool, o: Order)
    requires OneSided(s)
    ensures var s' := AfterCheck(s, halted, o);
            && OneSided(s')
            && (forall side, a: Account :: s.Active(side, a) <= s'.Active(side, a))
            && (Judge(s, halted, o).Approve? ==> o.id in s'.Active(o.side, o.account))
  {
    var s' := AfterCheck(s, halted, o);
    hide Objects;
    if Judge(s, halted, o).Approve? {
      assert s.Active(o.side.Opposite(), o.account) == {} by { ApprovedIsOneSided(s, halted, o); }
    }
    forall a: Account
      ensures s'.Active(Buy, a) == {} || s'.Active(Sell, a) == {}
      ensures forall side :: s.Active(side, a) <= s'.Active(side, a)
    {
      assert s.Active(Buy, a) == {} || s.Active(Sell, a) == {};
    }
  }

  lemma ApprovedIsOneSided(s: RiskState, halted: bool, o: Order)
    requires Judge(s, halted, o).Approve?
    ensures s.Active(o.side.Opposite(), o.account) == {} && !halted && o.id !in s.seen
  {
    assert !Objects(s, halted, o, SelfTradePrevention);
  }

  /** An approval does not count against the position until its fills are recorded:
      another order of the same account that would be approved before it is approved
      after it. This is why the position limit needs one order at a time. */
  lemma GateIgnoresInFlight(s: RiskState, halted: bool, first: Order, second: Order)
    requires Judge(s, halted, first).Approve? && Judge(s, halted, second).Approve?
    requires first.account == second.account && first.side == second.side && first.id != second.id
    ensures Judge(AfterCheck(s, halted, first), halted, second).Approve?
  {
    var s' := AfterCheck(s, halted, first);
    hide Wrap64, Abs64, Bps, Judge, JudgeLimits;
    ApprovedIsOneSided(s, halted, second);
    ApprovedIsOneSided(s, halted, first);
    forall r ensures !Objects(s', halted, second, r) {
      NoObjection(s, halted, second, r);
    }
    Unopposed(s', halted, second);
  }

  lemma NoObjection(s: RiskState, halted: bool, o: Order, r: Reason)
    requires Judge(s, halted, o).Approve?
    ensures !Objects(s, halted, o, r)
  {
    hide Objects;
  }

  lemma Unopposed(s: RiskState, halted: bool, o: Order)
    requires forall r :: !Objects(s, halted, o, r)
    ensures Judge(s, halted, o).Approve?
  {
    hide Objects;
  }

  /** The price check objects from 10.01 percent on, either way, as long as the
      distance fits; ThresholdExactly says up to which prices it always does. */
  lemma FatFingerBand(s: RiskState, halted: bool, o: Order)
    requires o.symbol in s.lastPrices && s.lastPrices[o.symbol] > 0 && o.price > 0
    requires Abs(o.price - s.lastPrices[o.symbol]) <= MAX_DISTANCE
    ensures Objects(s, halted, o, FatFingerPriceDeviation)
       <==> !WithinBps(o.price, s.lastPrices[o.symbol], 1000)
  {
    BpsThreshold(o.price, s.lastPrices[o.symbol], FAT_FINGER_BPS);
  }

  // ------------------------------------------------------------------
  //  The limits and 64-bit wrap-around
  // ------------------------------------------------------------------

  /** The position an order would lead to if all of it were filled. */
  function Projected(s: RiskState, o: Order): int {
    s.Position(o.account, o.symbol) + o.side.Signed(o.quantity)
  }

  /** A projected position of exactly 2^63, either way, is its own negation in 64 bits;
      the absolute value stays negative and passes. */
  predicate AtEdge(s: RiskState, o: Order) {
    Projected(s, o) == 9_223_372_036_854_775_808 || Projected(s, o) == -9_223_372_036_854_775_808
  }

  /** From a position within the limit, the check is right about every 64-bit quantity
      except at the edge. */
  lemma PositionCheckExactly(s: RiskState, halted: bool, o: Order)
    requires Abs(s.Position(o.account, o.symbol)) <= MAX_POSITION_SHARES && IsInt64(o.quantity)
    ensures (Objects(s, halted, o, PositionLimitExceeded) <==> Abs(Projected(s, o)) > 10_000)
       <==> !AtEdge(s, o)
  {
    var p := Projected(s, o);
    assert p == s.Position(o.account, o.symbol) + o.side.Signed(o.quantity);
    if p > MAX64 {
      WrapsOnce(p);
    } else if p < -MAX64 - 1 {
      WrapsUpOnce(p);
    }
    if p == MAX64 + 1 || p == -MAX64 - 1 { WrapsOnce(MAX64 + 1); }
  }

  /** The position check can be trusted: away from the edge, or, whatever the position
      and quantity, when the projection fits. */
  predicate OffEdge(s: RiskState, o: Order) {
    || Abs(Projected(s, o)) <= MAX64
    || (Abs(s.Position(o.account, o.symbol)) <= MAX_POSITION_SHARES && IsInt64(o.quantity) && !AtEdge(s, o))
  }

  lemma ApprovedProjection(s: RiskState, halted: bool, o: Order)
    requires OffEdge(s, o) && Judge(s, halted, o).Approve?
    ensures Abs(Projected(s, o)) <= MAX_POSITION_SHARES
  {
    NoObjection(s, halted, o, PositionLimitExceeded);
    hide Judge;
    if Abs(Projected(s, o)) > MAX64 { PositionCheckExactly(s, halted, o); }
  }

  /** The largest price at which no quantity up to the position limit overflows. */
  const SAFE_PRICE := MAX64 / MAX_POSITION_SHARES

  lemma ProductFits(price: int, quantity: int)
    requires 0 < price <= SAFE_PRICE && 0 <= quantity <= MAX_POSITION_SHARES
    ensures 0 <= price * quantity <= MAX64
  {
    MulMonotone(quantity, MAX_POSITION_SHARES, price);
    assert price * quantity == quantity * price;
  }

  /** Up to SAFE_PRICE the notional check is exact for those quantities. */
  lemma ApprovedNotional(s: RiskState, halted: bool, o: Order)
    requires 0 < o.price <= SAFE_PRICE && o.quantity <= MAX_POSITION_SHARES && Judge(s, halted, o).Approve?
    ensures o.price * o.quantity <= 5_000_000 * 100_000_000
  {
    if o.quantity >= 0 {
      assert !Objects(s, halted, o, NotionalLimitExceeded);
      ProductFits(o.price, o.quantity);
    } else {
      MulMonotone(o.quantity, 0, o.price);
      assert o.price * o.quantity == o.quantity * o.price;
    }
  }

  /** Beyond SAFE_PRICE this many shares overflow. */
  function OverflowingQuantity(price: int): int
    requires price > 0
  {
    (MAX64 + price) / price
  }

  lemma OverflowIsNegative(price: int)
    requires SAFE_PRICE < price <= MAX64
    ensures var q := OverflowingQuantity(price);
            && 0 < q <= MAX_POSITION_SHARES
            && price * q > MAX64
            && Wrap64(price * q) <= 0
  {
    var q := OverflowingQuantity(price);
    FloorAbove(MAX64 + price, price, 0);
    FloorAbove(MAX64 + price, price, MAX_POSITION_SHARES);
    DivisionBounds(MAX64 + price, price);
    assert price * q == q * price;
    WrapsOnce(price * q);
  }

  lemma DivisionBounds(a: int, b: int)
    requires b > 0
    ensures a - b < (a / b) * b <= a
  {
    assert a == (a / b) * b + a % b;
  }

  /** So the first order of a new account can be over the limit and pass. */
  lemma WrappedNotionalApproved(o: Order)
    requires SAFE_PRICE < o.price <= MAX64
    requires o == Create(o.id, o.account, o.symbol, Buy, Limit, o.price, 0, OverflowingQuantity(o.price))
    ensures OffEdge(NO_RISK, o) && Judge(NO_RISK, false, o) == Approve && o.price * o.quantity > 5_000_000 * 100_000_000
  {
    OverflowIsNegative(o.price);
  }
}
