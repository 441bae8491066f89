/** The risk engine and the circuit breaker as the program keeps them. */
module RiskEngines {
  import opened Orders
  import opened Int64
  import opened Risk
  import CircuitBreakers

  /** The nested position table as one table over pairs. */
  ghost function Paired(m: map<Account, map<Symbol, int>>): map<(Account, Symbol), int> {
    map a, s | a in m && s in m[a] :: (a, s) := m[a][s]
  }

  lemma PairedAt(m: map<Account, map<Symbol, int>>, a: Account, s: Symbol)
    ensures (a, s) in Paired(m) <==> a in m && s in m[a]
    ensures (a, s) in Paired(m) ==> Paired(m)[(a, s)] == m[a][s]
  {
  }

  lemma PairedUpdate(m: map<Account, map<Symbol, int>>, a: Account, s: Symbol, n: int)
    ensures var row := if a in m then m[a] else map[];
            Paired(m[a := row[s := n]]) == Paired(m)[(a, s) := n]
  {
    hide Paired;
    var row := if a in m then m[a] else map[];
    var m' := m[a := row[s := n]];
    forall k: (Account, Symbol)
      ensures k in Paired(m') <==> k in Paired(m)[(a, s) := n]
      ensures k in Paired(m') ==> Paired(m')[k] == Paired(m)[(a, s) := n][k]
    {
      PairedAt(m, k.0, k.1);
      PairedAt(m', k.0, k.1);
    }
  }

  class CircuitBreaker {
    var symbolHalts: map<Symbol, bool>
    var referencePrice: map<Symbol, int>
    var windowStart: map<Symbol, int>

    function View(): CircuitBreakers.Breaker
      reads this
    {
      CircuitBreakers.Breaker(symbolHalts, referencePrice, windowStart)
    }

    constructor ()
      ensures View() == CircuitBreakers.CALM
    {
      symbolHalts, referencePrice, windowStart := map[], map[], map[];
    }

    method RecordTrade(symbol: Symbol, price: int, now: int)
      modifies this
      ensures View() == CircuitBreakers.RecordTrade(old(View()), symbol, price, now)
    {
      if symbol !in referencePrice || symbol !in windowStart {
        referencePrice := referencePrice[symbol := price];
        windowStart := windowStart[symbol := now];
        return;
      }
      var elapsed := Quot(now - windowStart[symbol], CircuitBreakers.NANOS_PER_SECOND);
      if elapsed > CircuitBreakers.WINDOW_SECONDS {
        referencePrice := referencePrice[symbol := price];
        windowStart := windowStart[symbol := now];
        return;
      }
      var refPrice := referencePrice[symbol];
      if refPrice == 0 {
        return;
      }
      var absDiff := Abs64(Wrap64(price - refPrice));
      var pctMoveBps := Quot(Wrap64(absDiff * 10000), refPrice);
      if pctMoveBps > CircuitBreakers.HALT_THRESHOLD_BPS {
        HaltSymbol(symbol);
      }
    }

    method HaltSymbol(symbol: Symbol)
      modifies this`symbolHalts
      ensures View() == CircuitBreakers.HaltSymbol(old(View()), symbol)
    {
      if symbol !in symbolHalts {
        symbolHalts := symbolHalts[symbol := false];
      }
      symbolHalts := symbolHalts[symbol := true];
    }

    method ResumeSymbol(symbol: Symbol)
      modifies this
      ensures View() == CircuitBreakers.ResumeSymbol(old(View()), symbol)
    {
      if symbol in symbolHalts {
        symbolHalts := symbolHalts[symbol := false];
      }
      referencePrice := referencePrice - {symbol};
      windowStart := windowStart - {symbol};
    }

    method IsHalted(symbol: Symbol) returns (halted: bool)
      ensures halted <==> CircuitBreakers.IsHalted(View(), symbol)
    {
      if symbol !in symbolHalts {
        return false;
      }
      halted := symbolHalts[symbol];
    }
  }

  lemma LimitsIgnoreIds(s: RiskState, s': RiskState, o: Order)
    requires s'.(seen := s.seen, checked := s.checked) == s
    ensures JudgeLimits(s, false, o) == JudgeLimits(s', false, o)
  {
  }

  class RiskEngine {
    const circuitBreaker: CircuitBreaker
    var seenOrderIds: set<OrderId>
    var activeBuyOrders: map<Account, set<OrderId>>
    var activeSellOrders: map<Account, set<OrderId>>
    var positions: map<Account, map<Symbol, int>>
    var lastTradePrices: map<Symbol, int>
    var totalChecked: nat
    var totalRejected: nat

    ghost function View(): RiskState
      reads this
    {
      RiskState(seenOrderIds, activeBuyOrders, activeSellOrders, Paired(positions), lastTradePrices,
                totalChecked, totalRejected)
    }

    constructor (breaker: CircuitBreaker)
      ensures View() == NO_RISK && circuitBreaker == breaker
    {
      circuitBreaker := breaker;
      seenOrderIds, activeBuyOrders, activeSellOrders, positions, lastTradePrices := {}, map[], map[], map[], map[];
      totalChecked, totalRejected := 0, 0;
    }

    /** The verdict is the first objection, and the state moves accordingly. */
    method CheckPreTrade(o: Order) returns (v: Verdict)
      modifies this
      ensures var halted := CircuitBreakers.IsHalted(old(circuitBreaker.View()), o.symbol);
              v == Judge(old(View()), halted, o) && View() == AfterCheck(old(View()), halted, o)
    {
      hide Paired, JudgeLimits;
      totalChecked := totalChecked + 1;
      var halted := circuitBreaker.IsHalted(o.symbol);
      if halted {
        v := Rejected(CircuitBreakerHalt);
        return;
      }
      if o.id in seenOrderIds {
        v := Rejected(DuplicateOrderId);
        return;
      }
      seenOrderIds := seenOrderIds + {o.id};
      LimitsIgnoreIds(View(), old(View()), o);
      v := CheckLimits(o);
      if v.Reject? {
        v := Rejected(v.reason);
        return;
      }
      TrackOrder(o);
    }

    method CheckLimits(o: Order) returns (v: Verdict)
      ensures v == JudgeLimits(View(), false, o)
    {
      hide Paired, Wrap64, Abs64, Bps;
      if o.price > 0 && Wrap64(o.price * o.quantity) > MAX_NOTIONAL_FIXED {
        return Reject(NotionalLimitExceeded);
      }
      var netPos := GetNetPosition(o.account, o.symbol);
      var projected := Wrap64(if o.side.Buy? then netPos + o.quantity else netPos - o.quantity);
      if Abs64(projected) > MAX_POSITION_SHARES {
        return Reject(PositionLimitExceeded);
      }
      if o.price > 0 && o.symbol in lastTradePrices && lastTradePrices[o.symbol] > 0 {
        var lastPrice := lastTradePrices[o.symbol];
        if Bps(o.price, lastPrice) > FAT_FINGER_BPS {
          return Reject(FatFingerPriceDeviation);
        }
      }
      var opposite := if o.side.Buy? then activeSellOrders else activeBuyOrders;
      if o.account in opposite && opposite[o.account] != {} {
        return Reject(SelfTradePrevention);
      }
      v := Approve;
    }

    method Rejected(reason: Reason) returns (v: Verdict)
      modifies this`totalRejected
      ensures v == Reject(reason) && totalRejected == old(totalRejected) + 1
    {
      totalRejected := totalRejected + 1;
      v := Reject(reason);
    }

    method TrackOrder(o: Order)
      modifies this`activeBuyOrders, this`activeSellOrders
      ensures View() == Track(old(View()), o)
    {
      if o.side.Buy? {
        var ids := if o.account in activeBuyOrders then activeBuyOrders[o.account] else {};
        activeBuyOrders := activeBuyOrders[o.account := ids + {o.id}];
      } else {
        var ids := if o.account in activeSellOrders then activeSellOrders[o.account] else {};
        activeSellOrders := activeSellOrders[o.account := ids + {o.id}];
      }
    }

    method GetNetPosition(account: Account, symbol: Symbol) returns (n: int)
      ensures n == View().Position(account, symbol)
    {
      if account !in positions {
        return 0;
      }
      if symbol !in positions[account] {
        return 0;
      }
      n := positions[account][symbol];
    }

    method RecordFill(account: Account, symbol: Symbol, side: Side, quantity: int)
      modifies this`positions
      ensures View() == Risk.RecordFill(old(View()), account, symbol, side, quantity)
    {
      hide Paired;
      var delta := if side.Buy? then quantity else -quantity;
      var row := if account in positions then positions[account] else map[];
      var n := if symbol in row then row[symbol] else 0;
      PairedAt(positions, account, symbol);
      PairedUpdate(positions, account, symbol, n + delta);
      positions := positions[account := row[symbol := n + delta]];
    }

    method UpdateLastTradePrice(symbol: Symbol, price: int, now: int)
      modifies this`lastTradePrices, circuitBreaker
      ensures View() == SetLastPrice(old(View()), symbol, price)
      ensures circuitBreaker.View() == CircuitBreakers.RecordTrade(old(circuitBreaker.View()), symbol, price, now)
    {
      lastTradePrices := lastTradePrices[symbol := price];
      circuitBreaker.RecordTrade(symbol, price, now);
    }
  }
}
