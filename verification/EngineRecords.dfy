/** What the kill switch, the breaker and the price check see in every execution. */
module EngineRecords {
  import opened Orders
  import opened Books
  import CircuitBreakers
  import opened Risk
  import opened EngineModel

  // ------------------------------------------------------------------
  //  The kill switch
  // ------------------------------------------------------------------

  lemma HaltedStep(s: State, e: Event, t: ThreadId)
    requires Enabled(s, e) && s.halted && e != Resume && s.At(t).Idle?
    ensures Next(s, e).halted && Next(s, e).At(t).Idle?
  {
    hide RecordStep, CheckStep, MatchStep, StopStep, Cancel;
    if e.Record? {
      RecordShape(s, e.t, e.now);
    } else {
      OtherShape(s, e);
      HaltStays(s, e);
    }
  }

  lemma HaltStays(s: State, e: Event)
    requires Enabled(s, e) && s.halted && e != Resume && !e.Record?
    ensures Next(s, e).halted
  {
    hide Match, Cancel, Judge, AfterCheck, MatchAll, Fired, Unfired;
  }

  /** While the engine is halted no order enters: idle threads stay idle, and a
      submission changes nothing. */
  lemma {:induction false} HaltedAdmitsNothing(states: seq<State>, events: seq<Event>, i: nat, j: nat, t: ThreadId)
    requires Execution(states, events) && i <= j < |states| && states[i].halted && states[i].At(t).Idle?
    requires forall k | i <= k < j :: events[k] != Resume
    ensures states[j].halted && states[j].At(t).Idle?
    ensures j < |events| && events[j].Submit? ==> states[j + 1] == states[j]
  {
    hide Next, Enabled;
    if i < j {
      HaltedAdmitsNothing(states, events, i, j - 1, t);
      StepOf(states, events, j - 1);
      HaltedStep(states[j - 1], events[j - 1], t);
    }
    if j < |events| && events[j].Submit? {
      StepOf(states, events, j);
      HaltedRefuses(states[j], events[j]);
    }
  }

  lemma HaltedRefuses(s: State, e: Event)
    requires Enabled(s, e) && s.halted && e.Submit?
    ensures Next(s, e) == s
  {
  }

  // ------------------------------------------------------------------
  //  The breaker
  // ------------------------------------------------------------------

  /** What a step tells the breaker: a trade whose recording has come to it, or an
      operator's halt or resume. */
  function Told(s: State, e: Event): seq<CircuitBreakers.Event>
    requires Enabled(s, e)
  {
    match e
    case Record(t, now) =>
      var x := s.At(t).trades[0];
      if s.At(t).stage == RecordBreaker then [CircuitBreakers.Traded(x.symbol, x.price, now)] else []
    case HaltSymbol(symbol) => [CircuitBreakers.Halted(symbol)]
    case ResumeSymbol(symbol) => [CircuitBreakers.Resumed(symbol)]
    case _ => []
  }

  ghost function BreakerLog(states: seq<State>, events: seq<Event>, i: nat): seq<CircuitBreakers.Event>
    requires Execution(states, events) && i <= |events|
  {
    if i == 0 then [] else BreakerLog(states, events, i - 1) + Told(states[i - 1], events[i - 1])
  }

  /** Steps other than a check or a recording leave the risk engine alone, and all but
      recordings and operators leave the breaker alone. */
  lemma QuietStep(s: State, e: Event)
    requires Enabled(s, e) && !e.Record?
    ensures !e.Check? ==> Next(s, e).risk == s.risk
    ensures !e.HaltSymbol? && !e.ResumeSymbol? ==> Next(s, e).breaker == s.breaker
  {
    hide Match, Cancel, Judge, AfterCheck, MatchAll, Fired, Unfired;
  }

  lemma RecordTells(s: State, t: ThreadId, now: int)
    requires s.At(t).Recording? && s.At(t).trades != []
    ensures var s', p := RecordStep(s, t, now), s.At(t);
            var x := p.trades[0];
            && s'.breaker == (if p.stage == RecordBreaker
                              then CircuitBreakers.RecordTrade(s.breaker, x.symbol, x.price, now) else s.breaker)
            && s'.risk.lastPrices == (if p.stage == RecordPrice
                                      then s.risk.lastPrices[x.symbol := x.price] else s.risk.lastPrices)
  {
    hide CircuitBreakers.RecordTrade, NextPhase;
  }

  lemma StepTells(s: State, e: Event)
    requires Enabled(s, e)
    ensures Next(s, e).breaker ==
            if Told(s, e) == [] then s.breaker else CircuitBreakers.Step(s.breaker, Told(s, e)[0])
    ensures |Told(s, e)| <= 1
  {
    hide RecordStep, CheckStep, MatchStep, StopStep, Cancel, CircuitBreakers.RecordTrade;
    if e.Record? {
      RecordTells(s, e.t, e.now);
    } else {
      QuietStep(s, e);
    }
  }

  /** The breaker has seen exactly these events, in order; so everything proved of its
      runs holds in every execution. */
  lemma {:induction false} BreakerSeesEveryFill(states: seq<State>, events: seq<Event>, i: nat)
    requires Execution(states, events) && i < |states|
    ensures states[i].breaker == CircuitBreakers.Run(CircuitBreakers.CALM, BreakerLog(states, events, i))
  {
    if i > 0 {
      BreakerSeesEveryFill(states, events, i - 1);
      StepOf(states, events, i - 1);
      StepTells(states[i - 1], events[i - 1]);
      var log, told := BreakerLog(states, events, i - 1), Told(states[i - 1], events[i - 1]);
      if told == [] {
        assert log + told == log;
      } else {
        assert told == [told[0]] && (log + told)[..|log|] == log;
      }
    }
  }

  // ------------------------------------------------------------------
  //  The last price
  // ------------------------------------------------------------------

  /** The price a step records for a symbol, if it does. */
  function Priced(s: State, e: Event, symbol: Symbol): Option<int>
    requires Enabled(s, e)
  {
    if e.Record? && s.At(e.t).stage == RecordPrice && s.At(e.t).trades[0].symbol == symbol
    then Some(s.At(e.t).trades[0].price) else None
  }

  lemma StepPrices(s: State, e: Event, symbol: Symbol)
    requires Enabled(s, e)
    ensures var last, last' := s.risk.lastPrices, Next(s, e).risk.lastPrices;
            match Priced(s, e, symbol)
            case Some(p) => symbol in last' && last'[symbol] == p
            case None => (symbol in last' <==> symbol in last) && (symbol in last ==> last'[symbol] == last[symbol])
  {
    hide RecordStep, CheckStep, MatchStep, StopStep, Cancel, CircuitBreakers.RecordTrade;
    if e.Record? {
      RecordTells(s, e.t, e.now);
    } else if e.Check? {
      CheckPrices(s, e.t);
    } else {
      QuietStep(s, e);
    }
  }

  lemma CheckPrices(s: State, t: ThreadId)
    requires s.At(t).Admitted?
    ensures CheckStep(s, t).risk.lastPrices == s.risk.lastPrices
  {
    var o := s.At(t).order;
    CheckEffect(s.risk, CircuitBreakers.IsHalted(s.breaker, o.symbol), o);
    hide Judge, AfterCheck;
  }

  /** The price that new orders are compared with is that of the fill recorded last. */
  lemma {:induction false} LastPriceIsLastRecorded(states: seq<State>, events: seq<Event>, j: nat, i: nat, symbol: Symbol)
    requires Execution(states, events) && j < i < |states| && Priced(states[j], events[j], symbol).Some?
    requires forall k | j < k < i :: Priced(states[k], events[k], symbol).None?
    ensures symbol in states[i].risk.lastPrices
         && states[i].risk.lastPrices[symbol] == Priced(states[j], events[j], symbol).value
  {
    hide Next, Priced;
    StepOf(states, events, i - 1);
    if j < i - 1 {
      LastPriceIsLastRecorded(states, events, j, i - 1, symbol);
    }
    StepPrices(states[i - 1], events[i - 1], symbol);
  }
}
