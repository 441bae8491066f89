/** The per-symbol price halt: five percent within sixty seconds. */
module CircuitBreakers {
  import opened Orders
  import opened Int64

  const HALT_THRESHOLD_BPS := 500
  const WINDOW_SECONDS := 60
  const NANOS_PER_SECOND := 1_000_000_000

  datatype Breaker = Breaker(
    halts: map<Symbol, bool>,
    reference: map<Symbol, int>,
    windowStart: map<Symbol, int>)

  const CALM := Breaker(map[], map[], map[])

  predicate IsHalted(b: Breaker, symbol: Symbol) {
    symbol in b.halts && b.halts[symbol]
  }

  function HaltSymbol(b: Breaker, symbol: Symbol): Breaker {
    b.(halts := b.halts[symbol := true])
  }

  function ResumeSymbol(b: Breaker, symbol: Symbol): Breaker {
    Breaker(if symbol in b.halts then b.halts[symbol := false] else b.halts,
            b.reference - {symbol}, b.windowStart - {symbol})
  }

  /** A trade opens a window when there is none or the last one is over. */
  predicate OpensWindow(b: Breaker, symbol: Symbol, now: int) {
    || symbol !in b.reference
    || symbol !in b.windowStart
    || Quot(now - b.windowStart[symbol], NANOS_PER_SECOND) > WINDOW_SECONDS
  }

  function RecordTrade(b: Breaker, symbol: Symbol, price: int, now: int): Breaker {
    if OpensWindow(b, symbol, now) then
      b.(reference := b.reference[symbol := price], windowStart := b.windowStart[symbol := now])
    else if b.reference[symbol] == 0 then b
    else if Bps(price, b.reference[symbol]) > HALT_THRESHOLD_BPS then HaltSymbol(b, symbol)
    else b
  }

  // ------------------------------------------------------------------
  //  Runs
  // ------------------------------------------------------------------

  datatype Event =
    | Traded(symbol: Symbol, price: int, now: int)
    | Halted(symbol: Symbol)
    | Resumed(symbol: Symbol)

  function Step(b: Breaker, e: Event): Breaker {
    match e
    case Traded(symbol, price, now) => RecordTrade(b, symbol, price, now)
    case Halted(symbol) => HaltSymbol(b, symbol)
    case Resumed(symbol) => ResumeSymbol(b, symbol)
  }

  function Run(b: Breaker, es: seq<Event>): Breaker {
    if es == [] then b else Step(Run(b, es[..|es| - 1]), es[|es| - 1])
  }

  /** A stretch of trades: when it began, and its prices, oldest first. */
  datatype Window = Closed | Opened(start: int, prices: seq<int>)

  /** The window of a symbol after a run, told by times alone: a resume closes it, a trade
      at least 61 seconds after its start opens a new one, any other trade joins it. */
  function WindowOf(es: seq<Event>, symbol: Symbol): Window {
    if es == [] then Closed else Moved(WindowOf(es[..|es| - 1], symbol), es[|es| - 1], symbol)
  }

  function Moved(w: Window, e: Event, symbol: Symbol): Window {
    match e
    case Traded(s, price, now) =>
      if s != symbol then w
      else if w.Closed? || now - w.start >= 61_000_000_000 then Opened(now, [price])
      else w.(prices := w.prices + [price])
    case Halted(_) => w
    case Resumed(s) => if s == symbol then Closed else w
  }

  /** Whole seconds, rounded toward zero, exceed sixty from the sixty-first on. */
  lemma WindowEnds(elapsed: int)
    ensures Quot(elapsed, NANOS_PER_SECOND) > WINDOW_SECONDS <==> elapsed >= 61_000_000_000
  {
  }

  /** A trade and the clock: from 61 seconds on it starts a new window at its own price
      and halts nothing; before that, reference and start stay. */
  lemma WindowByTime(b: Breaker, symbol: Symbol, price: int, now: int)
    requires symbol in b.reference && symbol in b.windowStart
    ensures var b' := RecordTrade(b, symbol, price, now);
            && symbol in b'.reference && symbol in b'.windowStart
            && if now - b.windowStart[symbol] >= 61_000_000_000
               then b'.reference[symbol] == price && b'.windowStart[symbol] == now && b'.halts == b.halts
               else b'.reference == b.reference && b'.windowStart == b.windowStart
  {
    WindowEnds(now - b.windowStart[symbol]);
  }

  /** A reference of zero, with nothing to measure against, never halts. */
  lemma ZeroReferenceNeverTrips(b: Breaker, symbol: Symbol, price: int, now: int)
    requires symbol in b.reference && b.reference[symbol] == 0
    ensures RecordTrade(b, symbol, price, now).halts == b.halts
  {
  }

  /** The first trade opens a window. */
  lemma FirstTradeOpens(b: Breaker, symbol: Symbol, price: int, now: int)
    requires symbol !in b.reference || symbol !in b.windowStart
    ensures var b' := RecordTrade(b, symbol, price, now);
            && symbol in b'.reference && b'.reference[symbol] == price
            && symbol in b'.windowStart && b'.windowStart[symbol] == now && b'.halts == b.halts
  {
  }

  /** Events of one symbol do not touch another. */
  lemma OthersAreLeftAlone(b: Breaker, e: Event, other: Symbol)
    requires e.symbol != other
    ensures var b' := Step(b, e);
            && (IsHalted(b', other) <==> IsHalted(b, other))
            && (other in b'.reference <==> other in b.reference)
            && (other in b.reference ==> b'.reference[other] == b.reference[other])
            && (other in b'.windowStart <==> other in b.windowStart)
            && (other in b.windowStart ==> b'.windowStart[other] == b.windowStart[other])
  {
  }

  /** A manual halt and a resume do what they say, and a resume forgets the window. */
  lemma ManualControl(b: Breaker, symbol: Symbol)
    ensures IsHalted(Step(b, Halted(symbol)), symbol) && !IsHalted(Step(b, Resumed(symbol)), symbol)
    ensures symbol !in Step(b, Resumed(symbol)).reference && symbol !in Step(b, Resumed(symbol)).windowStart
    ensures Step(b, Halted(symbol)).reference == b.reference && Step(b, Halted(symbol)).windowStart == b.windowStart
  {
  }

  /** The prices a symbol trades at in a run. */
  function PricesOf(es: seq<Event>, symbol: Symbol): set<int> {
    set e | e in es && e.Traded? && e.symbol == symbol :: e.price
  }

  /** Positive prices, no two of them too far apart for 64-bit basis points. */
  ghost predicate Near(prices: set<int>) {
    forall p, q | p in prices && q in prices :: p > 0 && Abs(p - q) <= MAX_DISTANCE
  }

  /** Within the band that does not trip the breaker: less than 5.01 percent away. */
  predicate WithinBand(p: int, reference: int) {
    (p - reference) * 10_000 < 501 * reference && (reference - p) * 10_000 < 501 * reference
  }

  /** The breaker keeps the start and the first price of the window, and unless the symbol
      is halted every price of the window is in the band. */
  ghost predicate WindowOk(b: Breaker, w: Window, symbol: Symbol) {
    match w
    case Closed => symbol !in b.reference && symbol !in b.windowStart
    case Opened(start, prices) =>
      && symbol in b.windowStart && b.windowStart[symbol] == start
      && symbol in b.reference && prices != [] && b.reference[symbol] == prices[0]
      && (!IsHalted(b, symbol) ==> forall p | p in prices :: WithinBand(p, prices[0]))
  }

  ghost predicate PricesFrom(w: Window, prices: set<int>) {
    w.Opened? ==> forall p | p in w.prices :: p in prices
  }

  /** That holds after every run whose prices of the symbol are near each other. */
  lemma {:induction false} WindowInvariant(es: seq<Event>, symbol: Symbol)
    requires Near(PricesOf(es, symbol))
    ensures WindowOk(Run(CALM, es), WindowOf(es, symbol), symbol)
    ensures PricesFrom(WindowOf(es, symbol), PricesOf(es, symbol))
  {
    if es != [] {
      var init, e := es[..|es| - 1], es[|es| - 1];
      assert PricesOf(init, symbol) <= PricesOf(es, symbol) && e in es;
      WindowInvariant(init, symbol);
      var b, w := Run(CALM, init), WindowOf(init, symbol);
      if e.Traded? && e.symbol == symbol {
        assert e.price in PricesOf(es, symbol);
        assert w.Opened? ==> w.prices[0] in w.prices;
      }
      hide PricesOf, WindowOk, Step;
      StepKeepsWindow(b, w, symbol, e);
    }
  }

  lemma StepKeepsWindow(b: Breaker, w: Window, symbol: Symbol, e: Event)
    requires WindowOk(b, w, symbol)
    requires e.Traded? && e.symbol == symbol ==> e.price > 0
    requires e.Traded? && e.symbol == symbol && w.Opened? ==>
               w.prices != [] && w.prices[0] > 0 && Abs(e.price - w.prices[0]) <= MAX_DISTANCE
    ensures WindowOk(Step(b, e), Moved(w, e, symbol), symbol)
  {
    if e.symbol != symbol {
      OthersAreLeftAlone(b, e, symbol);
      hide Step, WithinBand;
    } else if e.Traded? && w.Opened? {
      WindowEnds(e.now - w.start);
      BpsThreshold(e.price, b.reference[symbol], HALT_THRESHOLD_BPS);
      hide Bps, Quot;
    }
  }

  /** With prices from one to `m`, the breaker watches the symbol in every run. */
  ghost predicate WatchesUpTo(m: int, symbol: Symbol) {
    forall es: seq<Event> | (forall p | p in PricesOf(es, symbol) :: 0 < p <= m) ::
      WindowOk(Run(CALM, es), WindowOf(es, symbol), symbol)
  }

  /** A move that the breaker misses: from the smallest price to 922,337,203,685,479, at
      the same moment. */
  lemma TripIsMissed(symbol: Symbol, es: seq<Event>)
    requires es == [Traded(symbol, 1, 0), Traded(symbol, 922_337_203_685_479, 0)]
    ensures !IsHalted(Run(CALM, es), symbol) && WindowOf(es, symbol) == Opened(0, [1, 922_337_203_685_479])
    ensures !WindowOk(Run(CALM, es), WindowOf(es, symbol), symbol)
  {
    BpsWraps(HALT_THRESHOLD_BPS);
    var first := [Traded(symbol, 1, 0)];
    assert first[..0] == [] && es[..1] == first;
    assert Run(CALM, first) == Breaker(map[], map[symbol := 1], map[symbol := 0]);
    assert WindowOf(first, symbol) == Opened(0, [1]);
    hide Bps;
    var prices := WindowOf(es, symbol).prices;
    assert prices == [1, 922_337_203_685_479] && prices[1] in prices;
  }

  /** That promise holds exactly up to the price at which basis points overflow. */
  lemma WatchesExactly(m: int, symbol: Symbol)
    ensures WatchesUpTo(m, symbol) <==> m <= 922_337_203_685_478
  {
    if m <= 922_337_203_685_478 {
      forall es: seq<Event> | (forall p | p in PricesOf(es, symbol) :: 0 < p <= m)
        ensures WindowOk(Run(CALM, es), WindowOf(es, symbol), symbol)
      {
        WindowInvariant(es, symbol);
      }
    } else {
      var es := [Traded(symbol, 1, 0), Traded(symbol, 922_337_203_685_479, 0)];
      TripIsMissed(symbol, es);
      forall p | p in PricesOf(es, symbol) ensures 0 < p <= m {
        assert p == 1 || p == 922_337_203_685_479;
      }
    }
  }

  /** A trade trips the breaker exactly when it comes less than 61 seconds after the start
      of an open window and leaves its band. */
  lemma TripsExactly(b: Breaker, symbol: Symbol, price: int, now: int)
    requires !IsHalted(b, symbol) && symbol in b.reference && symbol in b.windowStart
    requires b.reference[symbol] > 0 && Abs(price - b.reference[symbol]) <= MAX_DISTANCE
    ensures IsHalted(RecordTrade(b, symbol, price, now), symbol)
       <==> now - b.windowStart[symbol] < 61_000_000_000 && !WithinBand(price, b.reference[symbol])
  {
    WindowEnds(now - b.windowStart[symbol]);
    BpsThreshold(price, b.reference[symbol], HALT_THRESHOLD_BPS);
    hide Bps, Quot;
  }

  /** The latch: only a resume of that symbol ends a halt. */
  lemma {:induction false} HaltLatches(b: Breaker, es: seq<Event>, symbol: Symbol)
    requires IsHalted(b, symbol) && Resumed(symbol) !in es
    ensures IsHalted(Run(b, es), symbol)
  {
    if es != [] {
      var init := es[..|es| - 1];
      assert forall e | e in init :: e in es;
      HaltLatches(b, init, symbol);
      assert es[|es| - 1] in es;
    }
  }
}
