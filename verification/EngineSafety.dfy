/** What holds in every state of every execution of the engine: no self-trade, no
    over-fill, and books that stay well-formed, uncrossed and in step with the tape. */
module EngineSafety {
  import opened Orders
  import opened PriceTime
  import opened Books
  import opened BookLaws
  import CircuitBreakers
  import opened Risk
  import opened EngineModel

  // ------------------------------------------------------------------
  //  The invariant
  // ------------------------------------------------------------------

  /** The gate: approved ids are spent, and every approved order is tracked on its
      own side of an account that is on one side only. */
  ghost predicate GateOk(s: State) {
    && OneSided(s.risk)
    && (forall id | id in s.approved :: Vouched(s, id))
    && s.matched <= s.approved.Keys
  }

  ghost predicate Vouched(s: State, id: OrderId)
    requires id in s.approved
  {
    var o := s.approved[id];
    o.id == id && id in s.risk.seen && Unfilled(o) && id in s.risk.Active(o.side, o.account)
  }

  /** Orders waiting for their match are approved, distinct and not matched yet. */
  ghost predicate WaitingOk(s: State) {
    && (forall t | t in s.threads && s.threads[t].Approved? :: Waits(s, s.threads[t].order))
    && (forall t, u | t in s.threads && u in s.threads && t != u && s.threads[t].Approved? && s.threads[u].Approved? ::
          s.threads[t].order.id != s.threads[u].order.id)
    && (forall t | t in s.threads && s.threads[t].Admitted? :: Unfilled(s.threads[t].order))
  }

  ghost predicate Waits(s: State, o: Order) {
    o.id in s.approved && s.approved[o.id] == o && o.id !in s.matched
  }

  /** Every book is well-formed and uncrossed, and each resting order is an approved
      order of that symbol whose remainder is its quantity minus what the tape shows. */
  ghost predicate BooksOk(s: State) {
    forall symbol | symbol in s.books :: BookOk(s, symbol, s.books[symbol])
  }

  ghost predicate BookOk(s: State, symbol: Symbol, b: Book) {
    && Wf(b)
    && Uncrossed(b)
    && (forall side, x | x in b.Queue(side) :: Accounted(s, symbol, x))
  }

  ghost predicate Accounted(s: State, symbol: Symbol, x: Order) {
    && x.id in s.matched
    && x.id in s.approved
    && SameTicket(x, s.approved[x.id])
    && x.symbol == symbol
    && (x.kind == Limit || x.kind == Ioc)
    && StatusFits(x)
    && x.remaining == x.quantity - FilledOf(s.tape, x.id)
  }

  /** Every trade is between two matched orders on opposite sides, for a positive
      quantity, and no order is filled beyond its quantity. */
  ghost predicate TapeOk(s: State) {
    && (forall i | 0 <= i < |s.tape| :: Between(s, s.tape[i]))
    && (forall id | id in s.approved :: 0 <= FilledOf(s.tape, id) <= Max(0, s.approved[id].quantity))
  }

  ghost predicate Between(s: State, x: Trade) {
    && x.quantity > 0
    && x.aggressorId in s.matched && x.passiveId in s.matched
    && x.aggressorId in s.approved && x.passiveId in s.approved
    && var a, p := s.approved[x.aggressorId], s.approved[x.passiveId];
       && a.account == x.aggressorAccount && p.account == x.passiveAccount
       && a.side == x.aggressorSide && p.side == x.aggressorSide.Opposite()
       && a.symbol == x.symbol && p.symbol == x.symbol
  }

  ghost predicate Inv(s: State) {
    GateOk(s) && WaitingOk(s) && BooksOk(s) && TapeOk(s) && s.stops == map[]
  }

  // ------------------------------------------------------------------
  //  What the invariant says
  // ------------------------------------------------------------------

  /** No trade has the same account on both legs. */
  lemma NoSelfTrade(s: State, i: nat)
    requires Inv(s) && i < |s.tape|
    ensures s.tape[i].aggressorAccount != s.tape[i].passiveAccount
  {
    var x := s.tape[i];
    assert Between(s, x);
    assert Vouched(s, x.aggressorId) && Vouched(s, x.passiveId);
    assert s.risk.Active(Buy, x.aggressorAccount) == {} || s.risk.Active(Sell, x.aggressorAccount) == {};
  }

  // ------------------------------------------------------------------
  //  Tape arithmetic
  // ------------------------------------------------------------------

  lemma {:induction false} FilledOfConcat(a: seq<Trade>, b: seq<Trade>, id: OrderId)
    ensures FilledOf(a + b, id) == FilledOf(a, id) + FilledOf(b, id)
  {
    if a == [] {
      assert a + b == b;
    } else {
      assert (a + b)[1..] == a[1..] + b;
      FilledOfConcat(a[1..], b, id);
    }
  }

  lemma {:induction false} FilledOfUnnamed(ts: seq<Trade>, id: OrderId)
    requires forall i | 0 <= i < |ts| :: ts[i].aggressorId != id && ts[i].passiveId != id
    ensures FilledOf(ts, id) == 0
  {
    if ts != [] { FilledOfUnnamed(ts[1..], id); }
  }

  lemma UnmatchedIsUnfilled(s: State, id: OrderId)
    requires TapeOk(s) && id !in s.matched
    ensures FilledOf(s.tape, id) == 0
  {
    forall i | 0 <= i < |s.tape| ensures s.tape[i].aggressorId != id && s.tape[i].passiveId != id {
      assert Between(s, s.tape[i]);
    }
    FilledOfUnnamed(s.tape, id);
  }

  // ------------------------------------------------------------------
  //  Steps that leave books and tape alone
  // ------------------------------------------------------------------

  ghost predicate Extends(a: map<OrderId, Order>, b: map<OrderId, Order>) {
    forall id | id in a :: id in b && b[id] == a[id]
  }

  /** Approving more orders disturbs neither the books nor the tape. */
  lemma BooksCarryOver(s: State, s': State)
    requires BooksOk(s) && Extends(s.approved, s'.approved) && s'.matched == s.matched
    requires s'.books == s.books && s'.tape == s.tape
    ensures BooksOk(s')
  {
    hide Wf, Uncrossed, StatusFits, SameTicket, FilledOf;
    forall symbol | symbol in s'.books ensures BookOk(s', symbol, s'.books[symbol]) {
      var b := s.books[symbol];
      assert BookOk(s, symbol, b);
      forall side, x | x in b.Queue(side) ensures Accounted(s', symbol, x) {
        assert Accounted(s, symbol, x);
      }
    }
  }

  lemma TapeCarriesOver(s: State, s': State)
    requires TapeOk(s) && Extends(s.approved, s'.approved) && s'.matched == s.matched && s'.tape == s.tape
    requires forall id | id in s'.approved && id !in s.approved :: FilledOf(s.tape, id) == 0
    ensures TapeOk(s')
  {
    hide FilledOf;
    forall i | 0 <= i < |s'.tape| ensures Between(s', s'.tape[i]) {
      assert Between(s, s.tape[i]);
    }
  }

  lemma GateCarriesOver(s: State, s': State)
    requires GateOk(s) && OneSided(s'.risk) && s.risk.seen <= s'.risk.seen && s'.matched == s.matched
    requires forall side, a: Account :: s.risk.Active(side, a) <= s'.risk.Active(side, a)
    requires Extends(s.approved, s'.approved)
    requires forall id | id in s'.approved && id !in s.approved :: Vouched(s', id)
    ensures GateOk(s')
  {
    hide OneSided;
    forall id | id in s'.approved ensures Vouched(s', id) {
      if id in s.approved {
        assert Vouched(s, id);
        var o := s.approved[id];
        assert s.risk.Active(o.side, o.account) <= s'.risk.Active(o.side, o.account);
      }
    }
  }

  // ------------------------------------------------------------------
  //  The risk gate
  // ------------------------------------------------------------------

  lemma RejectedKeepsWaiting(s: State, t: ThreadId, p: Phase, s': State)
    requires WaitingOk(s) && s'.threads == s.threads[t := p] && !p.Approved? && (p.Admitted? ==> Unfilled(p.order))
    requires s'.matched == s.matched && s'.approved == s.approved
    ensures WaitingOk(s')
  {
    forall u | u in s'.threads && s'.threads[u].Approved? ensures Waits(s', s'.threads[u].order) {
      assert Waits(s, s.threads[u].order);
    }
  }

  lemma ApprovedKeepsWaiting(s: State, t: ThreadId, o: Order, s': State)
    requires GateOk(s) && WaitingOk(s) && o.id !in s.approved
    requires s'.threads == s.threads[t := Approved(o)] && s'.approved == s.approved[o.id := o] && s'.matched == s.matched
    ensures WaitingOk(s')
  {
    hide Vouched, OneSided;
    forall u | u in s'.threads && s'.threads[u].Approved?
      ensures Waits(s', s'.threads[u].order)
      ensures u != t ==> s'.threads[u].order.id != o.id
    {
      if u != t { assert Waits(s, s.threads[u].order); }
    }
  }

  /** What a check does to the gate, whatever its verdict. */
  lemma CheckKeepsGate(s: RiskState, halted: bool, o: Order)
    requires OneSided(s)
    ensures var s' := AfterCheck(s, halted, o);
            && OneSided(s')
            && s.seen <= s'.seen
            && (forall side, a: Account :: s.Active(side, a) <= s'.Active(side, a))
            && (Judge(s, halted, o).Approve? ==> o.id in s'.seen && o.id !in s.seen && o.id in s'.Active(o.side, o.account))
  {
    CheckKeepsOneSided(s, halted, o);
    CheckSpendsId(s, halted, o);
    hide Objects, AfterCheck, OneSided, Judge;
    if Judge(s, halted, o).Approve? { ApprovedIsOneSided(s, halted, o); }
  }

  lemma CheckKeepsInv(s: State, t: ThreadId)
    requires Inv(s) && s.At(t).Admitted?
    ensures Inv(CheckStep(s, t))
  {
    var o, s' := s.At(t).order, CheckStep(s, t);
    assert OneSided(s.risk);
    var halted := CircuitBreakers.IsHalted(s.breaker, o.symbol);
    hide AfterCheck, Judge, OneSided, TapeOk, BooksOk, WaitingOk;
    CheckKeepsGate(s.risk, halted, o);
    if Judge(s.risk, halted, o).Approve? {
      ApprovalKeepsInv(s, t, o, s');
    } else {
      hide GateOk;
      RejectedKeepsWaiting(s, t, Idle, s');
      GateCarriesOver(s, s');
      BooksCarryOver(s, s');
      TapeCarriesOver(s, s');
    }
  }

  lemma ApprovalKeepsInv(s: State, t: ThreadId, o: Order, s': State)
    requires Inv(s) && Unfilled(o) && o.id !in s.risk.seen
    requires s' == Moved(s, t, Approved(o)).(risk := s'.risk, approved := s.approved[o.id := o])
    requires OneSided(s'.risk) && s.risk.seen <= s'.risk.seen
    requires o.id in s'.risk.seen && o.id in s'.risk.Active(o.side, o.account)
    requires forall side, a: Account :: s.risk.Active(side, a) <= s'.risk.Active(side, a)
    ensures Inv(s')
  {
    UnseenIsUnapproved(s, o.id);
    hide OneSided, TapeOk, BooksOk, WaitingOk;
    UnmatchedIsUnfilled(s, o.id);
    hide GateOk;
    ApprovedKeepsWaiting(s, t, o, s');
    GateCarriesOver(s, s');
    BooksCarryOver(s, s');
    TapeCarriesOver(s, s');
  }

  lemma UnseenIsUnapproved(s: State, id: OrderId)
    requires GateOk(s) && id !in s.risk.seen
    ensures id !in s.approved
  {
  }

  // ------------------------------------------------------------------
  //  Matching
  // ------------------------------------------------------------------

  lemma BookIsOk(s: State, symbol: Symbol)
    requires BooksOk(s)
    ensures BookOk(s, symbol, s.BookOf(symbol))
  {
    if symbol !in s.books {
      assert s.BookOf(symbol) == EMPTY_BOOK;
    }
  }

  /** Whoever rests has been matched, so a waiting order is new to every book. */
  lemma WaitingIsFresh(s: State, symbol: Symbol, id: OrderId)
    requires BooksOk(s) && id !in s.matched
    ensures id !in BookIds(s.BookOf(symbol))
  {
    BookIsOk(s, symbol);
    var b := s.BookOf(symbol);
    hide Wf, Uncrossed;
    forall x | x in b.bids ensures x.id != id { assert x in b.Queue(Buy) && Accounted(s, symbol, x); }
    forall x | x in b.asks ensures x.id != id { assert x in b.Queue(Sell) && Accounted(s, symbol, x); }
  }

  lemma {:induction false} FilledOfNonNegative(ts: seq<Trade>, id: OrderId)
    requires forall i | 0 <= i < |ts| :: ts[i].quantity > 0
    ensures FilledOf(ts, id) >= 0
  {
    if ts != [] { FilledOfNonNegative(ts[1..], id); }
  }

  lemma {:induction false} QtyOfNonNegative(s: seq<Order>, id: OrderId)
    requires AllPositive(s)
    ensures QtyOf(s, id) >= 0
  {
    if s != [] { QtyOfNonNegative(s[1..], id); }
  }

  /** What a resting order loses in a match is what the new trades show under its id. */
  lemma MatchTakesFromResting(b: Book, o: Order, id: OrderId)
    requires Wf(b) && o.id !in BookIds(b) && id != o.id
    ensures 0 <= FilledOf(Match(b, o).trades, id) == Resting(b, id) - Resting(Match(b, o).book, id)
    ensures 0 <= Resting(Match(b, o).book, id)
  {
    var r := Match(b, o);
    MatchConserves(b, o, id);
    MatchKeepsWf(b, o);
    forall i | 0 <= i < |r.trades| ensures r.trades[i].quantity > 0 { TradeParties(b, o, i); }
    FilledOfNonNegative(r.trades, id);
    QtyOfNonNegative(r.book.bids, id);
    QtyOfNonNegative(r.book.asks, id);
  }

  /** The state after `o` has been matched, as far as the tape is concerned. */
  ghost predicate TapeAfter(s: State, o: Order, s': State) {
    && s'.tape == s.tape + Match(s.BookOf(o.symbol), o).trades
    && s'.matched == s.matched + {o.id}
    && s'.approved == s.approved
  }

  lemma CarriedAfterMatch(s: State, o: Order, s': State, side: Side, x: Order, y: Order)
    requires BooksOk(s) && TapeOk(s) && Waits(s, o) && TapeAfter(s, o, s')
    requires x in Match(s.BookOf(o.symbol), o).book.Queue(side) && y in s.BookOf(o.symbol).Queue(side) && Drained(x, y)
    ensures Accounted(s', o.symbol, x)
  {
    var b, id := s.BookOf(o.symbol), y.id;
    var r := Match(b, o);
    BookIsOk(s, o.symbol);
    assert Accounted(s, o.symbol, y);
    BoundedBelow(s, id);
    DrainedTicket(x, y, s.approved[id]);
    hide Match, Wf, BooksOk, TapeOk, BookOk, FilledOf, Resting, StatusFits, SameTicket, Drained, Waits;
    WaitingIsNew(s, o);
    MatchKeepsWf(b, o);
    FilledOfConcat(s.tape, r.trades, id);
    MatchTakesFromResting(b, o, id);
    RestingPresent(b, side, y);
    RestingPresent(r.book, side, x);
  }

  lemma WaitingIsNew(s: State, o: Order)
    requires BooksOk(s) && Waits(s, o)
    ensures o.id !in BookIds(s.BookOf(o.symbol)) && o.id !in s.matched
  {
    WaitingIsFresh(s, o.symbol, o.id);
  }

  lemma DrainedTicket(x: Order, y: Order, a: Order)
    requires Drained(x, y) && SameTicket(y, a) && StatusFits(y) && y.remaining <= y.quantity
    ensures SameTicket(x, a) && StatusFits(x) && x.id == y.id && x.symbol == y.symbol && x.quantity == y.quantity
    ensures x.kind == y.kind
  {
  }

  lemma LeftoverAfterMatch(s: State, o: Order, s': State)
    requires BooksOk(s) && TapeOk(s) && Waits(s, o) && Unfilled(o) && TapeAfter(s, o, s')
    requires Match(s.BookOf(o.symbol), o).left > 0 && (o.kind == Limit || o.kind == Ioc)
    ensures Accounted(s', o.symbol, o.WithRemaining(Match(s.BookOf(o.symbol), o).left))
  {
    var b := s.BookOf(o.symbol);
    BookIsOk(s, o.symbol);
    hide Match, Wf, BooksOk, TapeOk, FilledOf;
    FilledOfConcat(s.tape, Match(b, o).trades, o.id);
    UnmatchedIsUnfilled(s, o.id);
    MatchFillsIncoming(b, o);
  }

  lemma RestingAfterMatch(s: State, o: Order, s': State, side: Side, x: Order)
    requires BooksOk(s) && TapeOk(s) && Waits(s, o) && Unfilled(o) && TapeAfter(s, o, s')
    requires x in Match(s.BookOf(o.symbol), o).book.Queue(side)
    ensures Accounted(s', o.symbol, x)
  {
    var b := s.BookOf(o.symbol);
    BookIsOk(s, o.symbol);
    MatchCarries(b, o, side, x);
    hide Match, Wf, BooksOk, TapeOk, FilledOf, Drained, Accounted;
    if y :| y in b.Queue(side) && Drained(x, y) {
      CarriedAfterMatch(s, o, s', side, x, y);
    } else {
      LeftoverAfterMatch(s, o, s');
    }
  }

  lemma BoundedBelow(s: State, id: OrderId)
    requires TapeOk(s) && id in s.approved
    ensures 0 <= FilledOf(s.tape, id) <= Max(0, s.approved[id].quantity)
  {
  }

  lemma TradedWith(s: State, o: Order, i: nat) returns (p: Order)
    requires BooksOk(s)
    requires i < |Match(s.BookOf(o.symbol), o).trades|
    ensures var x := Match(s.BookOf(o.symbol), o).trades[i];
            && p in s.BookOf(o.symbol).Queue(o.side.Opposite())
            && x == MakeTrade(o, p, p.price, x.quantity) && x.quantity > 0
            && Accounted(s, o.symbol, p) && p.side == o.side.Opposite()
  {
    var b := s.BookOf(o.symbol);
    BookIsOk(s, o.symbol);
    TradeParties(b, o, i);
    p := b.Queue(o.side.Opposite())[i];
    assert p in b.Queue(o.side.Opposite()) && Accounted(s, o.symbol, p);
  }

  /** An order resting in another symbol's book is not named by the new trades. */
  lemma OtherBooksUntouched(s: State, o: Order, s': State, symbol: Symbol)
    requires BooksOk(s) && Waits(s, o) && TapeAfter(s, o, s') && symbol in s.books && symbol != o.symbol
    ensures BookOk(s', symbol, s.books[symbol])
  {
    var b, trades := s.books[symbol], Match(s.BookOf(o.symbol), o).trades;
    assert BookOk(s, symbol, b);
    hide Match, Wf, BooksOk, FilledOf, Uncrossed;
    forall side, x | x in b.Queue(side) ensures Accounted(s', symbol, x) {
      assert Accounted(s, symbol, x);
      forall i | 0 <= i < |trades| ensures trades[i].aggressorId != x.id && trades[i].passiveId != x.id {
        var p := TradedWith(s, o, i);
      }
      FilledOfUnnamed(trades, x.id);
      FilledOfConcat(s.tape, trades, x.id);
    }
  }

  lemma MatchKeepsBooks(s: State, t: ThreadId)
    requires Inv(s) && s.At(t).Approved?
    ensures BooksOk(MatchStep(s, t))
  {
    var o, s' := s.At(t).order, MatchStep(s, t);
    assert Waits(s, o) && Vouched(s, o.id);
    var b := s.BookOf(o.symbol);
    BookIsOk(s, o.symbol);
    WaitingIsFresh(s, o.symbol, o.id);
    MatchKeepsWf(b, o);
    MatchKeepsUncrossed(b, o);
    hide Match, Wf, Uncrossed, BooksOk, TapeOk, WaitingOk, GateOk, Accounted, Waits;
    forall side, x | x in Match(b, o).book.Queue(side) ensures Accounted(s', o.symbol, x) {
      RestingAfterMatch(s, o, s', side, x);
    }
    assert BookOk(s', o.symbol, s'.books[o.symbol]);
    hide BookOk;
    forall symbol | symbol in s'.books ensures BookOk(s', symbol, s'.books[symbol]) {
      if symbol != o.symbol { OtherBooksUntouched(s, o, s', symbol); }
    }
    AllBooksOk(s');
  }

  lemma AllBooksOk(s: State)
    requires forall symbol | symbol in s.books :: BookOk(s, symbol, s.books[symbol])
    ensures BooksOk(s)
  {
  }

  /** However an order got its fills, they stay within its quantity. */
  lemma MatchKeepsBounds(s: State, o: Order, s': State, id: OrderId)
    requires BooksOk(s) && TapeOk(s) && Waits(s, o) && Unfilled(o) && TapeAfter(s, o, s') && id in s.approved
    ensures 0 <= FilledOf(s'.tape, id) <= Max(0, s.approved[id].quantity)
  {
    var b := s.BookOf(o.symbol);
    var r := Match(b, o);
    BookIsOk(s, o.symbol);
    WaitingIsFresh(s, o.symbol, o.id);
    BoundedBelow(s, id);
    FilledOfConcat(s.tape, r.trades, id);
    hide Match, Wf, BooksOk, TapeOk, FilledOf, Resting;
    if id == o.id {
      UnmatchedIsUnfilled(s, o.id);
      MatchFillsIncoming(b, o);
    } else {
      MatchTakesFromResting(b, o, id);
      RestingIsUnfilledPart(s, o.symbol, id);
    }
  }

  lemma RestingIsUnfilledPart(s: State, symbol: Symbol, id: OrderId)
    requires BooksOk(s) && id in s.approved
    ensures var n := Resting(s.BookOf(symbol), id);
            n == 0 || n == s.approved[id].quantity - FilledOf(s.tape, id)
  {
    var b := s.BookOf(symbol);
    BookIsOk(s, symbol);
    hide Wf, BooksOk, FilledOf, Resting;
    if side, x :| x in b.Queue(side) && x.id == id {
      RestingPresent(b, side, x);
      assert Accounted(s, symbol, x);
    } else {
      forall x | x in b.bids ensures x.id != id { assert x in b.Queue(Buy); }
      forall x | x in b.asks ensures x.id != id { assert x in b.Queue(Sell); }
      RestingAbsent(b, id);
    }
  }

  lemma TradeStaysBetween(s: State, o: Order, s': State, i: nat)
    requires BooksOk(s) && TapeOk(s) && Waits(s, o) && TapeAfter(s, o, s') && i < |s'.tape|
    ensures Between(s', s'.tape[i])
  {
    hide Match, BooksOk, FilledOf;
    if i < |s.tape| {
      assert Between(s, s.tape[i]);
    } else {
      var p := TradedWith(s, o, i - |s.tape|);
    }
  }

  lemma MatchKeepsTape(s: State, t: ThreadId)
    requires Inv(s) && s.At(t).Approved?
    ensures TapeOk(MatchStep(s, t))
  {
    var o, s' := s.At(t).order, MatchStep(s, t);
    assert Waits(s, o) && Vouched(s, o.id);
    var trades := Match(s.BookOf(o.symbol), o).trades;
    hide Match, BooksOk, WaitingOk, GateOk;
    forall i | 0 <= i < |s'.tape| ensures Between(s', s'.tape[i]) {
      TradeStaysBetween(s, o, s', i);
    }
    hide Between;
    forall id | id in s'.approved ensures 0 <= FilledOf(s'.tape, id) <= Max(0, s'.approved[id].quantity) {
      MatchKeepsBounds(s, o, s', id);
    }
  }

  lemma MatchKeepsInv(s: State, t: ThreadId)
    requires Inv(s) && s.At(t).Approved?
    ensures Inv(MatchStep(s, t))
  {
    var o, s' := s.At(t).order, MatchStep(s, t);
    assert Waits(s, o);
    MatchKeepsBooks(s, t);
    MatchKeepsTape(s, t);
    hide Match, BooksOk, TapeOk, OneSided;
    assert GateOk(s') by {
      hide WaitingOk, Waits;
      forall id | id in s'.approved ensures Vouched(s', id) { assert Vouched(s, id); }
    }
    hide GateOk;
    forall u | u in s'.threads && s'.threads[u].Approved? ensures Waits(s', s'.threads[u].order) {
      assert u != t && Waits(s, s.threads[u].order) && s.threads[u].order.id != o.id;
    }
  }

  // ------------------------------------------------------------------
  //  Cancelling
  // ------------------------------------------------------------------

  lemma CancelKeepsBooks(s: State, symbol: Symbol, id: OrderId, s': State)
    requires BooksOk(s) && symbol in s.books
    requires s'.books == s.books[symbol := Cancel(s.books[symbol], id).book]
    requires s'.tape == s.tape && s'.matched == s.matched && s'.approved == s.approved
    ensures BooksOk(s')
  {
    var b := s.books[symbol];
    assert BookOk(s, symbol, b);
    CancelKeepsWf(b, id);
    CancelKeepsUncrossed(b, id);
    WithoutMembers(b.bids, id);
    WithoutMembers(b.asks, id);
    var b' := Cancel(b, id).book;
    assert forall side, x | x in b'.Queue(side) :: x in b.Queue(side);
    hide Cancel, Wf, Uncrossed, FilledOf;
    forall side, x | x in b'.Queue(side) ensures Accounted(s', symbol, x) {
      assert Accounted(s, symbol, x);
    }
    forall other | other in s'.books ensures BookOk(s', other, s'.books[other]) {
      if other != symbol {
        assert BookOk(s, other, s.books[other]);
        forall side, x | x in s.books[other].Queue(side) ensures Accounted(s', other, x) {
          assert Accounted(s, other, x);
        }
      }
    }
  }

  // ------------------------------------------------------------------
  //  Every step, every execution
  // ------------------------------------------------------------------

  /** A step that keeps books, tape, history and the tracked orders keeps the invariant. */
  lemma QuietStepKeepsInv(s: State, s': State)
    requires Inv(s)
    requires s'.books == s.books && s'.tape == s.tape && s'.matched == s.matched && s'.approved == s.approved
    requires s'.stops == s.stops && s'.risk.seen == s.risk.seen
    requires s'.risk.activeBuys == s.risk.activeBuys && s'.risk.activeSells == s.risk.activeSells
    requires WaitingOk(s')
    ensures Inv(s')
  {
    hide WaitingOk, BooksOk, TapeOk;
    forall a: Account, side: Side ensures s'.risk.Active(side, a) == s.risk.Active(side, a) {}
    assert OneSided(s'.risk) by {
      forall a: Account ensures s'.risk.Active(Buy, a) == {} || s'.risk.Active(Sell, a) == {} {
        assert s.risk.Active(Buy, a) == {} || s.risk.Active(Sell, a) == {};
      }
    }
    hide OneSided, GateOk;
    GateCarriesOver(s, s');
    BooksCarryOver(s, s');
    TapeCarriesOver(s, s');
  }

  lemma StepKeepsInv(s: State, e: Event)
    requires Inv(s) && Enabled(s, e)
    ensures Inv(Next(s, e))
  {
    hide Inv, CheckStep, MatchStep, RecordStep, StopStep, Cancel;
    var s' := Next(s, e);
    match e
    case Check(t) => CheckKeepsInv(s, t);
    case DoMatch(t) => MatchKeepsInv(s, t);
    case Record(t, now) => RecordKeepsInv(s, t, now);
    case CheckStops(t, ids) => StopsKeepInv(s, t, ids);
    case CancelOrder(symbol, id) => CancelKeepsInv(s, symbol, id);
    case Submit(t, order) => if !s.halted { MoveKeepsInv(s, t, Admitted(order), s'); }
    case Halt => StillKeepsInv(s, s');
    case Resume => StillKeepsInv(s, s');
    case HaltSymbol(_) => StillKeepsInv(s, s');
    case ResumeSymbol(_) => StillKeepsInv(s, s');
  }

  lemma RecordKeepsInv(s: State, t: ThreadId, now: int)
    requires Inv(s) && s.At(t).Recording? && s.At(t).trades != []
    ensures Inv(RecordStep(s, t, now))
  {
    RecordShape(s, t, now);
    hide Inv, RecordStep;
    var s' := RecordStep(s, t, now);
    MoveKeepsInv(s, t, s'.At(t), s');
  }

  /** Nothing ever puts a stop order into the pending map, so none ever fires. */
  lemma StopsKeepInv(s: State, t: ThreadId, ids: seq<OrderId>)
    requires Inv(s) && s.At(t).Triggering?
    ensures Inv(StopStep(s, t, ids)) && StopStep(s, t, ids) == Moved(s, t, Idle)
  {
    NoStops(s);
    hide Inv;
    MoveKeepsInv(s, t, Idle, StopStep(s, t, ids));
  }

  lemma NoStops(s: State)
    requires Inv(s)
    ensures s.stops == map[]
  {
  }

  lemma CancelKeepsInv(s: State, symbol: Symbol, id: OrderId)
    requires Inv(s)
    ensures Inv(Next(s, CancelOrder(symbol, id)))
  {
    var s' := Next(s, CancelOrder(symbol, id));
    hide TapeOk, BooksOk, OneSided;
    if symbol in s.books {
      CancelKeepsBooks(s, symbol, id, s');
    }
    WaitingCarriesOver(s, s');
    hide GateOk, WaitingOk;
    GateCarriesOver(s, s') by { assert OneSided(s.risk) by { GateIsOneSided(s); } }
    TapeCarriesOver(s, s');
  }

  lemma GateIsOneSided(s: State)
    requires GateOk(s)
    ensures OneSided(s.risk)
  {
  }

  lemma WaitingCarriesOver(s: State, s': State)
    requires WaitingOk(s) && s'.threads == s.threads && s'.approved == s.approved && s'.matched == s.matched
    ensures WaitingOk(s')
  {
    forall u | u in s'.threads && s'.threads[u].Approved? ensures Waits(s', s'.threads[u].order) {
      assert Waits(s, s.threads[u].order);
    }
  }

  lemma StillKeepsInv(s: State, s': State)
    requires Inv(s) && s' == s.(halted := s'.halted, breaker := s'.breaker)
    ensures Inv(s')
  {
    WaitingCarriesOver(s, s');
    QuietStepKeepsInv(s, s');
  }

  /** Moving a thread to a phase other than Approved, with books and gate untouched. */
  lemma MoveKeepsInv(s: State, t: ThreadId, p: Phase, s': State)
    requires Inv(s) && !p.Approved? && (p.Admitted? ==> Unfilled(p.order))
    requires s' == s.(threads := s.threads[t := p], risk := s'.risk, breaker := s'.breaker, cache := s'.cache)
    requires s'.risk == s.risk.(positions := s'.risk.positions, lastPrices := s'.risk.lastPrices)
    ensures Inv(s')
  {
    RejectedKeepsWaiting(s, t, p, s');
    QuietStepKeepsInv(s, s');
  }

  /** Every state of every execution satisfies the invariant. */
  lemma {:induction false} AlwaysInv(states: seq<State>, events: seq<Event>, i: nat)
    requires Execution(states, events) && i < |states|
    ensures Inv(states[i])
  {
    if i == 0 {
      assert forall a: Account, side: Side :: INITIAL.risk.Active(side, a) == {};
    } else {
      AlwaysInv(states, events, i - 1);
      StepKeepsInv(states[i - 1], events[i - 1]);
    }
  }

  // ------------------------------------------------------------------
  //  The guarantees
  // ------------------------------------------------------------------

  /** In every interleaving of checks, matches and cancels, no trade ever has the
      same account on both legs. */
  lemma NeverSelfTrades(states: seq<State>, events: seq<Event>, i: nat, k: nat)
    requires Execution(states, events) && i < |states| && k < |states[i].tape|
    ensures states[i].tape[k].aggressorAccount != states[i].tape[k].passiveAccount
  {
    AlwaysInv(states, events, i);
    NoSelfTrade(states[i], k);
  }

  /** No order is ever filled beyond its quantity, and a resting order shows exactly
      what the tape has left of it. */
  lemma NeverOverfills(states: seq<State>, events: seq<Event>, i: nat, id: OrderId)
    requires Execution(states, events) && i < |states| && id in states[i].approved
    ensures var s := states[i];
            && 0 <= FilledOf(s.tape, id) <= Max(0, s.approved[id].quantity)
            && (forall symbol, side, x | symbol in s.books && x in s.books[symbol].Queue(side) && x.id == id ::
                  && SameTicket(x, s.approved[id])
                  && x.remaining == s.approved[id].quantity - FilledOf(s.tape, id) > 0
                  && StatusFits(x))
  {
    var s := states[i];
    AlwaysInv(states, events, i);
    hide FilledOf;
    forall symbol, side, x | symbol in s.books && x in s.books[symbol].Queue(side) && x.id == id
      ensures SameTicket(x, s.approved[id]) && StatusFits(x)
      ensures x.remaining == s.approved[id].quantity - FilledOf(s.tape, id) > 0
    {
      assert BookOk(s, symbol, s.books[symbol]) && Accounted(s, symbol, x);
      var q := s.books[symbol].Queue(side);
      var j :| 0 <= j < |q| && q[j] == x;
    }
  }

  /** Every book is always well-formed and uncrossed, and holds only its own symbol. */
  lemma NeverCrosses(states: seq<State>, events: seq<Event>, i: nat, symbol: Symbol)
    requires Execution(states, events) && i < |states| && symbol in states[i].books
    ensures Wf(states[i].books[symbol]) && Uncrossed(states[i].books[symbol])
  {
    AlwaysInv(states, events, i);
    assert BookOk(states[i], symbol, states[i].books[symbol]);
  }

  /** What every submitted order satisfies, every admitted or approved order does. */
  ghost predicate AllSubmitted(events: seq<Event>, q: Order -> bool) {
    forall i | 0 <= i < |events| :: events[i].Submit? ==> q(events[i].order)
  }

  ghost predicate AllWithin(s: State, q: Order -> bool) {
    && (forall id | id in s.approved :: q(s.approved[id]))
    && (forall t | t in s.threads && s.threads[t].Admitted? :: q(s.threads[t].order))
  }

  lemma {:induction false} AlwaysWithin(states: seq<State>, events: seq<Event>, i: nat, q: Order -> bool)
    requires Execution(states, events) && AllSubmitted(events, q) && i < |states|
    ensures AllWithin(states[i], q)
  {
    if i > 0 {
      AlwaysWithin(states, events, i - 1, q);
      assert events[i - 1].Submit? ==> q(events[i - 1].order);
      StepKeepsWithin(states[i - 1], events[i - 1], q);
    }
  }

  lemma StepKeepsWithin(s: State, e: Event, q: Order -> bool)
    requires Enabled(s, e) && (e.Submit? ==> q(e.order)) && AllWithin(s, q)
    ensures AllWithin(Next(s, e), q)
  {
    hide CheckStep, MatchStep, RecordStep, StopStep, AllWithin, Cancel;
    var s' := Next(s, e);
    match e
    case Submit(t, order) => MoveKeepsWithin(s, s', t, s'.At(t), q);
    case Check(t) => CheckKeepsWithin(s, t, q);
    case DoMatch(t) => MatchKeepsWithin(s, t, q);
    case Record(t, now) => RecordShape(s, t, now); MoveKeepsWithin(s, s', t, s'.At(t), q);
    case CheckStops(t, ids) => StopsKeepWithin(s, t, ids, q);
    case CancelOrder(_, _) => StillKeepsWithin(s, s', q);
    case Halt => StillKeepsWithin(s, s', q);
    case Resume => StillKeepsWithin(s, s', q);
    case HaltSymbol(_) => StillKeepsWithin(s, s', q);
    case ResumeSymbol(_) => StillKeepsWithin(s, s', q);
  }

  lemma StillKeepsWithin(s: State, s': State, q: Order -> bool)
    requires AllWithin(s, q) && s'.threads == s.threads && s'.approved == s.approved
    ensures AllWithin(s', q)
  {
  }

  lemma MoveKeepsWithin(s: State, s': State, t: ThreadId, p: Phase, q: Order -> bool)
    requires AllWithin(s, q) && s'.approved == s.approved && (p.Admitted? ==> q(p.order))
    requires s'.threads == s.threads || s'.threads == s.threads[t := p]
    ensures AllWithin(s', q)
  {
  }

  lemma CheckKeepsWithin(s: State, t: ThreadId, q: Order -> bool)
    requires AllWithin(s, q) && s.At(t).Admitted?
    ensures AllWithin(CheckStep(s, t), q)
  {
    hide AfterCheck, Judge;
  }

  lemma MatchKeepsWithin(s: State, t: ThreadId, q: Order -> bool)
    requires AllWithin(s, q) && s.At(t).Approved?
    ensures AllWithin(MatchStep(s, t), q)
  {
    hide Match;
  }

  lemma StopsKeepWithin(s: State, t: ThreadId, ids: seq<OrderId>, q: Order -> bool)
    requires AllWithin(s, q) && s.At(t).Triggering?
    ensures AllWithin(StopStep(s, t, ids), q)
  {
    hide MatchAll, Fired, Unfired;
  }

  /** Limit and immediate-or-cancel orders carry a price. */
  predicate CarriesPrice(o: Order) {
    o.kind == Limit || o.kind == Ioc ==> o.price != 0
  }

  /** In an execution whose limit and immediate-or-cancel orders all carry a price,
      no queued order is ever missing from the id index. */
  lemma NeverHides(states: seq<State>, events: seq<Event>, i: nat, symbol: Symbol)
    requires Execution(states, events) && AllSubmitted(events, CarriesPrice) && i < |states| && symbol in states[i].books
    ensures states[i].books[symbol].hidden == {}
  {
    var s, b := states[i], states[i].books[symbol];
    AlwaysInv(states, events, i);
    AlwaysWithin(states, events, i, CarriesPrice);
    assert BookOk(s, symbol, b);
    hide FilledOf, Uncrossed;
    forall x | x in b.bids + b.asks ensures x.price != 0 {
      assert x in b.Queue(if x in b.bids then Buy else Sell);
      assert Accounted(s, symbol, x) && CarriesPrice(s.approved[x.id]);
    }
    assert Priceless(b) == {};
  }

  /** Two approved orders of one account are on the same side: whoever has bought can
      never sell again, on any symbol. */
  lemma AccountsKeepOneSide(states: seq<State>, events: seq<Event>, i: nat, id: OrderId, other: OrderId)
    requires Execution(states, events) && i < |states| && id in states[i].approved && other in states[i].approved
    requires states[i].approved[id].account == states[i].approved[other].account
    ensures states[i].approved[id].side == states[i].approved[other].side
  {
    var s := states[i];
    AlwaysInv(states, events, i);
    assert Vouched(s, id) && Vouched(s, other);
    var a := s.approved[id].account;
    assert s.risk.Active(Buy, a) == {} || s.risk.Active(Sell, a) == {};
  }

  // ------------------------------------------------------------------
  //  Halts
  // ------------------------------------------------------------------

  lemma StepKeepsHalt(s: State, e: Event, symbol: Symbol)
    requires Enabled(s, e) && e != ResumeSymbol(symbol) && CircuitBreakers.IsHalted(s.breaker, symbol)
    ensures CircuitBreakers.IsHalted(Next(s, e).breaker, symbol)
  {
    hide RecordStep, Cancel, Match, AfterCheck, Judge, MatchAll, Fired, Unfired;
    if e.Record? {
      RecordShape(s, e.t, e.now);
    }
  }

  /** Once halted, a symbol stays halted until it is resumed. */
  lemma {:induction false} HaltHolds(states: seq<State>, events: seq<Event>, i: nat, j: nat, symbol: Symbol)
    requires Execution(states, events) && i <= j < |states|
    requires CircuitBreakers.IsHalted(states[i].breaker, symbol)
    requires forall k | i <= k < j :: events[k] != ResumeSymbol(symbol)
    ensures CircuitBreakers.IsHalted(states[j].breaker, symbol)
  {
    if i < j {
      HaltHolds(states, events, i, j - 1, symbol);
      StepOf(states, events, j - 1);
      hide Next, Execution;
      StepKeepsHalt(states[j - 1], events[j - 1], symbol);
    }
  }

  /** While a symbol is halted, every check of an order for it is turned down. */
  lemma HaltRejects(states: seq<State>, events: seq<Event>, i: nat, j: nat, symbol: Symbol)
    requires Execution(states, events) && i <= j < |events| && events[j].Check?
    requires CircuitBreakers.IsHalted(states[i].breaker, symbol)
    requires forall k | i <= k < j :: events[k] != ResumeSymbol(symbol)
    requires var p := states[j].At(events[j].t); p.Admitted? && p.order.symbol == symbol
    ensures states[j + 1].approved == states[j].approved && states[j + 1].At(events[j].t) == Idle
  {
    HaltHolds(states, events, i, j, symbol);
    StepOf(states, events, j);
    hide CheckStep, Execution;
    HaltedIsRejected(states[j], events[j].t);
  }

  lemma HaltedIsRejected(s: State, t: ThreadId)
    requires s.At(t).Admitted? && CircuitBreakers.IsHalted(s.breaker, s.At(t).order.symbol)
    ensures CheckStep(s, t).approved == s.approved && CheckStep(s, t).At(t) == Idle
    ensures Judge(s.risk, true, s.At(t).order) == Reject(CircuitBreakerHalt)
  {
  }
}
