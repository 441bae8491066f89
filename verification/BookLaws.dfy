/** What one call on a book guarantees, whatever the book and the order. */
module BookLaws {
  import opened Orders
  import opened PriceTime
  import opened Books

  // ------------------------------------------------------------------
  //  The book is never crossed
  // ------------------------------------------------------------------

  lemma TakeKeepsUncrossed(b: Book, o: Order, reach: Reach)
    requires Wf(b) && Uncrossed(b)
    ensures Uncrossed(Take(b, o, reach).book)
  {
    var s := b.Queue(o.side.Opposite());
    var rest := Sweep(o, s, o.remaining, reach).rest;
    SweepDescends(o, s, o.remaining, reach);
    var b' := Take(b, o, reach).book;
    forall x, y | x in b'.bids && y in b'.asks ensures x.price < y.price {
      hide Drained, Sweep, Wf;
      if o.side.Buy? {
        var was := DescendantOf(rest, s, y);
        SamePrice(y, was);
      } else {
        var was := DescendantOf(rest, s, x);
        SamePrice(x, was);
      }
    }
  }

  lemma SamePrice(x: Order, was: Order)
    requires Drained(x, was)
    ensures x.price == was.price
  {
  }

  /** What a limit order leaves to rest does not cross what is left of the other side. */
  lemma LeftoverDoesNotCross(b: Book, o: Order, y: Order)
    requires Wf(b) && Take(b, o, WithinLimit).left > 0
    requires y in Take(b, o, WithinLimit).book.Queue(o.side.Opposite())
    ensures !Crosses(o, y.price)
  {
    var s := b.Queue(o.side.Opposite());
    SweepStopsDry(o, s, o.remaining, WithinLimit);
    TakeKeepsWf(b, o, WithinLimit);
    var rest := Take(b, o, WithinLimit).book.Queue(o.side.Opposite());
    var i :| 0 <= i < |rest| && rest[i] == y;
    assert i > 0 ==> !Better(o.side.Opposite(), rest[i].price, rest[0].price);
  }

  lemma LimitKeepsUncrossed(b: Book, o: Order)
    requires Wf(b) && Uncrossed(b)
    ensures Uncrossed(MatchLimit(b, o).book)
  {
    TakeKeepsUncrossed(b, o, WithinLimit);
    var r := Take(b, o, WithinLimit);
    if r.left > 0 {
      InsertIds(r.book.Queue(o.side), o.WithRemaining(r.left));
      forall y | y in r.book.Queue(o.side.Opposite()) ensures !Crosses(o, y.price) {
        LeftoverDoesNotCross(b, o, y);
      }
    }
  }

  lemma CancelKeepsUncrossed(b: Book, id: OrderId)
    requires Uncrossed(b)
    ensures Uncrossed(Cancel(b, id).book)
  {
    WithoutMembers(b.bids, id);
    WithoutMembers(b.asks, id);
  }

  lemma MatchKeepsUncrossed(b: Book, o: Order)
    requires Wf(b) && Uncrossed(b)
    ensures Uncrossed(Match(b, o).book)
  {
    hide Wf, Uncrossed, Take, MatchLimit, Cancel, Available;
    TakeKeepsUncrossed(b, o, AnyPrice);
    LimitKeepsUncrossed(b, o);
    CancelKeepsUncrossed(MatchLimit(b, o).book, o.id);
  }

  // ------------------------------------------------------------------
  //  Fill-or-kill
  // ------------------------------------------------------------------

  /** A fill-or-kill order fills exactly its quantity, within its limit, or touches
      nothing; which of the two is decided by what rests within the limit. */
  lemma FokAllOrNothing(b: Book, o: Order)
    requires Wf(b) && o.kind == Fok && o.remaining == o.quantity
    ensures var r := Match(b, o);
            if 0 <= o.quantity <= Available(b, o) then
              && r == Take(b, o, FokReach(o))
              && Volume(r.trades) == o.quantity
              && (forall t | t in r.trades :: Reaches(o, FokReach(o), t.price))
            else r.trades == [] && r.book == b
  {
    var s := b.Queue(o.side.Opposite());
    if 0 <= o.quantity <= Available(b, o) {
      CountedSweepStaysWithin(o, s, o.remaining, FokReach(o));
      SweepConserves(o, s, o.remaining, AnyPrice, o.id);
    } else {
      SweepFillsDepth(o, s, 0, FokReach(o));
    }
  }

  // ------------------------------------------------------------------
  //  What each kind of order does
  // ------------------------------------------------------------------

  /** The opposite side has been served in price-time order, as far as it is within
      reach: every order trades that the ones ahead of it leave something for, nobody
      else does, and the last price is that of the last trade. */
  ghost predicate Serves(b: Book, o: Order, reach: Reach, r: Outcome) {
    var opp := o.side.Opposite();
    var s := b.Queue(opp);
    && TradesInOrder(o, s, o.remaining, reach, r.trades)
    && r.book.Queue(opp) == Behind(s, o.remaining, |r.trades|)
    && r.left == Unserved(s, o.remaining, |r.trades|)
    && r.book.last == (if r.trades == [] then b.last else Some(r.trades[|r.trades| - 1].price))
  }

  /** Reach in terms of prices. */
  lemma ReachMeans(o: Order, reach: Reach, p: int)
    ensures Reaches(o, reach, p) <==> reach == AnyPrice || (o.side == Buy && p <= o.price) || (o.side == Sell && p >= o.price)
  {
  }

  lemma TakeServes(b: Book, o: Order, reach: Reach)
    requires Wf(b)
    ensures Serves(b, o, reach, Take(b, o, reach))
    ensures Take(b, o, reach).book.Queue(o.side) == b.Queue(o.side)
  {
    var s := b.Queue(o.side.Opposite());
    SweepTradesInOrder(o, s, o.remaining, reach);
    SweepLeavesBehind(o, s, o.remaining, reach);
    hide Sweep, TradesInOrder, Behind, Unserved;
  }

  /** A market order takes whatever there is, and never rests. */
  lemma MarketLaw(b: Book, o: Order)
    requires Wf(b) && o.kind == Market
    ensures Serves(b, o, AnyPrice, Match(b, o)) && Match(b, o).book.Queue(o.side) == b.Queue(o.side)
  {
    TakeServes(b, o, AnyPrice);
  }

  lemma SideIsSorted(b: Book, side: Side)
    requires Wf(b)
    ensures Sorted(side, b.Queue(side))
  {
  }

  lemma LeftIsBeyondDepth(b: Book, o: Order)
    requires Wf(b)
    ensures var r, reached := Take(b, o, WithinLimit), Depth(o, b.Queue(o.side.Opposite()), WithinLimit);
            && (r.left > 0 <==> reached < o.remaining)
            && (reached < o.remaining ==> r.left == o.remaining - reached)
  {
    SweepFillsDepth(o, b.Queue(o.side.Opposite()), o.remaining, WithinLimit);
  }

  /** A limit order takes what is within its limit; if that is not enough, the remainder
      rests behind everybody at least as good and ahead of everybody worse. */
  lemma LimitLaw(b: Book, o: Order) returns (k: nat)
    requires Wf(b) && o.kind == Limit
    ensures var r, q, reached := Match(b, o), b.Queue(o.side), Depth(o, b.Queue(o.side.Opposite()), WithinLimit);
            var x := o.WithRemaining(o.remaining - reached);
            && Serves(b, o, WithinLimit, r)
            && if reached < o.remaining then IsPlace(q, x, k) && r.book.Queue(o.side) == q[..k] + [x] + q[k..]
               else r.book.Queue(o.side) == q
  {
    hide Sweep, TradesInOrder, Behind, Unserved, IsPlace, Insert, Depth, Wf, Place;
    TakeServes(b, o, WithinLimit);
    LeftIsBeyondDepth(b, o);
    var r := Take(b, o, WithinLimit);
    k := Place(b.Queue(o.side), o.WithRemaining(r.left));
    assert Sorted(o.side, b.Queue(o.side)) by { SideIsSorted(b, o.side); }
    InsertAtPlace(b.Queue(o.side), o.WithRemaining(r.left));
  }

  /** An immediate-or-cancel order with a price takes what is within its limit and rests
      nothing. */
  lemma IocLaw(b: Book, o: Order)
    requires Wf(b) && o.kind == Ioc && o.price != 0 && o.id !in BookIds(b)
    ensures Serves(b, o, WithinLimit, Match(b, o)) && Match(b, o).book.Queue(o.side) == b.Queue(o.side)
  {
    TakeServes(b, o, WithinLimit);
    IocOutcome(b, o);
    hide Sweep, TradesInOrder, Behind, Unserved, Cancel;
  }

  /** A fill-or-kill order is served completely from what is within its limit, a price of
      0 being none, or changes nothing. */
  lemma FokLaw(b: Book, o: Order)
    requires Wf(b) && o.kind == Fok && o.remaining == o.quantity
    ensures var r, reach := Match(b, o), if o.price == 0 then AnyPrice else WithinLimit;
            if 0 <= o.quantity <= Depth(o, b.Queue(o.side.Opposite()), reach)
            then Serves(b, o, reach, r) && r.left == 0 && r.book.Queue(o.side) == b.Queue(o.side)
            else r.trades == [] && r.book == b
  {
    FokAllOrNothing(b, o);
    TakeServes(b, o, FokReach(o));
    MatchFillsIncoming(b, o);
    hide Sweep, TradesInOrder, Behind, Unserved;
  }

  /** A stop order never reaches the book. */
  lemma StopLimitLaw(b: Book, o: Order)
    requires o.kind == StopLimit
    ensures Match(b, o).book == b && Match(b, o).trades == []
  {
  }

  // ------------------------------------------------------------------
  //  Immediate-or-cancel
  // ------------------------------------------------------------------

  /** Immediate-or-cancel trades as a limit order does, and rests nothing --
      except when the order has no price and not all of it can be filled. Then
      the removal only reaches the index and the remainder stays in the queue. */
  lemma IocLeavesNoTrace(b: Book, o: Order)
    requires Wf(b) && o.kind == Ioc && o.id !in BookIds(b)
    ensures Match(b, o).trades == MatchLimit(b, o).trades
    ensures Match(b, o).book == Take(b, o, WithinLimit).book
       <==> o.price != 0 || o.remaining <= Depth(o, b.Queue(o.side.Opposite()), WithinLimit)
  {
    SweepFillsDepth(o, b.Queue(o.side.Opposite()), o.remaining, WithinLimit);
    IocOutcome(b, o);
    var r := Take(b, o, WithinLimit);
    if r.left > 0 {
      TakeKeepsWf(b, o, WithinLimit);
      RestThenCancel(r.book, o.WithRemaining(r.left));
    }
  }

  lemma IocOutcome(b: Book, o: Order)
    requires Wf(b) && o.kind == Ioc && o.id !in BookIds(b)
    ensures var r := Take(b, o, WithinLimit);
            Match(b, o).book == if r.left > 0 && o.price == 0
                                then Rest(r.book, o.WithRemaining(r.left)).(hidden := r.book.hidden + {o.id})
                                else r.book
  {
    var r := Take(b, o, WithinLimit);
    TakeKeepsWf(b, o, WithinLimit);
    if r.left > 0 {
      RestThenCancel(r.book, o.WithRemaining(r.left));
    }
  }

  /** Queueing a new order and cancelling it is the identity, unless it has no price. */
  lemma RestThenCancel(b: Book, o: Order)
    requires Wf(b) && o.id !in BookIds(b) && o.remaining > 0
    ensures Cancel(Rest(b, o), o.id) ==
            if o.price != 0 then Removal(b, true) else Removal(Rest(b, o).(hidden := b.hidden + {o.id}), false)
    ensures BookIds(Rest(b, o)) != BookIds(b)
  {
    RestKeepsWf(b, o);
    InsertIds(b.Queue(o.side), o);
    var b' := Rest(b, o);
    assert o in b'.bids + b'.asks;
    PriceOfIsPrice(b', o.id);
    InsertThenRemove(b.Queue(o.side), o);
    HiddenAreQueued(b);
    var other := b.Queue(o.side.Opposite());
    forall i | 0 <= i < |other| ensures other[i].id != o.id { assert other[i] in other; }
    WithoutAbsent(other, o.id);
  }

  lemma HiddenAreQueued(b: Book)
    requires Wf(b)
    ensures b.hidden <= BookIds(b)
  {
    assert Priceless(b) <= BookIds(b);
  }

  // ------------------------------------------------------------------
  //  Cancellation
  // ------------------------------------------------------------------

  /** Cancelling the `k`-th order of a side takes out that order and moves nobody else. */
  lemma CancelCutsOut(b: Book, side: Side, k: nat)
    requires Wf(b) && k < |b.Queue(side)|
    requires b.Queue(side)[k].price != 0
    ensures var s := b.Queue(side);
            Cancel(b, s[k].id) == Removal(b.WithQueue(side, s[..k] + s[k + 1..]), true)
  {
    var s, other := b.Queue(side), b.Queue(side.Opposite());
    var id := s[k].id;
    assert s[k] in b.bids + b.asks && s[k] in s;
    PriceOfIsPrice(b, id);
    WithoutCutsOut(s, k);
    forall i | 0 <= i < |other| ensures other[i].id != id { assert other[i] in other; }
    WithoutAbsent(other, id);
  }

  /** A cancel succeeds exactly for ids that rest with a price; only a resting
      order without a price stays queued after its cancel. */
  lemma CancelRemovesIff(b: Book, id: OrderId)
    requires Wf(b)
    ensures Cancel(b, id).removed <==> id in BookIds(b) - Priceless(b)
    ensures id in BookIds(Cancel(b, id).book) <==> id in Priceless(b)
    ensures Cancel(b, id).book.hidden == if id in Priceless(b) then b.hidden + {id} else b.hidden
  {
    PriceOfIsPrice(b, id);
    HiddenAreQueued(b);
    assert Priceless(b) <= BookIds(b);
    WithoutMembers(b.bids, id);
    WithoutMembers(b.asks, id);
  }

  // ------------------------------------------------------------------
  //  Who is in the book, and who traded
  // ------------------------------------------------------------------

  function ReachOf(o: Order): Reach {
    if o.kind == Limit || o.kind == Ioc then WithinLimit else AnyPrice
  }

  /** Whatever its kind, an order either sweeps the opposite side or leaves it alone. */
  lemma MatchSweepsOrNothing(b: Book, o: Order)
    ensures var r, s, opp := Match(b, o), Sweep(o, b.Queue(o.side.Opposite()), o.remaining, ReachOf(o)), o.side.Opposite();
            || (r.trades == s.trades && r.left == s.left)
            || (r.trades == [] && r.book == b)
  {
  }

  /** No worse than the order's limit. */
  predicate Acceptable(o: Order, price: int) {
    if o.side == Buy then price <= o.price else price >= o.price
  }

  /** Trade `i` is with the `i`-th resting order, at that order's price. */
  lemma TradeParties(b: Book, o: Order, i: nat)
    requires Wf(b) && i < |Match(b, o).trades|
    ensures var t, s := Match(b, o).trades[i], b.Queue(o.side.Opposite());
            && i < |s|
            && t == MakeTrade(o, s[i], s[i].price, t.quantity)
            && 0 < t.quantity <= s[i].remaining
            && t.price == s[i].price && t.symbol == o.symbol
            && t.aggressorId == o.id && t.aggressorAccount == o.account && t.aggressorSide == o.side
            && t.passiveId == s[i].id && t.passiveAccount == s[i].account
            && (o.kind == Limit || o.kind == Ioc ==> Acceptable(o, t.price))
            && (o.kind == Fok && o.remaining == o.quantity && o.price != 0 ==> Acceptable(o, t.price))
  {
    var s := b.Queue(o.side.Opposite());
    hide Match, Sweep, Available, Take, Depth;
    if o.kind == Fok && o.remaining == o.quantity {
      FokAllOrNothing(b, o);
      assert Match(b, o).trades[i] in Match(b, o).trades;
    }
    MatchSweepsOrNothing(b, o);
    SweepTradesInOrder(o, s, o.remaining, ReachOf(o));
    assert ServedAt(o, s, o.remaining, ReachOf(o), i, Match(b, o).trades[i]);
  }

  /** An order that rests after a call was there before, perhaps with more left, or
      is what the incoming order could not fill. */
  ghost predicate Carried(b: Book, o: Order, side: Side, x: Order) {
    || (exists y :: y in b.Queue(side) && Drained(x, y))
    || (side == o.side && (o.kind == Limit || o.kind == Ioc) && Match(b, o).left > 0
        && x == o.WithRemaining(Match(b, o).left))
  }

  lemma TakeCarries(b: Book, o: Order, reach: Reach, side: Side, x: Order)
    requires Wf(b) && x in Take(b, o, reach).book.Queue(side)
    ensures exists y :: y in b.Queue(side) && Drained(x, y)
  {
    if side == o.side {
      assert Drained(x, x);
    } else {
      var s := b.Queue(side);
      var rest := Sweep(o, s, o.remaining, reach).rest;
      SweepDescends(o, s, o.remaining, reach);
      hide Drained, Sweep;
      var y := DescendantOf(rest, s, x);
    }
  }

  lemma LimitCarries(b: Book, o: Order, side: Side, x: Order)
    requires Wf(b) && x in MatchLimit(b, o).book.Queue(side)
    ensures || (exists y :: y in b.Queue(side) && Drained(x, y))
            || (side == o.side && MatchLimit(b, o).left > 0 && x == o.WithRemaining(MatchLimit(b, o).left))
  {
    var r := Take(b, o, WithinLimit);
    if r.left > 0 {
      InsertIds(r.book.Queue(o.side), o.WithRemaining(r.left));
    }
    if x in r.book.Queue(side) {
      TakeCarries(b, o, WithinLimit, side, x);
    }
  }

  lemma MatchCarries(b: Book, o: Order, side: Side, x: Order)
    requires Wf(b) && x in Match(b, o).book.Queue(side)
    ensures Carried(b, o, side, x)
  {
    match o.kind
    case Market => TakeCarries(b, o, AnyPrice, side, x);
    case Limit => LimitCarries(b, o, side, x);
    case Ioc =>
      WithoutMembers(MatchLimit(b, o).book.Queue(side), o.id);
      LimitCarries(b, o, side, x);
    case Fok =>
      if x in b.Queue(side) { assert Drained(x, x); } else { TakeCarries(b, o, AnyPrice, side, x); }
    case StopLimit => assert Drained(x, x);
  }

  // ------------------------------------------------------------------
  //  Conservation
  // ------------------------------------------------------------------

  /** Quantity resting under an id on either side. */
  function Resting(b: Book, id: OrderId): int {
    QtyOf(b.bids, id) + QtyOf(b.asks, id)
  }

  lemma {:induction false} QtyOfAbsent(s: seq<Order>, id: OrderId)
    requires id !in Ids(s)
    ensures QtyOf(s, id) == 0
  {
    if s != [] {
      assert s[0] in s && forall x | x in s[1..] :: x in s;
      QtyOfAbsent(s[1..], id);
    }
  }

  lemma {:induction false} QtyOfPresent(s: seq<Order>, x: Order)
    requires x in s && DistinctIds(s)
    ensures QtyOf(s, x.id) == x.remaining
  {
    if s[0] == x {
      forall y | y in s[1..] ensures y.id != x.id {
        var j :| 0 <= j < |s[1..]| && s[1..][j] == y;
        assert s[0].id != s[j + 1].id;
      }
      QtyOfAbsent(s[1..], x.id);
    } else {
      assert x in s[1..];
      QtyOfPresent(s[1..], x);
      var j :| 0 <= j < |s[1..]| && s[1..][j] == x;
      assert s[0].id != s[j + 1].id;
    }
  }

  /** What an order rests with is what `Resting` counts. */
  lemma RestingPresent(b: Book, side: Side, x: Order)
    requires Wf(b) && x in b.Queue(side)
    ensures Resting(b, x.id) == x.remaining
  {
    QtyOfPresent(b.Queue(side), x);
    assert x.id in Ids(b.Queue(side));
    QtyOfAbsent(b.Queue(side.Opposite()), x.id);
  }

  lemma RestingAbsent(b: Book, id: OrderId)
    requires id !in BookIds(b)
    ensures Resting(b, id) == 0
  {
    QtyOfAbsent(b.bids, id);
    QtyOfAbsent(b.asks, id);
  }

  lemma TakeConserves(b: Book, o: Order, reach: Reach, id: OrderId)
    requires Wf(b) && id != o.id
    ensures var r := Take(b, o, reach); Resting(r.book, id) + FilledOf(r.trades, id) == Resting(b, id)
  {
    SweepConserves(o, b.Queue(o.side.Opposite()), o.remaining, reach, id);
  }

  lemma LimitConserves(b: Book, o: Order, id: OrderId)
    requires Wf(b) && id != o.id
    ensures var r := MatchLimit(b, o); Resting(r.book, id) + FilledOf(r.trades, id) == Resting(b, id)
  {
    TakeConserves(b, o, WithinLimit, id);
    var r := Take(b, o, WithinLimit);
    InsertQty(r.book.Queue(o.side), o.WithRemaining(r.left), id);
  }

  lemma CancelConserves(b: Book, gone: OrderId, id: OrderId)
    requires id != gone
    ensures Resting(Cancel(b, gone).book, id) == Resting(b, id)
  {
    WithoutQty(b.bids, gone, id);
    WithoutQty(b.asks, gone, id);
  }

  /** For every other order, what it lost in the book is what the trades show. */
  lemma MatchConserves(b: Book, o: Order, id: OrderId)
    requires Wf(b) && id != o.id
    ensures var r := Match(b, o); Resting(r.book, id) + FilledOf(r.trades, id) == Resting(b, id)
  {
    match o.kind
    case Market => TakeConserves(b, o, AnyPrice, id);
    case Fok => TakeConserves(b, o, AnyPrice, id);
    case Limit => LimitConserves(b, o, id);
    case Ioc =>
      LimitConserves(b, o, id);
      CancelConserves(MatchLimit(b, o).book, o.id, id);
    case StopLimit =>
  }

  /** The trades of one call never exceed what the incoming order wanted, and add up
      to what it got. */
  lemma MatchFillsIncoming(b: Book, o: Order)
    requires Wf(b)
    ensures var r := Match(b, o);
            && FilledOf(r.trades, o.id) == Volume(r.trades)
            && 0 <= Volume(r.trades) <= Max(0, o.remaining)
            && r.left == o.remaining - Volume(r.trades)
  {
    var s := b.Queue(o.side.Opposite());
    MatchSweepsOrNothing(b, o);
    SweepConserves(o, s, o.remaining, ReachOf(o), o.id);
    SweepFillsDepth(o, s, o.remaining, ReachOf(o));
  }
}
