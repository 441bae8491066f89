/** The order book as the program keeps it: two ordered maps of FIFO queues, an
    index by order id and the last trade price, all updated in place. Each method
    is proved to do to the flat view what `Books` says. */
module OrderBooks {
  import opened Orders
  import opened PriceTime
  import opened Books
  import opened Levels
  import opened Filling
  import opened Snapshots

  /** The side an indexed order rests on holds it at the level of its price. */
  lemma LocateOrder(b: Book, x: Order, ls: seq<Level>)
    requires Wf(b) && (x in b.bids || x in b.asks)
    requires Ordered(x.side, ls) && Flatten(ls) == b.Queue(x.side)
    ensures Find(ls, x.price) < |ls| && x in ls[Find(ls, x.price)].queue
    ensures x.id !in Ids(b.Queue(x.side.Opposite()))
  {
    if x in b.bids {
      var i :| 0 <= i < |b.bids| && b.bids[i] == x;
      assert x.id in Ids(b.bids);
    } else {
      var i :| 0 <= i < |b.asks| && b.asks[i] == x;
      assert x.id in Ids(b.asks);
    }
    hide Wf;
    FindFinds(x.side, ls, x);
  }

  lemma EraseFromLevel(side: Side, ls: seq<Level>, k: nat, x: Order, other: seq<Order>)
    requires Canonical(side, ls) && DistinctIds(Flatten(ls)) && k < |ls| && x in ls[k].queue
    requires x.id !in Ids(other)
    ensures var ls' := Store(ls, k, Without(ls[k].queue, x.id));
            Canonical(side, ls') && Flatten(ls') == Without(Flatten(ls), x.id)
    ensures Without(other, x.id) == other
  {
    EraseRemoves(ls, k, x);
    WithoutMembers(ls[k].queue, x.id);
    assert LevelOk(side, ls[k]);
    var queue := Without(ls[k].queue, x.id);
    forall i | 0 <= i < |queue| ensures queue[i].price == ls[k].price && queue[i].side == side && queue[i].remaining > 0 {
      assert queue[i] in ls[k].queue;
    }
    StoreCanonical(side, ls, k, queue);
    forall i | 0 <= i < |other| ensures other[i].id != x.id { assert other[i] in other; }
    WithoutAbsent(other, x.id);
  }

  lemma NothingInReach(o: Order, side: Side, ls: seq<Level>, i: nat, reach: Reach)
    requires Canonical(side, ls) && i <= |ls| && (i < |ls| ==> !Reaches(o, reach, ls[i].price))
    ensures Depth(o, Flatten(ls[i..]), reach) == 0
  {
    if i < |ls| {
      assert Canonical(side, ls[i..]);
      BestIsFirst(side, ls[i..]);
    }
  }

  lemma LevelInReach(o: Order, side: Side, ls: seq<Level>, i: nat, reach: Reach)
    requires Canonical(side, ls) && i < |ls| && Reaches(o, reach, ls[i].price)
    ensures forall j | 0 <= j < |ls[i].queue| :: Reaches(o, reach, ls[i].queue[j].price)
    ensures Flatten(ls[i..]) == ls[i].queue + Flatten(ls[i + 1..])
  {
    assert LevelOk(side, ls[i]);
    assert ls[i..][1..] == ls[i + 1..];
  }

  lemma DepthOfFirst(o: Order, queue: seq<Order>, tail: seq<Order>, reach: Reach)
    requires queue != [] && Reaches(o, reach, queue[0].price)
    ensures Depth(o, queue + tail, reach) == queue[0].remaining + Depth(o, queue[1..] + tail, reach)
  {
    assert (queue + tail)[1..] == queue[1..] + tail;
  }

  lemma FrontLevelOk(side: Side, l: Level, fill: int)
    requires LevelOk(side, l) && l.queue != [] && 0 < fill
    ensures LevelOk(side, Level(l.price, FrontFilled(l.queue, fill)))
  {
  }

  lemma BestOfLevels(side: Side, ls: seq<Level>)
    requires Canonical(side, ls)
    ensures ls == [] <==> Flatten(ls) == []
    ensures ls != [] ==> (exists x :: x in Flatten(ls) && x.price == ls[0].price)
                         && (forall x | x in Flatten(ls) :: !Better(side, x.price, ls[0].price))
  {
    FlattenOk(side, ls);
    if ls != [] {
      BestIsFirst(side, ls);
      assert Flatten(ls)[0] in Flatten(ls);
    }
  }

  /** The flat view of a book whose `side` is `ls` and whose other side is `other`. */
  ghost function ViewFrom(side: Side, ls: seq<Level>, other: seq<Level>, index: map<OrderId, Order>,
                          last: Option<int>): Book
  {
    var b, a := if side.Buy? then Flatten(ls) else Flatten(other), if side.Buy? then Flatten(other) else Flatten(ls);
    Book(b, a, Ids(b) + Ids(a) - index.Keys, last)
  }

  lemma ViewFromEither(side: Side, ls: seq<Level>, other: seq<Level>, index: map<OrderId, Order>, last: Option<int>)
    ensures ViewFrom(side, ls, other, index, last) == ViewFrom(side.Opposite(), other, ls, index, last)
  {
  }

  /** What one fill at the front of the best level does to the view. */
  lemma FrontFillView(o: Order, left: int, ls: seq<Level>, own: seq<Level>, index: map<OrderId, Order>,
                      last: Option<int>)
    requires left > 0 && ls != [] && ls[0].queue != [] && LevelOk(o.side.Opposite(), ls[0])
    requires var was := ViewFrom(o.side.Opposite(), ls, own, index, last); Wf(was) && Indexed(index, was)
    ensures var was := ViewFrom(o.side.Opposite(), ls, own, index, last);
            var fill := Min(left, ls[0].queue[0].remaining);
            var ls' := [Level(ls[0].price, FrontFilled(ls[0].queue, fill))] + ls[1..];
            var index' := Reindex(index, ls[0].queue[0], fill);
            var b := ViewFrom(o.side.Opposite(), ls', own, index', Some(ls[0].price));
            && b == FillHead(was, o, left).book && Wf(b) && Indexed(index', b)
            && FillHead(was, o, left).trades == [MakeTrade(o, ls[0].queue[0], ls[0].price, fill)]
            && FillHead(was, o, left).left == left - fill
  {
    var opp := o.side.Opposite();
    var was := ViewFrom(opp, ls, own, index, last);
    var queue, t := ls[0].queue, Flatten(ls[1..]);
    FlattenHead(ls);
    FillHeadKeepsWf(was, o, left);
    FillHeadKeepsIndex(index, was, o, left);
    FillHeadInFront(was, o, left, queue, t);
    FlattenCons(Level(ls[0].price, FrontFilled(queue, Min(left, queue[0].remaining))), ls[1..]);
    assert FillHead(was, o, left).book.Queue(o.side) == was.Queue(o.side);
    hide Wf, Indexed, FillHead, Flatten;
  }

  /** The inner loop of both matching loops: fill against the front of one level
      until the order or the level is exhausted. `tail`, `own` and `b0` are the rest
      of the book and the book before the call. */
  method DrainQueue(o: Order, left0: int, trades0: seq<Trade>, price: int, queue0: seq<Order>,
                    index0: map<OrderId, Order>, last0: Option<int>,
                    ghost tail: seq<Level>, ghost own: seq<Level>, ghost b0: Book, ghost reach: Reach)
    returns (left: int, trades: seq<Trade>, queue: seq<Order>, index: map<OrderId, Order>, last: Option<int>)
    requires Reaches(o, reach, price)
    requires Draining(o, left0, trades0, price, queue0, index0, last0, tail, own, b0, reach)
    ensures Draining(o, left, trades, price, queue, index, last, tail, own, b0, reach)
    ensures left <= 0 || queue == []
  {
    hide Draining, Reaches;
    left, trades, queue, index, last := left0, trades0, queue0, index0, last0;
    while left > 0 && queue != []
      invariant Draining(o, left, trades, price, queue, index, last, tail, own, b0, reach)
      decreases |queue|, left
    {
      DrainingAfterFill(o, left, trades, price, queue, index, last, tail, own, b0, reach);
      var passive := queue[0];
      var fill := Min(left, passive.remaining);
      trades := trades + [MakeTrade(o, passive, price, fill)];
      last := Some(price);
      left := left - fill;
      var updated := passive.WithRemaining(passive.remaining - fill);
      queue := queue[1..];
      if updated.remaining > 0 {
        queue := [updated] + queue;
        index := index[updated.id := updated];
      } else {
        index := index - {passive.id};
      }
    }
  }

  /** The state of the inner loop: a consistent book, and the sweep of `b0` under way. */
  ghost predicate Draining(o: Order, left: int, trades: seq<Trade>, price: int, queue: seq<Order>,
                           index: map<OrderId, Order>, last: Option<int>,
                           tail: seq<Level>, own: seq<Level>, b0: Book, reach: Reach)
  {
    var opp := o.side.Opposite();
    var v := ViewFrom(opp, [Level(price, queue)] + tail, own, index, last);
    && LevelOk(opp, Level(price, queue))
    && Wf(v)
    && Indexed(index, v)
    && Resumes(b0, o, reach, v, trades, left)
  }

  lemma DrainingAfterFill(o: Order, left: int, trades: seq<Trade>, price: int, queue: seq<Order>,
                          index: map<OrderId, Order>, last: Option<int>,
                          tail: seq<Level>, own: seq<Level>, b0: Book, reach: Reach)
    requires Draining(o, left, trades, price, queue, index, last, tail, own, b0, reach)
    requires left > 0 && queue != [] && Reaches(o, reach, price)
    ensures queue[0].remaining > 0
    ensures var fill := Min(left, queue[0].remaining);
            Draining(o, left - fill, trades + [MakeTrade(o, queue[0], price, fill)], price, FrontFilled(queue, fill),
                     Reindex(index, queue[0], fill), Some(price), tail, own, b0, reach)
  {
    var opp := o.side.Opposite();
    var ls := [Level(price, queue)] + tail;
    var v := ViewFrom(opp, ls, own, index, last);
    var fill := Min(left, queue[0].remaining);
    FlattenCons(Level(price, queue), tail);
    assert ls[1..] == tail && v.Queue(opp)[0] == queue[0] && queue[0].remaining > 0 && queue[0].price == price;
    hide Wf, Indexed, Resumes, Flatten, FillHead, ViewFrom, Reaches;
    FrontFillView(o, left, ls, own, index, last);
    FrontLevelOk(opp, Level(price, queue), fill);
    ResumesAfterFill(b0, o, reach, v, trades, left);
  }

  lemma DrainingStarts(o: Order, left: int, trades: seq<Trade>, ls: seq<Level>,
                       index: map<OrderId, Order>, last: Option<int>, own: seq<Level>, b0: Book, reach: Reach)
    requires ls != [] && Canonical(o.side.Opposite(), ls)
    requires var v := ViewFrom(o.side.Opposite(), ls, own, index, last);
             Wf(v) && Indexed(index, v) && Resumes(b0, o, reach, v, trades, left)
    ensures Draining(o, left, trades, ls[0].price, ls[0].queue, index, last, ls[1..], own, b0, reach)
  {
    hide Wf, Indexed, Resumes, ViewFrom;
    assert LevelOk(o.side.Opposite(), ls[0]);
    assert ls == [Level(ls[0].price, ls[0].queue)] + ls[1..];
  }

  /** A level that ended up empty does not show in the view. */
  lemma DrainingEnds(o: Order, left: int, trades: seq<Trade>, price: int, queue: seq<Order>,
                     index: map<OrderId, Order>, last: Option<int>,
                     tail: seq<Level>, own: seq<Level>, b0: Book, reach: Reach)
    requires Draining(o, left, trades, price, queue, index, last, tail, own, b0, reach)
    ensures LevelOk(o.side.Opposite(), Level(price, queue))
    ensures var ls := if queue == [] then tail else [Level(price, queue)] + tail;
            var v := ViewFrom(o.side.Opposite(), ls, own, index, last);
            Wf(v) && Indexed(index, v) && Resumes(b0, o, reach, v, trades, left)
  {
    hide Wf, Indexed, Resumes, LevelOk, ViewFrom;
    EmptyLevelIsUnseen(o.side.Opposite(), price, queue, tail, own, index, last);
  }

  lemma EmptyLevelIsUnseen(side: Side, price: int, queue: seq<Order>, tail: seq<Level>, other: seq<Level>,
                           index: map<OrderId, Order>, last: Option<int>)
    ensures ViewFrom(side, if queue == [] then tail else [Level(price, queue)] + tail, other, index, last)
         == ViewFrom(side, [Level(price, queue)] + tail, other, index, last)
  {
    FlattenCons(Level(price, queue), tail);
    hide Flatten, Ids;
    if queue == [] {
      assert queue + Flatten(tail) == Flatten(tail);
    }
  }

  lemma IndexedOrder(index: map<OrderId, Order>, b: Book, id: OrderId)
    requires Wf(b) && Indexed(index, b) && id in index
    ensures index[id].id == id
    ensures index[id].price == 0 ==> Cancel(b, id) == Removal(b.(hidden := b.hidden + {id}), false)
    ensures index[id].price != 0 ==>
              Cancel(b, id) == Removal(b.(bids := Without(b.bids, id), asks := Without(b.asks, id)), true)
  {
    CancelKeepsIndex(index, b, id);
  }

  lemma CancelUnindexed(index: map<OrderId, Order>, b: Book, id: OrderId)
    requires Wf(b) && Indexed(index, b) && id !in index
    ensures Cancel(b, id) == Removal(b, false)
  {
    CancelKeepsIndex(index, b, id);
  }

  lemma UnpricedView(bids: seq<Level>, asks: seq<Level>, index: map<OrderId, Order>, last: Option<int>, id: OrderId)
    requires var v := ViewFrom(Buy, bids, asks, index, last); Wf(v) && Indexed(index, v)
    requires id in index && index[id].price == 0
    ensures Cancel(ViewFrom(Buy, bids, asks, index, last), id) ==
            Removal(ViewFrom(Buy, bids, asks, index - {id}, last), false)
  {
    var v := ViewFrom(Buy, bids, asks, index, last);
    IndexedOrder(index, v, id);
    CancelKeepsIndex(index, v, id);
  }

  /** Erasing an indexed order from the level of its price is the cancellation. */
  lemma EraseView(side: Side, ls: seq<Level>, other: seq<Level>, index: map<OrderId, Order>, last: Option<int>, x: Order)
    requires Canonical(side, ls) && x.side == side && x.price != 0 && x.id in index && index[x.id] == x
    requires var v := ViewFrom(side, ls, other, index, last); Wf(v) && Indexed(index, v)
    ensures var k := Find(ls, x.price);
            && k < |ls|
            && Canonical(side, Store(ls, k, Without(ls[k].queue, x.id)))
            && Cancel(ViewFrom(side, ls, other, index, last), x.id) ==
               Removal(ViewFrom(side, Store(ls, k, Without(ls[k].queue, x.id)), other, index - {x.id}, last), true)
  {
    var v := ViewFrom(side, ls, other, index, last);
    LocateOrder(v, x, ls);
    EraseFromLevel(side, ls, Find(ls, x.price), x, Flatten(other));
    IndexedOrder(index, v, x.id);
    CancelKeepsIndex(index, v, x.id);
    hide Wf, Indexed, Flatten, Canonical, Without, Cancel;
  }

  class OrderBook {
    const symbol: Symbol
    var bids: seq<Level>
    var asks: seq<Level>
    var orderIndex: map<OrderId, Order>
    var lastTradePrice: Option<int>

    /** Both sides read front to back; hidden is what the index misses. */
    ghost function View(): Book
      reads this
    {
      ViewFrom(Buy, bids, asks, orderIndex, lastTradePrice)
    }

    ghost predicate Valid()
      reads this
    {
      Canonical(Buy, bids) && Canonical(Sell, asks) && Consistent()
    }

    ghost predicate Consistent()
      reads this
    {
      Wf(View()) && Indexed(orderIndex, View())
    }

    function LevelsOn(side: Side): seq<Level>
      reads this
    {
      if side.Buy? then bids else asks
    }

    constructor (symbol: Symbol)
      ensures Valid() && View() == EMPTY_BOOK && this.symbol == symbol
    {
      this.symbol := symbol;
      bids, asks, orderIndex, lastTradePrice := [], [], map[], None;
    }

    method StoreLevels(side: Side, ls: seq<Level>)
      modifies this`bids, this`asks
      ensures LevelsOn(side) == ls && LevelsOn(side.Opposite()) == old(LevelsOn(side.Opposite()))
    {
      if side.Buy? { bids := ls; } else { asks := ls; }
    }

    /** Consume the best level of the opposite side and erase it once it is empty. */
    method FillBestLevel(o: Order, left0: int, trades0: seq<Trade>, ghost b0: Book, ghost reach: Reach)
      returns (left: int, trades: seq<Trade>)
      requires Valid() && left0 > 0 && LevelsOn(o.side.Opposite()) != []
      requires Reaches(o, reach, LevelsOn(o.side.Opposite())[0].price)
      requires Resumes(b0, o, reach, View(), trades0, left0)
      modifies this
      ensures Valid() && Resumes(b0, o, reach, View(), trades, left)
      ensures |LevelsOn(o.side.Opposite())| + (if left > 0 then 1 else 0) <= |old(LevelsOn(o.side.Opposite()))|
    {
      hide Resumes, Wf, Indexed, Flatten, Reaches, Canonical, LevelOk, ViewFrom, Draining;
      var opp := o.side.Opposite();
      ghost var own := LevelsOn(o.side);
      var ls := LevelsOn(opp);
      var price, queue, tail := ls[0].price, ls[0].queue, ls[1..];
      ViewFromEither(opp, ls, own, orderIndex, lastTradePrice);
      DrainingStarts(o, left0, trades0, ls, orderIndex, lastTradePrice, own, b0, reach);
      left, trades, queue, orderIndex, lastTradePrice :=
        DrainQueue(o, left0, trades0, price, queue, orderIndex, lastTradePrice, tail, own, b0, reach);
      ls := if queue == [] then tail else [Level(price, queue)] + tail;
      DrainingEnds(o, left, trades, price, queue, orderIndex, lastTradePrice, tail, own, b0, reach);
      StillCanonical(opp, price, LevelsOn(opp), queue, ls);
      StoreLevels(opp, ls);
      ViewFromEither(opp, ls, own, orderIndex, lastTradePrice);
    }

    method MatchMarket(o: Order) returns (trades: seq<Trade>)
      requires Valid()
      modifies this
      ensures Valid()
      ensures var r := Take(old(View()), o, AnyPrice); View() == r.book && trades == r.trades
    {
      hide Resumes, Wf, Indexed, Canonical, Take;
      trades := [];
      var left := o.remaining;
      ghost var b0 := View();
      ResumesAtStart(b0, o, AnyPrice);
      while left > 0 && LevelsOn(o.side.Opposite()) != []
        invariant Valid()
        invariant Resumes(b0, o, AnyPrice, View(), trades, left)
        decreases |LevelsOn(o.side.Opposite())|, left
      {
        left, trades := FillBestLevel(o, left, trades, b0, AnyPrice);
      }
      ResumesAtEnd(b0, o, AnyPrice, View(), trades, left);
    }

    method InsertIntoBook(o: Order)
      requires Valid() && o.remaining > 0 && o.id !in BookIds(View())
      modifies this
      ensures Valid() && View() == Rest(old(View()), o)
    {
      ghost var was := View();
      RestKeepsWf(was, o);
      RestKeepsIndex(orderIndex, was, o);
      PushBackInserts(LevelsOn(o.side), o);
      PushBackCanonical(LevelsOn(o.side), o);
      hide Wf, Indexed, Flatten, Canonical, Insert;
      StoreLevels(o.side, PushBack(LevelsOn(o.side), o));
      orderIndex := orderIndex[o.id := o];
      assert View() == Rest(was, o);
    }

    method MatchLimit(o: Order) returns (trades: seq<Trade>)
      requires Valid() && o.id !in BookIds(View())
      modifies this
      ensures Valid()
      ensures var r := Books.MatchLimit(old(View()), o); View() == r.book && trades == r.trades
    {
      hide Resumes, Wf, Indexed, Canonical, Take, Sweep, Rest;
      trades := [];
      var left := o.remaining;
      var opp := o.side.Opposite();
      ghost var b0 := View();
      ResumesAtStart(b0, o, WithinLimit);
      while left > 0 && LevelsOn(opp) != []
        invariant Valid()
        invariant Resumes(b0, o, WithinLimit, View(), trades, left)
        decreases |LevelsOn(opp)|, left
      {
        if !Crosses(o, LevelsOn(opp)[0].price) {
          BestIsFirst(opp, LevelsOn(opp));
          break;
        }
        left, trades := FillBestLevel(o, left, trades, b0, WithinLimit);
      }
      ResumesAtEnd(b0, o, WithinLimit, View(), trades, left);
      if left > 0 {
        TakeKeepsWf(b0, o, WithinLimit);
        InsertIntoBook(o.WithRemaining(left));
      }
    }

    method RemoveFromBook(id: OrderId) returns (removed: bool)
      requires Valid()
      modifies this
      ensures Valid()
      ensures var r := Cancel(old(View()), id); View() == r.book && removed == r.removed
    {
      hide Wf, Indexed, Flatten, Canonical, Without, Cancel, ViewFrom;
      CancelKeepsWf(View(), id);
      CancelKeepsIndex(orderIndex, View(), id);
      if id !in orderIndex {
        CancelUnindexed(orderIndex, View(), id);
        return false;
      }
      IndexedOrder(orderIndex, View(), id);
      ghost var index := orderIndex;
      var order := orderIndex[id];
      orderIndex := orderIndex - {id};
      if order.price == 0 {
        UnpricedView(bids, asks, index, lastTradePrice, id);
        return false;
      }
      var ls := LevelsOn(order.side);
      ghost var other := LevelsOn(order.side.Opposite());
      ViewFromEither(order.side, ls, other, index, lastTradePrice);
      EraseView(order.side, ls, other, index, lastTradePrice, order);
      var k := Find(ls, order.price);
      StoreLevels(order.side, Store(ls, k, Without(ls[k].queue, id)));
      ViewFromEither(order.side, LevelsOn(order.side), other, orderIndex, lastTradePrice);
      removed := true;
    }

    method MatchIoc(o: Order) returns (trades: seq<Trade>)
      requires Valid() && o.id !in BookIds(View())
      modifies this
      ensures Valid()
      ensures var r := Books.MatchIoc(old(View()), o); View() == r.book && trades == r.trades
    {
      hide Wf, Indexed, Canonical, Flatten, Cancel, Books.MatchLimit;
      trades := MatchLimit(o);
      var _ := RemoveFromBook(o.id);
    }

    method AvailableQuantityAtOrBetter(o: Order) returns (total: int)
      requires Valid()
      ensures total == Available(View(), o)
    {
      total := 0;
      var ls := LevelsOn(o.side.Opposite());
      ghost var reach := FokReach(o);
      assert ls[0..] == ls;
      hide Flatten, Depth, Wf, Indexed, Canonical;
      for i := 0 to |ls|
        invariant total + Depth(o, Flatten(ls[i..]), reach) == Depth(o, Flatten(ls), reach)
      {
        if !(o.price == 0 || Crosses(o, ls[i].price)) {
          NothingInReach(o, o.side.Opposite(), ls, i, reach);
          return;
        }
        LevelInReach(o, o.side.Opposite(), ls, i, reach);
        var queue := ls[i].queue;
        ghost var tail := Flatten(ls[i + 1..]);
        assert queue[0..] == queue;
        for j := 0 to |queue|
          invariant total + Depth(o, queue[j..] + tail, reach) == Depth(o, Flatten(ls), reach)
        {
          DepthOfFirst(o, queue[j..], tail, reach);
          total := total + queue[j].remaining;
        }
        assert queue[|queue|..] + tail == tail;
      }
      NothingInReach(o, o.side.Opposite(), ls, |ls|, reach);
    }

    method MatchFok(o: Order) returns (trades: seq<Trade>)
      requires Valid()
      modifies this
      ensures Valid()
      ensures var r := Books.MatchFok(old(View()), o); View() == r.book && trades == r.trades
    {
      var available := AvailableQuantityAtOrBetter(o);
      if available < o.quantity {
        return [];
      }
      trades := MatchMarket(o);
    }

    /** The entry point: whatever the order, the book moves as the flat lists do. */
    method Match(o: Order) returns (trades: seq<Trade>)
      requires Valid() && (o.kind == Limit || o.kind == Ioc ==> o.id !in BookIds(View()))
      modifies this
      ensures Valid()
      ensures var r := Books.Match(old(View()), o); View() == r.book && trades == r.trades
    {
      hide Wf, Indexed, Canonical, Flatten, Take, Books.MatchLimit, Books.MatchIoc, Books.MatchFok;
      match o.kind
      case Market => trades := MatchMarket(o);
      case Limit => trades := MatchLimit(o);
      case Ioc => trades := MatchIoc(o);
      case Fok => trades := MatchFok(o);
      case StopLimit => trades := [];
    }

    method Snapshot(depth: int) returns (topBids: seq<PriceLevel>, topAsks: seq<PriceLevel>, last: Option<int>)
      requires Valid()
      ensures Summarises(Buy, View().bids, depth, topBids)
      ensures Summarises(Sell, View().asks, depth, topAsks)
      ensures last == View().last
    {
      hide Wf, Indexed, Canonical, Flatten, Summarises;
      topBids := TopLevels(Buy, bids, depth);
      topAsks := TopLevels(Sell, asks, depth);
      last := lastTradePrice;
    }

    /** The highest price anybody bids, if anybody does. */
    function BestBid(): (r: Option<int>)
      requires Valid()
      reads this
      ensures r.None? <==> View().bids == []
      ensures r.Some? ==> (exists x :: x in View().bids && x.price == r.value)
                          && (forall x | x in View().bids :: x.price <= r.value)
    {
      BestOfLevels(Buy, bids);
      if bids == [] then None else Some(bids[0].price)
    }

    /** The lowest price anybody asks, if anybody does. */
    function BestAsk(): (r: Option<int>)
      requires Valid()
      reads this
      ensures r.None? <==> View().asks == []
      ensures r.Some? ==> (exists x :: x in View().asks && x.price == r.value)
                          && (forall x | x in View().asks :: r.value <= x.price)
    {
      BestOfLevels(Sell, asks);
      if asks == [] then None else Some(asks[0].price)
    }

    /** The smallest distance from a bid up to an ask; positive in an uncrossed book. */
    function Spread(): (r: Option<int>)
      requires Valid()
      reads this
      ensures r.Some? <==> View().bids != [] && View().asks != []
      ensures r.Some? ==> (exists x, y :: x in View().bids && y in View().asks && y.price - x.price == r.value)
                          && (forall x, y | x in View().bids && y in View().asks :: r.value <= y.price - x.price)
      ensures r.Some? && Uncrossed(View()) ==> r.value > 0
    {
      if BestBid().None? || BestAsk().None? then None else Some(BestAsk().value - BestBid().value)
    }
  }
}
