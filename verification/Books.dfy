/** One symbol's order book as a value: two flat lists in price-time order. The
    operations are stated on the lists; `OrderBooks` proves that the two-level
    book with its id index computes them. */
module Books {
  import opened Orders
  import opened PriceTime

  /** `hidden` holds the ids that are queued but missing from the id index.
      Only an order without a price can get there, when it is removed. */
  datatype Book = Book(bids: seq<Order>, asks: seq<Order>, hidden: set<OrderId>, last: Option<int>) {
    function Queue(side: Side): seq<Order> {
      if side.Buy? then bids else asks
    }

    function WithQueue(side: Side, s: seq<Order>): Book {
      if side.Buy? then this.(bids := s) else this.(asks := s)
    }
  }

  const EMPTY_BOOK := Book([], [], {}, None)

  function BookIds(b: Book): set<OrderId> {
    Ids(b.bids) + Ids(b.asks)
  }

  /** Ids resting without a price. */
  function Priceless(b: Book): set<OrderId> {
    set o | o in b.bids + b.asks && o.price == 0 :: o.id
  }

  ghost predicate Wf(b: Book) {
    && SideOk(Buy, b.bids)
    && SideOk(Sell, b.asks)
    && Ids(b.bids) !! Ids(b.asks)
    && b.hidden <= Priceless(b)
  }

  /** Every bid is strictly below every ask. */
  ghost predicate Uncrossed(b: Book) {
    forall x, y | x in b.bids && y in b.asks :: x.price < y.price
  }

  function LastPrice(last: Option<int>, ts: seq<Trade>): Option<int> {
    if ts == [] then last else Some(ts[|ts| - 1].price)
  }

  // ------------------------------------------------------------------
  //  The operations
  // ------------------------------------------------------------------

  datatype Outcome = Outcome(book: Book, trades: seq<Trade>, left: int)

  /** Sweep the opposite side with `o`. */
  function Take(b: Book, o: Order, reach: Reach): Outcome {
    var s := Sweep(o, b.Queue(o.side.Opposite()), o.remaining, reach);
    Outcome(b.WithQueue(o.side.Opposite(), s.rest).(hidden := b.hidden - PassiveIds(s.trades),
                                                    last := LastPrice(b.last, s.trades)),
            s.trades, s.left)
  }

  /** Queue an order on its own side. */
  function Rest(b: Book, o: Order): Book {
    b.WithQueue(o.side, Insert(b.Queue(o.side), o)).(hidden := b.hidden - {o.id})
  }

  function MatchLimit(b: Book, o: Order): Outcome {
    var r := Take(b, o, WithinLimit);
    if r.left > 0 then r.(book := Rest(r.book, o.WithRemaining(r.left))) else r
  }

  function PriceOf(s: seq<Order>, id: OrderId): Option<int> {
    if s == [] then None else if s[0].id == id then Some(s[0].price) else PriceOf(s[1..], id)
  }

  datatype Removal = Removal(book: Book, removed: bool)

  /** Cancel by id. An order resting without a price only drops out of the index. */
  function Cancel(b: Book, id: OrderId): Removal {
    if id !in BookIds(b) || id in b.hidden then Removal(b, false)
    else if PriceOf(b.bids + b.asks, id) == Some(0) then Removal(b.(hidden := b.hidden + {id}), false)
    else Removal(b.(bids := Without(b.bids, id), asks := Without(b.asks, id)), true)
  }

  function MatchIoc(b: Book, o: Order): Outcome {
    var r := MatchLimit(b, o);
    r.(book := Cancel(r.book, o.id).book)
  }

  /** Fill-or-kill reads a price of 0 as no limit. */
  function FokReach(o: Order): Reach {
    if o.price == 0 then AnyPrice else WithinLimit
  }

  function Available(b: Book, o: Order): int {
    Depth(o, b.Queue(o.side.Opposite()), FokReach(o))
  }

  function MatchFok(b: Book, o: Order): Outcome {
    if Available(b, o) < o.quantity then Outcome(b, [], o.remaining) else Take(b, o, AnyPrice)
  }

  function Match(b: Book, o: Order): Outcome {
    match o.kind
    case Market => Take(b, o, AnyPrice)
    case Limit => MatchLimit(b, o)
    case Ioc => MatchIoc(b, o)
    case Fok => MatchFok(b, o)
    case StopLimit => Outcome(b, [], o.remaining)
  }

  // ------------------------------------------------------------------
  //  Every operation keeps the book well-formed
  // ------------------------------------------------------------------

  lemma TakeKeepsWf(b: Book, o: Order, reach: Reach)
    requires Wf(b)
    ensures Wf(Take(b, o, reach).book)
    ensures BookIds(Take(b, o, reach).book) <= BookIds(b)
  {
    var opp := o.side.Opposite();
    var s := b.Queue(opp);
    var r := Sweep(o, s, o.remaining, reach);
    SweepDescends(o, s, o.remaining, reach);
    DescendantIsSideOk(opp, r.rest, s);
    var b' := Take(b, o, reach).book;
    forall id | id in b'.hidden ensures id in Priceless(b') {
      var x :| x in b.bids + b.asks && x.price == 0 && x.id == id;
      if x in s { SweepSparesTheRest(o, s, o.remaining, reach, x); }
      assert x in b'.bids + b'.asks;
    }
  }

  lemma RestKeepsWf(b: Book, o: Order)
    requires Wf(b) && o.id !in BookIds(b) && o.remaining > 0
    ensures Wf(Rest(b, o)) && BookIds(Rest(b, o)) == BookIds(b) + {o.id}
  {
    var s := b.Queue(o.side);
    InsertIsSideOk(s, o);
    InsertIds(s, o);
    var b' := Rest(b, o);
    forall id | id in b'.hidden ensures id in Priceless(b') {
      var x :| x in b.bids + b.asks && x.price == 0 && x.id == id;
      assert x in b'.bids + b'.asks;
    }
  }

  lemma {:induction false} WithoutMembers(s: seq<Order>, id: OrderId)
    ensures forall x :: x in Without(s, id) <==> x in s && x.id != id
    ensures Ids(Without(s, id)) == Ids(s) - {id}
  {
    if s != [] {
      WithoutMembers(s[1..], id);
      assert forall x :: x in s <==> x == s[0] || x in s[1..];
    }
  }

  lemma WithoutIsSideOk(side: Side, s: seq<Order>, id: OrderId)
    requires SideOk(side, s)
    ensures SideOk(side, Without(s, id))
  {
    if k :| 0 <= k < |s| && s[k].id == id {
      WithoutCutsOut(s, k);
      CutIsSideOk(side, s, k);
    } else {
      WithoutAbsent(s, id);
    }
  }

  lemma CutIsSideOk(side: Side, s: seq<Order>, k: nat)
    requires SideOk(side, s) && k < |s|
    ensures SideOk(side, s[..k] + s[k + 1..])
  {
    var t := s[..k] + s[k + 1..];
    assert forall i | 0 <= i < |t| :: t[i] == if i < k then s[i] else s[i + 1];
    assert OnSide(side, t) && AllPositive(t);
    assert DistinctIds(t);
    assert Sorted(side, t);
  }

  lemma CancelKeepsWf(b: Book, id: OrderId)
    requires Wf(b)
    ensures Wf(Cancel(b, id).book) && BookIds(Cancel(b, id).book) <= BookIds(b)
  {
    WithoutIsSideOk(Buy, b.bids, id);
    WithoutMembers(b.bids, id);
    WithoutIsSideOk(Sell, b.asks, id);
    WithoutMembers(b.asks, id);
    var b' := Cancel(b, id).book;
    PriceOfIsPrice(b, id);
    forall h | h in b'.hidden ensures h in Priceless(b') {
      var x :| x in b.bids + b.asks && x.price == 0 && x.id == h;
      assert x in b'.bids + b'.asks;
    }
  }

  /** Among distinct ids, the price found is the price of the order with that id. */
  lemma PriceOfIsPrice(b: Book, id: OrderId)
    requires Wf(b)
    ensures id in BookIds(b) <==> PriceOf(b.bids + b.asks, id).Some?
    ensures forall x | x in b.bids + b.asks && x.id == id :: PriceOf(b.bids + b.asks, id) == Some(x.price)
    ensures id in Priceless(b) <==> PriceOf(b.bids + b.asks, id) == Some(0)
  {
    var s := b.bids + b.asks;
    forall i, j | 0 <= i < j < |s| ensures s[i].id != s[j].id {
      if i < |b.bids| <= j {
        assert b.bids[i] in b.bids && b.asks[j - |b.bids|] in b.asks;
        assert s[i].id in Ids(b.bids) && s[j].id in Ids(b.asks);
      } else if j < |b.bids| {
        assert s[i] == b.bids[i] && s[j] == b.bids[j];
      } else {
        assert s[i] == b.asks[i - |b.bids|] && s[j] == b.asks[j - |b.bids|];
      }
    }
    PriceOfFirst(s, id);
    assert forall x :: x in s <==> x in b.bids || x in b.asks;
  }

  lemma {:induction false} PriceOfFirst(s: seq<Order>, id: OrderId)
    requires DistinctIds(s)
    ensures id in Ids(s) <==> PriceOf(s, id).Some?
    ensures forall x | x in s && x.id == id :: PriceOf(s, id) == Some(x.price)
  {
    if s != [] {
      PriceOfFirst(s[1..], id);
      assert forall x :: x in s <==> x == s[0] || x in s[1..];
    }
  }

  lemma LimitKeepsWf(b: Book, o: Order)
    requires Wf(b) && o.id !in BookIds(b)
    ensures Wf(MatchLimit(b, o).book) && BookIds(MatchLimit(b, o).book) <= BookIds(b) + {o.id}
  {
    TakeKeepsWf(b, o, WithinLimit);
    var r := Take(b, o, WithinLimit);
    if r.left > 0 { RestKeepsWf(r.book, o.WithRemaining(r.left)); }
  }

  lemma MatchKeepsWf(b: Book, o: Order)
    requires Wf(b) && o.id !in BookIds(b)
    ensures Wf(Match(b, o).book) && BookIds(Match(b, o).book) <= BookIds(b) + {o.id}
  {
    match o.kind
    case Market => TakeKeepsWf(b, o, AnyPrice);
    case Fok => TakeKeepsWf(b, o, AnyPrice);
    case Limit => LimitKeepsWf(b, o);
    case Ioc => LimitKeepsWf(b, o); CancelKeepsWf(MatchLimit(b, o).book, o.id);
    case StopLimit =>
  }
}
