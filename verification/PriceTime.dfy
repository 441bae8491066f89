/** Price-time priority on flat lists: each side of the book is one list of
    resting orders, best price first and oldest first within a price. This is the
    specification the two-level order book is proved to refine. */
module PriceTime {
  import opened Orders

  /** Price `p` is strictly ahead of price `q` on this side of the book. */
  predicate Better(side: Side, p: int, q: int) {
    if side.Buy? then p > q else p < q
  }

  /** A resting price is acceptable to the limit of an incoming order. */
  predicate Crosses(o: Order, p: int) {
    if o.side.Buy? then o.price >= p else o.price <= p
  }

  /** How far a sweep may go: through the whole book, or up to the order's limit. */
  datatype Reach = AnyPrice | WithinLimit

  predicate Reaches(o: Order, reach: Reach, p: int) {
    reach.AnyPrice? || Crosses(o, p)
  }

  datatype Swept = Swept(trades: seq<Trade>, rest: seq<Order>, left: int)

  /** The greedy sweep: always fill against the head of the list; a partly
      filled head stays at the head. */
  function Sweep(o: Order, resting: seq<Order>, qty: int, reach: Reach): Swept {
    if qty <= 0 || resting == [] || !Reaches(o, reach, resting[0].price) then
      Swept([], resting, qty)
    else
      var head := resting[0];
      var fill := Min(qty, head.remaining);
      var trade := MakeTrade(o, head, head.price, fill);
      if fill < head.remaining then
        Swept([trade], [head.WithRemaining(head.remaining - fill)] + resting[1..], qty - fill)
      else
        var s := Sweep(o, resting[1..], qty - fill, reach);
        s.(trades := [trade] + s.trades)
  }

  /** A newcomer goes behind everybody whose price is at least as good. */
  function Insert(s: seq<Order>, o: Order): seq<Order> {
    if s == [] || Better(o.side, o.price, s[0].price) then [o] + s
    else [s[0]] + Insert(s[1..], o)
  }

  function Without(s: seq<Order>, id: OrderId): seq<Order> {
    if s == [] then []
    else if s[0].id == id then Without(s[1..], id)
    else [s[0]] + Without(s[1..], id)
  }

  // ------------------------------------------------------------------
  //  Quantities
  // ------------------------------------------------------------------

  /** Quantity resting in front of place `i`. */
  function Ahead(s: seq<Order>, i: nat): int
    requires i <= |s|
  {
    if i == 0 then 0 else Ahead(s, i - 1) + s[i - 1].remaining
  }

  /** Quantity resting under one order id. */
  function QtyOf(s: seq<Order>, id: OrderId): int {
    if s == [] then 0
    else (if s[0].id == id then s[0].remaining else 0) + QtyOf(s[1..], id)
  }

  /** Quantity traded. */
  function Volume(ts: seq<Trade>): int {
    if ts == [] then 0 else ts[0].quantity + Volume(ts[1..])
  }

  /** Quantity traded in the name of one order, on either leg. */
  function FilledOf(ts: seq<Trade>, id: OrderId): int {
    if ts == [] then 0
    else (if ts[0].aggressorId == id || ts[0].passiveId == id then ts[0].quantity else 0) + FilledOf(ts[1..], id)
  }

  function PassiveIds(ts: seq<Trade>): set<OrderId> {
    set t | t in ts :: t.passiveId
  }

  function Ids(s: seq<Order>): set<OrderId> {
    set o | o in s :: o.id
  }

  // ------------------------------------------------------------------
  //  Well-formed lists
  // ------------------------------------------------------------------

  ghost predicate AllPositive(s: seq<Order>) {
    forall i | 0 <= i < |s| :: s[i].remaining > 0
  }

  ghost predicate Sorted(side: Side, s: seq<Order>) {
    forall i, j | 0 <= i < j < |s| :: !Better(side, s[j].price, s[i].price)
  }

  ghost predicate OnSide(side: Side, s: seq<Order>) {
    forall i | 0 <= i < |s| :: s[i].side == side
  }

  ghost predicate DistinctIds(s: seq<Order>) {
    forall i, j | 0 <= i < j < |s| :: s[i].id != s[j].id
  }

  ghost predicate SideOk(side: Side, s: seq<Order>) {
    OnSide(side, s) && AllPositive(s) && Sorted(side, s) && DistinctIds(s)
  }

  // ------------------------------------------------------------------
  //  What the sweep means
  // ------------------------------------------------------------------

  lemma {:induction false} AheadOfTail(s: seq<Order>, i: nat)
    requires 0 < |s| && i < |s|
    ensures Ahead(s, i + 1) == s[0].remaining + Ahead(s[1..], i)
  {
    if i > 0 { AheadOfTail(s, i - 1); }
  }

  /** Where the newest order with this price and side belongs. */
  ghost predicate IsPlace(s: seq<Order>, o: Order, k: nat) {
    && k <= |s|
    && (forall i | 0 <= i < k :: !Better(o.side, o.price, s[i].price))
    && (forall i | k <= i < |s| :: Better(o.side, o.price, s[i].price))
  }

  /** Which orders trade, and for how much: `k` orders trade, order `i` for
      what is left once everybody ahead of it has been served, and the sweep stops
      exactly where the quantity or the limit runs out. */
  ghost predicate TradesInOrder(o: Order, s: seq<Order>, qty: int, reach: Reach, ts: seq<Trade>) {
    var k := |ts|;
    && k <= |s|
    && (forall i | 0 <= i < k :: ServedAt(o, s, qty, reach, i, ts[i]))
    && (k < |s| ==> Ahead(s, k) >= qty || !Reaches(o, reach, s[k].price))
  }

  ghost predicate ServedAt(o: Order, s: seq<Order>, qty: int, reach: Reach, i: nat, t: Trade)
    requires i < |s|
  {
    && Reaches(o, reach, s[i].price)
    && Ahead(s, i) < qty
    && t == MakeTrade(o, s[i], s[i].price, Min(s[i].remaining, qty - Ahead(s, i)))
  }

  /** What stays behind once the first `k` orders of `s` have traded `qty`: nobody
      is overtaken, and a partly filled order keeps the head of the list. */
  ghost function Behind(s: seq<Order>, qty: int, k: nat): seq<Order>
    requires k <= |s|
  {
    if k > 0 && Ahead(s, k) > qty then [s[k - 1].WithRemaining(Ahead(s, k) - qty)] + s[k..] else s[k..]
  }

  /** What the incoming order could not fill. */
  ghost function Unserved(s: seq<Order>, qty: int, k: nat): int
    requires k <= |s|
  {
    if qty <= 0 then qty else Max(0, qty - Ahead(s, k))
  }

  lemma {:induction false} SweepTradesInOrder(o: Order, s: seq<Order>, qty: int, reach: Reach)
    requires AllPositive(s)
    ensures TradesInOrder(o, s, qty, reach, Sweep(o, s, qty, reach).trades)
  {
    if qty <= 0 || s == [] || !Reaches(o, reach, s[0].price) || qty < s[0].remaining {
      if s != [] { AheadOfTail(s, 0); }
    } else {
      SweepTradesInOrder(o, s[1..], qty - s[0].remaining, reach);
      TradesInOrderCons(o, s, qty, reach, Sweep(o, s[1..], qty - s[0].remaining, reach).trades);
    }
  }

  lemma TradesInOrderCons(o: Order, s: seq<Order>, qty: int, reach: Reach, ts: seq<Trade>)
    requires s != [] && 0 < s[0].remaining <= qty && Reaches(o, reach, s[0].price)
    requires TradesInOrder(o, s[1..], qty - s[0].remaining, reach, ts)
    ensures TradesInOrder(o, s, qty, reach, [MakeTrade(o, s[0], s[0].price, s[0].remaining)] + ts)
  {
    var tail, us := s[1..], [MakeTrade(o, s[0], s[0].price, s[0].remaining)] + ts;
    forall i | 0 <= i < |us|
      ensures ServedAt(o, s, qty, reach, i, us[i])
    {
      if i > 0 {
        AheadOfTail(s, i - 1);
        assert ServedAt(o, tail, qty - s[0].remaining, reach, i - 1, ts[i - 1]);
      }
    }
    AheadOfTail(s, |ts|);
  }

  lemma {:induction false} SweepLeavesBehind(o: Order, s: seq<Order>, qty: int, reach: Reach)
    requires AllPositive(s)
    ensures var r := Sweep(o, s, qty, reach);
            && |r.trades| <= |s|
            && r.rest == Behind(s, qty, |r.trades|)
            && r.left == Unserved(s, qty, |r.trades|)
  {
    if qty <= 0 || s == [] || !Reaches(o, reach, s[0].price) {
      assert s[0..] == s;
    } else if qty < s[0].remaining {
      assert Ahead(s, 1) == Ahead(s, 0) + s[0].remaining;
    } else {
      var r := Sweep(o, s[1..], qty - s[0].remaining, reach);
      SweepLeavesBehind(o, s[1..], qty - s[0].remaining, reach);
      BehindTail(s, qty, |r.trades|);
    }
  }

  lemma BehindTail(s: seq<Order>, qty: int, k: nat)
    requires k < |s| && 0 < s[0].remaining <= qty
    requires k > 0 ==> s[0].remaining < qty
    ensures Behind(s, qty, k + 1) == Behind(s[1..], qty - s[0].remaining, k)
    ensures Unserved(s, qty, k + 1) == Unserved(s[1..], qty - s[0].remaining, k)
  {
    AheadOfTail(s, k);
    var tail := s[1..];
    assert tail[k..] == s[k + 1..];
    if k > 0 {
      assert tail[k - 1] == s[k];
    }
  }

  /** Everything a sweep leaves behind is a tail of the old list in which at most
      the head has lost some quantity. */
  ghost predicate Descends(rest: seq<Order>, s: seq<Order>) {
    && |rest| <= |s|
    && (forall i | 0 <= i < |rest| :: Drained(rest[i], s[|s| - |rest| + i]))
  }

  ghost predicate Drained(x: Order, was: Order) {
    x == was || (0 < x.remaining < was.remaining && x == was.WithRemaining(x.remaining))
  }

  lemma {:induction false} SweepDescends(o: Order, s: seq<Order>, qty: int, reach: Reach)
    requires AllPositive(s)
    ensures Descends(Sweep(o, s, qty, reach).rest, s)
  {
    if qty <= 0 || s == [] || !Reaches(o, reach, s[0].price) || qty < s[0].remaining {
    } else {
      SweepDescends(o, s[1..], qty - s[0].remaining, reach);
      DescendsFromLonger(Sweep(o, s[1..], qty - s[0].remaining, reach).rest, s);
    }
  }

  lemma DescendsFromLonger(rest: seq<Order>, s: seq<Order>)
    requires s != [] && Descends(rest, s[1..])
    ensures Descends(rest, s)
  {
    hide Drained;
    forall i | 0 <= i < |rest| ensures Drained(rest[i], s[|s| - |rest| + i]) {
      assert Drained(rest[i], s[1..][|s| - 1 - |rest| + i]);
    }
  }

  /** The order `x` used to be. */
  lemma DescendantOf(rest: seq<Order>, s: seq<Order>, x: Order) returns (y: Order)
    requires Descends(rest, s) && x in rest
    ensures y in s && Drained(x, y)
  {
    var i :| 0 <= i < |rest| && rest[i] == x;
    y := s[|s| - |rest| + i];
  }

  lemma DescendantIsSideOk(side: Side, rest: seq<Order>, s: seq<Order>)
    requires SideOk(side, s) && Descends(rest, s)
    ensures SideOk(side, rest) && Ids(rest) <= Ids(s)
  {
    var d := |s| - |rest|;
    forall i | 0 <= i < |rest| ensures rest[i].side == side && rest[i].remaining > 0
                                        && rest[i].id == s[d + i].id && rest[i].price == s[d + i].price {
      assert Drained(rest[i], s[d + i]);
    }
  }

  /** A sweep that could not fill everything has exhausted what it may reach. */
  lemma {:induction false} SweepStopsDry(o: Order, s: seq<Order>, qty: int, reach: Reach)
    requires AllPositive(s)
    requires Sweep(o, s, qty, reach).left > 0
    ensures var rest := Sweep(o, s, qty, reach).rest;
            rest == [] || !Reaches(o, reach, rest[0].price)
  {
    if qty <= 0 || s == [] || !Reaches(o, reach, s[0].price) {
    } else if qty >= s[0].remaining {
      SweepStopsDry(o, s[1..], qty - s[0].remaining, reach);
    }
  }

  /** Whoever did not trade is still there, unchanged. */
  lemma {:induction false} SweepSparesTheRest(o: Order, s: seq<Order>, qty: int, reach: Reach, x: Order)
    requires x in s && x.id !in PassiveIds(Sweep(o, s, qty, reach).trades)
    ensures x in Sweep(o, s, qty, reach).rest
  {
    if qty <= 0 || s == [] || !Reaches(o, reach, s[0].price) {
    } else {
      var t := MakeTrade(o, s[0], s[0].price, Min(qty, s[0].remaining));
      assert t in Sweep(o, s, qty, reach).trades;
      assert x in s[1..];
      if qty >= s[0].remaining {
        var r := Sweep(o, s[1..], qty - s[0].remaining, reach);
        assert PassiveIds(r.trades) <= PassiveIds([t] + r.trades);
        SweepSparesTheRest(o, s[1..], qty - s[0].remaining, reach, x);
      }
    }
  }

  // ------------------------------------------------------------------
  //  Conservation
  // ------------------------------------------------------------------

  /** Nothing is created or lost: the volume is what the incoming order lost, and
      every other order's quantity goes down by what the tape shows under its id. */
  lemma {:induction false} SweepConserves(o: Order, s: seq<Order>, qty: int, reach: Reach, id: OrderId)
    requires AllPositive(s)
    ensures var r := Sweep(o, s, qty, reach);
            && Volume(r.trades) + r.left == qty
            && FilledOf(r.trades, o.id) == Volume(r.trades)
            && (id != o.id ==> QtyOf(r.rest, id) + FilledOf(r.trades, id) == QtyOf(s, id))
  {
    if qty <= 0 || s == [] || !Reaches(o, reach, s[0].price) {
    } else if qty < s[0].remaining {
      var head := s[0].WithRemaining(s[0].remaining - qty);
      assert ([head] + s[1..])[1..] == s[1..];
    } else {
      var q := qty - s[0].remaining;
      SweepConserves(o, s[1..], q, reach, id);
      var ts := Sweep(o, s[1..], q, reach).trades;
      assert ([MakeTrade(o, s[0], s[0].price, s[0].remaining)] + ts)[1..] == ts;
    }
  }

  // ------------------------------------------------------------------
  //  Counting before filling
  // ------------------------------------------------------------------

  /** Quantity in the leading run of prices within reach. */
  function Depth(o: Order, s: seq<Order>, reach: Reach): int {
    if s == [] || !Reaches(o, reach, s[0].price) then 0 else s[0].remaining + Depth(o, s[1..], reach)
  }

  /** A sweep fills the smaller of what is wanted and what is within reach. */
  lemma {:induction false} SweepFillsDepth(o: Order, s: seq<Order>, qty: int, reach: Reach)
    requires AllPositive(s)
    ensures Depth(o, s, reach) >= 0
    ensures qty >= 0 ==> Sweep(o, s, qty, reach).left == Max(0, qty - Depth(o, s, reach))
  {
    if s == [] || !Reaches(o, reach, s[0].price) {
    } else if qty < s[0].remaining {
      SweepFillsDepth(o, s[1..], 0, reach);
    } else {
      SweepFillsDepth(o, s[1..], qty - s[0].remaining, reach);
    }
  }

  /** An unrestricted sweep for no more than what was counted within a limit fills
      completely, and is the sweep that respects the limit. */
  lemma {:induction false} CountedSweepStaysWithin(o: Order, s: seq<Order>, qty: int, reach: Reach)
    requires AllPositive(s) && 0 <= qty <= Depth(o, s, reach)
    ensures var r := Sweep(o, s, qty, AnyPrice);
            && r == Sweep(o, s, qty, reach)
            && r.left == 0
            && (forall t | t in r.trades :: Reaches(o, reach, t.price))
  {
    if qty <= 0 || s == [] || qty < s[0].remaining {
    } else {
      CountedSweepStaysWithin(o, s[1..], qty - s[0].remaining, reach);
    }
  }

  // ------------------------------------------------------------------
  //  Insertion and removal
  // ------------------------------------------------------------------

  function Place(s: seq<Order>, o: Order): (k: nat)
    ensures k <= |s|
  {
    if s == [] || Better(o.side, o.price, s[0].price) then 0 else 1 + Place(s[1..], o)
  }

  /** A newcomer is behind everybody at least as good and ahead of everybody worse,
      and nobody else moves. */
  lemma {:induction false} InsertAtPlace(s: seq<Order>, o: Order)
    requires Sorted(o.side, s)
    ensures var k := Place(s, o);
            IsPlace(s, o, k) && Insert(s, o) == s[..k] + [o] + s[k..]
  {
    if s == [] || Better(o.side, o.price, s[0].price) {
    } else {
      var tail, k := s[1..], Place(s[1..], o);
      InsertAtPlace(tail, o);
      assert [s[0]] + tail[..k] == s[..k + 1] && tail[k..] == s[k + 1..];
      forall i | 0 <= i < |s|
        ensures i < k + 1 ==> !Better(o.side, o.price, s[i].price)
        ensures k + 1 <= i ==> Better(o.side, o.price, s[i].price)
      {
        if i > 0 { assert s[i] == tail[i - 1]; }
      }
    }
  }

  lemma InsertIsSideOk(s: seq<Order>, o: Order)
    requires SideOk(o.side, s) && o.remaining > 0 && o.id !in Ids(s)
    ensures SideOk(o.side, Insert(s, o))
  {
    InsertAtPlace(s, o);
    forall i | 0 <= i < |s| ensures s[i].id != o.id { assert s[i] in s; }
    SpliceIsSideOk(s, o, Place(s, o));
  }

  lemma SpliceIsSideOk(s: seq<Order>, o: Order, k: nat)
    requires SideOk(o.side, s) && o.remaining > 0 && IsPlace(s, o, k)
    requires forall i | 0 <= i < |s| :: s[i].id != o.id
    ensures SideOk(o.side, s[..k] + [o] + s[k..])
  {
    var t := s[..k] + [o] + s[k..];
    assert forall i | 0 <= i < |t| :: t[i] == if i < k then s[i] else if i == k then o else s[i - 1];
    assert OnSide(o.side, t) && AllPositive(t);
    assert DistinctIds(t);
    assert Sorted(o.side, t);
  }

  lemma {:induction false} InsertIds(s: seq<Order>, o: Order)
    ensures forall x :: x in Insert(s, o) <==> x == o || x in s
    ensures Ids(Insert(s, o)) == Ids(s) + {o.id}
  {
    if s == [] || Better(o.side, o.price, s[0].price) {
    } else {
      InsertIds(s[1..], o);
      assert forall x :: x in s <==> x == s[0] || x in s[1..];
    }
    assert o in Insert(s, o);
  }

  lemma {:induction false} InsertQty(s: seq<Order>, o: Order, id: OrderId)
    ensures QtyOf(Insert(s, o), id) == QtyOf(s, id) + if id == o.id then o.remaining else 0
  {
    if s == [] || Better(o.side, o.price, s[0].price) {
      assert ([o] + s)[1..] == s;
    } else {
      InsertQty(s[1..], o, id);
      assert ([s[0]] + Insert(s[1..], o))[1..] == Insert(s[1..], o);
    }
  }

  /** Removing an id takes out exactly that order; everybody else keeps their order. */
  lemma {:induction false} WithoutCutsOut(s: seq<Order>, k: nat)
    requires k < |s| && DistinctIds(s)
    ensures Without(s, s[k].id) == s[..k] + s[k + 1..]
  {
    var id := s[k].id;
    if k == 0 {
      WithoutAbsent(s[1..], id);
    } else {
      WithoutCutsOut(s[1..], k - 1);
      assert [s[0]] + (s[1..][..k - 1] + s[1..][k..]) == s[..k] + s[k + 1..];
    }
  }

  lemma {:induction false} WithoutAbsent(s: seq<Order>, id: OrderId)
    requires forall i | 0 <= i < |s| :: s[i].id != id
    ensures Without(s, id) == s
  {
    if s != [] { WithoutAbsent(s[1..], id); }
  }

  /** Insert then remove is the identity. */
  lemma {:induction false} InsertThenRemove(s: seq<Order>, o: Order)
    requires o.id !in Ids(s)
    ensures Without(Insert(s, o), o.id) == s
  {
    forall i | 0 <= i < |s| ensures s[i].id != o.id {
      assert s[i] in s;
    }
    if s == [] || Better(o.side, o.price, s[0].price) {
      assert ([o] + s)[1..] == s;
      WithoutAbsent(s, o.id);
    } else {
      forall x | x in s[1..] ensures x.id in Ids(s) { assert x in s; }
      InsertThenRemove(s[1..], o);
      assert ([s[0]] + Insert(s[1..], o))[1..] == Insert(s[1..], o);
    }
  }

  lemma {:induction false} WithoutQty(s: seq<Order>, gone: OrderId, id: OrderId)
    ensures QtyOf(Without(s, gone), id) == if id == gone then 0 else QtyOf(s, id)
  {
    if s != [] {
      WithoutQty(s[1..], gone, id);
      if s[0].id != gone {
        assert ([s[0]] + Without(s[1..], gone))[1..] == Without(s[1..], gone);
      }
    }
  }
}
