/** The market-data view: the best price levels of each side with their totals. */
module Snapshots {
  import opened Orders
  import opened PriceTime
  import opened Levels

  datatype PriceLevel = PriceLevel(price: int, totalQuantity: int, orderCount: nat)

  /** Quantity and number of the orders resting at one price. */
  function QtyAt(s: seq<Order>, p: int): int {
    if s == [] then 0 else (if s[0].price == p then s[0].remaining else 0) + QtyAt(s[1..], p)
  }

  function CountAt(s: seq<Order>, p: int): nat {
    if s == [] then 0 else (if s[0].price == p then 1 else 0) + CountAt(s[1..], p)
  }

  /** `r` shows the best `depth` prices of `s`, best first, each with everything
      that rests there; a price it does not show is worse than all it shows. */
  ghost predicate Summarises(side: Side, s: seq<Order>, depth: int, r: seq<PriceLevel>) {
    && |r| <= Max(depth, 0)
    && (forall i, j | 0 <= i < j < |r| :: Better(side, r[i].price, r[j].price))
    && (forall i | 0 <= i < |r| :: TotalsAt(s, r[i]))
    && (forall x | x in s :: Shown(r, x.price) || (|r| >= depth && WorseThanShown(side, r, x.price)))
  }

  ghost predicate TotalsAt(s: seq<Order>, l: PriceLevel) {
    l.orderCount > 0 && l.totalQuantity == QtyAt(s, l.price) && l.orderCount == CountAt(s, l.price)
  }

  ghost predicate Shown(r: seq<PriceLevel>, p: int) {
    exists i :: 0 <= i < |r| && r[i].price == p
  }

  ghost predicate WorseThanShown(side: Side, r: seq<PriceLevel>, p: int) {
    forall i | 0 <= i < |r| :: Better(side, r[i].price, p)
  }

  lemma {:induction false} TotalsConcat(a: seq<Order>, b: seq<Order>, p: int)
    ensures QtyAt(a + b, p) == QtyAt(a, p) + QtyAt(b, p) && CountAt(a + b, p) == CountAt(a, p) + CountAt(b, p)
  {
    if a == [] {
      assert a + b == b;
    } else {
      assert (a + b)[1..] == a[1..] + b;
      TotalsConcat(a[1..], b, p);
    }
  }

  lemma {:induction false} TotalsElsewhere(s: seq<Order>, p: int)
    requires forall x | x in s :: x.price != p
    ensures QtyAt(s, p) == 0 && CountAt(s, p) == 0
  {
    if s != [] {
      assert s[0] in s && forall x | x in s[1..] :: x in s;
      TotalsElsewhere(s[1..], p);
    }
  }

  lemma {:induction false} TotalsOfQueue(s: seq<Order>, p: int)
    requires forall i | 0 <= i < |s| :: s[i].price == p
    ensures QtyAt(s, p) == Ahead(s, |s|) && CountAt(s, p) == |s|
  {
    if s != [] {
      TotalsOfQueue(s[1..], p);
      AheadOfTail(s, |s| - 1);
    }
  }

  lemma {:induction false} FlattenPrices(side: Side, ls: seq<Level>, p: int)
    requires Ordered(side, ls) && forall k | 0 <= k < |ls| :: ls[k].price != p
    ensures forall x | x in Flatten(ls) :: x.price != p
  {
    forall x | x in Flatten(ls) ensures x.price != p {
      FlattenMember(side, ls, x);
      var k :| 0 <= k < |ls| && x in ls[k].queue;
      assert LevelOk(side, ls[k]);
      var i :| 0 <= i < |ls[k].queue| && ls[k].queue[i] == x;
    }
  }

  /** The totals at a level's price are those of its queue. */
  lemma TotalsAtLevel(side: Side, ls: seq<Level>, k: nat)
    requires Canonical(side, ls) && k < |ls|
    ensures TotalsAt(Flatten(ls), PriceLevel(ls[k].price, Ahead(ls[k].queue, |ls[k].queue|), |ls[k].queue|))
  {
    var a, q, b, p := Flatten(ls[..k]), ls[k].queue, Flatten(ls[k + 1..]), ls[k].price;
    FlattenSplit(ls, k);
    TotalsConcat(a + q, b, p);
    TotalsConcat(a, q, p);
    assert LevelOk(side, ls[k]);
    TotalsOfQueue(q, p);
    FlattenPrices(side, ls[..k], p);
    TotalsElsewhere(a, p);
    FlattenPrices(side, ls[k + 1..], p);
    TotalsElsewhere(b, p);
  }

  lemma PrefixSummarises(side: Side, ls: seq<Level>, depth: int, r: seq<PriceLevel>)
    requires Canonical(side, ls) && |r| <= |ls| && |r| <= Max(depth, 0) && (|r| < |ls| ==> |r| >= depth)
    requires forall i | 0 <= i < |r| ::
               r[i] == PriceLevel(ls[i].price, Ahead(ls[i].queue, |ls[i].queue|), |ls[i].queue|)
    ensures Summarises(side, Flatten(ls), depth, r)
  {
    forall i | 0 <= i < |r| ensures TotalsAt(Flatten(ls), r[i]) {
      TotalsAtLevel(side, ls, i);
    }
    hide TotalsAt, Flatten;
    forall x | x in Flatten(ls) ensures Shown(r, x.price) || (|r| >= depth && WorseThanShown(side, r, x.price)) {
      FlattenMember(side, ls, x);
      var k :| 0 <= k < |ls| && x in ls[k].queue;
      assert LevelOk(side, ls[k]);
      var i :| 0 <= i < |ls[k].queue| && ls[k].queue[i] == x;
      if k < |r| { assert r[k].price == x.price; }
    }
  }

  /** One side of the snapshot loop. */
  method TopLevels(side: Side, ls: seq<Level>, depth: int) returns (r: seq<PriceLevel>)
    requires Canonical(side, ls)
    ensures Summarises(side, Flatten(ls), depth, r)
  {
    r := [];
    for count := 0 to |ls|
      invariant |r| == count && count <= Max(depth, 0)
      invariant forall i | 0 <= i < |r| ::
                  r[i] == PriceLevel(ls[i].price, Ahead(ls[i].queue, |ls[i].queue|), |ls[i].queue|)
    {
      if count >= depth { break; }
      var qty := 0;
      for j := 0 to |ls[count].queue|
        invariant qty == Ahead(ls[count].queue, j)
      {
        qty := qty + ls[count].queue[j].remaining;
      }
      r := r + [PriceLevel(ls[count].price, qty, |ls[count].queue|)];
    }
    PrefixSummarises(side, ls, depth, r);
  }
}
