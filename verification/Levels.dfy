/** One side of the book as the program keeps it: price levels in price order,
    each with a FIFO queue. The functions here are the ordered-map and deque
    primitives the book calls; reading the levels front to back gives the flat
    list of `PriceTime`. */
module Levels {
  import opened Orders
  import opened PriceTime

  datatype Level = Level(price: int, queue: seq<Order>)

  function Flatten(ls: seq<Level>): seq<Order> {
    if ls == [] then [] else ls[0].queue + Flatten(ls[1..])
  }

  ghost predicate LevelOk(side: Side, l: Level) {
    forall i | 0 <= i < |l.queue| ::
      l.queue[i].price == l.price && l.queue[i].side == side && l.queue[i].remaining > 0
  }

  /** Levels in strict price order, each holding orders of its price. A queue may be
      empty: that happens while a level is being consumed. */
  ghost predicate Ordered(side: Side, ls: seq<Level>) {
    && (forall i | 0 <= i < |ls| :: LevelOk(side, ls[i]))
    && (forall i, j | 0 <= i < j < |ls| :: Better(side, ls[i].price, ls[j].price))
  }

  ghost predicate NonEmpty(ls: seq<Level>) {
    forall i | 0 <= i < |ls| :: ls[i].queue != []
  }

  ghost predicate Canonical(side: Side, ls: seq<Level>) {
    Ordered(side, ls) && NonEmpty(ls)
  }

  /** The map's find: position of a price, if there is a level for it. */
  function Find(ls: seq<Level>, price: int): (k: nat)
    ensures k <= |ls|
    ensures k < |ls| ==> ls[k].price == price
  {
    if ls == [] then 0 else if ls[0].price == price then 0 else 1 + Find(ls[1..], price)
  }

  /** `levels[o.price].push_back(o)`: join the level, creating it when missing. */
  function PushBack(ls: seq<Level>, o: Order): seq<Level> {
    if ls == [] || Better(o.side, o.price, ls[0].price) then [Level(o.price, [o])] + ls
    else if ls[0].price == o.price then [Level(o.price, ls[0].queue + [o])] + ls[1..]
    else [ls[0]] + PushBack(ls[1..], o)
  }

  /** Put a queue back at position `k`, erasing the level when nobody is left. */
  function Store(ls: seq<Level>, k: nat, queue: seq<Order>): seq<Level>
    requires k < |ls|
  {
    if queue == [] then ls[..k] + ls[k + 1..] else ls[k := Level(ls[k].price, queue)]
  }

  // ------------------------------------------------------------------
  //  Reading the levels front to back
  // ------------------------------------------------------------------

  lemma FlattenHead(ls: seq<Level>)
    requires ls != []
    ensures Flatten(ls) == ls[0].queue + Flatten(ls[1..])
  {
  }

  lemma BestIsFirst(side: Side, ls: seq<Level>)
    requires Canonical(side, ls) && ls != []
    ensures Flatten(ls) != [] && Flatten(ls)[0].price == ls[0].price
  {
    assert LevelOk(side, ls[0]) && Flatten(ls)[0] == ls[0].queue[0];
  }

  lemma FlattenCons(l: Level, tail: seq<Level>)
    ensures Flatten([l] + tail) == l.queue + Flatten(tail)
  {
    assert ([l] + tail)[1..] == tail;
  }

  lemma {:induction false} FlattenSplit(ls: seq<Level>, k: nat)
    requires k < |ls|
    ensures Flatten(ls) == Flatten(ls[..k]) + ls[k].queue + Flatten(ls[k + 1..])
  {
    if k > 0 {
      FlattenSplit(ls[1..], k - 1);
      assert ls[1..][..k - 1] == ls[..k][1..] && ls[1..][k..] == ls[k + 1..];
    }
  }

  lemma {:induction false} FlattenConcat(a: seq<Level>, b: seq<Level>)
    ensures Flatten(a + b) == Flatten(a) + Flatten(b)
  {
    if a == [] {
      assert a + b == b;
    } else {
      FlattenConcat(a[1..], b);
      assert a + b == [a[0]] + (a[1..] + b);
      FlattenCons(a[0], a[1..] + b);
      assert a[0].queue + (Flatten(a[1..]) + Flatten(b)) == (a[0].queue + Flatten(a[1..])) + Flatten(b);
    }
  }

  /** An order in the flat list sits in the level of its price. */
  lemma {:induction false} FlattenMember(side: Side, ls: seq<Level>, x: Order)
    requires Ordered(side, ls)
    ensures x in Flatten(ls) <==> exists k :: 0 <= k < |ls| && x in ls[k].queue
    ensures x in Flatten(ls) ==> x.side == side && x.remaining > 0
  {
    if ls != [] {
      FlattenMember(side, ls[1..], x);
      if x in ls[0].queue {
        var i :| 0 <= i < |ls[0].queue| && ls[0].queue[i] == x;
      }
      if k :| 0 <= k < |ls| && x in ls[k].queue {
        if k > 0 { assert ls[1..][k - 1] == ls[k]; }
      }
      if k :| 0 <= k < |ls[1..]| && x in ls[1..][k].queue {
        assert ls[k + 1] == ls[1..][k];
      }
    }
  }

  lemma {:induction false} FlattenOk(side: Side, ls: seq<Level>)
    requires Ordered(side, ls)
    ensures OnSide(side, Flatten(ls)) && AllPositive(Flatten(ls)) && Sorted(side, Flatten(ls))
    ensures ls != [] ==> forall x | x in Flatten(ls) :: !Better(side, x.price, ls[0].price)
  {
    if ls != [] {
      var q, t := ls[0].queue, Flatten(ls[1..]);
      FlattenOk(side, ls[1..]);
      assert LevelOk(side, ls[0]);
      forall j | 0 <= j < |t| ensures !Better(side, t[j].price, ls[0].price) {
        assert t[j] in t && Better(side, ls[0].price, ls[1].price);
      }
      AppendSorted(side, q, t, ls[0].price);
    }
  }

  lemma AppendSorted(side: Side, q: seq<Order>, t: seq<Order>, p: int)
    requires Sorted(side, t) && forall i | 0 <= i < |q| :: q[i].price == p
    requires forall j | 0 <= j < |t| :: !Better(side, t[j].price, p)
    ensures Sorted(side, q + t)
  {
  }

  /** The flat list determines the levels: two well-formed sides that read the
      same are the same. */
  lemma {:induction false} FlattenInjective(side: Side, a: seq<Level>, b: seq<Level>)
    requires Canonical(side, a) && Canonical(side, b) && Flatten(a) == Flatten(b)
    ensures a == b
  {
    assert a == [] <==> Flatten(a) == [];
    assert b == [] <==> Flatten(b) == [];
    if a != [] && b != [] {
      SameHead(side, a, b);
      SameHead(side, b, a);
      var n := |a[0].queue|;
      assert a[0].queue == Flatten(a)[..n] == Flatten(b)[..n] == b[0].queue;
      assert Flatten(a[1..]) == Flatten(a)[n..] == Flatten(b)[n..] == Flatten(b[1..]);
      FlattenInjective(side, a[1..], b[1..]);
      assert a == [a[0]] + a[1..] && b == [b[0]] + b[1..];
    }
  }

  lemma SameHead(side: Side, a: seq<Level>, b: seq<Level>)
    requires a != [] && b != [] && Canonical(side, a) && Canonical(side, b) && Flatten(a) == Flatten(b)
    ensures a[0].price == b[0].price && |a[0].queue| >= |b[0].queue|
  {
    assert LevelOk(side, a[0]) && LevelOk(side, b[0]);
    assert Flatten(a)[0] == a[0].queue[0] && Flatten(b)[0] == b[0].queue[0];
    if |a[0].queue| < |Flatten(a)| {
      PriceChangesAfterHead(side, a);
    }
  }

  lemma PriceChangesAfterHead(side: Side, ls: seq<Level>)
    requires ls != [] && Canonical(side, ls) && |ls[0].queue| < |Flatten(ls)|
    ensures Flatten(ls)[|ls[0].queue|].price != ls[0].price
  {
    var t := Flatten(ls[1..]);
    assert Flatten(ls)[|ls[0].queue|] == t[0];
    assert t == ls[1].queue + Flatten(ls[1..][1..]);
    assert LevelOk(side, ls[1]) && Better(side, ls[0].price, ls[1].price);
  }

  // ------------------------------------------------------------------
  //  Joining and leaving a level
  // ------------------------------------------------------------------

  lemma {:induction false} InsertPast(q: seq<Order>, t: seq<Order>, o: Order)
    requires forall i | 0 <= i < |q| :: !Better(o.side, o.price, q[i].price)
    ensures Insert(q + t, o) == q + Insert(t, o)
  {
    if q == [] {
      assert q + t == t;
    } else {
      assert (q + t)[1..] == q[1..] + t;
      InsertPast(q[1..], t, o);
      assert [q[0]] + (q[1..] + Insert(t, o)) == q + Insert(t, o);
    }
  }

  lemma InsertInFront(side: Side, ls: seq<Level>, o: Order)
    requires Canonical(side, ls) && o.side == side
    requires ls == [] || Better(side, o.price, ls[0].price)
    ensures Insert(Flatten(ls), o) == [o] + Flatten(ls)
  {
    if ls != [] {
      assert LevelOk(side, ls[0]) && Flatten(ls)[0] == ls[0].queue[0];
    }
  }

  /** Joining the back of a level is price-time insertion. */
  lemma {:induction false} PushBackInserts(ls: seq<Level>, o: Order)
    requires Canonical(o.side, ls)
    ensures Flatten(PushBack(ls, o)) == Insert(Flatten(ls), o)
  {
    if ls == [] || Better(o.side, o.price, ls[0].price) {
      InsertInFront(o.side, ls, o);
      assert ([Level(o.price, [o])] + ls)[1..] == ls;
    } else {
      var q, tail := ls[0].queue, ls[1..];
      assert LevelOk(o.side, ls[0]);
      InsertPast(q, Flatten(tail), o);
      if ls[0].price == o.price {
        assert tail != [] ==> Better(o.side, ls[0].price, ls[1].price);
        InsertInFront(o.side, tail, o);
        assert ([Level(o.price, q + [o])] + tail)[1..] == tail;
        assert (q + [o]) + Flatten(tail) == q + ([o] + Flatten(tail));
      } else {
        PushBackInserts(tail, o);
        assert ([ls[0]] + PushBack(tail, o))[1..] == PushBack(tail, o);
      }
    }
  }

  lemma {:induction false} PushBackCanonical(ls: seq<Level>, o: Order)
    requires Canonical(o.side, ls) && o.remaining > 0
    ensures Canonical(o.side, PushBack(ls, o))
    ensures var r := PushBack(ls, o); r != [] && (r[0].price == o.price || (ls != [] && r[0].price == ls[0].price))
  {
    if ls == [] || Better(o.side, o.price, ls[0].price) {
      ConsCanonical(o.side, Level(o.price, [o]), ls);
    } else if ls[0].price == o.price {
      assert LevelOk(o.side, ls[0]);
      assert ls[1..] != [] ==> Better(o.side, ls[0].price, ls[1].price);
      ConsCanonical(o.side, Level(o.price, ls[0].queue + [o]), ls[1..]);
    } else {
      PushBackCanonical(ls[1..], o);
      assert LevelOk(o.side, ls[0]) && (ls[1..] != [] ==> Better(o.side, ls[0].price, ls[1].price));
      ConsCanonical(o.side, ls[0], PushBack(ls[1..], o));
    }
  }

  lemma ConsCanonical(side: Side, l: Level, ls: seq<Level>)
    requires Canonical(side, ls) && LevelOk(side, l) && l.queue != []
    requires ls != [] ==> Better(side, l.price, ls[0].price)
    ensures Canonical(side, [l] + ls)
  {
    var r := [l] + ls;
    forall i, j | 0 <= i < j < |r| ensures Better(side, r[i].price, r[j].price) {
      if i == 0 && j > 1 { assert Better(side, ls[0].price, ls[j - 1].price); }
    }
  }

  lemma {:induction false} WithoutConcat(a: seq<Order>, b: seq<Order>, id: OrderId)
    ensures Without(a + b, id) == Without(a, id) + Without(b, id)
  {
    if a == [] {
      assert a + b == b;
    } else {
      assert (a + b)[1..] == a[1..] + b;
      WithoutConcat(a[1..], b, id);
    }
  }

  lemma StoreFlattens(ls: seq<Level>, k: nat, queue: seq<Order>)
    requires k < |ls|
    ensures Flatten(Store(ls, k, queue)) == Flatten(ls[..k]) + queue + Flatten(ls[k + 1..])
  {
    if queue == [] {
      FlattenConcat(ls[..k], ls[k + 1..]);
      assert Flatten(ls[..k]) + [] == Flatten(ls[..k]);
    } else {
      var r := ls[k := Level(ls[k].price, queue)];
      FlattenSplit(r, k);
      assert r[..k] == ls[..k] && r[k + 1..] == ls[k + 1..];
    }
  }

  lemma StoreCanonical(side: Side, ls: seq<Level>, k: nat, queue: seq<Order>)
    requires Canonical(side, ls) && k < |ls| && LevelOk(side, Level(ls[k].price, queue))
    ensures Canonical(side, Store(ls, k, queue))
  {
  }

  lemma WithoutMiddle(a: seq<Order>, q: seq<Order>, b: seq<Order>, x: Order)
    requires DistinctIds(a + q + b) && x in q
    ensures Without(a + q + b, x.id) == a + Without(q, x.id) + b
  {
    var s := a + q + b;
    var i :| 0 <= i < |q| && q[i] == x;
    assert s[|a| + i] == x;
    forall j | 0 <= j < |a| ensures a[j].id != x.id { assert s[j] == a[j]; }
    forall j | 0 <= j < |b| ensures b[j].id != x.id { assert s[|a| + |q| + j] == b[j]; }
    WithoutAbsent(a, x.id);
    WithoutAbsent(b, x.id);
    WithoutConcat(a + q, b, x.id);
    WithoutConcat(a, q, x.id);
  }

  /** Consuming the best level leaves the side canonical. */
  lemma StillCanonical(side: Side, price: int, was: seq<Level>, queue: seq<Order>, ls: seq<Level>)
    requires was != [] && Canonical(side, was) && was[0].price == price && LevelOk(side, Level(price, queue))
    requires ls == if queue == [] then was[1..] else [Level(price, queue)] + was[1..]
    ensures Canonical(side, ls) && |ls| + (if queue == [] then 1 else 0) == |was|
  {
    assert Canonical(side, was[1..]);
    if queue != [] {
      assert was[1..] != [] ==> Better(side, was[0].price, was[1].price);
      ConsCanonical(side, Level(price, queue), was[1..]);
    }
  }

  /** Erasing an order from the level of its price removes it from the flat list. */
  lemma EraseRemoves(ls: seq<Level>, k: nat, x: Order)
    requires DistinctIds(Flatten(ls)) && k < |ls| && x in ls[k].queue
    ensures Flatten(Store(ls, k, Without(ls[k].queue, x.id))) == Without(Flatten(ls), x.id)
  {
    FlattenSplit(ls, k);
    StoreFlattens(ls, k, Without(ls[k].queue, x.id));
    WithoutMiddle(Flatten(ls[..k]), ls[k].queue, Flatten(ls[k + 1..]), x);
  }

  lemma {:induction false} FindFinds(side: Side, ls: seq<Level>, x: Order)
    requires Ordered(side, ls) && x in Flatten(ls)
    ensures Find(ls, x.price) < |ls| && x in ls[Find(ls, x.price)].queue
  {
    assert LevelOk(side, ls[0]);
    if x in ls[0].queue {
      var i :| 0 <= i < |ls[0].queue| && ls[0].queue[i] == x;
    } else {
      FindFinds(side, ls[1..], x);
      assert Better(side, ls[0].price, ls[1..][Find(ls[1..], x.price)].price);
    }
  }
}
