/** One fill at the head of the book, and how a run of fills adds up to a sweep. */
module Filling {
  import opened Orders
  import opened PriceTime
  import opened Books

  /** Fill `o` against the first order of the opposite side. */
  function FillHead(b: Book, o: Order, left: int): Outcome
    requires b.Queue(o.side.Opposite()) != []
  {
    var s := b.Queue(o.side.Opposite());
    var fill := Min(left, s[0].remaining);
    var rest := if fill < s[0].remaining then [s[0].WithRemaining(s[0].remaining - fill)] + s[1..] else s[1..];
    Outcome(b.WithQueue(o.side.Opposite(), rest).(hidden := b.hidden - {s[0].id}, last := Some(s[0].price)),
            [MakeTrade(o, s[0], s[0].price, fill)], left - fill)
  }

  /** The front of a queue after a fill. */
  function FrontFilled(queue: seq<Order>, fill: int): seq<Order>
    requires queue != []
  {
    if fill < queue[0].remaining then [queue[0].WithRemaining(queue[0].remaining - fill)] + queue[1..] else queue[1..]
  }

  lemma FillHeadInFront(b: Book, o: Order, left: int, queue: seq<Order>, t: seq<Order>)
    requires queue != [] && b.Queue(o.side.Opposite()) == queue + t
    ensures var r, fill := FillHead(b, o, left), Min(left, queue[0].remaining);
            && r.book.Queue(o.side.Opposite()) == FrontFilled(queue, fill) + t
            && r.trades == [MakeTrade(o, queue[0], queue[0].price, fill)]
            && r.left == left - fill
            && r.book.last == Some(queue[0].price)
  {
  }

  /** Having traded `trades` and with `left` to go, the sweep of `b0` goes on as the
      sweep of `b`. */
  ghost predicate Resumes(b0: Book, o: Order, reach: Reach, b: Book, trades: seq<Trade>, left: int) {
    var opp := o.side.Opposite();
    var s := Sweep(o, b.Queue(opp), left, reach);
    && Sweep(o, b0.Queue(opp), o.remaining, reach) == s.(trades := trades + s.trades)
    && b == b0.WithQueue(opp, b.Queue(opp)).(hidden := b0.hidden - PassiveIds(trades),
                                             last := LastPrice(b0.last, trades))
  }

  lemma ResumesAtStart(b: Book, o: Order, reach: Reach)
    ensures Resumes(b, o, reach, b, [], o.remaining)
  {
    var s := Sweep(o, b.Queue(o.side.Opposite()), o.remaining, reach);
    assert [] + s.trades == s.trades;
  }

  lemma SweepFillsHeadFirst(b: Book, o: Order, reach: Reach, left: int)
    requires left > 0
    requires var s := b.Queue(o.side.Opposite()); s != [] && s[0].remaining > 0 && Reaches(o, reach, s[0].price)
    ensures var r := FillHead(b, o, left);
            var s' := Sweep(o, r.book.Queue(o.side.Opposite()), r.left, reach);
            Sweep(o, b.Queue(o.side.Opposite()), left, reach) == s'.(trades := r.trades + s'.trades)
  {
  }

  lemma ResumesAfterFill(b0: Book, o: Order, reach: Reach, b: Book, trades: seq<Trade>, left: int)
    requires Resumes(b0, o, reach, b, trades, left) && left > 0
    requires var s := b.Queue(o.side.Opposite()); s != [] && s[0].remaining > 0 && Reaches(o, reach, s[0].price)
    ensures var r := FillHead(b, o, left); Resumes(b0, o, reach, r.book, trades + r.trades, r.left)
  {
    hide Sweep, Reaches;
    SweepFillsHeadFirst(b, o, reach, left);
    var r := FillHead(b, o, left);
    var s' := Sweep(o, r.book.Queue(o.side.Opposite()), r.left, reach);
    assert (trades + r.trades) + s'.trades == trades + (r.trades + s'.trades);
    PassiveIdsAppend(trades, r.trades[0]);
  }

  lemma PassiveIdsAppend(ts: seq<Trade>, t: Trade)
    ensures PassiveIds(ts + [t]) == PassiveIds(ts) + {t.passiveId}
  {
    assert forall u :: u in ts + [t] <==> u in ts || u == t;
  }

  lemma ResumesAtEnd(b0: Book, o: Order, reach: Reach, b: Book, trades: seq<Trade>, left: int)
    requires Resumes(b0, o, reach, b, trades, left)
    requires var s := b.Queue(o.side.Opposite()); left <= 0 || s == [] || !Reaches(o, reach, s[0].price)
    ensures Take(b0, o, reach) == Outcome(b, trades, left)
  {
    assert trades + [] == trades;
  }

  // ------------------------------------------------------------------
  //  The id index
  // ------------------------------------------------------------------

  /** The index maps ids to queued orders; what it misses is hidden. */
  ghost predicate Indexed(index: map<OrderId, Order>, b: Book) {
    && b.hidden == BookIds(b) - index.Keys
    && (forall id | id in index :: index[id].id == id && (index[id] in b.bids || index[id] in b.asks))
  }

  /** With nothing hidden, the index holds exactly the queued orders; and conversely. */
  lemma IndexIsComplete(index: map<OrderId, Order>, b: Book)
    requires Wf(b) && Indexed(index, b)
    ensures b.hidden == {} <==> forall x | x in b.bids || x in b.asks :: x.id in index && index[x.id] == x
  {
    forall x | x in b.bids || x in b.asks ensures x.id in index ==> index[x.id] == x {
      if x.id in index { SameIdSameOrder(b, x, index[x.id]); }
    }
    if b.hidden == {} {
      forall x | x in b.bids || x in b.asks ensures x.id in index {
        assert x.id in BookIds(b);
        assert x.id in index || x.id in b.hidden;
      }
    } else {
      var id :| id in b.hidden;
      assert id in Priceless(b);
      var x :| x in b.bids + b.asks && x.price == 0 && x.id == id;
      assert x in b.bids || x in b.asks;
      assert x.id !in index;
    }
  }

  lemma SameIdSameOrder(b: Book, x: Order, y: Order)
    requires Wf(b) && (x in b.bids || x in b.asks) && (y in b.bids || y in b.asks) && x.id == y.id
    ensures x == y
  {
    var side := if x in b.bids then Buy else Sell;
    var s := b.Queue(side);
    assert x.id in Ids(s);
    assert y in s by { assert y.id !in Ids(b.Queue(side.Opposite())); }
    var i :| 0 <= i < |s| && s[i] == x;
    var j :| 0 <= j < |s| && s[j] == y;
  }

  lemma HeadIds(s: seq<Order>, h: Order)
    requires s != [] && DistinctIds(s) && h.id == s[0].id
    ensures Ids(s[1..]) == Ids(s) - {h.id} && Ids([h] + s[1..]) == Ids(s)
    ensures forall x | x in s :: x.id == h.id || x in s[1..]
  {
    forall x | x in s[1..] ensures x in s && x.id != h.id {
      var j :| 0 <= j < |s[1..]| && s[1..][j] == x;
      assert s[j + 1] == x && s[0].id != s[j + 1].id;
    }
    assert s[0] in s && forall x | x in s :: x == s[0] || x in s[1..];
    assert h in [h] + s[1..] && forall x :: x in [h] + s[1..] <==> x == h || x in s[1..];
  }

  lemma FillHeadKeepsWf(b: Book, o: Order, left: int)
    requires Wf(b) && left > 0 && b.Queue(o.side.Opposite()) != []
    ensures Wf(FillHead(b, o, left).book)
  {
    var s := b.Queue(o.side.Opposite());
    var o' := o.(remaining := Min(left, s[0].remaining));
    TakeKeepsWf(b, o', AnyPrice);
    var t := Take(b, o', AnyPrice).trades;
    assert Sweep(o', s[1..], 0, AnyPrice).trades == [];
    assert t == [MakeTrade(o', s[0], s[0].price, o'.remaining)];
    assert t[0] in t && PassiveIds(t) == {s[0].id};
  }

  /** The index after a fill: a partly filled order is re-entered, a filled one erased. */
  function Reindex(index: map<OrderId, Order>, head: Order, fill: int): map<OrderId, Order> {
    if fill < head.remaining then index[head.id := head.WithRemaining(head.remaining - fill)] else index - {head.id}
  }

  /** Keeping the index in step with the head of the queue. */
  lemma FillHeadKeepsIndex(index: map<OrderId, Order>, b: Book, o: Order, left: int)
    requires Wf(b) && Indexed(index, b) && left > 0 && b.Queue(o.side.Opposite()) != []
    ensures var s := b.Queue(o.side.Opposite());
            var index' := Reindex(index, s[0], Min(left, s[0].remaining));
            var b' := FillHead(b, o, left).book;
            Indexed(index', b') && b'.hidden == Ids(b'.bids) + Ids(b'.asks) - index'.Keys
  {
    var s := b.Queue(o.side.Opposite());
    FillHeadIds(b, o, left);
    var b' := FillHead(b, o, left).book;
    hide FillHead, Wf;
    var index' := Reindex(index, s[0], Min(left, s[0].remaining));
    forall id | id in index' ensures index'[id].id == id && (index'[id] in b'.bids || index'[id] in b'.asks) {
      if id != s[0].id {
        assert index'[id] == index[id];
      }
    }
  }

  lemma FillHeadIds(b: Book, o: Order, left: int)
    requires Wf(b) && left > 0 && b.Queue(o.side.Opposite()) != []
    ensures var b', head := FillHead(b, o, left).book, b.Queue(o.side.Opposite())[0];
            && b'.hidden == b.hidden - {head.id}
            && head.id in BookIds(b)
            && (left < head.remaining ==>
                  && BookIds(b') == BookIds(b)
                  && head.WithRemaining(head.remaining - left) in b'.Queue(o.side.Opposite()))
            && (left >= head.remaining ==> BookIds(b') == BookIds(b) - {head.id})
            && (forall x | (x in b.bids || x in b.asks) && x.id != head.id :: x in b'.bids || x in b'.asks)
  {
    var s := b.Queue(o.side.Opposite());
    HeadIds(s, s[0].WithRemaining(s[0].remaining - left));
    assert s[0] in s && s[0].id in Ids(s);
  }

  lemma RestKeepsIndex(index: map<OrderId, Order>, b: Book, o: Order)
    requires Wf(b) && Indexed(index, b) && o.id !in BookIds(b)
    ensures var b', index' := Rest(b, o), index[o.id := o];
            Indexed(index', b') && b'.hidden == Ids(b'.bids) + Ids(b'.asks) - index'.Keys
  {
    InsertIds(b.Queue(o.side), o);
    forall id | id in index ensures id != o.id {
      assert id in Ids(b.bids) || id in Ids(b.asks);
    }
  }

  lemma CancelKeepsIndex(index: map<OrderId, Order>, b: Book, id: OrderId)
    requires Wf(b) && Indexed(index, b)
    ensures var b', index' := Cancel(b, id).book, index - {id};
            Indexed(index', b') && b'.hidden == Ids(b'.bids) + Ids(b'.asks) - index'.Keys
    ensures id in index ==> PriceOf(b.bids + b.asks, id) == Some(index[id].price)
    ensures id in index <==> id in BookIds(b) - b.hidden
  {
    PriceOfIsPrice(b, id);
    WithoutMembers(b.bids, id);
    WithoutMembers(b.asks, id);
    if id in index {
      assert index[id] in b.bids + b.asks;
      assert id in Ids(b.bids) || id in Ids(b.asks);
    }
  }
}
