/** The Java engine's stop orders: a trade fires the stops its price touches, each is
    submitted again as a limit order, and its trades may fire more stops. One symbol,
    called from one thread. */
module StopCascade {
  import opened Orders
  import opened PriceTime
  import opened Books
  import opened EngineModel

  /** A stop that fired at price `at`, the limit order submitted for it, and whether
      that order passed the gate. */
  datatype Activation = Activation(stop: Order, at: int, limit: Order, accepted: bool)

  function AsLimit(stop: Order, id: OrderId): Order {
    Create(id, stop.account, stop.symbol, stop.side, Limit, stop.price, 0, stop.remaining)
  }

  function Stops(log: seq<Activation>): multiset<Order> {
    if log == [] then multiset{} else multiset{log[0].stop} + Stops(log[1..])
  }

  /** Match the accepted limit orders one after the other. */
  function Replay(b: Book, log: seq<Activation>): Book
    decreases |log|
  {
    if log == [] then b
    else Replay(if log[0].accepted then Match(b, log[0].limit).book else b, log[1..])
  }

  /** `at` was the last trade price before activation `i`, at the start or later. */
  ghost predicate TradedBefore(b: Book, log: seq<Activation>, i: nat, at: int)
    requires i <= |log|
  {
    exists j :: 0 <= j <= i && Replay(b, log[..j]).last == Some(at)
  }

  /** A price at which a stop is due: at or above its stop price for a buy, at or below
      for a sell. */
  predicate Touches(stop: Order, price: int) {
    (stop.side == Buy && price >= stop.stopPrice) || (stop.side == Sell && price <= stop.stopPrice)
  }

  /** A new limit order for what is left of a stop, at its limit price. */
  predicate StandsFor(limit: Order, stop: Order) {
    && limit.kind == Limit && limit.price == stop.price && limit.side == stop.side
    && limit.account == stop.account && limit.symbol == stop.symbol
    && limit.quantity == stop.remaining && limit.remaining == stop.remaining && limit.status == Pending
  }

  /** The stop was due, and went out as the limit order it stands for. */
  predicate Due(a: Activation) {
    Touches(a.stop, a.at) && StandsFor(a.limit, a.stop)
  }

  /** Every stop in the log was due at a price the book had traded at. */
  ghost predicate Faithful(b: Book, log: seq<Activation>) {
    forall i | 0 <= i < |log| :: Due(log[i]) && TradedBefore(b, log, i, log[i].at)
  }

  /** No pending stop is due at the last trade price. */
  ghost predicate Quiet(pending: seq<Order>, last: Option<int>) {
    last.Some? ==> forall stop | stop in pending :: !Touches(stop, last.value)
  }

  lemma {:induction false} StopsConcat(a: seq<Activation>, b: seq<Activation>)
    ensures Stops(a + b) == Stops(a) + Stops(b)
  {
    if a == [] {
      assert a + b == b;
    } else {
      assert (a + b)[1..] == a[1..] + b;
      StopsConcat(a[1..], b);
    }
  }

  lemma {:induction false} ReplayConcat(book: Book, a: seq<Activation>, b: seq<Activation>)
    ensures Replay(book, a + b) == Replay(Replay(book, a), b)
    decreases |a|
  {
    if a == [] {
      assert a + b == b;
    } else {
      assert (a + b)[1..] == a[1..] + b;
      ReplayConcat(if a[0].accepted then Match(book, a[0].limit).book else book, a[1..], b);
    }
  }

  /** Removing the due stops splits the pending list in two. */
  lemma {:induction false} FiredSplits(pending: seq<Order>, last: int)
    ensures multiset(Fired(pending, last)) + multiset(Unfired(pending, last)) == multiset(pending)
    ensures |Fired(pending, last)| + |Unfired(pending, last)| == |pending|
  {
    if pending != [] {
      FiredSplits(pending[1..], last);
      assert pending == [pending[0]] + pending[1..];
    }
  }

  lemma {:induction false} FiredAreDue(pending: seq<Order>, last: int)
    ensures forall stop | stop in Fired(pending, last) :: Touches(stop, last)
    ensures forall stop | stop in Unfired(pending, last) :: !Touches(stop, last)
  {
    if pending != [] { FiredAreDue(pending[1..], last); }
  }

  /** The last trade price moves exactly with the trades. */
  lemma MatchSetsLast(b: Book, o: Order)
    ensures var r := Match(b, o);
            r.book.last == if r.trades == [] then b.last else Some(r.trades[|r.trades| - 1].price)
  {
    hide Sweep, Insert, Without, PriceOf, Depth, PassiveIds, BookIds;
  }

  lemma TradedBeforeInLonger(b: Book, log: seq<Activation>, tail: seq<Activation>, i: nat, at: int)
    requires i <= |log| && TradedBefore(b, log, i, at)
    ensures TradedBefore(b, log + tail, i, at)
  {
    hide Replay;
    var j :| 0 <= j <= i && Replay(b, log[..j]).last == Some(at);
    assert (log + tail)[..j] == log[..j];
  }

  lemma TradedBeforeInLater(b: Book, head: seq<Activation>, log: seq<Activation>, i: nat, at: int)
    requires i <= |log| && TradedBefore(Replay(b, head), log, i, at)
    ensures TradedBefore(b, head + log, |head| + i, at)
  {
    hide Replay;
    var j :| 0 <= j <= i && Replay(Replay(b, head), log[..j]).last == Some(at);
    ReplayConcat(b, head, log[..j]);
    assert (head + log)[..|head| + j] == head + log[..j];
  }

  lemma FaithfulConcat(b: Book, log: seq<Activation>, more: seq<Activation>)
    requires Faithful(b, log) && Faithful(Replay(b, log), more)
    ensures Faithful(b, log + more)
  {
    hide Due, TradedBefore, Replay;
    forall i | 0 <= i < |log + more|
      ensures Due((log + more)[i]) && TradedBefore(b, log + more, i, (log + more)[i].at)
    {
      if i < |log| {
        TradedBeforeInLonger(b, log, more, i, log[i].at);
      } else {
        TradedBeforeInLater(b, log, more, i - |log|, more[i - |log|].at);
      }
    }
  }

  lemma TradedAtStart(b: Book, log: seq<Activation>, i: nat, at: int)
    requires i <= |log| && b.last == Some(at)
    ensures TradedBefore(b, log, i, at)
  {
    assert Replay(b, log[..0]) == b;
  }

  /** A stop that fired at the start joins the log. */
  lemma AppendFaithful(b: Book, log: seq<Activation>, a: Activation)
    requires Faithful(b, log) && Due(a) && b.last == Some(a.at)
    ensures Faithful(b, log + [a])
  {
    hide Due, TradedBefore;
    forall i | 0 <= i < |log| + 1
      ensures Due((log + [a])[i]) && TradedBefore(b, log + [a], i, (log + [a])[i].at)
    {
      if i < |log| {
        TradedBeforeInLonger(b, log, [a], i, log[i].at);
      } else {
        TradedAtStart(b, log + [a], i, a.at);
      }
    }
  }

  lemma AppendReplays(b: Book, log: seq<Activation>, a: Activation)
    ensures Stops(log + [a]) == Stops(log) + multiset{a.stop}
    ensures Replay(b, log + [a]) == if a.accepted then Match(Replay(b, log), a.limit).book else Replay(b, log)
  {
    hide Match;
    StopsConcat(log, [a]);
    ReplayConcat(b, log, [a]);
  }

  /** One more activation: the order itself, then what it set off. */
  lemma Extend(b: Book, log: seq<Activation>, a: Activation, more: seq<Activation>)
    requires Faithful(b, log) && Due(a) && b.last == Some(a.at)
    requires Faithful(if a.accepted then Match(Replay(b, log), a.limit).book else Replay(b, log), more)
    ensures var log' := log + [a] + more;
            && Faithful(b, log')
            && Stops(log') == Stops(log) + multiset{a.stop} + Stops(more)
            && Replay(b, log') ==
               Replay(if a.accepted then Match(Replay(b, log), a.limit).book else Replay(b, log), more)
  {
    hide Match, Replay, Stops, Faithful;
    AppendFaithful(b, log, a);
    AppendReplays(b, log, a);
    FaithfulConcat(b, log + [a], more);
    StopsConcat(log + [a], more);
    ReplayConcat(b, log + [a], more);
  }

  /** What firing stops until none is due has done to a book and its pending stops. */
  ghost predicate Settled(b: Book, was: seq<Order>, b': Book, pending: seq<Order>, log: seq<Activation>) {
    && b' == Replay(b, log)
    && Faithful(b, log)
    && multiset(pending) + Stops(log) == multiset(was)
    && |pending| <= |was|
    && b'.last.Some?
    && Quiet(pending, b'.last)
  }

  /** What a submission has done: nothing, or a match and whatever it set off. */
  ghost predicate Submitted(b: Book, was: seq<Order>, o: Order, accepted: bool, trades: seq<Trade>,
                            b': Book, pending: seq<Order>, log: seq<Activation>)
  {
    var r := Match(b, o);
    if !accepted then trades == [] && b' == b && pending == was && log == []
    else trades == r.trades && if trades == [] then b' == r.book && pending == was && log == []
                               else Settled(r.book, was, b', pending, log)
  }

  /** The loop over the fired stops: those in `rest` are still to be submitted. */
  ghost predicate Cascading(b: Book, was: seq<Order>, b': Book, pending: seq<Order>, log: seq<Activation>,
                            rest: seq<Order>, last: int)
  {
    && b' == Replay(b, log)
    && Faithful(b, log)
    && multiset(pending) + Stops(log) + multiset(rest) == multiset(was)
    && b.last == Some(last)
    && b'.last.Some?
    && Quiet(pending, b'.last)
    && (forall stop | stop in rest :: Touches(stop, last))
  }

  lemma CascadeStarts(b: Book, was: seq<Order>)
    requires b.last.Some?
    ensures var last := b.last.value;
            && Cascading(b, was, b, Unfired(was, last), [], Fired(was, last), last)
            && |Fired(was, last)| + |Unfired(was, last)| == |was|
  {
    FiredSplits(was, b.last.value);
    FiredAreDue(was, b.last.value);
    hide Fired, Unfired;
  }

  /** However a submission went, it keeps a quiet list of pending stops quiet. */
  lemma SubmissionSettles(b: Book, was: seq<Order>, o: Order, accepted: bool, trades: seq<Trade>,
                          b': Book, pending: seq<Order>, log: seq<Activation>)
    requires Submitted(b, was, o, accepted, trades, b', pending, log)
    requires b.last.Some? && Quiet(was, b.last)
    ensures Settled(if accepted then Match(b, o).book else b, was, b', pending, log)
  {
    MatchSetsLast(b, o);
    Nothing(b');
    hide Match, Replay, Stops, Quiet;
  }

  lemma CascadeStep(b: Book, was: seq<Order>, b1: Book, pending1: seq<Order>, log: seq<Activation>, rest: seq<Order>,
                    last: int, id: OrderId, accepted: bool, trades: seq<Trade>,
                    b2: Book, pending2: seq<Order>, more: seq<Activation>)
    requires Cascading(b, was, b1, pending1, log, rest, last) && rest != []
    requires Submitted(b1, pending1, AsLimit(rest[0], id), accepted, trades, b2, pending2, more)
    ensures var a := Activation(rest[0], last, AsLimit(rest[0], id), accepted);
            Cascading(b, was, b2, pending2, log + [a] + more, rest[1..], last) && |pending2| <= |pending1|
  {
    var a := Activation(rest[0], last, AsLimit(rest[0], id), accepted);
    hide Match, Replay, Stops, Quiet, Faithful, Submitted;
    SubmissionSettles(b1, pending1, a.limit, accepted, trades, b2, pending2, more);
    Extend(b, log, a, more);
    FirstApart(rest);
    Regroup(multiset(pending1), Stops(log), multiset(rest[1..]), multiset(was), multiset(pending2), Stops(more), rest[0]);
  }

  lemma FirstApart(s: seq<Order>)
    requires s != []
    ensures multiset(s) == multiset{s[0]} + multiset(s[1..])
    ensures forall x | x in s[1..] :: x in s
  {
    assert s == [s[0]] + s[1..];
  }

  lemma Regroup(kept: multiset<Order>, done: multiset<Order>, rest: multiset<Order>, all: multiset<Order>,
                kept': multiset<Order>, more: multiset<Order>, x: Order)
    requires kept + done + (multiset{x} + rest) == all && kept' + more == kept
    ensures kept' + (done + multiset{x} + more) + rest == all
  {
  }

  /** The C++ engine matches the due stops in one pass, each as its limit order, in the
      order in which they were pending. */
  lemma {:induction false} SinglePassReplays(b: Book, stops: seq<Order>, ids: seq<OrderId>, log: seq<Activation>)
    requires |ids| >= |stops| == |log|
    requires forall i | 0 <= i < |log| ::
               log[i].accepted && log[i].limit.id == ids[i] && log[i].limit.stopPrice == 0 && StandsFor(log[i].limit, stops[i])
    ensures MatchAll(b, stops, ids) == Replay(b, log)
    decreases |stops|
  {
    if stops != [] {
      var o := AsLimit(stops[0], ids[0]);
      assert log[0].limit == o;
      assert forall i | 0 <= i < |log[1..]| :: log[1..][i] == log[i + 1];
      hide Match, StandsFor;
      SinglePassReplays(Match(b, o).book, stops[1..], ids[1..], log[1..]);
    }
  }

  /** The C++ trigger step, for any pending list: the due stops leave it, the others stay,
      and nothing but the symbol's book and list changes. */
  lemma SinglePassLaw(s: State, t: ThreadId, ids: seq<OrderId>)
    requires s.At(t).Triggering? && s.At(t).order.symbol in s.stops && s.BookOf(s.At(t).order.symbol).last.Some?
    ensures var symbol := s.At(t).order.symbol;
            var was, last, s' := s.stops[symbol], s.BookOf(symbol).last.value, StopStep(s, t, ids);
            var fired := Fired(was, last);
            && symbol in s'.stops && symbol in s'.books
            && multiset(fired) + multiset(s'.stops[symbol]) == multiset(was)
            && (forall stop | stop in fired :: Touches(stop, last))
            && (forall stop | stop in s'.stops[symbol] :: !Touches(stop, last))
            && s'.books[symbol] == MatchAll(s.BookOf(symbol), fired, ids)
            && s' == s.(threads := s.threads[t := Idle], stops := s.stops[symbol := s'.stops[symbol]],
                        books := s.books[symbol := s'.books[symbol]])
  {
    var symbol := s.At(t).order.symbol;
    FiredSplits(s.stops[symbol], s.BookOf(symbol).last.value);
    FiredAreDue(s.stops[symbol], s.BookOf(symbol).last.value);
    hide Fired, Unfired, MatchAll, Touches;
  }

  lemma Nothing(b: Book)
    ensures Stops([]) == multiset{} && Replay(b, []) == b
  {
  }

  class StopEngine {
    var halted: bool
    var book: Book
    var pending: seq<Order>
    var created: nat
    const newId: nat -> OrderId

    constructor (newId: nat -> OrderId, pending: seq<Order>)
      ensures this.newId == newId && this.pending == pending && !halted && book == EMPTY_BOOK
    {
      this.newId, this.pending, halted, book, created := newId, pending, false, EMPTY_BOOK, 0;
    }

    /** `gate` is what the risk engine answers; it may be anything. */
    method Submit(o: Order, gate: (nat, Order) -> bool)
      returns (trades: seq<Trade>, accepted: bool, ghost log: seq<Activation>)
      modifies this`book, this`pending, this`created
      ensures accepted <==> !halted && gate(old(created), o)
      ensures Submitted(old(book), old(pending), o, accepted, trades, book, pending, log)
      decreases |pending|, 1
    {
      hide Match, Settled;
      log := [];
      if halted {
        return [], false, [];
      }
      if !gate(created, o) {
        return [], false, [];
      }
      MatchSetsLast(book, o);
      trades, accepted := Match(book, o).trades, true;
      book := Match(book, o).book;
      if trades != [] {
        log := CheckStopTriggers(gate);
      }
    }

    method CheckStopTriggers(gate: (nat, Order) -> bool) returns (ghost log: seq<Activation>)
      modifies this`book, this`pending, this`created
      ensures old(book).last.Some? ==> Settled(old(book), old(pending), book, pending, log)
      ensures old(book).last.None? ==> book == old(book) && pending == old(pending) && log == []
      decreases |pending|, 0
    {
      hide Match, Submitted, Cascading, Fired, Unfired, AsLimit;
      log := [];
      if pending == [] || book.last.None? {
        Nothing(book);
        return;
      }
      ghost var b0, was := book, pending;
      var last := book.last.value;
      var toActivate := Fired(pending, last);
      CascadeStarts(book, pending);
      pending := Unfired(pending, last);
      assert toActivate[0..] == toActivate;
      for i := 0 to |toActivate|
        invariant Cascading(b0, was, book, pending, log, toActivate[i..], last)
        invariant |pending| + |toActivate| <= |was|
      {
        var stop := toActivate[i];
        var id := newId(created);
        created := created + 1;
        ghost var b1, pending1, rest := book, pending, toActivate[i..];
        var trades, accepted, more := Submit(AsLimit(stop, id), gate);
        assert rest[1..] == toActivate[i + 1..];
        CascadeStep(b0, was, b1, pending1, log, rest, last, id, accepted, trades, book, pending, more);
        log := log + [Activation(stop, last, AsLimit(stop, id), accepted)] + more;
      }
      CascadeEnds(b0, was, book, pending, log, toActivate[|toActivate|..], last);
    }
  }

  lemma CascadeEnds(b: Book, was: seq<Order>, b': Book, pending: seq<Order>, log: seq<Activation>, rest: seq<Order>, last: int)
    requires Cascading(b, was, b', pending, log, rest, last) && rest == [] && |pending| <= |was|
    ensures Settled(b, was, b', pending, log)
  {
  }
}
