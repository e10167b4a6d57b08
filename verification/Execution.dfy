/** What one accepted order does, end to end: how much it fills, at what price compared with any other
    way of filling it, what it leaves in the book, and how two orders compare with one. */
module Execution {
  import opened Types
  import opened Queues
  import opened Exchange
  import opened Invariants
  import opened Levels
  import opened Greedy

  predicate Admits(s: State, o: Order) {
    Preflight(Opened(s, o), o).Admitted?
  }

  function Opposing(s: State, o: Order): seq<Order> { s.book.Queue(Opposite(o.side)) }

  lemma StampSlices(trades: seq<Trade>, firstSeq: int, firstId: int)
    ensures SlicesOf(Stamp(trades, firstSeq, firstId)) == SlicesOf(trades)
  {
    if trades != [] {
      var xs := Stamp(trades, firstSeq, firstId);
      assert xs[1..] == Stamp(trades[1..], firstSeq + 1, firstId + 1);
      StampSlices(trades[1..], firstSeq + 1, firstId + 1);
    }
  }

  /** State t and result r are what order o, with this much on the other side within its limit, should
      produce in s: f units in priority order off the other side, the rest of a limit order queued
      behind its own side's equals, the rest of a market order dropped. */
  ghost predicate FillsGreedily(s: State, o: Order, t: State, r: OrderResult) {
    var f := Takes(Opposing(s, o), o);
    && 0 <= f <= o.qty
    && r.id == o.id && r.originalQty == o.qty && r.reason == ""
    && r.filledQty == f && r.remainingQty == o.qty - f
    && r.status == (if f == 0 then New else if f == o.qty then Filled else PartiallyFilled)
    && SlicesOf(r.trades) == Slices(Opposing(s, o), f)
    && Opposing(t, o) == Remainder(Opposing(s, o), f)
    && t.book.Queue(o.side)
       == (if o.kind == Limit && f < o.qty then Insert(o.side, s.book.Queue(o.side), o.(qty := o.qty - f))
           else s.book.Queue(o.side))
  }

  /** Every accepted order does just that. */
  lemma AcceptedOutcome(s: State, o: Order)
    requires Core(s) && ProperIds(s, Place(o)) && Admits(s, o)
    ensures FillsGreedily(s, o, Process(s, o).0, Process(s, o).1)
  {
    AnnouncedCore(s, o);
    var a, batch := Announced(s, o), s.journal.batchSeq;
    MatchIsGreedy(a, o, batch);
    MatchCore(a, o, batch);
    var m := Matching(s, o);
    StampSlices(m.trades, m.state.journal.tradeSeq, m.state.journal.nextTradeId);
    ReachableNonNegative(Opposite(o.side), Opposing(s, o), o);
  }

  /** A refused order leaves book, positions and tape alone. It is cancelled rather than rejected exactly
      when it is a market order of positive size with nothing to meet. */
  lemma RefusedUnchanged(s: State, o: Order)
    requires !Admits(s, o)
    ensures var (t, r) := Process(s, o);
            && t.book == s.book && t.journal.tape == s.journal.tape && t.nextId == s.nextId
            && (forall u :: t.ledger.Get(u) == s.ledger.Get(u))
            && r.id == o.id && r.originalQty == o.qty
            && r.trades == [] && r.filledQty == 0 && r.remainingQty == 0
            && (r.status == Rejected || r.status == Canceled)
            && (r.status == Canceled <==> 0 < o.qty && o.kind == Market && Opposing(s, o) == [])
  {
  }

  /** No buyer pays more than its limit, no seller gets less. */
  predicate WithinLimit(o: Order, price: int) {
    o.kind == Limit ==> (o.side == Buy ==> price <= o.price) && (o.side == Sell ==> o.price <= price)
  }

  /** Every trade in the result names its real parties and respects the limit. */
  lemma ResultTrades(s: State, o: Order)
    requires Core(s) && ProperIds(s, Place(o)) && Admits(s, o)
    ensures forall t <- Process(s, o).1.trades ::
              && t.takerId == o.id && t.takerUser == o.user && t.makerUser == s.ledger.OwnerOf(t.makerId)
              && t.makerId in Ids(Opposing(s, o)) && t.qty > 0 && t.price > 0
              && Crosses(o, t.price) && WithinLimit(o, t.price)
  {
    AnnouncedCore(s, o);
    OpenedCore(s, o);
    TradeParties(Announced(s, o), o, s.journal.batchSeq);
    var r, m := Process(s, o).1, Matching(s, o);
    forall t | t in r.trades
      ensures && t.takerId == o.id && t.takerUser == o.user && t.makerUser == s.ledger.OwnerOf(t.makerId)
              && t.makerId in Ids(Opposing(s, o)) && t.qty > 0 && t.price > 0
              && Crosses(o, t.price) && WithinLimit(o, t.price)
    {
      var i :| 0 <= i < |r.trades| && r.trades[i] == t;
      var x := m.trades[i];
      assert t == x.(seqNo := t.seqNo, tradeId := t.tradeId);
      ReferOpposing(s, o);
      NotResting(s.book, o.id);
    }
  }

  lemma ReferOpposing(s: State, o: Order)
    ensures Opposing(Announced(s, o), o) == Opposing(s, o)
  {
  }

  /** A market order that gets past the preflight check trades at least one unit: the best level is
      never empty. Only the depth of the other side limits it. */
  lemma MarketOrderTrades(s: State, o: Order)
    requires Core(s) && ProperIds(s, Place(o)) && Admits(s, o) && o.kind == Market
    ensures Process(s, o).1.filledQty == Min(o.qty, Depth(Opposing(s, o)))
    ensures 1 <= Process(s, o).1.filledQty && Process(s, o).1.trades != []
  {
    AcceptedOutcome(s, o);
    AllReachable(Opposing(s, o), o);
    var q := Opposing(s, o);
    assert q[0] in q && WellPlaced(Opposite(o.side), q[0]);
    assert forall x <- q[1..] :: x in q;
    DepthNonNegative(Opposite(o.side), q[1..]);
  }

  lemma AllReachable(q: seq<Order>, o: Order)
    requires o.kind == Market
    ensures Total(q, Reachable(o)) == Depth(q)
  {
    if q != [] { AllReachable(q[1..], o); }
  }

  /** Best execution: however else the same number of units were taken from the orders resting before
      the call, a buyer would pay no less and a seller receive no more. */
  lemma OrderBestExecution(s: State, o: Order, a: seq<int>, n: int)
    requires Core(s) && ProperIds(s, Place(o)) && Admits(s, o) && Allocation(Opposing(s, o), a, n)
    ensures n == Process(s, o).1.filledQty ==>
              SliceCost(Opposite(o.side), SlicesOf(Process(s, o).1.trades))
                <= AllocCost(Opposite(o.side), Opposing(s, o), a)
  {
    AcceptedOutcome(s, o);
    if n == Process(s, o).1.filledQty { BestExecution(Opposite(o.side), Opposing(s, o), n, a); }
  }

  // ----- splitting an order

  /** Joins neighbouring slices of the same resting order. */
  function Merge(xs: seq<Slice>): seq<Slice>
    decreases |xs|
  {
    if |xs| < 2 then xs
    else if xs[0].order == xs[1].order then
      Merge([Slice(xs[0].order, xs[0].price, xs[0].qty + xs[1].qty)] + xs[2..])
    else [xs[0]] + Merge(xs[1..])
  }

  lemma SliceOrders(q: seq<Order>, n: int)
    ensures forall x <- Slices(q, n) :: x.order in Ids(q)
  {
    if n > 0 && q != [] {
      SliceOrders(q[1..], n - q[0].qty);
      assert q == [q[0]] + q[1..];
      assert q[0] in q;
    }
  }

  lemma MergeCons(x: Slice, xs: seq<Slice>)
    requires forall y <- xs :: y.order != x.order
    ensures Merge([x] + xs) == [x] + Merge(xs)
  {
  }

  lemma TailIds(q: seq<Order>)
    requires UniqueIds(q) && q != []
    ensures UniqueIds(q[1..]) && q[0].id !in Ids(q[1..])
  {
  }

  lemma MergeOne(q: seq<Order>, n: int)
    requires UniqueIds(q)
    ensures Merge(Slices(q, n)) == Slices(q, n)
  {
    if n > 0 && q != [] {
      TailIds(q);
      SliceOrders(q[1..], n - q[0].qty);
      MergeOne(q[1..], n - q[0].qty);
      MergeCons(Slice(q[0].id, q[0].price, Min(n, q[0].qty)), Slices(q[1..], n - q[0].qty));
    }
  }

  /** Taking a units and then b from what is left is taking a + b, even when the first part stops in
      the middle of an order. */
  lemma {:induction false} SplitSlices(side: Side, q: seq<Order>, a: int, b: int)
    requires UniqueIds(q) && (forall o <- q :: WellPlaced(side, o)) && 0 <= a && 0 <= b
    ensures Remainder(Remainder(q, a), b) == Remainder(q, a + b)
    ensures Merge(Slices(q, a) + Slices(Remainder(q, a), b)) == Slices(q, a + b)
  {
    if q == [] || a == 0 {
      assert [] + Slices(q, b) == Slices(q, b);
      MergeOne(q, b);
    } else {
      assert WellPlaced(side, q[0]);
      TailIds(q);
      var h, tail := q[0].qty, q[1..];
      if h <= a {
        SplitSlices(side, tail, a - h, b);
        SplitTail(q, a, b);
      } else {
        SplitHead(side, q, a, b);
      }
    }
  }

  /** A first part that empties the head order. */
  lemma SplitTail(q: seq<Order>, a: int, b: int)
    requires q != [] && UniqueIds(q) && 0 < q[0].qty <= a && 0 <= b
    ensures var x := Slice(q[0].id, q[0].price, q[0].qty);
            var rest := Slices(q[1..], a - q[0].qty) + Slices(Remainder(q[1..], a - q[0].qty), b);
            Merge(Slices(q, a) + Slices(Remainder(q, a), b)) == [x] + Merge(rest)
  {
    TailIds(q);
    var tail, n := q[1..], a - q[0].qty;
    var x := Slice(q[0].id, q[0].price, q[0].qty);
    var rest := Slices(tail, n) + Slices(Remainder(tail, n), b);
    SliceOrders(tail, n);
    SliceOrders(Remainder(tail, n), b);
    RemainderIds(tail, n);
    MergeCons(x, rest);
    assert Slices(q, a) + Slices(Remainder(q, a), b) == [x] + rest;
  }

  lemma RemainderIds(q: seq<Order>, n: int)
    ensures Ids(Remainder(q, n)) <= Ids(q)
  {
    if n > 0 && q != [] {
      assert q == [q[0]] + q[1..];
      assert q[0] in q;
      if n >= q[0].qty { RemainderIds(q[1..], n - q[0].qty); }
    }
  }

  lemma SplitHead(side: Side, q: seq<Order>, a: int, b: int)
    requires q != [] && UniqueIds(q) && (forall o <- q :: WellPlaced(side, o)) && 0 < a < q[0].qty && 0 <= b
    ensures Remainder(Remainder(q, a), b) == Remainder(q, a + b)
    ensures Merge(Slices(q, a) + Slices(Remainder(q, a), b)) == Slices(q, a + b)
  {
    TailIds(q);
    var h, tail, id, price := q[0].qty, q[1..], q[0].id, q[0].price;
    var cut := Remainder(q, a);
    assert cut[1..] == tail;
    assert Slices(q, a) == [Slice(id, price, a)] by {
      assert Slices(tail, a - h) == [];
    }
    if b > 0 {
      var rest := Slices(tail, b - (h - a));
      assert Slices(cut, b) == [Slice(id, price, Min(b, h - a))] + rest;
      var whole := Slice(id, price, a + Min(b, h - a));
      var xs := Slices(q, a) + Slices(cut, b);
      assert xs[2..] == rest;
      SliceOrders(tail, b - (h - a));
      MergeCons(whole, rest);
      MergeOne(tail, b - (h - a));
      assert Merge(xs) == Merge([whole] + rest);
      if b < h - a {
        assert Slices(tail, a + b - h) == [] == rest;
      }
    }
  }

  lemma TakesSplit(side: Side, q: seq<Order>, o: Order, a: int, b: int)
    requires QueueOk(side, q) && o.side == Opposite(side) && 0 <= a && 0 <= b
    ensures var f := Takes(q, o.(qty := a));
            && 0 <= f
            && Takes(q, o.(qty := a + b)) == f + Takes(Remainder(q, f), o.(qty := b))
            && 0 <= Takes(Remainder(q, f), o.(qty := b))
  {
    SameReach(q, o, a);
    SameReach(q, o, a + b);
    ReachableNonNegative(side, q, o);
    var f := Takes(q, o.(qty := a));
    ReachAfter(side, q, o, f);
    SameReach(Remainder(q, f), o, b);
  }

  lemma ReachAfter(side: Side, q: seq<Order>, o: Order, f: int)
    requires QueueOk(side, q) && o.side == Opposite(side) && 0 <= f <= Total(q, Reachable(o))
    ensures Total(Remainder(q, f), Reachable(o)) == Total(q, Reachable(o)) - f
  {
    if f > 0 && q != [] {
      assert WellPlaced(side, q[0]);
      assert q == [q[0]] + q[1..];
      if !Crosses(o, q[0].price) { NothingReachable(side, q, o); }
      if f < q[0].qty {
        assert Remainder(q, f)[1..] == q[1..];
      } else {
        ReachAfter(side, q[1..], o, f - q[0].qty);
      }
    }
  }

  /** How much an order takes depends on its side, kind, price and size alone. */
  lemma SameTaker(q: seq<Order>, o: Order, p: Order)
    requires o.side == p.side && o.kind == p.kind && o.price == p.price
    ensures Total(q, Reachable(o)) == Total(q, Reachable(p))
  {
    if q != [] { SameTaker(q[1..], o, p); }
  }

  lemma SameTakes(q: seq<Order>, o: Order, p: Order)
    requires o.side == p.side && o.kind == p.kind && o.price == p.price
    ensures Takes(q, o.(qty := p.qty)) == Takes(q, p)
  {
    SameTaker(q, o, p);
    SameReach(q, o, p.qty);
  }

  lemma SplitQueue(side: Side, q: seq<Order>, o: Order, first: Order, second: Order)
    requires QueueOk(side, q) && o.side == Opposite(side) && 0 <= first.qty && 0 <= second.qty
    requires o.qty == first.qty + second.qty
    requires first.side == second.side == o.side && first.kind == second.kind == o.kind
    requires first.price == second.price == o.price
    ensures var f := Takes(q, first);
            var g := Takes(Remainder(q, f), second);
            && Takes(q, o) == f + g
            && Remainder(Remainder(q, f), g) == Remainder(q, f + g)
            && Merge(Slices(q, f) + Slices(Remainder(q, f), g)) == Slices(q, f + g)
  {
    SameTakes(q, o, first);
    var f := Takes(q, first);
    SameTakes(Remainder(q, f), o, second);
    TakesSplit(side, q, o, first.qty, second.qty);
    SplitSlices(side, q, f, Takes(Remainder(q, f), second));
  }

  // ----- duality of the two loops

  function Mirror(o: Order): Order { o.(side := Opposite(o.side), price := -o.price) }

  function MirrorQueue(q: seq<Order>): (r: seq<Order>)
    ensures |r| == |q|
  {
    if q == [] then [] else [Mirror(q[0])] + MirrorQueue(q[1..])
  }

  function MirrorTrades(ts: seq<Trade>): (r: seq<Trade>)
    ensures |r| == |ts|
  {
    if ts == [] then [] else [ts[0].(price := -ts[0].price)] + MirrorTrades(ts[1..])
  }

  lemma MirrorTakeHead(q: seq<Order>, n: int)
    requires q != []
    ensures TakeHead(MirrorQueue(q), n) == MirrorQueue(TakeHead(q, n))
  {
  }

  /** Two matching outcomes that are mirror images of each other. */
  ghost predicate Dual(side: Side, m: Matched, m': Matched) {
    && m'.taker == Mirror(m.taker)
    && m'.trades == MirrorTrades(m.trades)
    && m'.state.book.Queue(Opposite(side)) == MirrorQueue(m.state.book.Queue(side))
  }

  lemma DualStep(side: Side, m: Matched, m': Matched, t: Trade)
    requires Dual(side, m, m')
    ensures Dual(side, m.After([t]), m'.After([t.(price := -t.price)]))
  {
  }

  /** Mirror images agree on whether there is anything to trade, and how much. */
  lemma DualGuard(s: State, taker: Order, s': State)
    requires Opposing(s', Mirror(taker)) == MirrorQueue(Opposing(s, taker))
    ensures CanFill(s, taker) <==> CanFill(s', Mirror(taker))
    ensures CanFill(s, taker) && s'.ledger.owner == s.ledger.owner ==>
              && FillSize(s', Mirror(taker)) == FillSize(s, taker)
              && TradeOf(s', Mirror(taker)) == TradeOf(s, taker).(price := -TradeOf(s, taker).price)
  {
  }

  lemma DualFill(s: State, taker: Order, batch: int, s': State, batch': int)
    requires Opposing(s', Mirror(taker)) == MirrorQueue(Opposing(s, taker)) && s'.ledger.owner == s.ledger.owner
    requires CanFill(s, taker) && CanFill(s', Mirror(taker)) && FillSize(s', Mirror(taker)) == FillSize(s, taker)
    ensures var t, t' := Fill(s, taker, batch), Fill(s', Mirror(taker), batch');
            Opposing(t', Mirror(taker)) == MirrorQueue(Opposing(t, taker)) && t'.ledger.owner == t.ledger.owner
  {
    MirrorTakeHead(Opposing(s, taker), FillSize(s, taker));
  }

  lemma DualEnd(s: State, taker: Order, batch: int, s': State, batch': int)
    requires Opposing(s', Mirror(taker)) == MirrorQueue(Opposing(s, taker))
    requires !CanFill(s, taker) && !CanFill(s', Mirror(taker))
    ensures Dual(Opposite(taker.side), Match(s, taker, batch), Match(s', Mirror(taker), batch'))
  {
  }

  lemma DualJoin(s: State, taker: Order, batch: int, s': State, batch': int)
    requires CanFill(s, taker) && CanFill(s', Mirror(taker)) && FillSize(s', Mirror(taker)) == FillSize(s, taker)
    requires TradeOf(s', Mirror(taker)) == TradeOf(s, taker).(price := -TradeOf(s, taker).price)
    requires var left := taker.(qty := taker.qty - FillSize(s, taker));
             Dual(Opposite(taker.side), Match(Fill(s, taker, batch), left, batch),
                  Match(Fill(s', Mirror(taker), batch'), Mirror(left), batch'))
    ensures Dual(Opposite(taker.side), Match(s, taker, batch), Match(s', Mirror(taker), batch'))
  {
    var left := taker.(qty := taker.qty - FillSize(s, taker));
    DualStep(Opposite(taker.side), Match(Fill(s, taker, batch), left, batch),
             Match(Fill(s', Mirror(taker), batch'), Mirror(left), batch'), TradeOf(s, taker));
  }

  /** Selling into a book is buying from its mirror image: prices negated, sides exchanged. The two
      loops are written separately and walk maps with opposite orderings; any state whose opposite
      queue is the mirror image will do, whatever its positions are. */
  lemma {:induction false} Duality(s: State, taker: Order, batch: int, s': State, batch': int)
    requires Opposing(s', Mirror(taker)) == MirrorQueue(Opposing(s, taker))
    requires s'.ledger.owner == s.ledger.owner
    ensures Dual(Opposite(taker.side), Match(s, taker, batch), Match(s', Mirror(taker), batch'))
    decreases |Opposing(s, taker)|, taker.qty > 0
  {
    DualGuard(s, taker, s');
    if !CanFill(s, taker) {
      DualEnd(s, taker, batch, s', batch');
    } else {
      DualFill(s, taker, batch, s', batch');
      var left := taker.(qty := taker.qty - FillSize(s, taker));
      var t, t' := Fill(s, taker, batch), Fill(s', Mirror(taker), batch');
      Duality(t, left, batch, t', batch');
      DualJoin(s, taker, batch, s', batch');
    }
  }

  // ----- the mirror image of a stored side

  function MirrorLevels(ls: seq<Level>): (r: seq<Level>)
    ensures |r| == |ls|
    ensures forall i :: 0 <= i < |ls| ==> r[i] == Level(-ls[i].price, MirrorQueue(ls[i].orders))
  {
    if ls == [] then [] else [Level(-ls[0].price, MirrorQueue(ls[0].orders))] + MirrorLevels(ls[1..])
  }

  lemma MirrorMembers(q: seq<Order>)
    ensures forall o <- MirrorQueue(q) :: Mirror(o) in q
  {
    if q != [] { MirrorMembers(q[1..]); }
  }

  lemma MirrorConcat(a: seq<Order>, b: seq<Order>)
    ensures MirrorQueue(a + b) == MirrorQueue(a) + MirrorQueue(b)
  {
    if a == [] {
      assert a + b == b;
    } else {
      assert (a + b)[1..] == a[1..] + b;
      MirrorConcat(a[1..], b);
    }
  }

  lemma {:induction false} MirrorFlatten(ls: seq<Level>)
    ensures Flatten(MirrorLevels(ls)) == MirrorQueue(Flatten(ls))
  {
    if ls != [] {
      MirrorFlatten(ls[1..]);
      MirrorConcat(ls[0].orders, Flatten(ls[1..]));
      assert MirrorLevels(ls)[1..] == MirrorLevels(ls[1..]);
    }
  }

  lemma MirrorTidy(side: Side, ls: seq<Level>)
    requires Tidy(side, ls)
    ensures Tidy(Opposite(side), MirrorLevels(ls))
  {
    forall i | 0 <= i < |ls| ensures MirrorLevels(ls)[i].orders != [] && Filed(MirrorLevels(ls)[i]) {
      assert ls[i] in ls && Filed(ls[i]);
      MirrorMembers(ls[i].orders);
    }
  }

  lemma {:induction false} MirrorTwice(q: seq<Order>)
    ensures MirrorQueue(MirrorQueue(q)) == q
  {
    if q != [] {
      MirrorTwice(q[1..]);
      assert MirrorQueue(q)[1..] == MirrorQueue(q[1..]);
    }
  }

  lemma MirrorLevelsTwice(ls: seq<Level>)
    ensures MirrorLevels(MirrorLevels(ls)) == ls
  {
    forall i | 0 <= i < |ls| ensures MirrorLevels(MirrorLevels(ls))[i] == ls[i] {
      MirrorTwice(ls[i].orders);
    }
  }

  /** The queues Duality speaks of are those of stored sides: levels are the ordered map of one side
      exactly if their mirror image is that of the other side, and the two flatten to mirror images. */
  lemma MirroredSide(side: Side, ls: seq<Level>)
    ensures Tidy(side, ls) <==> Tidy(Opposite(side), MirrorLevels(ls))
    ensures Flatten(MirrorLevels(ls)) == MirrorQueue(Flatten(ls))
  {
    MirrorFlatten(ls);
    MirrorLevelsTwice(ls);
    if Tidy(side, ls) {
      MirrorTidy(side, ls);
    }
    if Tidy(Opposite(side), MirrorLevels(ls)) {
      MirrorTidy(Opposite(side), MirrorLevels(ls));
    }
  }
}
