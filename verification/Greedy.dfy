/** What matching computes, without its loops: an order takes as many units as it wants and its limit
    lets it have, from the front of the opposite queue. From this follow price-time priority, best
    execution, the freedom to split an order, and the symmetry of the two hand-written loops. */
module Greedy {
  import opened Types
  import opened Queues
  import opened Exchange
  import opened Invariants
  import opened Arithmetic

  // ----- reference: n units off the front of a queue

  datatype Slice = Slice(order: int, price: int, qty: int)

  function Slices(q: seq<Order>, n: int): seq<Slice> {
    if n <= 0 || q == [] then []
    else [Slice(q[0].id, q[0].price, Min(n, q[0].qty))] + Slices(q[1..], n - q[0].qty)
  }

  function Remainder(q: seq<Order>, n: int): seq<Order> {
    if n <= 0 || q == [] then q
    else if n < q[0].qty then [q[0].(qty := q[0].qty - n)] + q[1..]
    else Remainder(q[1..], n - q[0].qty)
  }

  /** Everything on the queue at a price the order accepts, wherever it stands. */
  function Reachable(taker: Order): Order -> int {
    (o: Order) => if Crosses(taker, o.price) then o.qty else 0
  }

  function Takes(q: seq<Order>, taker: Order): int {
    Min(taker.qty, Total(q, Reachable(taker)))
  }

  function SliceOf(t: Trade): Slice { Slice(t.makerId, t.price, t.qty) }

  function SlicesOf(trades: seq<Trade>): (r: seq<Slice>)
    ensures |r| == |trades|
  {
    if trades == [] then [] else [SliceOf(trades[0])] + SlicesOf(trades[1..])
  }

  lemma NothingReachable(side: Side, q: seq<Order>, taker: Order)
    requires Sorted(side, q) && taker.side == Opposite(side)
    requires q == [] || !Crosses(taker, q[0].price)
    ensures Total(q, Reachable(taker)) == 0
  {
    if q != [] {
      if |q| > 1 { assert !Before(side, q[1].price, q[0].price); }
      NothingReachable(side, q[1..], taker);
    }
  }

  lemma ReachableNonNegative(side: Side, q: seq<Order>, taker: Order)
    requires forall o <- q :: WellPlaced(side, o)
    ensures 0 <= Total(q, Reachable(taker)) <= Depth(q)
  {
    if q != [] {
      assert WellPlaced(side, q[0]);
      ReachableNonNegative(side, q[1..], taker);
    }
  }

  lemma DepthNonNegative(side: Side, q: seq<Order>)
    requires forall o <- q :: WellPlaced(side, o)
    ensures 0 <= Depth(q)
  {
    if q != [] {
      assert WellPlaced(side, q[0]);
      DepthNonNegative(side, q[1..]);
    }
  }

  /** The limit is a property of the taker that filling leaves alone. */
  lemma SameReach(q: seq<Order>, taker: Order, left: int)
    ensures Total(q, Reachable(taker.(qty := left))) == Total(q, Reachable(taker))
  {
    if q != [] { SameReach(q[1..], taker, left); }
  }

  lemma FillTakes(s: State, taker: Order, batch: int)
    requires BookOk(s.book) && OwnersOk(s) && CanFill(s, taker)
    ensures var q, n := s.book.Queue(Opposite(taker.side)), FillSize(s, taker);
            && Takes(TakeHead(q, n), taker.(qty := taker.qty - n)) == Takes(q, taker) - n
            && (n < q[0].qty ==> n == taker.qty == Takes(q, taker))
  {
    HeadFacts(s, taker);
    var side := Opposite(taker.side);
    var q, n := s.book.Queue(side), FillSize(s, taker);
    TotalTakeHead(q, n, Reachable(taker));
    SameReach(TakeHead(q, n), taker, taker.qty - n);
    ReachableNonNegative(side, q[1..], taker);
  }

  /** One fill peels the first slice off the reference. */
  lemma PeelSlice(q: seq<Order>, n: int, total: int)
    requires q != [] && 0 < n <= q[0].qty && n <= total && (n < q[0].qty ==> n == total)
    ensures Slices(q, total) == [Slice(q[0].id, q[0].price, n)] + Slices(TakeHead(q, n), total - n)
    ensures Remainder(q, total) == Remainder(TakeHead(q, n), total - n)
  {
  }

  /** The same slices in the same order, the same residual order and the same queue as the
      reference, and an untouched other side. */
  ghost predicate IsGreedy(s: State, taker: Order, m: Matched) {
    var q := s.book.Queue(Opposite(taker.side));
    && SlicesOf(m.trades) == Slices(q, Takes(q, taker))
    && m.state.book.Queue(Opposite(taker.side)) == Remainder(q, Takes(q, taker))
    && m.state.book.Queue(taker.side) == s.book.Queue(taker.side)
    && m.taker == taker.(qty := taker.qty - Takes(q, taker))
  }

  lemma GreedyStep(s: State, taker: Order, batch: int, m: Matched)
    requires BookOk(s.book) && OwnersOk(s) && CanFill(s, taker)
    requires BookOk(Fill(s, taker, batch).book)
    requires IsGreedy(Fill(s, taker, batch), taker.(qty := taker.qty - FillSize(s, taker)), m)
    ensures IsGreedy(s, taker, m.After([TradeOf(s, taker)]))
  {
    HeadFacts(s, taker);
    FillTakes(s, taker, batch);
    var side := Opposite(taker.side);
    var q, n := s.book.Queue(side), FillSize(s, taker);
    ReachableNonNegative(side, TakeHead(q, n), taker.(qty := taker.qty - n));
    PeelSlice(q, n, Takes(q, taker));
    assert ([TradeOf(s, taker)] + m.trades)[1..] == m.trades;
  }

  /** The nested loops compute the reference, whoever the taker is and whatever its id. */
  lemma {:induction false} MatchIsGreedy(s: State, taker: Order, batch: int)
    requires BookOk(s.book) && IndexOk(s.book) && OwnersOk(s) && 0 <= taker.qty
    ensures IsGreedy(s, taker, Match(s, taker, batch))
    decreases |s.book.Queue(Opposite(taker.side))|, taker.qty > 0
  {
    if CanFill(s, taker) {
      HeadFacts(s, taker);
      FillBook(s, taker, batch);
      var left := taker.(qty := taker.qty - FillSize(s, taker));
      MatchIsGreedy(Fill(s, taker, batch), left, batch);
      GreedyStep(s, taker, batch, Match(Fill(s, taker, batch), left, batch));
    } else {
      var side := Opposite(taker.side);
      ReachableNonNegative(side, s.book.Queue(side), taker);
      if taker.qty > 0 { NothingReachable(side, s.book.Queue(side), taker); }
    }
  }

  /** The parties recorded on every trade are the registered owners of its two orders. */
  lemma TradeParties(s: State, taker: Order, batch: int)
    requires Core(s) && Registered(s, taker)
    ensures forall t <- Match(s, taker, batch).trades ::
              && t.takerId == taker.id && t.takerUser == taker.user
              && t.makerUser == s.ledger.OwnerOf(t.makerId) && t.qty > 0 && t.price > 0
              && t.makerId in Ids(s.book.Queue(Opposite(taker.side)))
              && Crosses(taker, t.price)
    decreases |s.book.Queue(Opposite(taker.side))|, taker.qty > 0
  {
    if CanFill(s, taker) {
      HeadFacts(s, taker);
      FillCore(s, taker, batch);
      var q := s.book.Queue(Opposite(taker.side));
      TakeHeadMembers(q, FillSize(s, taker));
      assert q[0] in q;
      TradeParties(Fill(s, taker, batch), taker.(qty := taker.qty - FillSize(s, taker)), batch);
    }
  }

  // ----- price-time priority

  function SliceUnits(xs: seq<Slice>): int { if xs == [] then 0 else xs[0].qty + SliceUnits(xs[1..]) }

  /** Slice i comes from the i-th order in priority order; every order that is followed by another
      slice is emptied. So nothing trades while a better or earlier order still waits. */
  lemma {:induction false} PriceTimePriority(side: Side, q: seq<Order>, n: int)
    requires forall o <- q :: WellPlaced(side, o)
    requires 0 <= n <= Depth(q)
    ensures var xs := Slices(q, n);
            && |xs| <= |q| && SliceUnits(xs) == n
            && (forall i :: 0 <= i < |xs| ==>
                  xs[i].order == q[i].id && xs[i].price == q[i].price && 0 < xs[i].qty <= q[i].qty)
            && (forall i :: 0 <= i < |xs| - 1 ==> xs[i].qty == q[i].qty)
    ensures Depth(Remainder(q, n)) == Depth(q) - n
  {
    if n > 0 && q != [] {
      assert WellPlaced(side, q[0]);
      var xs, k := Slices(q, n), Min(n, q[0].qty);
      if n <= q[0].qty {
        assert Slices(q[1..], n - q[0].qty) == [];
        assert n < q[0].qty ==> Remainder(q, n)[1..] == q[1..];
      } else {
        PriceTimePriority(side, q[1..], n - q[0].qty);
      }
      assert xs[1..] == Slices(q[1..], n - q[0].qty);
    }
  }

  // ----- best execution

  /** A price as a cost: negated on the bid side, where more is better. */
  function Key(side: Side, price: int): int { if side == Sell then price else -price }

  /** What is paid for the slices; negated on the bid side, where more is better. */
  function SliceCost(side: Side, xs: seq<Slice>): int {
    if xs == [] then 0
    else Key(side, xs[0].price) * xs[0].qty + SliceCost(side, xs[1..])
  }

  /** Any way of taking n units from the queue, a[i] of them from the i-th order. */
  ghost predicate Allocation(q: seq<Order>, a: seq<int>, n: int) {
    && |a| == |q| && AllocUnits(a) == n
    && forall i :: 0 <= i < |q| ==> 0 <= a[i] <= q[i].qty
  }

  function AllocUnits(a: seq<int>): int { if a == [] then 0 else a[0] + AllocUnits(a[1..]) }

  function AllocCost(side: Side, q: seq<Order>, a: seq<int>): int
    requires |a| == |q|
  {
    if q == [] then 0
    else Key(side, q[0].price) * a[0] + AllocCost(side, q[1..], a[1..])
  }

  lemma AllocBound(q: seq<Order>, a: seq<int>, n: int)
    requires Allocation(q, a, n)
    ensures 0 <= n <= Depth(q)
  {
    if q != [] { AllocBound(q[1..], a[1..], n - a[0]); }
  }

  /** k more units cost at least k times any price no worse than the whole queue. */
  lemma {:induction false} Marginal(side: Side, q: seq<Order>, n: int, k: int, key: int)
    requires forall o <- q :: WellPlaced(side, o) && key <= Key(side, o.price)
    requires 0 <= n && 0 <= k && n + k <= Depth(q)
    ensures SliceCost(side, Slices(q, n)) + key * k <= SliceCost(side, Slices(q, n + k))
  {
    if q == [] || n + k == 0 {
      assert key * k == 0;
    } else {
      var p, h := Key(side, q[0].price), q[0].qty;
      assert q[0] in q && forall o <- q[1..] :: o in q;
      var a, b := Min(n, h), Min(n + k, h);
      CostStep(side, q, n);
      CostStep(side, q, n + k);
      DepthNonNegative(side, q[1..]);
      Marginal(side, q[1..], n - a, k - (b - a), key);
      CheapEnough(p, key, k, b - a);
      assert p * b == p * a + p * (b - a) by { Distribute(p, a, b - a); }
    }
  }

  lemma CheapEnough(p: int, key: int, k: int, j: int)
    requires key <= p && 0 <= j <= k
    ensures key * k <= key * (k - j) + p * j
  {
  }

  lemma CostStep(side: Side, q: seq<Order>, n: int)
    requires q != [] && 0 <= n && q[0].qty > 0
    ensures var a := Min(n, q[0].qty);
            SliceCost(side, Slices(q, n)) == Key(side, q[0].price) * a + SliceCost(side, Slices(q[1..], n - a))
  {
  }

  /** No other way of taking n units from these orders costs a buyer less or pays a seller more. */
  lemma {:induction false} BestExecution(side: Side, q: seq<Order>, n: int, a: seq<int>)
    requires Sorted(side, q) && (forall o <- q :: WellPlaced(side, o)) && Allocation(q, a, n)
    ensures SliceCost(side, Slices(q, n)) <= AllocCost(side, q, a)
  {
    AllocBound(q, a, n);
    if q != [] {
      var p, g := Key(side, q[0].price), Min(n, q[0].qty);
      assert WellPlaced(side, q[0]);
      AllocBound(q[1..], a[1..], n - a[0]);
      BestExecution(side, q[1..], n - a[0], a[1..]);
      CostStep(side, q, n);
      assert forall i :: 0 < i < |q| ==> !Before(side, q[i].price, q[0].price);
      Marginal(side, q[1..], n - g, g - a[0], p);
      Distribute(p, a[0], g - a[0]);
    }
  }
}
