/** Seeding an empty book with anonymous orders (core/src/sim/seed_book.cpp). Every random draw is an
    arbitrary value of its distribution's range. */
module SeedBooks {
  import opened Types
  import opened Queues
  import opened Exchange
  import opened Invariants
  import opened Arithmetic
  import opened OrderBooks
  import opened UserManagers
  import opened Engine

  // ----- apportioning a side's target over its levels

  function Sum(xs: seq<int>): int { if xs == [] then 0 else xs[0] + Sum(xs[1..]) }

  /** What is placed on a level; a level that comes out empty is skipped. */
  function LevelQty(target: int, weight: int, total: int): int
    requires total > 0
  {
    Max(Quotient(target * weight, total), 0)
  }

  function LevelTotal(target: int, weights: seq<int>, total: int): int
    requires total > 0
  {
    if weights == [] then 0 else LevelQty(target, weights[0], total) + LevelTotal(target, weights[1..], total)
  }

  ghost predicate Weights(ws: seq<int>) { forall i :: 0 <= i < |ws| ==> 0 < ws[i] }

  lemma SumPositive(ws: seq<int>)
    requires Weights(ws)
    ensures 0 <= Sum(ws) && (ws != [] ==> 0 < Sum(ws))
  {
    if ws != [] {
      SumPositive(ws[1..]);
    }
  }

  lemma QuotientBounds(target: int, w: int, total: int)
    requires 0 <= target && 0 < w && 0 < total
    ensures var q := LevelQty(target, w, total);
            target * w - total < q * total <= target * w
  {
  }

  lemma AddBounds(target: int, total: int, w: int, q: int, sum: int, r: int, n: int)
    requires target * w - total < q * total <= target * w
    requires target * sum - n * total <= r * total <= target * sum
    ensures target * (w + sum) - (n + 1) * total < (q + r) * total <= target * (w + sum)
  {
  }

  lemma {:induction false} PartialTotal(target: int, ws: seq<int>, total: int)
    requires 0 <= target && Weights(ws) && 0 < total
    ensures var t := LevelTotal(target, ws, total);
            && target * Sum(ws) - |ws| * total <= t * total <= target * Sum(ws)
            && (ws != [] ==> target * Sum(ws) - |ws| * total < t * total)
  {
    if ws != [] {
      QuotientBounds(target, ws[0], total);
      PartialTotal(target, ws[1..], total);
      AddBounds(target, total, ws[0], LevelQty(target, ws[0], total), Sum(ws[1..]),
                LevelTotal(target, ws[1..], total), |ws| - 1);
    }
  }

  lemma Squeeze(t: int, target: int, n: int, total: int)
    requires 0 < total && t * total <= target * total && target * total - n * total < t * total
    ensures target - n < t <= target
  {
  }

  /** The levels share out the target, losing less than one unit each to rounding. */
  lemma Apportionment(target: int, ws: seq<int>)
    requires 0 <= target && Weights(ws) && ws != []
    ensures 0 < Sum(ws)
    ensures target - |ws| < LevelTotal(target, ws, Sum(ws)) <= target
  {
    SumPositive(ws);
    var total := Sum(ws);
    PartialTotal(target, ws, total);
    Squeeze(LevelTotal(target, ws, total), target, |ws|, total);
  }

  // ----- cutting a level into orders

  /** The size of one order of a level, when this much remains and this many orders are still to come. */
  function SliceSize(remaining: int, left: int, skew: real): int
    requires left > 0
  {
    if left == 1 then remaining
    else Max(1, Truncate(remaining as real * skew / left as real))
  }

  /** What may be taken next when this much remains and this many orders are still to come: all of it for
      the last one; else 7 to 13 tenths of an equal share, rounded down, and at least one unit. */
  predicate IsSlice(remaining: int, left: int, size: int) {
    && 1 <= size <= remaining
    && (left == 1 ==> size == remaining)
    && (left > 1 ==> 7 * remaining < 10 * left * (size + 1) && (size == 1 || 10 * left * size <= 13 * remaining))
  }

  /** A slice is of that size for every skew in range. */
  lemma SliceFits(remaining: int, left: int, skew: real)
    requires 0 < remaining && 0 < left && 0.7 <= skew <= 1.3
    ensures IsSlice(remaining, left, SliceSize(remaining, left, skew))
  {
    if left > 1 {
      var x := remaining as real * skew / left as real;
      ShareBound(remaining as real, left as real, skew);
      ShareSize(remaining, left, x, SliceSize(remaining, left, skew));
    }
  }

  lemma ShareSize(remaining: int, left: int, x: real, size: int)
    requires 0 < remaining && 1 < left && 0.0 <= x <= remaining as real
    requires 7.0 * remaining as real <= 10.0 * (left as real * x) <= 13.0 * remaining as real
    requires size == Max(1, Truncate(x))
    ensures IsSlice(remaining, left, size)
  {
    Scale(left, x, size + 1);
    AtLeast(7 * remaining, 10 * (left * (size + 1)), 7.0 * remaining as real, 10.0 * (left as real * x));
    if size > 1 { Scale(left, x, size); }
  }

  lemma Scale(a: int, x: real, y: int)
    requires 0 < a
    ensures a as real * y as real == (a * y) as real
    ensures x < y as real ==> a as real * x < (a * y) as real
    ensures y as real <= x ==> (a * y) as real <= a as real * x
  {
  }

  lemma AtLeast(a: int, b: int, x: real, y: real)
    requires a as real == x && x <= y && y < b as real
    ensures a < b
  {
  }

  lemma ShareBound(r: real, n: real, skew: real)
    requires 0.0 < r && 2.0 <= n && 0.7 <= skew <= 1.3
    ensures 0.0 <= r * skew / n <= r
    ensures 7.0 * r <= 10.0 * (n * (r * skew / n)) <= 13.0 * r
  {
    SkewBound(r, skew);
    ShareOf(r * skew, n, r);
  }

  lemma SkewBound(r: real, skew: real)
    requires 0.0 < r && 0.7 <= skew <= 1.3
    ensures 7.0 * r <= 10.0 * (r * skew) <= 13.0 * r
  {
  }

  lemma ShareOf(y: real, n: real, r: real)
    requires 0.0 <= y <= 2.0 * r && 2.0 <= n
    ensures n * (y / n) == y && 0.0 <= y / n <= r
  {
    assert n * (y / n) == y;
    ShareBelow(n, y / n, r);
  }

  lemma ShareBelow(n: real, x: real, r: real)
    requires 0.0 <= n * x <= 2.0 * r && 2.0 <= n
    ensures 0.0 <= x <= r
  {
    if 0.0 <= x { assert 2.0 * x <= n * x; }
  }

  // ----- what is on a side, price by price

  function UnitsAt(price: int): Order -> int {
    (o: Order) => if o.price == price then o.qty else 0
  }

  /** The shares of the levels that were drawn this price. */
  function SharesAt(target: int, ws: seq<int>, total: int, prices: seq<int>, price: int): int
    requires total > 0 && |prices| == |ws|
  {
    if ws == [] then 0
    else
      var n := |ws| - 1;
      SharesAt(target, ws[..n], total, prices[..n], price)
        + (if prices[n] == price then LevelQty(target, ws[n], total) else 0)
  }

  /** Level i is drawn its ladder price, i steps from the start, or one tick above it. */
  ghost predicate Ladder(prices: seq<int>, start: int, dir: int) {
    forall i :: 0 <= i < |prices| ==> start + dir * i <= prices[i] <= start + dir * i + 1
  }

  ghost predicate SharedOut(q: seq<Order>, target: int, ws: seq<int>, total: int, prices: seq<int>)
    requires total > 0 && |prices| == |ws|
  {
    forall p :: Total(q, UnitsAt(p)) == SharesAt(target, ws, total, prices, p)
  }

  /** At every price, exactly the shares of the levels drawn that price; nothing anywhere else. */
  ghost predicate Laddered(q: seq<Order>, target: int, ws: seq<int>, prices: seq<int>, start: int, dir: int) {
    && |prices| == |ws| && Ladder(prices, start, dir)
    && (ws != [] ==> 0 < Sum(ws) && SharedOut(q, target, ws, Sum(ws), prices))
  }

  /** One more level: this many units at this price and nothing else. */
  ghost predicate Adds(q: seq<Order>, r: seq<Order>, price: int, n: int) {
    && Depth(r) == Depth(q) + n
    && (forall p :: Total(r, UnitsAt(p)) == Total(q, UnitsAt(p)) + (if p == price then n else 0))
    && (forall o <- r :: o.price == price || o in q)
  }

  /** The queue with orders of these sizes added at one price, under consecutive ids. */
  function Queued(side: Side, q: seq<Order>, price: int, sizes: seq<int>, firstId: int): seq<Order> {
    if sizes == [] then q
    else
      var n := |sizes| - 1;
      Insert(side, Queued(side, q, price, sizes[..n], firstId), Order(firstId + n, 0, side, price, sizes[n], Limit))
  }

  lemma SumNext(xs: seq<int>, x: int)
    ensures Sum(xs + [x]) == Sum(xs) + x
  {
    if xs != [] {
      assert (xs + [x])[1..] == xs[1..] + [x];
      SumNext(xs[1..], x);
    }
  }

  lemma QueuedNext(side: Side, q: seq<Order>, price: int, sizes: seq<int>, firstId: int, size: int)
    ensures Queued(side, q, price, sizes + [size], firstId)
         == Insert(side, Queued(side, q, price, sizes, firstId),
                   Order(firstId + |sizes|, 0, side, price, size, Limit))
  {
    assert (sizes + [size])[..|sizes|] == sizes;
  }

  lemma {:induction false} QueuedTotal(side: Side, q: seq<Order>, price: int, sizes: seq<int>, firstId: int,
                                       weight: Order -> int, factor: int)
    requires forall o: Order | o.price == price :: weight(o) == factor * o.qty
    ensures Total(Queued(side, q, price, sizes, firstId), weight) == Total(q, weight) + factor * Sum(sizes)
  {
    if sizes != [] {
      var n := |sizes| - 1;
      var r, o := Queued(side, q, price, sizes[..n], firstId),
                  Order(firstId + n, 0, side, price, sizes[n], Limit);
      QueuedTotal(side, q, price, sizes[..n], firstId, weight, factor);
      assert sizes == sizes[..n] + [sizes[n]];
      SumNext(sizes[..n], sizes[n]);
      TotalInsert(side, r, o, weight);
      Distribute(factor, Sum(sizes[..n]), sizes[n]);
    }
  }

  lemma {:induction false} QueuedMembers(side: Side, q: seq<Order>, price: int, sizes: seq<int>, firstId: int)
    ensures forall o <- Queued(side, q, price, sizes, firstId) :: o.price == price || o in q
  {
    if sizes != [] {
      var n := |sizes| - 1;
      QueuedMembers(side, q, price, sizes[..n], firstId);
      InsertMembers(side, Queued(side, q, price, sizes[..n], firstId),
                    Order(firstId + n, 0, side, price, sizes[n], Limit));
    }
  }

  lemma QueuedAdds(side: Side, q: seq<Order>, price: int, sizes: seq<int>, firstId: int)
    ensures Adds(q, Queued(side, q, price, sizes, firstId), price, Sum(sizes))
  {
    var r := Queued(side, q, price, sizes, firstId);
    QueuedTotal(side, q, price, sizes, firstId, Units(), 1);
    QueuedMembers(side, q, price, sizes, firstId);
    forall p ensures Total(r, UnitsAt(p)) == Total(q, UnitsAt(p)) + (if p == price then Sum(sizes) else 0) {
      QueuedTotal(side, q, price, sizes, firstId, UnitsAt(p), if p == price then 1 else 0);
    }
  }

  /** These sizes use up the quantity, each a slice of what the earlier ones left. */
  ghost predicate Cut(qty: int, orders: int, sizes: seq<int>) {
    Slices(qty, orders, sizes) && Sum(sizes) == qty
  }

  predicate Slices(qty: int, orders: int, sizes: seq<int>) {
    sizes == [] ||
    (var n := |sizes| - 1;
     n < orders && IsSlice(qty - Sum(sizes[..n]), orders - n, sizes[n]) && Slices(qty, orders, sizes[..n]))
  }

  // ----- the book while it is being seeded

  /** Anonymous orders with exactly the ids from 1 up to next, sorted, indexed, and nothing else. */
  ghost predicate Seeded(b: Book, next: int) {
    && Sorted(Buy, b.bids) && Sorted(Sell, b.asks) && UniqueIds(b.bids) && UniqueIds(b.asks)
    && Ids(b.bids) !! Ids(b.asks)
    && IndexOk(b)
    && (forall id <- b.index :: 0 < id < next && Resting(b, id))
    && (forall id :: 0 < id < next ==> id in b.index)
    && (forall side: Side, o | o in b.Queue(side) :: o.side == side && o.user == 0 && o.qty > 0)
  }

  ghost predicate PricedWithin(q: seq<Order>, lo: int, hi: int) {
    forall o <- q :: lo <= o.price <= hi
  }

  lemma SeedOne(b: Book, next: int, o: Order)
    requires Seeded(b, next) && 0 < next && o.id == next && o.qty > 0 && o.user == 0
    ensures Seeded(AddResting(b, o), next + 1)
    ensures AddResting(b, o).Queue(o.side) == Insert(o.side, b.Queue(o.side), o)
    ensures AddResting(b, o).Queue(Opposite(o.side)) == b.Queue(Opposite(o.side))
  {
    NotResting(b, o.id);
    AddRestingMembers(b, o);
    InsertOrdered(o.side, b.Queue(o.side), o);
    InsertMembers(o.side, b.Queue(o.side), o);
  }

  /** The weights of one side: uniform draws from 1 to 100, some of them tripled. */
  method DrawWeights(levels: nat) returns (weights: seq<int>)
    ensures |weights| == levels && Weights(weights)
    ensures forall w <- weights :: 1 <= w <= 100 || (w % 3 == 0 && 3 <= w <= 300)
  {
    weights := [];
    for i := 0 to levels
      invariant |weights| == i && Weights(weights)
      invariant forall w <- weights :: 1 <= w <= 100 || (w % 3 == 0 && 3 <= w <= 300)
    {
      var w: int :| 1 <= w <= 100;
      var chunky: int :| 1 <= chunky <= 100;
      if chunky > 85 {
        w := w * 3;
      }
      weights := weights + [w];
    }
  }

  method Accumulate(xs: seq<int>) returns (sum: int)
    ensures sum == Sum(xs)
  {
    sum := 0;
    for i := 0 to |xs|
      invariant sum + Sum(xs[i..]) == Sum(xs)
    {
      assert xs[i..][1..] == xs[i + 1..];
      sum := sum + xs[i];
    }
  }

  method DrawSkew() returns (skew: real)
    ensures 0.7 <= skew <= 1.3
  {
    skew := *;
    if !(0.7 <= skew <= 1.3) {
      skew := 1.0;
    }
  }

  /** The size of order j of a level, when this much of its quantity remains. */
  method DrawSlice(qty: int, orders: int, remaining: int, j: int, ghost sizes: seq<int>) returns (slice: int)
    requires Slices(qty, orders, sizes) && |sizes| == j < orders && 0 < remaining == qty - Sum(sizes)
    ensures 1 <= slice <= remaining && (j == orders - 1 ==> slice == remaining)
    ensures Slices(qty, orders, sizes + [slice]) && Sum(sizes + [slice]) == Sum(sizes) + slice
  {
    var skew := DrawSkew();
    SliceFits(remaining, orders - j, skew);
    slice := SliceSize(remaining, orders - j, skew);
    NextSlice(qty, orders, sizes, slice);
  }

  /** One level: its quantity cut into at most the drawn number of orders, none of it lost. */
  method SeedLevel(book: OrderBook, side: Side, price: int, qty: int, orders: int, firstId: int)
    returns (nextId: int, ghost sizes: seq<int>)
    requires book.Valid() && Seeded(book.View(), firstId) && 0 < firstId && 0 < qty && 1 <= orders <= 6
    modifies book
    ensures book.Valid() && Seeded(book.View(), nextId) && Cut(qty, orders, sizes)
    ensures nextId == firstId + |sizes| && firstId < nextId
    ensures book.View().Queue(side) == Queued(side, old(book.View()).Queue(side), price, sizes, firstId)
    ensures book.View().Queue(Opposite(side)) == old(book.View()).Queue(Opposite(side))
  {
    nextId, sizes := firstId, [];
    ghost var before := book.View().Queue(side);
    var remaining := qty;
    var j := 0;
    while j < orders
      invariant 0 <= j <= orders && 0 <= remaining && (j == orders ==> remaining == 0)
      invariant j == |sizes| && nextId == firstId + j && remaining == qty - Sum(sizes)
      invariant Slices(qty, orders, sizes)
      invariant book.Valid() && Seeded(book.View(), nextId)
      invariant book.View().Queue(side) == Queued(side, before, price, sizes, firstId)
      invariant book.View().Queue(Opposite(side)) == old(book.View()).Queue(Opposite(side))
    {
      if remaining <= 0 {
        break;
      }
      var slice := DrawSlice(qty, orders, remaining, j, sizes);
      remaining := remaining - slice;
      PlaceSeed(book, Order(nextId, 0, side, price, slice, Limit), before, sizes, firstId);
      sizes := sizes + [slice];
      nextId := nextId + 1;
      j := j + 1;
    }
  }

  lemma NextSlice(qty: int, orders: int, sizes: seq<int>, size: int)
    requires Slices(qty, orders, sizes) && |sizes| < orders
    requires IsSlice(qty - Sum(sizes), orders - |sizes|, size)
    ensures Slices(qty, orders, sizes + [size]) && Sum(sizes + [size]) == Sum(sizes) + size
  {
    SumNext(sizes, size);
    assert (sizes + [size])[..|sizes|] == sizes;
  }

  /** The next order of a level; sizes are those of the level so far. */
  method PlaceSeed(book: OrderBook, o: Order, ghost q: seq<Order>, ghost sizes: seq<int>, ghost firstId: int)
    requires book.Valid() && Seeded(book.View(), o.id) && 0 < o.id && 0 < o.qty
    requires o == Order(firstId + |sizes|, 0, o.side, o.price, o.qty, Limit)
    requires book.View().Queue(o.side) == Queued(o.side, q, o.price, sizes, firstId)
    modifies book
    ensures book.Valid() && Seeded(book.View(), o.id + 1)
    ensures book.View().Queue(o.side) == Queued(o.side, q, o.price, sizes + [o.qty], firstId)
    ensures book.View().Queue(Opposite(o.side)) == old(book.View()).Queue(Opposite(o.side))
  {
    SeedOne(book.View(), o.id, o);
    QueuedNext(o.side, q, o.price, sizes, firstId, o.qty);
    book.AddRestingOrder(o);
  }

  /** A level with nothing to place is skipped. */
  method SeedPrice(book: OrderBook, side: Side, price: int, levelQty: int, firstId: int) returns (nextId: int)
    requires book.Valid() && Seeded(book.View(), firstId) && 0 < firstId
    modifies book
    ensures book.Valid() && Seeded(book.View(), nextId) && firstId <= nextId <= firstId + 6
    ensures Adds(old(book.View()).Queue(side), book.View().Queue(side), price, Max(levelQty, 0))
    ensures book.View().Queue(Opposite(side)) == old(book.View()).Queue(Opposite(side))
  {
    nextId := firstId;
    if levelQty > 0 {
      var orders: int :| 1 <= orders <= 6;
      ghost var sizes;
      nextId, sizes := SeedLevel(book, side, price, levelQty, orders, firstId);
      QueuedAdds(side, old(book.View()).Queue(side), price, sizes, firstId);
    }
  }

  /** One side: weights drawn, the target shared out, each level placed one step further from the start
      price, up or down, with a jitter of at most one tick. */
  method SeedSide(book: OrderBook, side: Side, startPrice: int, dir: int, levels: nat, target: int, firstId: int)
    returns (nextId: int, weights: seq<int>, ghost prices: seq<int>)
    requires book.Valid() && Seeded(book.View(), firstId) && 0 < firstId
    requires book.View().Queue(side) == [] && (dir == 1 || dir == -1)
    modifies book
    ensures book.Valid() && Seeded(book.View(), nextId) && firstId <= nextId <= firstId + 6 * levels
    ensures |weights| == levels && Weights(weights)
    ensures Laddered(book.View().Queue(side), target, weights, prices, startPrice, dir)
    ensures levels > 0 ==>
              && 0 < Sum(weights)
              && Depth(book.View().Queue(side)) == LevelTotal(target, weights, Sum(weights))
    ensures book.View().Queue(Opposite(side)) == old(book.View()).Queue(Opposite(side))
    ensures PricedOn(book.View().Queue(side), startPrice, dir, levels)
  {
    weights := DrawWeights(levels);
    var weightSum := Accumulate(weights);
    SumPositive(weights);
    nextId, prices := firstId, [];
    for i := 0 to levels
      invariant book.Valid() && Seeded(book.View(), nextId) && firstId <= nextId <= firstId + 6 * i
      invariant book.View().Queue(Opposite(side)) == old(book.View()).Queue(Opposite(side))
      invariant levels == 0 ==> book.View().Queue(side) == [] && prices == []
      invariant levels > 0 ==> Placed(book.View().Queue(side), target, weights, weightSum, prices, startPrice, dir, i)
    {
      var basePrice := startPrice + dir * i;
      var jitter: int :| 0 <= jitter <= 1;
      var price := basePrice + jitter;
      var levelQty := Quotient(target * weights[i], weightSum);
      ghost var before := book.View().Queue(side);
      nextId := SeedPrice(book, side, price, levelQty, nextId);
      PlacedNext(before, book.View().Queue(side), target, weights, weightSum, prices, startPrice, dir, i, price);
      prices := prices + [price];
    }
    if levels > 0 {
      PlacedAll(book.View().Queue(side), target, weights, weightSum, prices, startPrice, dir);
    }
  }

  lemma PlacedAll(q: seq<Order>, target: int, ws: seq<int>, total: int, prices: seq<int>, start: int, dir: int)
    requires Placed(q, target, ws, total, prices, start, dir, |ws|) && ws != [] && total == Sum(ws)
    ensures Laddered(q, target, ws, prices, start, dir) && PricedOn(q, start, dir, |ws|)
    ensures Depth(q) == LevelTotal(target, ws, total)
  {
    assert ws[..|ws|] == ws && ws[|ws|..] == [];
  }

  /** The first i levels have been placed. */
  ghost predicate Placed(q: seq<Order>, target: int, ws: seq<int>, total: int, prices: seq<int>,
                         start: int, dir: int, i: int)
  {
    && 0 <= i <= |ws| && 0 < total && |prices| == i && Ladder(prices, start, dir)
    && SharedOut(q, target, ws[..i], total, prices)
    && Depth(q) + LevelTotal(target, ws[i..], total) == LevelTotal(target, ws, total)
    && PricedOn(q, start, dir, |ws|)
  }

  ghost predicate PricedOn(q: seq<Order>, start: int, dir: int, levels: nat) {
    if dir == 1 then PricedWithin(q, start, start + levels) else PricedWithin(q, start - levels + 1, start + 1)
  }

  lemma PlacedNext(q: seq<Order>, r: seq<Order>, target: int, ws: seq<int>, total: int, prices: seq<int>,
                   start: int, dir: int, i: int, price: int)
    requires Placed(q, target, ws, total, prices, start, dir, i) && i < |ws| && (dir == 1 || dir == -1)
    requires start + dir * i <= price <= start + dir * i + 1
    requires Adds(q, r, price, LevelQty(target, ws[i], total))
    ensures Placed(r, target, ws, total, prices + [price], start, dir, i + 1)
  {
    assert ws[i..][1..] == ws[i + 1..] && ws[..i + 1] == ws[..i] + [ws[i]];
    SharedNext(q, r, target, ws[..i], total, prices, ws[i], price);
  }

  lemma SharedNext(q: seq<Order>, r: seq<Order>, target: int, ws: seq<int>, total: int, prices: seq<int>,
                   w: int, price: int)
    requires total > 0 && |prices| == |ws| && SharedOut(q, target, ws, total, prices)
    requires Adds(q, r, price, LevelQty(target, w, total))
    ensures SharedOut(r, target, ws + [w], total, prices + [price])
  {
    assert (ws + [w])[..|ws|] == ws && (prices + [price])[..|prices|] == prices;
  }

  /** seed_book on an empty book: each side's depth is its target less rounding, at most twelve ids per
      level are used, and the bids lie below the asks as far as the spread allows. */
  method SeedBook(book: OrderBook, midPrice: int, spread: int, levels: nat, target: int)
    returns (nextId: int, bidWeights: seq<int>, askWeights: seq<int>, ghost bidPrices: seq<int>,
             ghost askPrices: seq<int>)
    requires book.Valid() && book.View() == Book([], [], map[])
    modifies book
    ensures book.Valid() && Seeded(book.View(), nextId) && 1 <= nextId <= 1 + 12 * levels
    ensures Laddered(book.View().bids, target, bidWeights, bidPrices, midPrice - Half(spread), -1)
    ensures Laddered(book.View().asks, target, askWeights, askPrices, midPrice + Half(spread), 1)
    ensures levels > 0 ==>
              && |bidWeights| == |askWeights| == levels && Weights(bidWeights) && Weights(askWeights)
              && 0 < Sum(bidWeights) && 0 < Sum(askWeights)
              && Depth(book.View().bids) == LevelTotal(target, bidWeights, Sum(bidWeights))
              && Depth(book.View().asks) == LevelTotal(target, askWeights, Sum(askWeights))
    ensures levels > 0 && 0 <= target ==>
              && target - levels < Depth(book.View().bids) <= target
              && target - levels < Depth(book.View().asks) <= target
    ensures PricedWithin(book.View().bids, midPrice - Half(spread) - levels + 1, midPrice - Half(spread) + 1)
    ensures PricedWithin(book.View().asks, midPrice + Half(spread), midPrice + Half(spread) + levels)
  {
    nextId := 1;
    var bestBid := midPrice - Half(spread);
    var bestAsk := midPrice + Half(spread);
    nextId, bidWeights, bidPrices := SeedSide(book, Buy, bestBid, -1, levels, target, nextId);
    nextId, askWeights, askPrices := SeedSide(book, Sell, bestAsk, 1, levels, target, nextId);
    if levels > 0 && 0 <= target {
      Apportionment(target, bidWeights);
      Apportionment(target, askWeights);
    }
  }

  /** Seeding establishes the invariant: a spread of at least two ticks, prices that stay positive, and
      few enough levels for the ids to stay below the engine's, give the initial state every run starts in. */
  lemma SeededIsInitial(b: Book, nextId: int, midPrice: int, spread: int, levels: nat)
    requires Seeded(b, nextId) && nextId <= 1 + 12 * levels
    requires PricedWithin(b.bids, midPrice - Half(spread) - levels + 1, midPrice - Half(spread) + 1)
    requires PricedWithin(b.asks, midPrice + Half(spread), midPrice + Half(spread) + levels)
    requires 2 <= spread && Half(spread) + levels <= midPrice && 1 + 12 * levels <= FIRST_ORDER_ID
    ensures Initial(State(b, Ledger(map[], map[], [], 1), Journal([], 1, 1, [], 1, 1), FIRST_ORDER_ID))
  {
    assert b.bids == b.Queue(Buy) && b.asks == b.Queue(Sell);
    forall o | o in b.bids ensures WellPlaced(Buy, o) {}
    forall o | o in b.asks ensures WellPlaced(Sell, o) {}
    if b.bids != [] && b.asks != [] {
      assert b.bids[0] in b.bids && b.asks[0] in b.asks;
    }
  }

  /** How the server comes up (core/src/server/tcp_server.cpp:40-50): seeded book, user manager, engine. */
  method StartServer() returns (engine: MatchingEngine)
    ensures engine.Valid() && Initial(engine.View()) && Inv(engine.View())
    ensures PricedWithin(engine.View().book.bids, 80, 100) && PricedWithin(engine.View().book.asks, 101, 121)
    ensures 1980 < Depth(engine.View().book.bids) <= 2000 && 1980 < Depth(engine.View().book.asks) <= 2000
  {
    var book := new OrderBook();
    var nextId, bidWeights, askWeights, bidPrices, askPrices := SeedBook(book, 100, 2, 20, 2000);
    SeededIsInitial(book.View(), nextId, 100, 2, 20);
    var userManager := new UserManager();
    engine := new MatchingEngine(book, userManager);
    InitialInv(engine.View());
  }
}
