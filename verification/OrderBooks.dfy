/** The order book object (core/src/book/order_book.cpp). */
module OrderBooks {
  import opened Types
  import opened Queues
  import opened Levels
  import opened Exchange

  /** The index entry of this id, if there is one, points at a node that is in the book. */
  ghost predicate LocatorSound(b: Book, id: int) {
    id in b.index ==>
      var loc := b.index[id];
      && loc.node == id
      && (exists o <- b.Queue(loc.side) :: o.id == id)
      && (forall o <- b.Queue(loc.side) :: o.id == id ==> o.price == loc.price)
  }

  class OrderBook {
    var bids: seq<Level>
    var asks: seq<Level>
    var index: map<int, Locator>

    ghost predicate Valid()
      reads this
    {
      Tidy(Buy, bids) && Tidy(Sell, asks)
    }

    ghost function View(): Book
      reads this
    {
      Book(Flatten(bids), Flatten(asks), index)
    }

    constructor ()
      ensures Valid() && View() == Book([], [], map[])
    {
      bids, asks, index := [], [], map[];
    }

    method AddRestingOrder(o: Order)
      requires Valid()
      modifies this
      ensures Valid() && View() == AddResting(old(View()), o)
    {
      if o.qty <= 0 || o.id in index {
        return;
      }
      if o.side == Buy {
        PushBackTidy(Buy, bids, o);
        PushBackRefines(Buy, bids, o);
        bids := PushBack(Buy, bids, o);
        index := index[o.id := Locator(Buy, o.price, o.id)];
      } else {
        PushBackTidy(Sell, asks, o);
        PushBackRefines(Sell, asks, o);
        asks := PushBack(Sell, asks, o);
        index := index[o.id := Locator(Sell, o.price, o.id)];
      }
    }

    method CancelOrder(id: int) returns (ok: bool)
      requires Valid() && LocatorSound(View(), id)
      modifies this
      ensures Valid() && View() == CancelBook(old(View()), id)
      ensures ok == (id in old(index))
    {
      if id !in index {
        return false;
      }
      var loc := index[id];
      if loc.side == Buy {
        EraseTidy(Buy, bids, loc.price, loc.node);
        EraseRefines(Buy, bids, loc.price, loc.node);
        bids := Erase(bids, loc.price, loc.node);
      } else {
        EraseTidy(Sell, asks, loc.price, loc.node);
        EraseRefines(Sell, asks, loc.price, loc.node);
        asks := Erase(asks, loc.price, loc.node);
      }
      index := index - {id};
      return true;
    }

    method FindOrder(id: int) returns (r: Option<Order>)
      requires Valid() && LocatorSound(View(), id)
      ensures r == FindIndexed(View(), id)
    {
      if id !in index {
        return None;
      }
      var loc := index[id];
      EraseRefines(loc.side, if loc.side == Buy then bids else asks, loc.price, loc.node);
      r := NodeAt(if loc.side == Buy then bids else asks, loc.price, loc.node);
    }

    method BestBid() returns (r: Option<int>)
      requires Valid()
      ensures r == if View().bids == [] then None else Some(View().bids[0].price)
    {
      if bids == [] {
        return None;
      }
      TidyFront(Buy, bids);
      return Some(bids[0].price);
    }

    method BestAsk() returns (r: Option<int>)
      requires Valid()
      ensures r == if View().asks == [] then None else Some(View().asks[0].price)
    {
      if asks == [] {
        return None;
      }
      TidyFront(Sell, asks);
      return Some(asks[0].price);
    }

    /** What matching does through best_bid_queue(): takes n units from the order at the front of the
        best level, and pops it once it is filled. The index is not touched. */
    method ReduceBestBid(n: int) returns (reduced: Order)
      requires FrontOpen(Buy, bids) && bids[0].orders != []
      modifies this`bids
      ensures FrontOpen(Buy, bids) && |bids| == old(|bids|) && bids[0].price == old(bids[0].price)
      ensures var head := old(bids[0].orders[0]);
              && old(View()).bids != [] && old(View()).bids[0] == head && head.price == old(bids[0].price)
              && reduced == head.(qty := head.qty - n)
      ensures View() == old(View()).(bids := TakeHead(old(View()).bids, n))
      ensures |bids[0].orders| == old(|bids[0].orders|) - (if reduced.qty == 0 then 1 else 0)
    {
      FrontFillRefines(Buy, bids, n);
      var head := bids[0].orders[0];
      reduced := head.(qty := head.qty - n);
      bids := WithFront(bids, if reduced.qty == 0 then bids[0].orders[1..] else [reduced] + bids[0].orders[1..]);
    }

    /** What matching does through best_ask_queue(): takes n units from the order at the front of the
        best level, and pops it once it is filled. The index is not touched. */
    method ReduceBestAsk(n: int) returns (reduced: Order)
      requires FrontOpen(Sell, asks) && asks[0].orders != []
      modifies this`asks
      ensures FrontOpen(Sell, asks) && |asks| == old(|asks|) && asks[0].price == old(asks[0].price)
      ensures var head := old(asks[0].orders[0]);
              && old(View()).asks != [] && old(View()).asks[0] == head && head.price == old(asks[0].price)
              && reduced == head.(qty := head.qty - n)
      ensures View() == old(View()).(asks := TakeHead(old(View()).asks, n))
      ensures |asks[0].orders| == old(|asks[0].orders|) - (if reduced.qty == 0 then 1 else 0)
    {
      FrontFillRefines(Sell, asks, n);
      var head := asks[0].orders[0];
      reduced := head.(qty := head.qty - n);
      asks := WithFront(asks, if reduced.qty == 0 then asks[0].orders[1..] else [reduced] + asks[0].orders[1..]);
    }

    method CleanupBestBidLevelIfEmpty()
      modifies this`bids
      ensures bids == DropEmptyFront(old(bids))
    {
      if bids == [] {
        return;
      }
      if bids[0].orders == [] {
        bids := bids[1..];
      }
    }

    method CleanupBestAskLevelIfEmpty()
      modifies this`asks
      ensures asks == DropEmptyFront(old(asks))
    {
      if asks == [] {
        return;
      }
      if asks[0].orders == [] {
        asks := asks[1..];
      }
    }

    method BidDepth() returns (total: int)
      ensures total == Depth(View().bids)
    {
      total := SumLevels(bids);
    }

    method AskDepth() returns (total: int)
      ensures total == Depth(View().asks)
    {
      total := SumLevels(asks);
    }
  }

  /** The nested accumulation both depth queries run. */
  method SumLevels(ls: seq<Level>) returns (total: int)
    ensures total == Depth(Flatten(ls))
  {
    total := 0;
    for i := 0 to |ls|
      invariant total + Depth(Flatten(ls[i..])) == Depth(Flatten(ls))
    {
      var orders := ls[i].orders;
      DepthOfConcat(orders, Flatten(ls[i..][1..]));
      assert ls[i..][1..] == ls[i + 1..];
      ghost var before := total;
      for j := 0 to |orders|
        invariant total + Depth(orders[j..]) == before + Depth(orders)
      {
        assert orders[j..][1..] == orders[j + 1..];
        total := total + orders[j].qty;
      }
    }
  }

  lemma DepthOfConcat(a: seq<Order>, b: seq<Order>)
    ensures Depth(a + b) == Depth(a) + Depth(b)
  {
    if a == [] {
      assert a + b == b;
    } else {
      assert (a + b)[1..] == a[1..] + b;
      DepthOfConcat(a[1..], b);
    }
  }
}
