/** The matching engine object (core/src/engine/matching_engine.cpp), wired as the server wires it:
    with a user manager, an order sink and a trade sink. */
module Engine {
  import opened Types
  import opened Levels
  import opened Exchange
  import opened OrderBooks
  import opened UserManagers

  class MatchingEngine {
    const book: OrderBook
    const userManager: UserManager
    var nextId: int
    var eventSeq: int
    var batchSeq: int
    var orderSink: seq<OrderEvent>
    var tradeSink: seq<Trade>
    // file-scope counters in the source
    var globalSeq: int
    var globalTradeId: int

    ghost predicate Valid()
      reads this, book
    {
      book.Valid()
    }

    ghost function View(): State
      reads this, book, userManager
    {
      State(book.View(), userManager.View(),
            Journal(orderSink, eventSeq, batchSeq, tradeSink, globalSeq, globalTradeId), nextId)
    }

    constructor (book: OrderBook, userManager: UserManager)
      requires book.Valid()
      ensures this.book == book && this.userManager == userManager && Valid()
      ensures View() == State(book.View(), userManager.View(), Journal([], 1, 1, [], 1, 1), FIRST_ORDER_ID)
    {
      this.book, this.userManager := book, userManager;
      nextId, eventSeq, batchSeq := FIRST_ORDER_ID, 1, 1;
      orderSink, tradeSink, globalSeq, globalTradeId := [], [], 1, 1;
    }

    method NextOrderId() returns (id: int)
      modifies this`nextId
      ensures id == old(nextId) && View() == Apply(old(View()), Allocate)
    {
      id := nextId;
      nextId := nextId + 1;
    }

    method EmitOrderEvent(batch: int, id: int, user: int, status: OrderStatus, side: Side,
                          price: int, qty: int, remaining: int)
      modifies this`orderSink, this`eventSeq
      ensures View() == old(View()).(journal :=
                          Emit(old(View()).journal, batch, id, user, status, side, price, qty, remaining))
    {
      orderSink := orderSink + [OrderEvent(eventSeq, batch, id, user, status, side, price, qty, remaining)];
      eventSeq := eventSeq + 1;
    }

    method EmitTrades(trades: seq<Trade>) returns (stamped: seq<Trade>)
      modifies this`tradeSink, this`globalSeq, this`globalTradeId
      ensures stamped == Stamp(trades, old(globalSeq), old(globalTradeId))
      ensures View() == Publish(old(View()), stamped)
    {
      stamped := trades;
      for i := 0 to |trades|
        invariant |stamped| == |trades|
        invariant globalSeq == old(globalSeq) + i && globalTradeId == old(globalTradeId) + i
        invariant stamped[..i] == Stamp(trades, old(globalSeq), old(globalTradeId))[..i]
        invariant stamped[i..] == trades[i..]
        invariant tradeSink == old(tradeSink) + stamped[..i]
      {
        var t := stamped[i].(seqNo := globalSeq, tradeId := globalTradeId);
        stamped := stamped[i := t];
        globalSeq := globalSeq + 1;
        globalTradeId := globalTradeId + 1;
        tradeSink := tradeSink + [t];
      }
    }

    method PreflightCheck(o: Order) returns (v: Verdict)
      requires Valid()
      ensures v == Preflight(View(), o)
    {
      if o.qty <= 0 {
        return Refused(Rejected, "quantity must be positive");
      }
      if o.kind == Limit && o.price <= 0 {
        return Refused(Rejected, "limit order price must be positive");
      }
      var bestAsk := book.BestAsk();
      var bestBid := book.BestBid();
      if o.kind == Market {
        if o.side == Buy {
          if bestAsk.None? {
            return Refused(Canceled, "no asks available for market buy");
          }
        } else {
          if bestBid.None? {
            return Refused(Canceled, "no bids available for market sell");
          }
        }
      }
      if o.user > 0 {
        var p := userManager.GetPosition(o.user);
        if o.side == Buy {
          var costPrice := if o.kind == Limit then o.price else bestAsk.value;
          if p.balance - p.reservedBalance < costPrice * o.qty {
            return Refused(Rejected, "insufficient cash");
          }
        } else if p.shares - p.reservedShares < o.qty {
          return Refused(Rejected, "insufficient shares");
        }
      }
      return Admitted;
    }

    /** The body of match_buy's inner loop: one fill against the order at the front of the best ask
        level. A filled maker is popped from its list; its index entry stays behind. */
    method FillBestAsk(taker: Order, askPrice: int, batch: int) returns (left: Order, trade: Trade)
      requires FrontOpen(Sell, book.asks) && book.asks[0].orders != [] && book.asks[0].price == askPrice
      requires taker.side == Buy && taker.qty > 0 && Crosses(taker, askPrice)
      modifies this`orderSink, this`eventSeq, book`asks, userManager`positions
      ensures FrontOpen(Sell, book.asks) && |book.asks| == old(|book.asks|) && book.asks[0].price == askPrice
      ensures old(View()).book.asks != [] && old(View()).book.asks[0].price == askPrice
      ensures View() == Fill(old(View()), taker, batch) && trade == TradeOf(old(View()), taker)
      ensures left == taker.(qty := taker.qty - FillSize(old(View()), taker))
      ensures Match(old(View()), taker, batch) == Match(View(), left, batch).After([trade])
      ensures var n, m := |book.asks[0].orders|, old(|book.asks[0].orders|);
              n < m || (n == m && left.qty <= 0)
    {
      var maker := book.asks[0].orders[0];
      var fillQty := if taker.qty < maker.qty then taker.qty else maker.qty;

      ghost var s := View();

      var makerUser := userManager.GetUserForOrder(maker.id);
      trade := Trade(0, maker.id, taker.id, makerUser, taker.user, askPrice, fillQty, 0);
      userManager.OnOrderFill(maker.id, taker.id, askPrice, fillQty, Buy);

      left := taker.(qty := taker.qty - fillQty);
      var reduced := book.ReduceBestAsk(fillQty);
      if reduced.qty == 0 {
        EmitOrderEvent(batch, maker.id, maker.user, Filled, maker.side, askPrice, fillQty, 0);
      } else {
        EmitOrderEvent(batch, maker.id, maker.user, PartiallyFilled, maker.side, askPrice, fillQty, reduced.qty);
      }
      assert View().book == Fill(s, taker, batch).book;
      assert View() == Fill(s, taker, batch);
      MatchStep(s, taker, batch, View(), left, trade);
    }

    /** match_buy's inner loop: takes from the best ask level until it or the taker is exhausted. */
    method SweepBestAsk(incoming: Order, askPrice: int, batch: int) returns (taker: Order, trades: seq<Trade>)
      requires Valid() && book.asks != [] && book.asks[0].price == askPrice
      requires incoming.side == Buy && incoming.qty > 0 && Crosses(incoming, askPrice)
      modifies this`orderSink, this`eventSeq, book`asks, userManager`positions
      ensures Valid() && taker == incoming.(qty := taker.qty)
      ensures |book.asks| < old(|book.asks|) || (|book.asks| == old(|book.asks|) && taker.qty <= 0)
      ensures Match(old(View()), incoming, batch) == Match(View(), taker, batch).After(trades)
    {
      taker, trades := incoming, [];
      ghost var outcome := Match(View(), incoming, batch);
      TidyFront(Sell, book.asks);
      while taker.qty > 0 && book.asks[0].orders != []
        invariant FrontOpen(Sell, book.asks) && Tidy(Buy, book.bids) && |book.asks| == old(|book.asks|)
        invariant book.asks[0].price == askPrice && taker == incoming.(qty := taker.qty)
        invariant outcome == Match(View(), taker, batch).After(trades)
        decreases |book.asks[0].orders|, taker.qty > 0
      {
        ghost var earlier := trades;
        var left, trade := FillBestAsk(taker, askPrice, batch);
        AfterAfter(Match(View(), left, batch), earlier, [trade]);
        taker, trades := left, trades + [trade];
      }
      CleanupRefines(Sell, book.asks);
      book.CleanupBestAskLevelIfEmpty();
    }

    method MatchBuy(incoming: Order, batch: int) returns (taker: Order, trades: seq<Trade>)
      requires Valid() && incoming.side == Buy
      modifies this`orderSink, this`eventSeq, book`asks, userManager`positions
      ensures Valid()
      ensures Matched(View(), taker, trades) == Match(old(View()), incoming, batch)
    {
      taker, trades := incoming, [];
      ghost var outcome := Match(View(), incoming, batch);
      while taker.qty > 0
        invariant Valid() && taker == incoming.(qty := taker.qty)
        invariant outcome == Match(View(), taker, batch).After(trades)
        decreases |book.asks|, taker.qty > 0
      {
        // the source also tests the best level's list, which is never empty here
        var bestAsk := book.BestAsk();
        if bestAsk.None? {
          break;
        }
        var askPrice := bestAsk.value;
        if taker.kind == Limit && askPrice > taker.price {
          break;
        }
        ghost var earlier := trades;
        var more;
        taker, more := SweepBestAsk(taker, askPrice, batch);
        trades := trades + more;
        AfterAfter(Match(View(), taker, batch), earlier, more);
      }
      MatchDone(View(), taker, batch, trades);
    }

    /** The body of match_sell's inner loop: one fill against the order at the front of the best bid
        level. A filled maker is popped from its list; its index entry stays behind. */
    method FillBestBid(taker: Order, bidPrice: int, batch: int) returns (left: Order, trade: Trade)
      requires FrontOpen(Buy, book.bids) && book.bids[0].orders != [] && book.bids[0].price == bidPrice
      requires taker.side == Sell && taker.qty > 0 && Crosses(taker, bidPrice)
      modifies this`orderSink, this`eventSeq, book`bids, userManager`positions
      ensures FrontOpen(Buy, book.bids) && |book.bids| == old(|book.bids|) && book.bids[0].price == bidPrice
      ensures old(View()).book.bids != [] && old(View()).book.bids[0].price == bidPrice
      ensures View() == Fill(old(View()), taker, batch) && trade == TradeOf(old(View()), taker)
      ensures left == taker.(qty := taker.qty - FillSize(old(View()), taker))
      ensures Match(old(View()), taker, batch) == Match(View(), left, batch).After([trade])
      ensures var n, m := |book.bids[0].orders|, old(|book.bids[0].orders|);
              n < m || (n == m && left.qty <= 0)
    {
      var maker := book.bids[0].orders[0];
      var fillQty := if taker.qty < maker.qty then taker.qty else maker.qty;

      ghost var s := View();

      var makerUser := userManager.GetUserForOrder(maker.id);
      trade := Trade(0, maker.id, taker.id, makerUser, taker.user, bidPrice, fillQty, 0);
      userManager.OnOrderFill(maker.id, taker.id, bidPrice, fillQty, Sell);

      left := taker.(qty := taker.qty - fillQty);
      var reduced := book.ReduceBestBid(fillQty);
      if reduced.qty == 0 {
        EmitOrderEvent(batch, maker.id, maker.user, Filled, maker.side, bidPrice, fillQty, 0);
      } else {
        EmitOrderEvent(batch, maker.id, maker.user, PartiallyFilled, maker.side, bidPrice, fillQty, reduced.qty);
      }
      MatchStep(s, taker, batch, View(), left, trade);
    }

    /** match_sell's inner loop: takes from the best bid level until it or the taker is exhausted. */
    method SweepBestBid(incoming: Order, bidPrice: int, batch: int) returns (taker: Order, trades: seq<Trade>)
      requires Valid() && book.bids != [] && book.bids[0].price == bidPrice
      requires incoming.side == Sell && incoming.qty > 0 && Crosses(incoming, bidPrice)
      modifies this`orderSink, this`eventSeq, book`bids, userManager`positions
      ensures Valid() && taker == incoming.(qty := taker.qty)
      ensures |book.bids| < old(|book.bids|) || (|book.bids| == old(|book.bids|) && taker.qty <= 0)
      ensures Match(old(View()), incoming, batch) == Match(View(), taker, batch).After(trades)
    {
      taker, trades := incoming, [];
      ghost var outcome := Match(View(), incoming, batch);
      TidyFront(Buy, book.bids);
      while taker.qty > 0 && book.bids[0].orders != []
        invariant FrontOpen(Buy, book.bids) && Tidy(Sell, book.asks) && |book.bids| == old(|book.bids|)
        invariant book.bids[0].price == bidPrice && taker == incoming.(qty := taker.qty)
        invariant outcome == Match(View(), taker, batch).After(trades)
        decreases |book.bids[0].orders|, taker.qty > 0
      {
        ghost var earlier := trades;
        var left, trade := FillBestBid(taker, bidPrice, batch);
        AfterAfter(Match(View(), left, batch), earlier, [trade]);
        taker, trades := left, trades + [trade];
      }
      CleanupRefines(Buy, book.bids);
      book.CleanupBestBidLevelIfEmpty();
    }

    method MatchSell(incoming: Order, batch: int) returns (taker: Order, trades: seq<Trade>)
      requires Valid() && incoming.side == Sell
      modifies this`orderSink, this`eventSeq, book`bids, userManager`positions
      ensures Valid()
      ensures Matched(View(), taker, trades) == Match(old(View()), incoming, batch)
    {
      taker, trades := incoming, [];
      ghost var outcome := Match(View(), incoming, batch);
      while taker.qty > 0
        invariant Valid() && taker == incoming.(qty := taker.qty)
        invariant outcome == Match(View(), taker, batch).After(trades)
        decreases |book.bids|, taker.qty > 0
      {
        // the source also tests the best level's list, which is never empty here
        var bestBid := book.BestBid();
        if bestBid.None? {
          break;
        }
        var bidPrice := bestBid.value;
        if taker.kind == Limit && bidPrice < taker.price {
          break;
        }
        ghost var earlier := trades;
        var more;
        taker, more := SweepBestBid(taker, bidPrice, batch);
        trades := trades + more;
        AfterAfter(Match(View(), taker, batch), earlier, more);
      }
      MatchDone(View(), taker, batch, trades);
    }

    method ProcessOrder(incoming: Order) returns (result: OrderResult)
      requires Valid()
      modifies this`orderSink, this`eventSeq, this`batchSeq, this`tradeSink, this`globalSeq, this`globalTradeId
      modifies book, userManager`orderToUser, userManager`positions
      ensures Valid()
      ensures View() == Process(old(View()), incoming).0
      ensures result == Process(old(View()), incoming).1
    {
      ghost var s := View();
      userManager.RegisterOrder(incoming.id, incoming.user);
      var batch := batchSeq;
      batchSeq := batchSeq + 1;
      assert View() == Opened(s, incoming);

      var preflight := PreflightCheck(incoming);
      if preflight.Refused? {
        EmitOrderEvent(batch, incoming.id, incoming.user, preflight.status, incoming.side, incoming.price, 0, 0);
        return OrderResult(incoming.id, preflight.status, incoming.qty, 0, 0, [], preflight.reason);
      }
      EmitOrderEvent(batch, incoming.id, incoming.user, New, incoming.side, incoming.price,
                     incoming.qty, incoming.qty);
      assert View() == Announced(s, incoming);

      var taker, trades;
      if incoming.side == Buy {
        taker, trades := MatchBuy(incoming, batch);
      } else {
        taker, trades := MatchSell(incoming, batch);
      }
      ghost var m := Matching(s, incoming);
      assert Matched(View(), taker, trades) == m;
      MatchFrame(Announced(s, incoming), incoming, batch);
      RestRemainder(taker);
      trades := EmitTrades(trades);
      assert View() == Publish(Rest(m.state, taker), trades);

      var filled := incoming.qty - taker.qty;
      var status := ReportOutcome(incoming, taker, filled, batch);
      assert View() == Accept(s, incoming).0;
      return OrderResult(incoming.id, status, incoming.qty, filled, taker.qty, trades, "");
    }

    method ReportOutcome(incoming: Order, taker: Order, filled: int, batch: int) returns (status: OrderStatus)
      requires filled == incoming.qty - taker.qty && taker.side == incoming.side
      modifies this`orderSink, this`eventSeq
      ensures status == FinalStatus(incoming, taker.qty)
      ensures View() == Conclude(old(View()), batch, incoming, taker.qty)
    {
      if filled == 0 {
        return New;
      }
      status := if taker.qty == 0 then Filled else PartiallyFilled;
      EmitOrderEvent(batch, incoming.id, incoming.user, status, taker.side, incoming.price, filled, taker.qty);
    }

    method RestRemainder(taker: Order)
      requires Valid()
      modifies book, userManager`positions
      ensures Valid() && View() == Rest(old(View()), taker)
    {
      if taker.kind == Limit && taker.qty > 0 {
        book.AddRestingOrder(taker);
        userManager.OnOrderResting(taker.id, taker.side, taker.price, taker.qty);
      }
    }

    method CancelOrder(id: int) returns (ok: bool)
      requires Valid() && LocatorSound(book.View(), id)
      modifies this`orderSink, this`eventSeq, this`batchSeq, book, userManager`positions
      ensures Valid()
      ensures (View(), ok) == Cancel(old(View()), id)
    {
      var order := book.FindOrder(id);
      ok := book.CancelOrder(id);
      if ok {
        var batch := batchSeq;
        batchSeq := batchSeq + 1;
        var user := userManager.GetUserForOrder(id);
        EmitOrderEvent(batch, id, user, Canceled, Buy, 0, 0, 0);
        if order.Some? {
          userManager.OnOrderCancel(id, order.value.side, order.value.price, order.value.qty);
        }
      }
    }
  }

  lemma AfterAfter(m: Matched, a: seq<Trade>, b: seq<Trade>)
    ensures m.After(b).After(a) == m.After(a + b)
  {
  }

  lemma MatchDone(s: State, taker: Order, batch: int, earlier: seq<Trade>)
    requires !CanFill(s, taker)
    ensures Match(s, taker, batch).After(earlier) == Matched(s, taker, earlier)
  {
  }

  /** Making the first trade now or as part of the rest is the same. */
  lemma MatchStep(s: State, taker: Order, batch: int, next: State, left: Order, trade: Trade)
    requires CanFill(s, taker) && next == Fill(s, taker, batch) && trade == TradeOf(s, taker)
    requires left == taker.(qty := taker.qty - FillSize(s, taker))
    ensures Match(s, taker, batch) == Match(next, left, batch).After([trade])
  {
  }
}
