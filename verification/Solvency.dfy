/** Nobody spends what it does not have, with one exception: a market buy is checked at the best ask
    only (core/src/engine/matching_engine.cpp:56-63) and may fill above it. */
module Solvency {
  import opened Types
  import opened Queues
  import opened Exchange
  import opened Invariants
  import opened Greedy
  import opened Execution
  import opened Arithmetic

  // ----- shares and reservations

  lemma TotalNonNegative(side: Side, q: seq<Order>, u: int)
    requires forall o <- q :: WellPlaced(side, o)
    ensures 0 <= Total(q, CashOf(u)) && 0 <= Total(q, SharesOf(u))
  {
    if q != [] {
      assert WellPlaced(side, q[0]);
      assert 0 <= q[0].price * q[0].qty;
      TotalNonNegative(side, q[1..], u);
    }
  }

  /** In every reachable state a user's reservations are the price times quantity of its resting bids and
      the quantity of its resting asks; the latter never exceeds what it holds. */
  lemma RunReservations(s: State, steps: seq<Step>, u: int)
    requires Inv(s) && LegalRun(s, steps) && u > 0
    ensures var t := Run(s, steps);
            var p := t.ledger.Get(u);
            && p.reservedBalance == Total(t.book.bids, CashOf(u)) && 0 <= p.reservedBalance
            && p.reservedShares == Total(t.book.asks, SharesOf(u)) && 0 <= p.reservedShares <= p.shares
  {
    RunInv(s, steps);
    var t := Run(s, steps);
    assert Reserved(t, u) && 0 <= FreeShares(t.ledger, u);
    TotalNonNegative(Buy, t.book.bids, u);
    TotalNonNegative(Sell, t.book.asks, u);
  }

  /** The admission rules in terms of the book: a user may commit what it holds less what its resting
      orders already commit. */
  lemma AdmissionRules(s: State, o: Order)
    requires o.user > 0 ==> Reserved(s, o.user)
    ensures var q, p := Opposing(s, o), s.ledger.Get(o.user);
            Admits(s, o) <==>
              && 0 < o.qty
              && (o.kind == Limit ==> 0 < o.price)
              && (o.kind == Market ==> q != [])
              && (o.user > 0 && o.side == Sell ==> o.qty + Total(s.book.asks, SharesOf(o.user)) <= p.shares)
              && (o.user > 0 && o.side == Buy ==>
                    (if o.kind.Limit? then o.price else q[0].price) * o.qty
                      + Total(s.book.bids, CashOf(o.user)) <= p.balance)
  {
  }

  /** A buyer cannot pay, or a seller cannot deliver, beside what it has resting. */
  predicate ShortOfCash(s: State, o: Order) {
    && o.user > 0 && o.side == Buy && (o.kind == Market ==> s.book.asks != [])
    && s.ledger.Get(o.user).balance
         < (if o.kind.Limit? then o.price else s.book.asks[0].price) * o.qty + Total(s.book.bids, CashOf(o.user))
  }

  predicate ShortOfShares(s: State, o: Order) {
    o.user > 0 && o.side == Sell && s.ledger.Get(o.user).shares < o.qty + Total(s.book.asks, SharesOf(o.user))
  }

  /** The six reasons exclude each other, and each is given in its own case only. */
  lemma RefusalReasons(s: State, o: Order)
    requires o.user > 0 ==> Reserved(s, o.user)
    ensures var r := Process(s, o).1;
            var wellFormed := 0 < o.qty && (o.kind == Limit ==> 0 < o.price);
            var unmet := o.kind == Market && Opposing(s, o) == [];
            && (r.reason == "" <==> Admits(s, o))
            && (r.reason == "quantity must be positive" <==> o.qty <= 0)
            && (r.reason == "limit order price must be positive" <==> 0 < o.qty && !wellFormed)
            && (r.reason == "no asks available for market buy" <==> wellFormed && unmet && o.side == Buy)
            && (r.reason == "no bids available for market sell" <==> wellFormed && unmet && o.side == Sell)
            && (r.reason == "insufficient cash" <==> wellFormed && !unmet && ShortOfCash(s, o))
            && (r.reason == "insufficient shares" <==> wellFormed && !unmet && ShortOfShares(s, o))
  {
    ReasonGiven(s, o);
    ReasonFor(s, o);
    SixReasons();
  }

  lemma ReasonGiven(s: State, o: Order)
    ensures var v, r := Preflight(Opened(s, o), o), Process(s, o).1;
            r.reason == if v.Admitted? then "" else v.reason
  {
  }

  lemma ReasonFor(s: State, o: Order)
    requires o.user > 0 ==> Reserved(s, o.user)
    ensures var v := Preflight(Opened(s, o), o);
            if o.qty <= 0 then v == Refused(Rejected, "quantity must be positive")
            else if o.kind == Limit && o.price <= 0 then v == Refused(Rejected, "limit order price must be positive")
            else if o.kind == Market && Opposing(s, o) == [] then
              v == Refused(Canceled, if o.side == Buy then "no asks available for market buy"
                                                      else "no bids available for market sell")
            else if ShortOfCash(s, o) then v == Refused(Rejected, "insufficient cash")
            else if ShortOfShares(s, o) then v == Refused(Rejected, "insufficient shares")
            else v == Admitted
  {
  }

  lemma SixReasons()
    ensures |"quantity must be positive"| == 25 && |"limit order price must be positive"| == 34
         && |"no asks available for market buy"| == 32 && |"no bids available for market sell"| == 33
         && |"insufficient cash"| == 17 && |"insufficient shares"| == 19
  {
  }

  // ----- cash

  /** What one trade does to a user's unreserved cash. A resting buyer pays out of its reservation. */
  function CashEffect(t: Trade, u: int, takerSide: Side): int {
    if takerSide == Buy then
      (if t.makerUser == u then t.price * t.qty else 0) - (if t.takerUser == u then t.price * t.qty else 0)
    else (if t.takerUser == u then t.price * t.qty else 0)
  }

  function CashEffects(ts: seq<Trade>, u: int, takerSide: Side): int {
    if ts == [] then 0 else CashEffect(ts[0], u, takerSide) + CashEffects(ts[1..], u, takerSide)
  }

  lemma FillCash(s: State, taker: Order, batch: int, u: int)
    requires CanFill(s, taker) && s.ledger.OwnerOf(taker.id) == taker.user
    ensures FreeCash(Fill(s, taker, batch).ledger, u)
         == FreeCash(s.ledger, u) + CashEffect(TradeOf(s, taker), u, taker.side)
  {
  }

  lemma MatchCash(s: State, taker: Order, batch: int, u: int)
    requires s.ledger.OwnerOf(taker.id) == taker.user
    ensures var m := Match(s, taker, batch);
            FreeCash(m.state.ledger, u) == FreeCash(s.ledger, u) + CashEffects(m.trades, u, taker.side)
    decreases |Opposing(s, taker)|, taker.qty > 0
  {
    if CanFill(s, taker) {
      FillCash(s, taker, batch, u);
      var t, left := Fill(s, taker, batch), taker.(qty := taker.qty - FillSize(s, taker));
      MatchCash(t, left, batch, u);
      assert ([TradeOf(s, taker)] + Match(t, left, batch).trades)[1..] == Match(t, left, batch).trades;
    }
  }

  lemma StampCash(ts: seq<Trade>, firstSeq: int, firstId: int, u: int, takerSide: Side)
    ensures CashEffects(Stamp(ts, firstSeq, firstId), u, takerSide) == CashEffects(ts, u, takerSide)
  {
    if ts != [] {
      assert Stamp(ts, firstSeq, firstId)[1..] == Stamp(ts[1..], firstSeq + 1, firstId + 1);
      StampCash(ts[1..], firstSeq + 1, firstId + 1, u, takerSide);
    }
  }

  /** What the remainder of an order takes out of a user's unreserved cash when it rests. */
  function Locked(o: Order, left: int, u: int): int {
    if o.user == u && o.side == Buy && o.kind == Limit then o.price * left else 0
  }

  lemma RestCash(s: State, taker: Order, u: int)
    requires taker.id in s.ledger.owner && s.ledger.owner[taker.id] == taker.user && 0 <= taker.qty
    ensures FreeCash(Rest(s, taker).ledger, u) == FreeCash(s.ledger, u) - Locked(taker, taker.qty, u)
  {
  }

  /** Cash accounting of an accepted order, exact for every user: the trades' effects, less what the
      owner of a resting remainder now has reserved. */
  lemma AcceptedCash(s: State, o: Order, u: int)
    requires Core(s) && ProperIds(s, Place(o)) && Admits(s, o)
    ensures var (t, r) := Process(s, o);
            FreeCash(t.ledger, u)
              == FreeCash(s.ledger, u) + CashEffects(r.trades, u, o.side) - Locked(o, r.remainingQty, u)
  {
    AnnouncedCore(s, o);
    var a, batch := Announced(s, o), s.journal.batchSeq;
    var m := Matching(s, o);
    MatchCore(a, o, batch);
    MatchCash(a, o, batch, u);
    RestCash(m.state, m.taker, u);
    assert FreeCash(a.ledger, u) == FreeCash(s.ledger, u);
    assert Process(s, o).0.ledger == Rest(m.state, m.taker).ledger;
    assert Locked(m.taker, m.taker.qty, u) == Locked(o, m.taker.qty, u);
    StampCash(m.trades, m.state.journal.tradeSeq, m.state.journal.nextTradeId, u, o.side);
  }

  /** Paid above the best ask that was on the book before the order. */
  function Slippage(xs: seq<Slice>, best: int): int {
    if xs == [] then 0 else (xs[0].price - best) * xs[0].qty + Slippage(xs[1..], best)
  }

  /** Lower bounds on what trades do to one user's unreserved cash. */
  lemma EffectsBound(ts: seq<Trade>, u: int, takerSide: Side, limit: int)
    requires forall t <- ts :: t.qty > 0 && t.price > 0
    ensures (takerSide == Sell || forall t <- ts :: t.takerUser != u) ==> 0 <= CashEffects(ts, u, takerSide)
    ensures -(limit * SliceUnits(SlicesOf(ts)) + Slippage(SlicesOf(ts), limit)) <= CashEffects(ts, u, takerSide)
  {
    if ts != [] {
      var t := ts[0];
      assert t in ts && 0 < t.price * t.qty by { Positive(t.price, t.qty); }
      EffectsBound(ts[1..], u, takerSide, limit);
      var rest := SlicesOf(ts[1..]);
      assert SlicesOf(ts)[1..] == rest;
      Distribute(limit, t.qty, SliceUnits(rest));
      assert (t.price - limit) * t.qty == t.price * t.qty - limit * t.qty;
    }
  }

  lemma SlippageSign(xs: seq<Slice>, best: int)
    requires forall x <- xs :: x.qty > 0
    ensures (forall x <- xs :: x.price <= best) ==> Slippage(xs, best) <= 0
    ensures (forall x <- xs :: x.price >= best) ==> 0 <= Slippage(xs, best)
  {
    if xs != [] {
      assert xs[0] in xs;
      SlippageSign(xs[1..], best);
      if xs[0].price <= best { NonNegative(best - xs[0].price, xs[0].qty); }
      if xs[0].price >= best { NonNegative(xs[0].price - best, xs[0].qty); }
    }
  }

  /** How far above the best ask a user's market buy fills; zero for every other step. */
  function StepSlippage(s: State, step: Step, u: int): int {
    if step.Place? && step.order.user == u && step.order.side == Buy && step.order.kind == Market
       && Admits(s, step.order) && s.book.asks != []
    then Slippage(SlicesOf(Process(s, step.order).1.trades), s.book.asks[0].price)
    else 0
  }

  lemma TradesWithin(ts: seq<Trade>, o: Order)
    requires forall t <- ts :: t.qty > 0 && Crosses(o, t.price)
    ensures forall x <- SlicesOf(ts) :: x.qty > 0 && Crosses(o, x.price)
  {
    if ts != [] { TradesWithin(ts[1..], o); }
  }

  /** Slices come off a sorted ask queue at or above its head's price. */
  lemma SlippageNonNegative(s: State, o: Order)
    requires Core(s) && ProperIds(s, Place(o)) && Admits(s, o) && o.side == Buy && s.book.asks != []
    ensures 0 <= Slippage(SlicesOf(Process(s, o).1.trades), s.book.asks[0].price)
    ensures SliceUnits(SlicesOf(Process(s, o).1.trades)) == Process(s, o).1.filledQty
  {
    AcceptedOutcome(s, o);
    ReachableNonNegative(Sell, s.book.asks, o);
    var f := Process(s, o).1.filledQty;
    PriceTimePriority(Sell, s.book.asks, f);
    var xs, best := Slices(s.book.asks, f), s.book.asks[0].price;
    forall x | x in xs ensures x.qty > 0 && x.price >= best {
      var i :| 0 <= i < |xs| && xs[i] == x;
      assert i > 0 ==> !Before(Sell, s.book.asks[i].price, best);
    }
    SlippageSign(xs, best);
  }

  /** A buyer's bill, split at any reference price: that price for every unit it bought, what it paid
      above it, and what its remainder locks. */
  lemma BuyerBill(s: State, o: Order, price: int)
    requires Core(s) && ProperIds(s, Place(o)) && Admits(s, o) && o.side == Buy
    ensures var (t, r) := Process(s, o);
            FreeCash(s.ledger, o.user) - price * r.filledQty - Slippage(SlicesOf(r.trades), price)
              - Locked(o, r.remainingQty, o.user) <= FreeCash(t.ledger, o.user)
  {
    var r := Process(s, o).1;
    AcceptedCash(s, o, o.user);
    AcceptedOutcome(s, o);
    ResultTrades(s, o);
    EffectsBound(r.trades, o.user, Buy, price);
    ReachableNonNegative(Sell, s.book.asks, o);
    PriceTimePriority(Sell, s.book.asks, r.filledQty);
    assert SliceUnits(SlicesOf(r.trades)) == r.filledQty;
  }

  /** What the preflight check has seen of a buyer's cash. */
  lemma BuyerChecked(s: State, o: Order)
    requires Admits(s, o) && o.user > 0 && o.side == Buy
    ensures 0 < o.qty && (o.kind == Limit ==> 0 < o.price) && (o.kind == Market ==> s.book.asks != [])
    ensures (if o.kind.Limit? then o.price else s.book.asks[0].price) * o.qty <= FreeCash(s.ledger, o.user)
  {
  }

  lemma LimitBuyerCovered(s: State, o: Order)
    requires Core(s) && ProperIds(s, Place(o)) && Admits(s, o) && o.user > 0 && o.side == Buy && o.kind == Limit
    ensures 0 <= FreeCash(Process(s, o).0.ledger, o.user)
  {
    var r := Process(s, o).1;
    BuyerChecked(s, o);
    BuyerBill(s, o, o.price);
    ResultTrades(s, o);
    TradesWithin(r.trades, o);
    SlippageSign(SlicesOf(r.trades), o.price);
    AcceptedOutcome(s, o);
    var free, after, above := FreeCash(s.ledger, o.user), FreeCash(Process(s, o).0.ledger, o.user),
                              Slippage(SlicesOf(r.trades), o.price);
    assert Locked(o, r.remainingQty, o.user) == o.price * r.remainingQty;
    assert above <= 0;
    Covered(free, o.price, o.qty, r.filledQty, r.remainingQty, above, after);
  }

  lemma Covered(free: int, price: int, qty: int, filled: int, remaining: int, above: int, after: int)
    requires price * qty <= free && above <= 0 && qty == filled + remaining
    requires free - price * filled - above - price * remaining <= after
    ensures 0 <= after
  {
  }

  lemma MarketBuyerCovered(s: State, o: Order)
    requires Core(s) && ProperIds(s, Place(o)) && Admits(s, o) && o.user > 0 && o.side == Buy && o.kind == Market
    ensures s.book.asks != []
    ensures -Slippage(SlicesOf(Process(s, o).1.trades), s.book.asks[0].price)
              <= FreeCash(Process(s, o).0.ledger, o.user)
  {
    BuyerChecked(s, o);
    var r, best := Process(s, o).1, s.book.asks[0].price;
    BuyerBill(s, o, best);
    AcceptedOutcome(s, o);
    assert s.book.asks[0] in s.book.asks && WellPlaced(Sell, s.book.asks[0]);
    NonNegative(best, r.remainingQty);
    Distribute(best, r.filledQty, r.remainingQty);
  }

  lemma StepCash(s: State, step: Step, u: int)
    requires Core(s) && ProperIds(s, step) && u > 0
    ensures Min(FreeCash(s.ledger, u), 0) - StepSlippage(s, step, u) <= FreeCash(Apply(s, step).ledger, u)
    ensures 0 <= StepSlippage(s, step, u)
  {
    match step
    case Place(o) =>
      if Admits(s, o) {
        if o.user == u && o.side == Buy {
          if o.kind == Limit {
            LimitBuyerCovered(s, o);
          } else {
            MarketBuyerCovered(s, o);
            SlippageNonNegative(s, o);
          }
        } else {
          AcceptedCash(s, o, u);
          ResultTrades(s, o);
          EffectsBound(Process(s, o).1.trades, u, o.side, 0);
        }
      }
    case CancelId(id) =>
      if id in s.book.index {
        var o := CancelledOrder(s, id);
        NonNegative(o.price, o.qty);
      }
    case _ =>
  }

  function RunSlippage(s: State, steps: seq<Step>, u: int): int
    decreases |steps|
  {
    if steps == [] then 0
    else StepSlippage(s, steps[0], u) + RunSlippage(Apply(s, steps[0]), steps[1..], u)
  }

  /** Cash solvency over a run: a user that starts solvent is short by at most what its own market
      buys paid above the best ask, and not at all if they paid nothing above it. */
  lemma {:induction false} CashSolvency(s: State, steps: seq<Step>, u: int)
    requires Core(s) && ProperRun(s, steps) && u > 0
    ensures Min(FreeCash(s.ledger, u), 0) - RunSlippage(s, steps, u) <= FreeCash(Run(s, steps).ledger, u)
    ensures 0 <= RunSlippage(s, steps, u)
    ensures 0 <= FreeCash(s.ledger, u) && RunSlippage(s, steps, u) == 0 ==>
              var p := Run(s, steps).ledger.Get(u); p.reservedBalance <= p.balance
    decreases |steps|
  {
    if steps != [] {
      StepCash(s, steps[0], u);
      ApplyCore(s, steps[0]);
      CashSolvency(Apply(s, steps[0]), steps[1..], u);
    }
  }

  // ----- when a market buy overdraws

  /** The price of the first n units on the ask queue, not counting a buyer's own orders: what it pays
      for those comes straight back. */
  function SweepCost(q: seq<Order>, n: int, u: int): int {
    if n <= 0 || q == [] then 0
    else (if q[0].user == u then 0 else q[0].price * Min(n, q[0].qty)) + SweepCost(q[1..], n - q[0].qty, u)
  }

  lemma PeelCost(q: seq<Order>, n: int, total: int, u: int)
    requires q != [] && 0 < n <= q[0].qty && n <= total && (n < q[0].qty ==> n == total)
    ensures SweepCost(q, total, u)
         == (if q[0].user == u then 0 else q[0].price * n) + SweepCost(TakeHead(q, n), total - n, u)
  {
  }

  lemma ConsCash(t: Trade, ts: seq<Trade>, u: int, side: Side)
    ensures CashEffects([t] + ts, u, side) == CashEffect(t, u, side) + CashEffects(ts, u, side)
  {
  }

  /** These trades cost the taker what a sweep of the ask queue costs. */
  ghost predicate PaysSweep(s: State, taker: Order, ts: seq<Trade>) {
    CashEffects(ts, taker.user, Buy) == -SweepCost(s.book.asks, Takes(s.book.asks, taker), taker.user)
  }

  lemma SweepStep(s: State, taker: Order, batch: int, ts: seq<Trade>)
    requires BookOk(s.book) && OwnersOk(s) && CanFill(s, taker) && taker.side == Buy
    requires PaysSweep(Fill(s, taker, batch), taker.(qty := taker.qty - FillSize(s, taker)), ts)
    ensures PaysSweep(s, taker, [TradeOf(s, taker)] + ts)
  {
    HeadFacts(s, taker);
    FillTakes(s, taker, batch);
    var n, q := FillSize(s, taker), s.book.asks;
    TakeHeadOk(Sell, q, n);
    ReachableNonNegative(Sell, TakeHead(q, n), taker.(qty := taker.qty - n));
    PeelCost(q, n, Takes(q, taker), taker.user);
    ConsCash(TradeOf(s, taker), ts, taker.user, Buy);
  }

  lemma SweepEnd(s: State, taker: Order)
    requires BookOk(s.book) && !CanFill(s, taker) && taker.side == Buy
    ensures PaysSweep(s, taker, [])
  {
    ReachableNonNegative(Sell, s.book.asks, taker);
    if taker.qty > 0 { NothingReachable(Sell, s.book.asks, taker); }
  }

  lemma MatchSweepCost(s: State, taker: Order, batch: int)
    requires Core(s) && Registered(s, taker) && taker.side == Buy
    ensures PaysSweep(s, taker, Match(s, taker, batch).trades)
    decreases |s.book.Queue(Opposite(taker.side))|, taker.qty > 0
  {
    if CanFill(s, taker) {
      HeadFacts(s, taker);
      FillCore(s, taker, batch);
      var t, left := Fill(s, taker, batch), taker.(qty := taker.qty - FillSize(s, taker));
      MatchSweepCost(t, left, batch);
      SweepStep(s, taker, batch, Match(t, left, batch).trades);
    } else {
      SweepEnd(s, taker);
    }
  }

  /** An accepted market buy leaves its user solvent exactly when the user could pay, before the call,
      for as many of the resting units as the order reaches. The check in the code asks for less. */
  lemma MarketBuySolventIff(s: State, o: Order)
    requires Core(s) && ProperIds(s, Place(o)) && Admits(s, o) && o.side == Buy && o.kind == Market
    ensures var cost := SweepCost(s.book.asks, Min(o.qty, Depth(s.book.asks)), o.user);
            && FreeCash(Process(s, o).0.ledger, o.user) == FreeCash(s.ledger, o.user) - cost
            && (0 <= FreeCash(Process(s, o).0.ledger, o.user) <==> cost <= FreeCash(s.ledger, o.user))
  {
    AcceptedCash(s, o, o.user);
    AllReachable(s.book.asks, o);
    AnnouncedCore(s, o);
    MatchSweepCost(Announced(s, o), o, s.journal.batchSeq);
    var m := Matching(s, o);
    StampCash(m.trades, m.state.journal.tradeSeq, m.state.journal.nextTradeId, o.user, Buy);
  }

  /** One unit at 1 and one at 100000: two units at the best ask look like 2, and cost 100001. */
  function ThinAsks(): State {
    State(Book([], [Order(1, 0, Sell, 1, 1, Limit), Order(2, 0, Sell, START_BALANCE, 1, Limit)],
               map[1 := Locator(Sell, 1, 1), 2 := Locator(Sell, START_BALANCE, 2)]),
          Ledger(map[], map[1 := DEFAULT_POSITION], [1], 2),
          Journal([], 1, 1, [], 1, 1), FIRST_ORDER_ID + 1)
  }

  lemma ThinAsksInv()
    ensures Inv(ThinAsks())
  {
    var s := ThinAsks();
    assert IndexOk(s.book);
    forall u | u > 0 ensures Reserved(s, u) && 0 <= FreeShares(s.ledger, u) {
      assert Total(s.book.asks[1..][1..], SharesOf(u)) == 0;
      assert Total(s.book.asks[1..], SharesOf(u)) == 0;
    }
  }

  /** The cash guarantee is false without the slippage allowance: here is a run that breaks it. */
  lemma MarketBuyOverdraws()
    ensures var s, o := ThinAsks(), Order(FIRST_ORDER_ID, 1, Buy, 0, 2, Market);
            && Inv(s) && Legal(s, Place(o)) && Admits(s, o)
            && 0 <= FreeCash(s.ledger, 1) && FreeCash(Process(s, o).0.ledger, 1) == -1
  {
    var s, o := ThinAsks(), Order(FIRST_ORDER_ID, 1, Buy, 0, 2, Market);
    ThinAsksInv();
    var q := s.book.asks;
    assert Depth(q[1..]) == 1 + Depth(q[1..][1..]) == 1 && Depth(q) == 2;
    assert SweepCost(q[1..], 1, 1) == START_BALANCE + SweepCost(q[1..][1..], 0, 1);
    MarketBuySolventIff(s, o);
  }
}
