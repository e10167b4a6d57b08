/** Sending an order in two parts. Matching itself cannot tell (Execution.SplitSlices); the preflight
    check of the second part can, in one case. */
module Splitting {
  import opened Types
  import opened Queues
  import opened Exchange
  import opened Invariants
  import opened Arithmetic
  import opened Greedy
  import opened Execution
  import opened Solvency

  /** The same order, cut in two positive parts. */
  predicate Halves(o: Order, first: Order, second: Order) {
    && first.side == second.side == o.side && first.kind == second.kind == o.kind
    && first.price == second.price == o.price && first.user == second.user == o.user
    && 0 < first.qty && 0 < second.qty && o.qty == first.qty + second.qty
  }

  /** What the first part fills moves the best ask, and the check of a market buy prices every unit at
      the best ask: this part is now too dear for its user. */
  predicate TooDear(s: State, o: Order) {
    && o.kind == Market && o.side == Buy && o.user > 0
    && s.book.asks != [] && FreeCash(s.ledger, o.user) < s.book.asks[0].price * o.qty
  }

  // ----- which parts are admitted

  lemma FirstAdmitted(s: State, o: Order, first: Order, second: Order)
    requires Core(s) && Admits(s, o) && Halves(o, first, second)
    ensures Admits(s, first)
  {
    if o.side == Buy && o.user > 0 {
      BuyerChecked(s, o);
      if s.book.asks != [] { assert WellPlaced(Sell, s.book.asks[0]) by { assert s.book.asks[0] in s.book.asks; } }
      var price := if o.kind.Limit? then o.price else s.book.asks[0].price;
      NonNegative(price, second.qty);
      Distribute(price, first.qty, second.qty);
    }
  }

  /** A limit buyer that could pay for the whole order can still pay for the rest of it. */
  lemma BuyerLeft(s: State, o: Order, first: Order, second: Order)
    requires Core(s) && ProperIds(s, Place(first)) && Admits(s, o) && Halves(o, first, second)
    requires o.side == Buy && o.kind == Limit && o.user > 0
    ensures o.price * second.qty <= FreeCash(Process(s, first).0.ledger, o.user)
  {
    FirstAdmitted(s, o, first, second);
    BuyerChecked(s, o);
    var r := Process(s, first).1;
    BuyerBill(s, first, o.price);
    ResultTrades(s, first);
    TradesWithin(r.trades, first);
    SlippageSign(SlicesOf(r.trades), o.price);
    AcceptedOutcome(s, first);
    var free, after, above := FreeCash(s.ledger, o.user), FreeCash(Process(s, first).0.ledger, o.user),
                              Slippage(SlicesOf(r.trades), o.price);
    assert Locked(first, r.remainingQty, o.user) == o.price * r.remainingQty;
    assert above <= 0;
    Left(free, o.price, first.qty, second.qty, r.filledQty, r.remainingQty, above, after);
  }

  lemma Left(free: int, price: int, a: int, b: int, filled: int, remaining: int, above: int, after: int)
    requires price * (a + b) <= free && a == filled + remaining && above <= 0
    requires free - price * filled - above - price * remaining <= after
    ensures price * b <= after
  {
    Distribute(price, a, b);
    Distribute(price, filled, remaining);
  }

  /** The second part is refused in two cases: a market order that finds the side empty, and a market buy
      that has become too dear. A limit order's second part is always admitted. */
  lemma SecondAdmittedIff(s: State, o: Order, first: Order, second: Order)
    requires Core(s) && ProperIds(s, Place(first)) && Admits(s, o) && Halves(o, first, second)
    ensures var t := Process(s, first).0;
            Admits(t, second) <==> !(o.kind == Market && Opposing(t, o) == []) && !TooDear(t, second)
  {
    FirstAdmitted(s, o, first, second);
    if o.user > 0 {
      if o.side == Sell {
        AcceptedShares(s, first, o.user);
      } else if o.kind == Limit {
        BuyerLeft(s, o, first, second);
      }
    }
    AdmitsAgain(Process(s, first).0, second);
    if o.side == Sell && o.user > 0 { SellerChecked(s, o); }
  }

  lemma SellerChecked(s: State, o: Order)
    requires Admits(s, o) && o.user > 0 && o.side == Sell
    ensures o.qty <= FreeShares(s.ledger, o.user)
  {
  }

  lemma AdmitsAgain(s: State, o: Order)
    requires 0 < o.qty && (o.kind == Limit ==> 0 < o.price)
    ensures Admits(s, o) <==>
              && !(o.kind == Market && Opposing(s, o) == [])
              && !TooDear(s, o)
              && (o.user > 0 && o.side == Sell ==> o.qty <= FreeShares(s.ledger, o.user))
              && (o.user > 0 && o.side == Buy && o.kind == Limit ==> o.price * o.qty <= FreeCash(s.ledger, o.user))
  {
  }

  // ----- one order or two

  /** What a call takes off the other side is the reference, whether the call was admitted or not. */
  ghost predicate TakesReference(s: State, o: Order, t: State, r: OrderResult) {
    var f := Takes(Opposing(s, o), o);
    && r.filledQty == f && SlicesOf(r.trades) == Slices(Opposing(s, o), f)
    && Opposing(t, o) == Remainder(Opposing(s, o), f)
  }

  lemma SecondTakes(s: State, o: Order)
    requires Core(s) && ProperIds(s, Place(o)) && 0 < o.qty
    requires Admits(s, o) || (o.kind == Market && Opposing(s, o) == [])
    ensures TakesReference(s, o, Process(s, o).0, Process(s, o).1)
  {
    if Admits(s, o) {
      AcceptedOutcome(s, o);
    } else {
      RefusedUnchanged(s, o);
    }
  }

  /** Both parts together: the same opposite side, the same trades once neighbouring trades with one maker
      are added up, the same quantity. */
  ghost predicate Agrees(o: Order, t2: State, r1: OrderResult, r2: OrderResult, t: State, r: OrderResult) {
    && Opposing(t2, o) == Opposing(t, o)
    && Merge(SlicesOf(r1.trades) + SlicesOf(r2.trades)) == SlicesOf(r.trades)
    && r1.filledQty + r2.filledQty == r.filledQty
  }

  lemma ReferencesAgree(s: State, o: Order, first: Order, second: Order,
                        t1: State, r1: OrderResult, t2: State, r2: OrderResult, t: State, r: OrderResult)
    requires BookOk(s.book) && Halves(o, first, second)
    requires TakesReference(s, first, t1, r1) && TakesReference(t1, second, t2, r2) && TakesReference(s, o, t, r)
    ensures Agrees(o, t2, r1, r2, t, r)
  {
    SplitQueue(Opposite(o.side), Opposing(s, o), o, first, second);
  }

  /** A second part that was refused as too dear leaves units that the whole order takes. */
  lemma TooDearDisagrees(s: State, o: Order, first: Order, second: Order, t1: State, r1: OrderResult, r: OrderResult)
    requires BookOk(s.book) && BookOk(t1.book) && Halves(o, first, second) && TooDear(t1, second)
    requires TakesReference(s, first, t1, r1) && r.filledQty == Takes(Opposing(s, o), o)
    ensures r1.filledQty < r.filledQty
  {
    SplitQueue(Sell, Opposing(s, o), o, first, second);
    var q := t1.book.asks;
    AllReachable(q, second);
    assert q[0] in q && WellPlaced(Sell, q[0]);
    assert forall x <- q[1..] :: x in q;
    DepthNonNegative(Sell, q[1..]);
  }

  /** Splitting an order the engine admits whole makes no difference, except in one case: a market buy by
      a user whose second part has become too dear. For every other order, limit or market, whichever
      parts are cancelled for want of a counterparty, one order or two is the same. */
  lemma SplittingInvariance(s: State, o: Order, first: Order, second: Order)
    requires Core(s) && ProperIds(s, Place(o)) && ProperIds(s, Place(first))
    requires ProperIds(Process(s, first).0, Place(second))
    requires Admits(s, o) && Halves(o, first, second)
    ensures var (t1, r1) := Process(s, first);
            var (t2, r2) := Process(t1, second);
            var (t, r) := Process(s, o);
            Agrees(o, t2, r1, r2, t, r) <==> !TooDear(t1, second)
  {
    var (t1, r1) := Process(s, first);
    var (t2, r2) := Process(t1, second);
    var (t, r) := Process(s, o);
    FirstAdmitted(s, o, first, second);
    PlaceCore(s, first);
    SecondTakes(s, o);
    SecondTakes(s, first);
    SecondAdmittedIff(s, o, first, second);
    if TooDear(t1, second) {
      RefusedUnchanged(t1, second);
      TooDearDisagrees(s, o, first, second, t1, r1, r);
    } else {
      SecondTakes(t1, second);
      ReferencesAgree(s, o, first, second, t1, r1, t2, r2, t, r);
    }
  }

  // ----- the exception, concretely

  /** Two units for sale, one at 1 and one at 100000, and a user with 100000 in cash. */
  function TwoUnits(): State { ThinAsks().(nextId := FIRST_ORDER_ID + 2) }

  function OneUnit(id: int): Order { Order(id, 1, Buy, 0, 1, Market) }

  lemma TwoUnitsReady()
    ensures var s, first := TwoUnits(), OneUnit(FIRST_ORDER_ID);
            && Inv(s) && Legal(s, Place(first)) && Admits(s, first) && Admits(s, first.(qty := 2))
  {
    ThinAsksInv();
    SameAccounts(ThinAsks(), TwoUnits());
  }

  /** One unit bought off the front of two. */
  lemma FrontUnitBought(s: State, o: Order)
    requires Core(s) && ProperIds(s, Place(o)) && Admits(s, o) && o.side == Buy && o.kind == Market && o.qty == 1
    requires var q := s.book.asks; |q| == 2 && q[0].qty == 1 && q[1].qty == 1 && q[0].user != o.user
    ensures var t := Process(s, o).0;
            && t.book.asks == s.book.asks[1..]
            && FreeCash(t.ledger, o.user) == FreeCash(s.ledger, o.user) - s.book.asks[0].price
  {
    TwoUnitsDepth(s.book.asks, o.user);
    MarketBuySolventIff(s, o);
    AcceptedOutcome(s, o);
    AllReachable(s.book.asks, o);
  }

  lemma TwoUnitsDepth(q: seq<Order>, user: int)
    requires |q| == 2 && q[0].qty == 1 && q[1].qty == 1 && q[0].user != user
    ensures Depth(q) == 2 && Remainder(q, 1) == q[1..] && SweepCost(q, 1, user) == q[0].price
  {
    assert Depth(q[1..]) == 1 + Depth(q[1..][1..]);
    assert SweepCost(q[1..], 0, user) == 0;
  }

  lemma NextAllowed(s: State, o: Order, next: Order)
    requires next.id == o.id + 1 < s.nextId && FIRST_ORDER_ID <= next.id
    requires next.id !in s.ledger.owner && next.user < s.ledger.nextUser
    ensures Legal(Process(s, o).0, Place(next))
  {
    MatchFrame(Announced(s, o), o, s.journal.batchSeq);
  }

  /** Both units are admitted at once; bought one by one, the second is refused as too dear. */
  lemma SecondUnitTooDear()
    ensures var s, first, second := TwoUnits(), OneUnit(FIRST_ORDER_ID), OneUnit(FIRST_ORDER_ID + 1);
            && Inv(s) && Legal(s, Place(first)) && Admits(s, first.(qty := 2))
            && Legal(Process(s, first).0, Place(second)) && TooDear(Process(s, first).0, second)
  {
    var s, first, second := TwoUnits(), OneUnit(FIRST_ORDER_ID), OneUnit(FIRST_ORDER_ID + 1);
    TwoUnitsReady();
    FrontUnitBought(s, first);
    NextAllowed(s, first, second);
  }
}
