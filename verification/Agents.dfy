/** What the built-in agents share: anonymous orders under a fresh id. */
module Agents {
  import opened Types
  import opened Queues
  import opened Exchange
  import opened Invariants
  import opened Greedy
  import opened Execution
  import opened RoundTrip
  import opened Engine

  /** process_order with next_order_id(), for the anonymous user 0. */
  function Submission(s: State, side: Side, price: int, qty: int, kind: OrderType): Order {
    Order(s.nextId, 0, side, price, qty, kind)
  }

  function Submit(s: State, side: Side, price: int, qty: int, kind: OrderType): State {
    Process(Apply(s, Allocate), Submission(s, side, price, qty, kind)).0
  }

  /** A bid and then an ask of the same size. */
  function SubmitPair(s: State, bid: int, ask: int, qty: int): State {
    Submit(Submit(s, Buy, bid, qty, Limit), Sell, ask, qty, Limit)
  }

  method SubmitOrder(engine: MatchingEngine, side: Side, price: int, qty: int, kind: OrderType)
    returns (r: OrderResult)
    requires engine.Valid()
    modifies engine, engine.book, engine.userManager
    ensures engine.Valid() && engine.View() == Submit(old(engine.View()), side, price, qty, kind)
  {
    var id := engine.NextOrderId();
    r := engine.ProcessOrder(Order(id, 0, side, price, qty, kind));
  }

  method SubmitBothSides(engine: MatchingEngine, bidPx: int, askPx: int, qty: int)
    requires engine.Valid()
    modifies engine, engine.book, engine.userManager
    ensures engine.Valid()
    ensures engine.View() == SubmitPair(old(engine.View()), bidPx, askPx, qty)
  {
    var r := SubmitOrder(engine, Buy, bidPx, qty, Limit);
    r := SubmitOrder(engine, Sell, askPx, qty, Limit);
  }

  /** A step by an agent keeps what it finds: a sound book stays sound, and so do the users' accounts. */
  ghost predicate Keeps(s: State, t: State) {
    Core(t) && (Inv(s) ==> Inv(t))
  }

  lemma SubmitKeeps(s: State, side: Side, price: int, qty: int, kind: OrderType)
    requires Core(s)
    ensures Keeps(s, Submit(s, side, price, qty, kind))
    ensures ProperIds(Apply(s, Allocate), Place(Submission(s, side, price, qty, kind)))
  {
    var s0, o := Apply(s, Allocate), Submission(s, side, price, qty, kind);
    ApplyCore(s, Allocate);
    PlaceCore(s0, o);
    if Inv(s) {
      ApplyInv(s, Allocate);
      PlaceInv(s0, o);
    }
  }

  /** A quote that is not positive is refused; nothing but the log changes. */
  lemma SubmitRefused(s: State, side: Side, price: int, qty: int)
    requires Core(s) && price <= 0
    ensures var t := Submit(s, side, price, qty, Limit);
            t.book == s.book && t.journal.tape == s.journal.tape
  {
  }

  /** A quote that crosses nothing rests in full, without a trade. */
  lemma SubmitQuiet(s: State, side: Side, price: int, qty: int)
    requires Core(s) && price > 0 && qty > 0
    requires var q := s.book.Queue(Opposite(side)); q == [] || Before(Opposite(side), price, q[0].price)
    ensures var t := Submit(s, side, price, qty, Limit);
            && t.journal.tape == s.journal.tape
            && t.book.Queue(Opposite(side)) == s.book.Queue(Opposite(side))
            && t.book.Queue(side) != []
            && t.book.Queue(side)[0].price
               == (var q := s.book.Queue(side);
                   if q == [] || Before(side, price, q[0].price) then price else q[0].price)
            && Depth(t.book.Queue(side)) == Depth(s.book.Queue(side)) + qty
  {
    var s0, o := Apply(s, Allocate), Submission(s, side, price, qty, Limit);
    SubmitKeeps(s, side, price, qty, Limit);
    ApplyCore(s, Allocate);
    QuietPlace(s0, o);
    OpenedCore(s0, o);
    TotalInsert(side, s.book.Queue(side), o, Units());
    InsertHead(side, s.book.Queue(side), o);
  }

  /** All that differs on the two sides is this quote, added under the next id. */
  ghost predicate Rests(s: State, side: Side, price: int, qty: int, t: State) {
    && t.nextId == s.nextId + 1
    && t.book.Queue(side) == Insert(side, s.book.Queue(side), Order(s.nextId, 0, side, price, qty, Limit))
    && t.book.Queue(Opposite(side)) == s.book.Queue(Opposite(side))
  }

  lemma SubmitRests(s: State, side: Side, price: int, qty: int)
    requires Core(s) && price > 0 && qty > 0
    requires var q := s.book.Queue(Opposite(side)); q == [] || Before(Opposite(side), price, q[0].price)
    ensures Rests(s, side, price, qty, Submit(s, side, price, qty, Limit))
  {
    var s0, o := Apply(s, Allocate), Submission(s, side, price, qty, Limit);
    SubmitKeeps(s, side, price, qty, Limit);
    ApplyCore(s, Allocate);
    QuietPlace(s0, o);
    OpenedCore(s0, o);
  }

  lemma RestTwice(s: State, bid: int, ask: int, qty: int, s1: State, t: State)
    requires Rests(s, Buy, bid, qty, s1) && Rests(s1, Sell, ask, qty, t)
    ensures Quoted(s, bid, ask, qty, t)
  {
  }

  /** Both sides of t are those of s with these quotes added, under the next two ids. */
  ghost predicate Quoted(s: State, bid: int, ask: int, qty: int, t: State) {
    && t.book.bids == Insert(Buy, s.book.bids, Order(s.nextId, 0, Buy, bid, qty, Limit))
    && t.book.asks == Insert(Sell, s.book.asks, Order(s.nextId + 1, 0, Sell, ask, qty, Limit))
  }

  lemma PairQuoted(s: State, bid: int, ask: int, qty: int)
    requires Core(s) && 0 < bid < ask && qty > 0
    requires s.book.asks != [] ==> bid < s.book.asks[0].price
    requires s.book.bids != [] ==> s.book.bids[0].price < ask
    ensures Quoted(s, bid, ask, qty, SubmitPair(s, bid, ask, qty))
  {
    var s1 := Submit(s, Buy, bid, qty, Limit);
    FirstQuote(s, bid, ask, qty);
    SubmitRests(s, Buy, bid, qty);
    SubmitRests(s1, Sell, ask, qty);
    RestTwice(s, bid, ask, qty, s1, SubmitPair(s, bid, ask, qty));
  }

  /** A pair of quotes inside the spread: both rest, in front of what they improve on. */
  lemma PairQuiet(s: State, bid: int, ask: int, qty: int)
    requires Core(s) && 0 < bid < ask && qty > 0
    requires s.book.asks != [] ==> bid < s.book.asks[0].price
    requires s.book.bids != [] ==> s.book.bids[0].price < ask
    ensures var t := SubmitPair(s, bid, ask, qty);
            && Keeps(s, t) && t.journal.tape == s.journal.tape
            && t.book.bids != [] && t.book.asks != []
            && t.book.bids[0].price == (if s.book.bids == [] then bid else Max(bid, s.book.bids[0].price))
            && t.book.asks[0].price == (if s.book.asks == [] then ask else Min(ask, s.book.asks[0].price))
            && Depth(t.book.bids) == Depth(s.book.bids) + qty
            && Depth(t.book.asks) == Depth(s.book.asks) + qty
  {
    var s1 := Submit(s, Buy, bid, qty, Limit);
    FirstQuote(s, bid, ask, qty);
    SubmitKeeps(s1, Sell, ask, qty, Limit);
    SubmitQuiet(s1, Sell, ask, qty);
  }

  lemma FirstQuote(s: State, bid: int, ask: int, qty: int)
    requires Core(s) && 0 < bid < ask && qty > 0
    requires s.book.asks != [] ==> bid < s.book.asks[0].price
    requires s.book.bids != [] ==> s.book.bids[0].price < ask
    ensures var t := Submit(s, Buy, bid, qty, Limit);
            && Keeps(s, t) && t.journal.tape == s.journal.tape && t.book.asks == s.book.asks
            && t.book.bids != [] && t.book.bids[0].price < ask
            && t.book.bids[0].price == (if s.book.bids == [] then bid else Max(bid, s.book.bids[0].price))
            && Depth(t.book.bids) == Depth(s.book.bids) + qty
  {
    SubmitKeeps(s, Buy, bid, qty, Limit);
    SubmitQuiet(s, Buy, bid, qty);
  }

  /** A market order no larger than the other side fills completely and leaves nothing behind. */
  lemma SubmitMarket(s: State, side: Side, qty: int)
    requires Core(s) && 0 < qty <= Depth(s.book.Queue(Opposite(side)))
    ensures var r := Process(Apply(s, Allocate), Submission(s, side, 0, qty, Market)).1;
            r.status == Filled && r.filledQty == qty && r.remainingQty == 0
    ensures var t := Submit(s, side, 0, qty, Market);
            && Depth(t.book.Queue(Opposite(side))) == Depth(s.book.Queue(Opposite(side))) - qty
            && t.book.Queue(side) == s.book.Queue(side)
  {
    var s0, o := Apply(s, Allocate), Submission(s, side, 0, qty, Market);
    var q := s.book.Queue(Opposite(side));
    SubmitKeeps(s, side, 0, qty, Market);
    ApplyCore(s, Allocate);
    assert Admits(s0, o);
    AcceptedOutcome(s0, o);
    AllReachable(q, o);
    PriceTimePriority(Opposite(side), q, qty);
  }
}
