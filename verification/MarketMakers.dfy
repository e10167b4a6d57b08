/** The market maker's two loops (core/src/market_maker/market_maker.cpp). Each loop body runs under the
    book mutex and is one atomic tick. */
module MarketMakers {
  import opened Types
  import opened Queues
  import opened Exchange
  import opened Invariants
  import opened Arithmetic
  import opened Agents
  import opened OrderBooks
  import opened Engine

  const ANCHOR_PX := 100
  const SPREAD := 2
  const MAKER_QTY := 50
  const TAKER_QTY := 20
  const TARGET_DEPTH := 2000
  const MIN_DEPTH := 1000

  function BidDepth(s: State): int { Depth(s.book.bids) }

  function AskDepth(s: State): int { Depth(s.book.asks) }

  function Mid(b: Book): int {
    if b.bids != [] && b.asks != [] then Half(b.bids[0].price + b.asks[0].price)
    else if b.bids != [] then b.bids[0].price
    else if b.asks != [] then b.asks[0].price
    else ANCHOR_PX
  }

  function BidQuote(b: Book): int { Mid(b) - SPREAD / 2 }

  function AskQuote(b: Book): int {
    if Mid(b) + SPREAD / 2 <= BidQuote(b) then BidQuote(b) + 1 else Mid(b) + SPREAD / 2
  }

  function TopUp(s: State): int { Min(MAKER_QTY, TARGET_DEPTH - Min(BidDepth(s), AskDepth(s))) }

  function MakerTick(s: State): State {
    var n := TopUp(s);
    if n > 0 then SubmitPair(s, BidQuote(s.book), AskQuote(s.book), n) else s
  }

  predicate TakerFires(s: State) { BidDepth(s) >= MIN_DEPTH && AskDepth(s) >= MIN_DEPTH }

  function TakerSide(s: State): Side { if BidDepth(s) >= AskDepth(s) then Sell else Buy }

  function TakerTick(s: State): State {
    if TakerFires(s) then Submit(s, TakerSide(s), 0, TAKER_QTY, Market) else s
  }

  class MarketMaker {
    const book: OrderBook
    const engine: MatchingEngine

    constructor (book: OrderBook, engine: MatchingEngine)
      ensures this.book == book && this.engine == engine
    {
      this.book, this.engine := book, engine;
    }

    method RunMaker()
      requires engine.book == book && engine.Valid()
      modifies engine, book, engine.userManager
      ensures engine.Valid() && engine.View() == MakerTick(old(engine.View()))
    {
      var bb := book.BestBid();
      var ba := book.BestAsk();
      var mid := ANCHOR_PX;
      if bb.Some? && ba.Some? {
        mid := Half(bb.value + ba.value);
      } else if bb.Some? {
        mid := bb.value;
      } else if ba.Some? {
        mid := ba.value;
      }
      var bidPx := mid - SPREAD / 2;
      var askPx := mid + SPREAD / 2;
      if askPx <= bidPx {
        askPx := bidPx + 1;
      }
      var bidDepth := book.BidDepth();
      var askDepth := book.AskDepth();
      var minDepth := Min(bidDepth, askDepth);
      var toAdd := Min(MAKER_QTY, TARGET_DEPTH - minDepth);
      assert bidPx == BidQuote(book.View()) && askPx == AskQuote(book.View()) && toAdd == TopUp(engine.View());
      if toAdd > 0 {
        SubmitBothSides(engine, bidPx, askPx, toAdd);
      }
    }

    method RunTaker()
      requires engine.book == book && engine.Valid()
      modifies engine, book, engine.userManager
      ensures engine.Valid() && engine.View() == TakerTick(old(engine.View()))
    {
      var bidDepth := book.BidDepth();
      var askDepth := book.AskDepth();
      if bidDepth >= MIN_DEPTH && askDepth >= MIN_DEPTH {
        var sellIntoBids := bidDepth >= askDepth;
        var r := SubmitOrder(engine, if sellIntoBids then Sell else Buy, 0, TAKER_QTY, Market);
      }
    }
  }

  // ----- the quotes never cross

  lemma QuotesInside(b: Book)
    requires BookOk(b)
    ensures 1 <= Mid(b) && BidQuote(b) == Mid(b) - 1 && AskQuote(b) == Mid(b) + 1
    ensures b.asks != [] ==> BidQuote(b) < b.asks[0].price
    ensures b.bids != [] ==> b.bids[0].price < AskQuote(b)
  {
    if b.bids != [] { assert b.bids[0] in b.bids && WellPlaced(Buy, b.bids[0]); }
    if b.asks != [] { assert b.asks[0] in b.asks && WellPlaced(Sell, b.asks[0]); }
  }

  /** Exactly what a maker tick does: the ask always rests, the bid unless its price is zero; no trade. */
  lemma MakerTickEffect(s: State)
    requires Core(s)
    ensures var t, n := MakerTick(s), Max(TopUp(s), 0);
            && Keeps(s, t) && t.journal.tape == s.journal.tape
            && AskDepth(t) == AskDepth(s) + n
            && BidDepth(t) == BidDepth(s) + (if 1 < Mid(s.book) then n else 0)
  {
    var n := TopUp(s);
    if n > 0 {
      QuotesInside(s.book);
      var bid, ask := BidQuote(s.book), AskQuote(s.book);
      if bid > 0 {
        PairQuiet(s, bid, ask, n);
      } else {
        var s1 := Submit(s, Buy, bid, n, Limit);
        SubmitKeeps(s, Buy, bid, n, Limit);
        SubmitRefused(s, Buy, bid, n);
        SubmitKeeps(s1, Sell, ask, n, Limit);
        SubmitQuiet(s1, Sell, ask, n);
      }
    }
  }

  /** The price in the middle, rounded down; the only best price there is; or the anchor. */
  predicate IsMid(b: Book, mid: int) {
    && (b.bids != [] && b.asks != [] ==> 2 * mid <= b.bids[0].price + b.asks[0].price <= 2 * mid + 1)
    && (b.bids != [] && b.asks == [] ==> mid == b.bids[0].price)
    && (b.bids == [] && b.asks != [] ==> mid == b.asks[0].price)
    && (b.bids == [] && b.asks == [] ==> mid == 100)
  }

  lemma MidIsMid(b: Book, mid: int)
    requires BookOk(b)
    ensures IsMid(b, mid) <==> mid == Mid(b)
  {
    if b.bids != [] { assert b.bids[0] in b.bids && WellPlaced(Buy, b.bids[0]); }
    if b.asks != [] { assert b.asks[0] in b.asks && WellPlaced(Sell, b.asks[0]); }
  }

  /** What the maker quotes: if the thinner side is below 2000 units, what it lacks, at most 50 units, one
      tick either side of the mid price, the bid only if its price is positive. */
  lemma MakerTickQuotes(s: State, mid: int)
    requires Core(s) && IsMid(s.book, mid)
    ensures var t, lacks := MakerTick(s), 2000 - Min(BidDepth(s), AskDepth(s));
            if lacks <= 0 then t == s
            else if 1 < mid then Quoted(s, mid - 1, mid + 1, Min(50, lacks), t)
            else AskQuoted(s, mid + 1, Min(50, lacks), t)
  {
    var lacks := 2000 - Min(BidDepth(s), AskDepth(s));
    MakerSubmits(s, mid, lacks);
    if 0 < lacks { QuotesAt(s, mid, Min(50, lacks), MakerTick(s)); }
  }

  lemma MakerSubmits(s: State, mid: int, lacks: int)
    requires Core(s) && IsMid(s.book, mid) && lacks == 2000 - Min(BidDepth(s), AskDepth(s))
    ensures MakerTick(s) == if lacks <= 0 then s else SubmitPair(s, mid - 1, mid + 1, Min(50, lacks))
  {
    MakerNumbers(s, mid, lacks);
  }

  lemma MakerNumbers(s: State, mid: int, lacks: int)
    requires BookOk(s.book) && IsMid(s.book, mid) && lacks == 2000 - Min(BidDepth(s), AskDepth(s))
    ensures TopUp(s) == Min(50, lacks) && BidQuote(s.book) == mid - 1 && AskQuote(s.book) == mid + 1
  {
    MidIsMid(s.book, mid);
    QuotesInside(s.book);
  }

  lemma QuotesAt(s: State, mid: int, n: int, t: State)
    requires Core(s) && IsMid(s.book, mid) && 0 < n && t == SubmitPair(s, mid - 1, mid + 1, n)
    ensures if 1 < mid then Quoted(s, mid - 1, mid + 1, n, t) else AskQuoted(s, mid + 1, n, t)
  {
    MidIsMid(s.book, mid);
    QuotesInside(s.book);
    if 1 < mid {
      PairQuoted(s, mid - 1, mid + 1, n);
    } else {
      AskAlone(s, mid - 1, mid + 1, n);
    }
  }

  /** A refused bid still uses an order id. */
  ghost predicate AskQuoted(s: State, ask: int, qty: int, t: State) {
    && t.book.bids == s.book.bids
    && t.book.asks == Insert(Sell, s.book.asks, Order(s.nextId + 1, 0, Sell, ask, qty, Limit))
  }

  lemma AskAlone(s: State, bid: int, ask: int, qty: int)
    requires Core(s) && bid <= 0 < ask && qty > 0
    requires s.book.bids != [] ==> s.book.bids[0].price < ask
    ensures AskQuoted(s, ask, qty, SubmitPair(s, bid, ask, qty))
  {
    var s1 := Submit(s, Buy, bid, qty, Limit);
    SubmitRefused(s, Buy, bid, qty);
    SubmitKeeps(s, Buy, bid, qty, Limit);
    SubmitRests(s1, Sell, ask, qty);
    assert s1.nextId == s.nextId + 1;
  }

  /** The taker acts exactly if both sides are 1000 units deep. Then its 20 units fill completely, off the
      deeper side, the bids if they are equal. */
  lemma TakerTickEffect(s: State)
    requires Core(s)
    ensures var t := TakerTick(s);
            && Keeps(s, t)
            && (if BidDepth(s) < 1000 || AskDepth(s) < 1000 then t == s
                else if BidDepth(s) >= AskDepth(s)
                then BidDepth(t) == BidDepth(s) - 20 && t.book.asks == s.book.asks
                else AskDepth(t) == AskDepth(s) - 20 && t.book.bids == s.book.bids)
    ensures 1000 <= BidDepth(s) && 1000 <= AskDepth(s) ==>
              var side := if BidDepth(s) >= AskDepth(s) then Sell else Buy;
              Process(Apply(s, Allocate), Submission(s, side, 0, 20, Market)).1.status == Filled
  {
    if TakerFires(s) {
      SubmitKeeps(s, TakerSide(s), 0, TAKER_QTY, Market);
      SubmitMarket(s, TakerSide(s), TAKER_QTY);
    }
  }

  // ----- depth control

  datatype Tick = MakerRuns | TakerRuns

  function ApplyTick(s: State, tick: Tick): State {
    if tick == MakerRuns then MakerTick(s) else TakerTick(s)
  }

  function RunTicks(s: State, ticks: seq<Tick>): State
    decreases |ticks|
  {
    if ticks == [] then s else RunTicks(ApplyTick(s, ticks[0]), ticks[1..])
  }

  function Gap(s: State): int {
    if BidDepth(s) >= AskDepth(s) then BidDepth(s) - AskDepth(s) else AskDepth(s) - BidDepth(s)
  }

  /** The thinner side: over any interleaving of maker and taker ticks, whatever the quotes, it does not
      sink below its start or 980. */
  lemma {:induction false} DepthFloor(s: State, ticks: seq<Tick>)
    requires Core(s)
    ensures var t := RunTicks(s, ticks);
            && Keeps(s, t)
            && Min(BidDepth(t), AskDepth(t)) >= Min(Min(BidDepth(s), AskDepth(s)), MIN_DEPTH - TAKER_QTY)
    decreases |ticks|
  {
    if ticks != [] {
      MakerTickEffect(s);
      TakerTickEffect(s);
      DepthFloor(ApplyTick(s, ticks[0]), ticks[1..]);
    }
  }

  /** Before a maker tick: it adds nothing, or it adds to both sides, or the asks alone may take it. */
  predicate RoomFor(s: State, bound: int) {
    TopUp(s) <= 0 || 1 < Mid(s.book) || AskDepth(s) + TopUp(s) - BidDepth(s) <= bound
  }

  /** Every maker tick of the run starts with room. */
  predicate Guarded(s: State, ticks: seq<Tick>, bound: int)
    decreases |ticks|
  {
    ticks == [] ||
    ((ticks[0] == MakerRuns ==> RoomFor(s, bound)) && Guarded(ApplyTick(s, ticks[0]), ticks[1..], bound))
  }

  /** The gap is within the bound in every state of the run. */
  predicate StaysWithin(s: State, ticks: seq<Tick>, bound: int)
    decreases |ticks|
  {
    Gap(s) <= bound && (ticks == [] || StaysWithin(ApplyTick(s, ticks[0]), ticks[1..], bound))
  }

  /** Depth control: over an interleaving of maker and taker ticks the gap between the two depths stays
      within its start and one taker order, or any wider bound, exactly if the maker has room at each of
      its ticks. */
  lemma {:induction false} DepthControl(s: State, ticks: seq<Tick>, bound: int)
    requires Core(s) && Max(Gap(s), TAKER_QTY) <= bound
    ensures StaysWithin(s, ticks, bound) <==> Guarded(s, ticks, bound)
    decreases |ticks|
  {
    if ticks != [] {
      var t := ApplyTick(s, ticks[0]);
      MakerTickEffect(s);
      TakerTickEffect(s);
      if Gap(t) <= bound {
        DepthControl(t, ticks[1..], bound);
      }
    }
  }

  /** A maker tick keeps the bid depth less the ask depth, with its sign, exactly if it adds nothing or its
      mid price is above 1. It keeps the gap within its start and one taker order exactly if one of these
      holds or the asks alone have room for the top-up. */
  lemma MakerKeepsGapIff(s: State)
    requires Core(s)
    ensures (BidDepth(MakerTick(s)) - AskDepth(MakerTick(s)) == BidDepth(s) - AskDepth(s))
       <==> (TopUp(s) <= 0 || 1 < Mid(s.book))
    ensures Gap(MakerTick(s)) <= Max(Gap(s), TAKER_QTY) <==> RoomFor(s, Max(Gap(s), TAKER_QTY))
  {
    MakerTickEffect(s);
  }

  /** The bound can fail: a bid at 1 and an ask at 2 make the bid quote 0, which is refused, while 50 units
      of asks go in. */
  lemma PennyBookDrifts()
    ensures var s := PennyBook();
            && Inv(s) && Gap(s) == 0 && Gap(MakerTick(s)) == MAKER_QTY > Max(Gap(s), TAKER_QTY)
  {
    var s := PennyBook();
    PennyBookInv();
    assert Depth(s.book.bids[1..]) == 0 && Depth(s.book.asks[1..]) == 0;
    MakerTickEffect(s);
  }

  function PennyBook(): State {
    State(Book([Order(1, 0, Buy, 1, 10, Limit)], [Order(2, 0, Sell, 2, 10, Limit)],
               map[1 := Locator(Buy, 1, 1), 2 := Locator(Sell, 2, 2)]),
          Ledger(map[], map[], [], 1), Journal([], 1, 1, [], 1, 1), FIRST_ORDER_ID)
  }

  lemma PennyBookInv()
    ensures Inv(PennyBook())
  {
    var s := PennyBook();
    assert IndexOk(s.book);
    assert Initial(s);
    InitialInv(s);
  }
}
