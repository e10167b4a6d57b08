/** The two passive strategies of the trading bots (core/src/market_maker/trading_bots.cpp): the sniper
    quotes inside a wide spread, the mean-reversion bot fades moves of the mid price. */
module TradingBots {
  import opened Types
  import opened Queues
  import opened Exchange
  import opened Invariants
  import opened Arithmetic
  import opened Agents
  import opened MarketMakers
  import opened OrderBooks
  import opened Engine

  const MIN_SPREAD := 3
  const SNIPER_QTY := 20
  const REVERSION_QTY := 15
  const ALPHA := 0.08
  const THRESHOLD := 2.5

  predicate TwoSided(b: Book) { b.bids != [] && b.asks != [] }

  function Spread(b: Book): int
    requires TwoSided(b)
  {
    b.asks[0].price - b.bids[0].price
  }

  function InsideBid(b: Book): int
    requires TwoSided(b)
  {
    b.bids[0].price + 1
  }

  function InsideAsk(b: Book): int
    requires TwoSided(b)
  {
    b.asks[0].price - 1
  }

  predicate SniperFires(b: Book) {
    TwoSided(b) && Spread(b) >= MIN_SPREAD && InsideBid(b) < InsideAsk(b)
  }

  function SniperTick(s: State): State {
    if SniperFires(s.book) then SubmitPair(s, InsideBid(s.book), InsideAsk(s.book), SNIPER_QTY) else s
  }

  /** What the mean-reversion loop remembers between iterations. */
  datatype Memory = Memory(ema: real, initialised: bool)

  function RealMid(b: Book): real
    requires TwoSided(b)
  {
    (b.asks[0].price + b.bids[0].price) as real / 2.0
  }

  function Smoothed(b: Book, ema: real): real
    requires TwoSided(b)
  {
    ALPHA * RealMid(b) + (1.0 - ALPHA) * ema
  }

  function SellPrice(b: Book, ema: real): int
    requires TwoSided(b)
  {
    Max(Truncate(ema) + 1, b.bids[0].price + 1)
  }

  function BuyPrice(b: Book, ema: real): int
    requires TwoSided(b)
  {
    Max(Min(Truncate(ema), b.asks[0].price - 1), 1)
  }

  function ReversionTick(s: State, m: Memory): (State, Memory) {
    if !TwoSided(s.book) then (s, m)
    else if !m.initialised then (s, Memory(RealMid(s.book), true))
    else
      var ema := Smoothed(s.book, m.ema);
      var deviation := RealMid(s.book) - ema;
      (if deviation >= THRESHOLD then Submit(s, Sell, SellPrice(s.book, ema), REVERSION_QTY, Limit)
       else if deviation <= -THRESHOLD then Submit(s, Buy, BuyPrice(s.book, ema), REVERSION_QTY, Limit)
       else s,
       Memory(ema, true))
  }

  class TradingBot {
    const book: OrderBook
    const engine: MatchingEngine
    var ema: real
    var initialised: bool

    constructor (book: OrderBook, engine: MatchingEngine)
      ensures this.book == book && this.engine == engine && !initialised && ema == 0.0
    {
      this.book, this.engine := book, engine;
      ema, initialised := 0.0, false;
    }

    method RunSniper()
      requires engine.book == book && engine.Valid()
      modifies engine, book, engine.userManager
      ensures engine.Valid() && engine.View() == SniperTick(old(engine.View()))
    {
      var bb := book.BestBid();
      var ba := book.BestAsk();
      if bb.None? || ba.None? {
        return;
      }
      var spread := ba.value - bb.value;
      if spread < MIN_SPREAD {
        return;
      }
      var insideBid := bb.value + 1;
      var insideAsk := ba.value - 1;
      if insideBid >= insideAsk {
        return;
      }
      assert SniperFires(book.View()) && insideBid == InsideBid(book.View()) && insideAsk == InsideAsk(book.View());
      SubmitBothSides(engine, insideBid, insideAsk, SNIPER_QTY);
    }

    method RunMeanReversion()
      requires engine.book == book && engine.Valid()
      modifies this, engine, book, engine.userManager
      ensures engine.Valid()
      ensures (engine.View(), Memory(ema, initialised))
           == ReversionTick(old(engine.View()), Memory(old(ema), old(initialised)))
    {
      var bb := book.BestBid();
      var ba := book.BestAsk();
      if bb.None? || ba.None? {
        return;
      }
      ghost var b := book.View();
      var mid := (ba.value + bb.value) as real / 2.0;
      if !initialised {
        ema := mid;
        initialised := true;
        return;
      }
      ema := ALPHA * mid + (1.0 - ALPHA) * ema;
      var deviation := mid - ema;
      if deviation >= THRESHOLD {
        var sellPx := Max(Truncate(ema) + 1, bb.value + 1);
        assert sellPx == SellPrice(b, ema);
        var r := SubmitOrder(engine, Sell, sellPx, REVERSION_QTY, Limit);
      } else if deviation <= -THRESHOLD {
        var buyPx := Min(Truncate(ema), ba.value - 1);
        if buyPx < 1 {
          buyPx := 1;
        }
        assert buyPx == BuyPrice(b, ema);
        var r := SubmitOrder(engine, Buy, buyPx, REVERSION_QTY, Limit);
      }
    }
  }

  // ----- passive strategies

  lemma BestPrices(b: Book)
    requires BookOk(b) && TwoSided(b)
    ensures 1 <= b.bids[0].price < b.asks[0].price
  {
    assert b.bids[0] in b.bids && WellPlaced(Buy, b.bids[0]);
  }

  /** What the sniper quotes: 20 units one tick inside both best prices, exactly if they are three ticks
      or more apart. */
  lemma SniperQuotes(s: State)
    requires Core(s)
    ensures var t, bids, asks := SniperTick(s), s.book.bids, s.book.asks;
            if bids != [] && asks != [] && 3 <= asks[0].price - bids[0].price
            then Quoted(s, bids[0].price + 1, asks[0].price - 1, 20, t)
            else t == s
  {
    SniperFiresIff(s.book);
    if SniperFires(s.book) {
      SniperSubmits(s, s.book.bids[0].price + 1, s.book.asks[0].price - 1, 20);
      InsidePair(s, s.book.bids[0].price + 1, s.book.asks[0].price - 1, 20, SniperTick(s));
    }
  }

  lemma SniperFiresIff(b: Book)
    ensures SniperFires(b) <==> b.bids != [] && b.asks != [] && 3 <= b.asks[0].price - b.bids[0].price
    ensures SniperFires(b) ==> InsideBid(b) == b.bids[0].price + 1 && InsideAsk(b) == b.asks[0].price - 1
  {
  }

  lemma SniperSubmits(s: State, bid: int, ask: int, n: int)
    requires SniperFires(s.book) && bid == InsideBid(s.book) && ask == InsideAsk(s.book) && n == SNIPER_QTY
    ensures SniperTick(s) == SubmitPair(s, bid, ask, n)
  {
  }

  lemma InsidePair(s: State, bid: int, ask: int, n: int, t: State)
    requires Core(s) && TwoSided(s.book) && s.book.bids[0].price < bid < ask < s.book.asks[0].price
    requires n > 0 && t == SubmitPair(s, bid, ask, n)
    ensures Quoted(s, bid, ask, n, t)
  {
    BestPrices(s.book);
    PairQuoted(s, bid, ask, n);
  }

  /** A firing sniper step trades nothing and narrows the spread by exactly two ticks. */
  lemma SniperNarrows(s: State)
    requires Core(s)
    ensures var t := SniperTick(s);
            && Keeps(s, t) && t.journal.tape == s.journal.tape
            && (SniperFires(s.book) ==> TwoSided(t.book) && Spread(t.book) == Spread(s.book) - 2)
  {
    if SniperFires(s.book) {
      BestPrices(s.book);
      PairQuiet(s, InsideBid(s.book), InsideAsk(s.book), SNIPER_QTY);
    }
  }

  /** What the mean-reversion bot does in a two-sided book once it has an average: it moves the average by
      0.08 of the way to the mid price. If that leaves the mid price 2.5 ticks or more above the average it
      offers 15 units above the average and the best bid; if 2.5 ticks or more below, it bids for 15 units
      at most at the average and below the best ask, but at least at 1; else it waits. */
  lemma ReversionFades(s: State, m: Memory)
    requires Core(s) && s.book.bids != [] && s.book.asks != [] && m.initialised
    ensures var (t, n) := ReversionTick(s, m);
            var bid, ask := s.book.bids[0].price, s.book.asks[0].price;
            var mid := (bid + ask) as real / 2.0;
            && n.initialised && n.ema == m.ema + 0.08 * (mid - m.ema)
            && (if n.ema + 2.5 <= mid then
                  && t.book.bids == s.book.bids
                  && t.book.asks == Insert(Sell, s.book.asks,
                                           Order(s.nextId, 0, Sell, Max(Truncate(n.ema), bid) + 1, 15, Limit))
                else if mid <= n.ema - 2.5 then
                  && t.book.asks == s.book.asks
                  && t.book.bids == Insert(Buy, s.book.bids,
                                           Order(s.nextId, 0, Buy, Max(Min(Truncate(n.ema), ask - 1), 1), 15, Limit))
                else t == s)
  {
    BestPrices(s.book);
    var ema := Smoothed(s.book, m.ema);
    if RealMid(s.book) - ema >= THRESHOLD {
      SubmitRests(s, Sell, SellPrice(s.book, ema), REVERSION_QTY);
    } else if RealMid(s.book) - ema <= -THRESHOLD {
      SubmitRests(s, Buy, BuyPrice(s.book, ema), REVERSION_QTY);
    }
  }

  /** Before that it only takes the first mid price it sees as its average. */
  lemma ReversionStarts(s: State, m: Memory)
    requires s.book.bids == [] || s.book.asks == [] || !m.initialised
    ensures var (t, n) := ReversionTick(s, m);
            && t == s
            && (if s.book.bids == [] || s.book.asks == [] then n == m
                else n.initialised && 2.0 * n.ema == (s.book.bids[0].price + s.book.asks[0].price) as real)
  {
  }

  /** The mean-reversion bot never trades either, whatever its average has become. */
  lemma ReversionPassive(s: State, m: Memory)
    requires Core(s)
    ensures var t := ReversionTick(s, m).0;
            Keeps(s, t) && t.journal.tape == s.journal.tape
  {
    if TwoSided(s.book) && m.initialised {
      BestPrices(s.book);
      var ema := Smoothed(s.book, m.ema);
      if RealMid(s.book) - ema >= THRESHOLD {
        SubmitKeeps(s, Sell, SellPrice(s.book, ema), REVERSION_QTY, Limit);
        SubmitQuiet(s, Sell, SellPrice(s.book, ema), REVERSION_QTY);
      } else if RealMid(s.book) - ema <= -THRESHOLD {
        SubmitKeeps(s, Buy, BuyPrice(s.book, ema), REVERSION_QTY, Limit);
        SubmitQuiet(s, Buy, BuyPrice(s.book, ema), REVERSION_QTY);
      }
    }
  }

  datatype PassiveStep = MakerStep | SniperStep | ReversionStep

  /** The mean-reversion bot's memory is threaded through its own steps. */
  function RunPassive(s: State, m: Memory, steps: seq<PassiveStep>): (State, Memory)
    decreases |steps|
  {
    if steps == [] then (s, m)
    else
      match steps[0]
      case MakerStep => RunPassive(MakerTick(s), m, steps[1..])
      case SniperStep => RunPassive(SniperTick(s), m, steps[1..])
      case ReversionStep => RunPassive(ReversionTick(s, m).0, ReversionTick(s, m).1, steps[1..])
  }

  /** Any interleaving of market maker, sniper and mean-reversion steps leaves the tape as it was: passive
      strategies never trade, with each other or with what rests, and the book stays uncrossed. */
  lemma {:induction false} PassiveNeverTrades(s: State, m: Memory, steps: seq<PassiveStep>)
    requires Core(s)
    ensures var t := RunPassive(s, m, steps).0;
            Keeps(s, t) && Uncrossed(t.book) && t.journal.tape == s.journal.tape
    decreases |steps|
  {
    if steps != [] {
      match steps[0]
      case MakerStep =>
        MakerTickEffect(s);
        PassiveNeverTrades(MakerTick(s), m, steps[1..]);
      case SniperStep =>
        SniperNarrows(s);
        PassiveNeverTrades(SniperTick(s), m, steps[1..]);
      case ReversionStep =>
        ReversionPassive(s, m);
        PassiveNeverTrades(ReversionTick(s, m).0, ReversionTick(s, m).1, steps[1..]);
    }
  }
}
