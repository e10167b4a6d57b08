/** The two journals together reconstruct every account: folding the trade tape, with each taker's side
    read from the NEW events of the order log, gives every user's position apart from what is reserved. */
module LedgerReplay {
  import opened Types
  import opened Exchange
  import opened Invariants
  import opened Execution
  import opened Conservation

  /** Which side each logged order was on. */
  function SidesOf(events: seq<OrderEvent>): map<int, Side> {
    if events == [] then map[]
    else
      var n := |events| - 1;
      if events[n].status == New then SidesOf(events[..n])[events[n].orderId := events[n].side]
      else SidesOf(events[..n])
  }

  function SideFrom(sides: map<int, Side>, id: int): Side { if id in sides then sides[id] else Buy }

  /** One trade, from one user's point of view; on a self-trade it is both parties. */
  function Book1(p: Position, t: Trade, u: int, takerSide: Side): Position {
    var value := t.price * t.qty;
    var q := if t.takerUser != u then p
             else if takerSide == Buy then Bought(p, value, t.qty)
             else Sold(p, value, t.qty);
    if t.makerUser != u then q
    else if takerSide == Buy then Sold(q, value, t.qty)
    else Bought(q, value, t.qty)
  }

  function Fold(p: Position, ts: seq<Trade>, sides: map<int, Side>, u: int): Position
    decreases |ts|
  {
    if ts == [] then p else Fold(Book1(p, ts[0], u, SideFrom(sides, ts[0].takerId)), ts[1..], sides, u)
  }

  function Unreserved(p: Position): Position { p.(reservedBalance := 0, reservedShares := 0) }

  lemma FoldConcat(p: Position, a: seq<Trade>, b: seq<Trade>, sides: map<int, Side>, u: int)
    ensures Fold(p, a + b, sides, u) == Fold(Fold(p, a, sides, u), b, sides, u)
    decreases |a|
  {
    if a == [] {
      assert a + b == b;
    } else {
      assert (a + b)[1..] == a[1..] + b;
      FoldConcat(Book1(p, a[0], u, SideFrom(sides, a[0].takerId)), a[1..], b, sides, u);
    }
  }

  lemma FoldSameSides(p: Position, ts: seq<Trade>, sides: map<int, Side>, others: map<int, Side>, u: int)
    requires forall t <- ts :: SideFrom(sides, t.takerId) == SideFrom(others, t.takerId)
    ensures Fold(p, ts, sides, u) == Fold(p, ts, others, u)
    decreases |ts|
  {
    if ts != [] {
      assert ts[0] in ts;
      FoldSameSides(Book1(p, ts[0], u, SideFrom(sides, ts[0].takerId)), ts[1..], sides, others, u);
    }
  }

  lemma FoldStamp(p: Position, ts: seq<Trade>, firstSeq: int, firstId: int, sides: map<int, Side>, u: int)
    ensures Fold(p, Stamp(ts, firstSeq, firstId), sides, u) == Fold(p, ts, sides, u)
    decreases |ts|
  {
    if ts != [] {
      assert Stamp(ts, firstSeq, firstId)[1..] == Stamp(ts[1..], firstSeq + 1, firstId + 1);
      FoldStamp(Book1(p, ts[0], u, SideFrom(sides, ts[0].takerId)), ts[1..], firstSeq + 1, firstId + 1, sides, u);
    }
  }

  // ----- matching books its trades as the fold does

  /** Taker first, maker second, as the ledger does it; the maker's reservation is not looked at. */
  lemma OnFillBooks(l: Ledger, t: Trade, takerSide: Side, u: int)
    requires l.OwnerOf(t.makerId) == t.makerUser && l.OwnerOf(t.takerId) == t.takerUser
    ensures Unreserved(OnFill(l, t.makerId, t.takerId, t.price, t.qty, takerSide).Get(u))
         == Book1(Unreserved(l.Get(u)), t, u, takerSide)
  {
    var value := t.price * t.qty;
    var taken := if takerSide == Buy then Bought(l.Get(t.takerUser), value, t.qty)
                 else Sold(l.Get(t.takerUser), value, t.qty);
    var l1 := l.Set(t.takerUser, taken);
    assert Unreserved(l1.Get(u)) == if t.takerUser != u then Unreserved(l.Get(u))
                                    else if takerSide == Buy then Bought(Unreserved(l.Get(u)), value, t.qty)
                                    else Sold(Unreserved(l.Get(u)), value, t.qty);
  }

  lemma FillBooks(s: State, taker: Order, batch: int, u: int)
    requires CanFill(s, taker) && s.ledger.OwnerOf(taker.id) == taker.user
    ensures Unreserved(Fill(s, taker, batch).ledger.Get(u))
         == Book1(Unreserved(s.ledger.Get(u)), TradeOf(s, taker), u, taker.side)
  {
    OnFillBooks(s.ledger, TradeOf(s, taker), taker.side, u);
  }

  lemma MatchBooks(s: State, taker: Order, batch: int, sides: map<int, Side>, u: int)
    requires s.ledger.OwnerOf(taker.id) == taker.user && SideFrom(sides, taker.id) == taker.side
    ensures var m := Match(s, taker, batch);
            Unreserved(m.state.ledger.Get(u)) == Fold(Unreserved(s.ledger.Get(u)), m.trades, sides, u)
    decreases |Opposing(s, taker)|, taker.qty > 0
  {
    if CanFill(s, taker) {
      FillBooks(s, taker, batch, u);
      var t, left := Fill(s, taker, batch), taker.(qty := taker.qty - FillSize(s, taker));
      MatchBooks(t, left, batch, sides, u);
      assert ([TradeOf(s, taker)] + Match(t, left, batch).trades)[1..] == Match(t, left, batch).trades;
    }
  }

  lemma EmitSides(j: Journal, e: OrderEvent)
    requires e.status != New
    ensures SidesOf(j.events + [e]) == SidesOf(j.events)
  {
  }

  lemma MatchSides(s: State, taker: Order, batch: int)
    ensures SidesOf(Match(s, taker, batch).state.journal.events) == SidesOf(s.journal.events)
    decreases |Opposing(s, taker)|, taker.qty > 0
  {
    if CanFill(s, taker) {
      var t := Fill(s, taker, batch);
      EmitSides(s.journal, t.journal.events[|s.journal.events|]);
      MatchSides(t, taker.(qty := taker.qty - FillSize(s, taker)), batch);
    }
  }

  /** The invariant: takers on the tape are registered, and every position is the fold of the tape. */
  ghost predicate Booked(s: State) {
    TapeOk(s) && forall u :: BookedFor(s, u)
  }

  ghost predicate TapeOk(s: State) {
    forall t <- s.journal.tape :: t.takerId in s.ledger.owner && t.qty > 0
  }

  ghost predicate BookedFor(s: State, u: int) {
    Unreserved(s.ledger.Get(u)) == Fold(DEFAULT_POSITION, s.journal.tape, SidesOf(s.journal.events), u)
  }

  lemma AcceptSides(s: State, o: Order)
    requires Admits(s, o)
    ensures SidesOf(Process(s, o).0.journal.events) == SidesOf(s.journal.events)[o.id := o.side]
  {
    var a, m := Announced(s, o), Matching(s, o);
    assert a.journal.events[..|s.journal.events|] == s.journal.events;
    MatchSides(a, o, s.journal.batchSeq);
    var t := Process(s, o).0;
    if t.journal.events != m.state.journal.events {
      EmitSides(m.state.journal, t.journal.events[|m.state.journal.events|]);
    }
  }

  lemma RefuseSides(s: State, o: Order)
    requires !Admits(s, o)
    ensures SidesOf(Process(s, o).0.journal.events) == SidesOf(s.journal.events)
  {
    EmitSides(s.journal, Process(s, o).0.journal.events[|s.journal.events|]);
  }

  lemma AcceptBooks(s: State, o: Order, u: int)
    requires ProperIds(s, Place(o)) && Admits(s, o) && TapeOk(s) && BookedFor(s, u)
    ensures BookedFor(Process(s, o).0, u)
  {
    var a, batch, m := Announced(s, o), s.journal.batchSeq, Matching(s, o);
    var (t, r) := Process(s, o);
    var sides := SidesOf(s.journal.events)[o.id := o.side];
    assert a.ledger.Get(u) == s.ledger.Get(u);
    MatchBooks(a, o, batch, sides, u);
    FoldStamp(Unreserved(s.ledger.Get(u)), m.trades, m.state.journal.tradeSeq, m.state.journal.nextTradeId, sides, u);
    FoldSameSides(DEFAULT_POSITION, s.journal.tape, SidesOf(s.journal.events), sides, u);
    FoldConcat(DEFAULT_POSITION, s.journal.tape, r.trades, sides, u);
    PlaceTape(s, o);
    AcceptSides(s, o);
    RestUnreserved(m.state, m.taker, u);
    assert t.ledger == Rest(m.state, m.taker).ledger;
  }

  lemma RestUnreserved(s: State, taker: Order, u: int)
    ensures Unreserved(Rest(s, taker).ledger.Get(u)) == Unreserved(s.ledger.Get(u))
  {
  }

  lemma PlaceTapeOk(s: State, o: Order)
    requires Core(s) && ProperIds(s, Place(o)) && TapeOk(s)
    ensures TapeOk(Process(s, o).0)
    ensures Process(s, o).0.ledger.nextUser == s.ledger.nextUser
  {
    PlaceTape(s, o);
    PlaceOwners(s, o);
    if Admits(s, o) { ResultTrades(s, o); }
  }

  lemma PlaceOwners(s: State, o: Order)
    ensures var l := Process(s, o).0.ledger;
            l.owner == s.ledger.owner[o.id := o.user] && l.nextUser == s.ledger.nextUser
  {
    MatchFrame(Announced(s, o), o, s.journal.batchSeq);
  }

  lemma PlaceBookedFor(s: State, o: Order, u: int)
    requires ProperIds(s, Place(o)) && TapeOk(s) && BookedFor(s, u)
    ensures BookedFor(Process(s, o).0, u)
  {
    if Admits(s, o) {
      AcceptBooks(s, o, u);
    } else {
      RefuseSides(s, o);
      RefusedUnchanged(s, o);
    }
  }

  lemma CancelBookedFor(s: State, id: int, u: int)
    requires BookedFor(s, u)
    ensures BookedFor(Cancel(s, id).0, u)
  {
    if id in s.book.index {
      EmitSides(s.journal, Cancel(s, id).0.journal.events[|s.journal.events|]);
    }
  }

  lemma PlaceBooked(s: State, o: Order)
    requires Core(s) && ProperIds(s, Place(o)) && Booked(s)
    ensures Booked(Process(s, o).0)
  {
    PlaceTapeOk(s, o);
    forall u ensures BookedFor(Process(s, o).0, u) {
      assert BookedFor(s, u);
      PlaceBookedFor(s, o, u);
    }
  }

  lemma CancelBooked(s: State, id: int)
    requires Booked(s)
    ensures Booked(Cancel(s, id).0)
  {
    forall u ensures BookedFor(Cancel(s, id).0, u) {
      assert BookedFor(s, u);
      CancelBookedFor(s, id, u);
    }
  }

  lemma ApplyBooked(s: State, step: Step)
    requires Inv(s) && Legal(s, step) && Booked(s)
    ensures Booked(Apply(s, step))
  {
    match step
    case Place(o) => PlaceBooked(s, o);
    case CancelId(id) => CancelBooked(s, id);
    case _ =>
      forall u ensures BookedFor(Apply(s, step), u) { assert BookedFor(s, u); }
  }

  lemma {:induction false} RunBooked(s: State, steps: seq<Step>)
    requires Inv(s) && LegalRun(s, steps) && Booked(s)
    ensures Booked(Run(s, steps))
    decreases |steps|
  {
    if steps != [] {
      ApplyInv(s, steps[0]);
      ApplyBooked(s, steps[0]);
      RunBooked(Apply(s, steps[0]), steps[1..]);
    }
  }

  // ----- what the fold says

  /** The running totals explain the holdings. */
  ghost predicate Explained(p: Position) {
    && p.netQty == p.totalBuyQty - p.totalSellQty
    && p.shares - START_SHARES == p.netQty
    && p.balance - START_BALANCE == p.totalSellValue - p.totalBuyValue
  }

  lemma FoldExplained(p: Position, ts: seq<Trade>, sides: map<int, Side>, u: int)
    requires Explained(p)
    ensures Explained(Fold(p, ts, sides, u))
    decreases |ts|
  {
    if ts != [] { FoldExplained(Book1(p, ts[0], u, SideFrom(sides, ts[0].takerId)), ts[1..], sides, u); }
  }

  lemma InitialBooked(s: State)
    requires Initial(s)
    ensures Booked(s)
  {
  }

  lemma BookedExplained(s: State, u: int)
    requires BookedFor(s, u)
    ensures Explained(s.ledger.Get(u))
  {
    FoldExplained(DEFAULT_POSITION, s.journal.tape, SidesOf(s.journal.events), u);
    assert Explained(Unreserved(s.ledger.Get(u)));
  }

  /** Units traded on one side of the tape by a user, or their value: a taker on that side counts, and so
      does the maker a taker on the other side meets. */
  function Volume(ts: seq<Trade>, sides: map<int, Side>, u: int, side: Side, inCash: bool): int {
    if ts == [] then 0
    else
      var t, takerSide := ts[0], SideFrom(sides, ts[0].takerId);
      var amount := if inCash then t.price * t.qty else t.qty;
      (if t.takerUser == u && takerSide == side then amount else 0)
        + (if t.makerUser == u && takerSide != side then amount else 0)
        + Volume(ts[1..], sides, u, side, inCash)
  }

  lemma {:induction false} FoldTotals(p: Position, ts: seq<Trade>, sides: map<int, Side>, u: int)
    ensures var q := Fold(p, ts, sides, u);
            && q.totalBuyQty == p.totalBuyQty + Volume(ts, sides, u, Buy, false)
            && q.totalSellQty == p.totalSellQty + Volume(ts, sides, u, Sell, false)
            && q.totalBuyValue == p.totalBuyValue + Volume(ts, sides, u, Buy, true)
            && q.totalSellValue == p.totalSellValue + Volume(ts, sides, u, Sell, true)
    decreases |ts|
  {
    if ts != [] {
      FoldTotals(Book1(p, ts[0], u, SideFrom(sides, ts[0].takerId)), ts[1..], sides, u);
    }
  }

  /** The published totals are sums over the tape. */
  ghost predicate Totalled(s: State, u: int) {
    var p, ts, sides := s.ledger.Get(u), s.journal.tape, SidesOf(s.journal.events);
    && p.totalBuyQty == Volume(ts, sides, u, Buy, false) && p.totalBuyValue == Volume(ts, sides, u, Buy, true)
    && p.totalSellQty == Volume(ts, sides, u, Sell, false) && p.totalSellValue == Volume(ts, sides, u, Sell, true)
  }

  lemma BookedTotalled(s: State, u: int)
    requires BookedFor(s, u)
    ensures Totalled(s, u)
  {
    FoldTotals(DEFAULT_POSITION, s.journal.tape, SidesOf(s.journal.events), u);
    assert s.ledger.Get(u).totalBuyQty == Unreserved(s.ledger.Get(u)).totalBuyQty;
  }

  /** After any run, every user's position apart from reservations is the fold of the trade tape: its
      totals are the user's buys and sells on the tape, and they explain its holdings. */
  lemma PositionsReconstructed(s: State, steps: seq<Step>, u: int)
    requires Initial(s) && LegalRun(s, steps)
    ensures BookedFor(Run(s, steps), u) && Totalled(Run(s, steps), u) && Explained(Run(s, steps).ledger.Get(u))
  {
    InitialInv(s);
    InitialBooked(s);
    RunBooked(s, steps);
    BookedTotalled(Run(s, steps), u);
    BookedExplained(Run(s, steps), u);
  }

  // ----- conservation over users

  datatype Asset = Cash | Shares

  function Holding(p: Position, a: Asset): int { if a == Cash then p.balance else p.shares }

  function Endowment(a: Asset): int { if a == Cash then START_BALANCE else START_SHARES }

  /** What the seller of a trade gains of an asset, and its buyer loses. */
  function Proceeds(t: Trade, a: Asset): int { if a == Cash then t.price * t.qty else -t.qty }

  function Flow(t: Trade, side: Side, a: Asset, u: int): int {
    var v := if side == Buy then Proceeds(t, a) else -Proceeds(t, a);
    (if t.makerUser == u then v else 0) - (if t.takerUser == u then v else 0)
  }

  function Flows(ts: seq<Trade>, sides: map<int, Side>, a: Asset, u: int): int {
    if ts == [] then 0 else Flow(ts[0], SideFrom(sides, ts[0].takerId), a, u) + Flows(ts[1..], sides, a, u)
  }

  lemma FoldFlows(p: Position, ts: seq<Trade>, sides: map<int, Side>, a: Asset, u: int)
    ensures Holding(Fold(p, ts, sides, u), a) == Holding(p, a) + Flows(ts, sides, a, u)
    decreases |ts|
  {
    if ts != [] {
      FoldFlows(Book1(p, ts[0], u, SideFrom(sides, ts[0].takerId)), ts[1..], sides, a, u);
    }
  }

  function SumHoldings(l: Ledger, a: Asset, us: seq<int>): int {
    if us == [] then 0 else Holding(l.Get(us[0]), a) + SumHoldings(l, a, us[1..])
  }

  function SumFlow(t: Trade, side: Side, a: Asset, us: seq<int>): int {
    if us == [] then 0 else Flow(t, side, a, us[0]) + SumFlow(t, side, a, us[1..])
  }

  function SumFlows(ts: seq<Trade>, sides: map<int, Side>, a: Asset, us: seq<int>): int {
    if us == [] then 0 else Flows(ts, sides, a, us[0]) + SumFlows(ts, sides, a, us[1..])
  }

  /** v once if x is on the list. */
  function Once(us: seq<int>, x: int, v: int): int {
    if us == [] then 0 else (if us[0] == x then v else 0) + Once(us[1..], x, v)
  }

  lemma OnceDistinct(us: seq<int>, x: int, v: int)
    requires NoDuplicates(us)
    ensures Once(us, x, v) == if x in us then v else 0
  {
    if us != [] {
      assert us == [us[0]] + us[1..];
      OnceDistinct(us[1..], x, v);
    }
  }

  lemma SumFlowOnce(t: Trade, side: Side, a: Asset, us: seq<int>)
    ensures var v := if side == Buy then Proceeds(t, a) else -Proceeds(t, a);
            SumFlow(t, side, a, us) == Once(us, t.makerUser, v) - Once(us, t.takerUser, v)
  {
    if us != [] { SumFlowOnce(t, side, a, us[1..]); }
  }

  lemma SumFlowsSplit(ts: seq<Trade>, sides: map<int, Side>, a: Asset, us: seq<int>)
    requires ts != []
    ensures SumFlows(ts, sides, a, us)
         == SumFlow(ts[0], SideFrom(sides, ts[0].takerId), a, us) + SumFlows(ts[1..], sides, a, us)
  {
    if us != [] { SumFlowsSplit(ts, sides, a, us[1..]); }
  }

  lemma NoFlows(sides: map<int, Side>, a: Asset, us: seq<int>)
    ensures SumFlows([], sides, a, us) == 0
  {
    if us != [] { NoFlows(sides, a, us[1..]); }
  }

  ghost predicate Covers(us: seq<int>, ts: seq<Trade>) {
    forall t <- ts :: t.makerUser in us && t.takerUser in us
  }

  /** Summed over all parties, trades move nothing in or out. */
  lemma {:induction false} FlowsCancel(ts: seq<Trade>, sides: map<int, Side>, a: Asset, us: seq<int>)
    requires NoDuplicates(us) && Covers(us, ts)
    ensures SumFlows(ts, sides, a, us) == 0
  {
    if ts == [] {
      NoFlows(sides, a, us);
    } else {
      var t, side := ts[0], SideFrom(sides, ts[0].takerId);
      assert t in ts;
      var v := if side == Buy then Proceeds(t, a) else -Proceeds(t, a);
      SumFlowOnce(t, side, a, us);
      OnceDistinct(us, t.makerUser, v);
      OnceDistinct(us, t.takerUser, v);
      SumFlowsSplit(ts, sides, a, us);
      FlowsCancel(ts[1..], sides, a, us);
    }
  }

  lemma SumOfFolds(s: State, a: Asset, us: seq<int>)
    requires forall u :: BookedFor(s, u)
    ensures SumHoldings(s.ledger, a, us)
         == Endowment(a) * |us| + SumFlows(s.journal.tape, SidesOf(s.journal.events), a, us)
  {
    if us != [] {
      var u := us[0];
      assert BookedFor(s, u);
      FoldFlows(DEFAULT_POSITION, s.journal.tape, SidesOf(s.journal.events), a, u);
      assert Holding(s.ledger.Get(u), a) == Holding(Unreserved(s.ledger.Get(u)), a);
      SumOfFolds(s, a, us[1..]);
    }
  }

  /** Cash and shares are conserved over any run, self-trades included: over any list of distinct users
      that contains the parties of all trades, the holdings still add up to what everyone started with. */
  lemma WealthConserved(s: State, steps: seq<Step>, a: Asset, us: seq<int>)
    requires Initial(s) && LegalRun(s, steps)
    requires NoDuplicates(us) && Covers(us, Run(s, steps).journal.tape)
    ensures SumHoldings(Run(s, steps).ledger, a, us) == Endowment(a) * |us|
  {
    var t := Run(s, steps);
    forall u ensures BookedFor(t, u) { PositionsReconstructed(s, steps, u); }
    SumOfFolds(t, a, us);
    FlowsCancel(t.journal.tape, SidesOf(t.journal.events), a, us);
  }
}
