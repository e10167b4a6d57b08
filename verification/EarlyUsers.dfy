/** Orders under user ids that were never handed out. The engine does not check user ids, and connecting
    overwrites the position of the id it hands out (core/src/user/user_manager.cpp:11-17), so what an
    early user built up under that id is lost. What the book, the logs and the cash do does not depend on
    user ids; this module says exactly when accounts lose something without the user clause of Legal. */
module EarlyUsers {
  import opened Types
  import opened Queues
  import opened Exchange
  import opened Invariants
  import opened Execution
  import opened LedgerReplay
  import opened RoundTrip
  import opened Arithmetic

  // ----- what survives without the user clause

  /** In every state of a run with proper order ids, the ids that have not been handed out yet have exact
      reservations and positions that are the fold of the tape: no connect has touched them. */
  ghost predicate Untouched(s: State) {
    && Core(s) && TapeOk(s) && 0 < s.ledger.nextUser
    && forall u | s.ledger.nextUser <= u :: Reserved(s, u) && BookedFor(s, u)
  }

  lemma InitialUntouched(s: State)
    requires Initial(s)
    ensures Untouched(s)
  {
    InitialInv(s);
    InitialBooked(s);
  }

  lemma PlaceUntouched(s: State, o: Order)
    requires Untouched(s) && ProperIds(s, Place(o))
    ensures Untouched(Process(s, o).0)
  {
    var t := Process(s, o).0;
    PlaceCore(s, o);
    PlaceTapeOk(s, o);
    forall u | s.ledger.nextUser <= u ensures Reserved(t, u) && BookedFor(t, u) {
      assert Reserved(s, u) && BookedFor(s, u);
      PlaceAccount(s, o, u);
      PlaceBookedFor(s, o, u);
    }
  }

  lemma CancelUntouched(s: State, id: int)
    requires Untouched(s) && ProperIds(s, CancelId(id))
    ensures Untouched(Cancel(s, id).0)
  {
    CancelCore(s, id);
    if id in s.book.index {
      var t := Cancel(s, id).0;
      forall u | s.ledger.nextUser <= u ensures Reserved(t, u) && BookedFor(t, u) {
        assert Reserved(s, u) && BookedFor(s, u);
        CancelReserved(s, id, u);
        CancelBookedFor(s, id, u);
      }
    }
  }

  lemma UsersUntouched(s: State, l: Ledger)
    requires Untouched(s) && l.owner == s.ledger.owner && s.ledger.nextUser <= l.nextUser
    requires forall u | l.nextUser <= u :: l.Get(u) == s.ledger.Get(u)
    ensures Untouched(s.(ledger := l))
  {
    var t := s.(ledger := l);
    forall u | l.nextUser <= u ensures Reserved(t, u) && BookedFor(t, u) {
      assert Reserved(s, u) && BookedFor(s, u);
    }
  }

  lemma ApplyUntouched(s: State, step: Step)
    requires Untouched(s) && ProperIds(s, step)
    ensures Untouched(Apply(s, step))
  {
    match step
    case Place(o) => PlaceUntouched(s, o);
    case CancelId(id) => CancelUntouched(s, id);
    case Connect => UsersUntouched(s, NewUser(s.ledger));
    case Reconnect(uid) => UsersUntouched(s, ReconnectUser(s.ledger, uid));
    case Allocate =>
      forall u | s.ledger.nextUser <= u ensures Reserved(Apply(s, step), u) && BookedFor(Apply(s, step), u) {
        assert Reserved(s, u) && BookedFor(s, u);
      }
  }

  lemma {:induction false} RunUntouched(s: State, steps: seq<Step>)
    requires Untouched(s) && ProperRun(s, steps)
    ensures Untouched(Run(s, steps))
    decreases |steps|
  {
    if steps != [] {
      ApplyUntouched(s, steps[0]);
      RunUntouched(Apply(s, steps[0]), steps[1..]);
    }
  }

  // ----- when a connect loses something

  ghost predicate Names(t: Trade, u: int) { t.makerUser == u || t.takerUser == u }

  /** A user id that no trade names and no resting order belongs to. */
  ghost predicate Unused(s: State, u: int) {
    && (forall t <- s.journal.tape :: !Names(t, u))
    && (forall side: Side, o | o in s.book.Queue(side) :: o.user != u)
  }

  function Turnover(p: Position): int { p.totalBuyQty + p.totalSellQty }

  /** A position moves exactly if a trade names its user. */
  lemma {:induction false} FoldMoves(p: Position, ts: seq<Trade>, sides: map<int, Side>, u: int)
    requires forall t <- ts :: t.qty > 0
    ensures Turnover(p) <= Turnover(Fold(p, ts, sides, u))
    ensures (exists t <- ts :: Names(t, u)) ==> Turnover(p) < Turnover(Fold(p, ts, sides, u))
    ensures (forall t <- ts :: !Names(t, u)) ==> Fold(p, ts, sides, u) == p
    decreases |ts|
  {
    if ts != [] {
      assert ts[0] in ts;
      assert ts == [ts[0]] + ts[1..];
      FoldMoves(Book1(p, ts[0], u, SideFrom(sides, ts[0].takerId)), ts[1..], sides, u);
    }
  }

  /** A user's resting orders lock something. */
  lemma LockedIff(side: Side, q: seq<Order>, u: int)
    requires forall o <- q :: WellPlaced(side, o)
    ensures 0 <= Total(q, CashOf(u)) && 0 <= Total(q, SharesOf(u))
    ensures Total(q, CashOf(u)) == 0 <==> forall o <- q :: o.user != u
    ensures Total(q, SharesOf(u)) == 0 <==> forall o <- q :: o.user != u
  {
    if q != [] {
      assert q == [q[0]] + q[1..];
      assert WellPlaced(side, q[0]);
      LockedIff(side, q[1..], u);
      Positive(q[0].price, q[0].qty);
    }
  }

  lemma DefaultIffUnused(s: State, u: int)
    requires BookOk(s.book) && TapeOk(s) && Reserved(s, u) && BookedFor(s, u)
    ensures s.ledger.Get(u) == DEFAULT_POSITION <==> Unused(s, u)
  {
    FoldMoves(DEFAULT_POSITION, s.journal.tape, SidesOf(s.journal.events), u);
    LockedIff(Buy, s.book.bids, u);
    LockedIff(Sell, s.book.asks, u);
    assert s.book.Queue(Buy) == s.book.bids && s.book.Queue(Sell) == s.book.asks;
    var p := s.ledger.Get(u);
    assert p == DEFAULT_POSITION <==>
             Unreserved(p) == DEFAULT_POSITION && p.reservedBalance == 0 && p.reservedShares == 0;
  }

  /** In any state a run with proper order ids reaches, whatever user ids its orders named, connecting
      keeps every position exactly if the id it hands out is unused: no trade names it and no resting
      order is its own. */
  lemma ConnectKeepsPositionsIff(s: State, steps: seq<Step>)
    requires Initial(s) && ProperRun(s, steps)
    ensures var t := Run(s, steps);
            (forall u :: Apply(t, Connect).ledger.Get(u) == t.ledger.Get(u)) <==> Unused(t, t.ledger.nextUser)
  {
    InitialUntouched(s);
    RunUntouched(s, steps);
    ConnectKeeps(Run(s, steps));
  }

  lemma ConnectKeeps(s: State)
    requires Untouched(s)
    ensures (forall u :: Apply(s, Connect).ledger.Get(u) == s.ledger.Get(u)) <==> Unused(s, s.ledger.nextUser)
  {
    var n := s.ledger.nextUser;
    assert Reserved(s, n) && BookedFor(s, n);
    DefaultIffUnused(s, n);
    assert Apply(s, Connect).ledger.Get(n) == DEFAULT_POSITION;
  }

  // ----- runs that lose nothing

  /** Every reservation and every position is what the book and the two journals say it is. */
  ghost predicate Exact(s: State) {
    Core(s) && 0 < s.ledger.nextUser && ReservedOk(s) && SharesOk(s) && Booked(s)
  }

  ghost predicate ExactThroughout(s: State, steps: seq<Step>)
    decreases |steps|
  {
    Exact(s) && (steps == [] || ExactThroughout(Apply(s, steps[0]), steps[1..]))
  }

  predicate HandsOutId(step: Step) { step.Connect? || (step.Reconnect? && step.uid <= 0) }

  /** Every id the run hands out is unused at that moment. */
  ghost predicate OnlyUnusedIds(s: State, steps: seq<Step>)
    decreases |steps|
  {
    steps == [] ||
    ((HandsOutId(steps[0]) ==> Unused(s, s.ledger.nextUser)) && OnlyUnusedIds(Apply(s, steps[0]), steps[1..]))
  }

  lemma PlaceExact(s: State, o: Order)
    requires Exact(s) && ProperIds(s, Place(o))
    ensures Exact(Process(s, o).0)
  {
    var t := Process(s, o).0;
    PlaceCore(s, o);
    PlaceBooked(s, o);
    PlaceTapeOk(s, o);
    forall u | u > 0 ensures Reserved(t, u) && 0 <= FreeShares(t.ledger, u) {
      assert Reserved(s, u) && 0 <= FreeShares(s.ledger, u);
      PlaceAccount(s, o, u);
    }
  }

  lemma CancelExact(s: State, id: int)
    requires Exact(s) && ProperIds(s, CancelId(id))
    ensures Exact(Cancel(s, id).0)
  {
    CancelCore(s, id);
    CancelBooked(s, id);
    if id in s.book.index { CancelAllAccounts(s, id); }
  }

  /** New user ids and positions leave everything exact if no position reads differently for it. */
  lemma UsersExact(s: State, l: Ledger)
    requires Exact(s) && l.owner == s.ledger.owner && 0 < l.nextUser
    requires forall u :: l.Get(u) == s.ledger.Get(u)
    ensures Exact(s.(ledger := l))
  {
    var t := s.(ledger := l);
    SameAccounts(s, t);
    forall u ensures BookedFor(t, u) { assert BookedFor(s, u); }
  }

  lemma NewUserExactIff(s: State)
    requires Exact(s)
    ensures Exact(s.(ledger := NewUser(s.ledger))) <==> Unused(s, s.ledger.nextUser)
  {
    var n, l := s.ledger.nextUser, NewUser(s.ledger);
    var t := s.(ledger := l);
    assert Reserved(s, n) && BookedFor(s, n);
    DefaultIffUnused(s, n);
    if Unused(s, n) {
      UsersExact(s, l);
    }
    if Exact(t) {
      assert Reserved(t, n) && BookedFor(t, n);
      DefaultIffUnused(t, n);
      assert t.book == s.book && t.journal == s.journal;
    }
  }

  lemma ApplyExactIff(s: State, step: Step)
    requires Exact(s) && ProperIds(s, step)
    ensures Exact(Apply(s, step)) <==> (HandsOutId(step) ==> Unused(s, s.ledger.nextUser))
  {
    match step
    case Place(o) => PlaceExact(s, o);
    case CancelId(id) => CancelExact(s, id);
    case Connect => NewUserExactIff(s);
    case Reconnect(uid) => if uid <= 0 { NewUserExactIff(s); } else { UsersExact(s, ReconnectUser(s.ledger, uid)); }
    case Allocate =>
      SameAccounts(s, Apply(s, Allocate));
      forall u ensures BookedFor(Apply(s, Allocate), u) { assert BookedFor(s, u); }
  }

  lemma {:induction false} RunExactIff(s: State, steps: seq<Step>)
    requires Exact(s) && ProperRun(s, steps)
    ensures ExactThroughout(s, steps) <==> OnlyUnusedIds(s, steps)
    ensures OnlyUnusedIds(s, steps) ==> Exact(Run(s, steps))
    decreases |steps|
  {
    if steps != [] {
      ApplyExactIff(s, steps[0]);
      if Exact(Apply(s, steps[0])) {
        RunExactIff(Apply(s, steps[0]), steps[1..]);
      }
    }
  }

  /** Over a run with proper order ids, whatever user ids its orders named: in every state every user's
      reservations are what its resting orders lock, no share is offered twice, and every position is the
      fold of the tape, exactly if every id the run hands out is unused at that moment. */
  lemma AccountsExactIff(s: State, steps: seq<Step>)
    requires Initial(s) && ProperRun(s, steps)
    ensures ExactThroughout(s, steps) <==> OnlyUnusedIds(s, steps)
    ensures OnlyUnusedIds(s, steps) ==> Exact(Run(s, steps))
  {
    InitialInv(s);
    InitialBooked(s);
    RunExactIff(s, steps);
  }

  lemma NextUserUnused(s: State)
    requires Inv(s) && Booked(s)
    ensures Unused(s, s.ledger.nextUser)
  {
    var n := s.ledger.nextUser;
    assert n !in s.ledger.positions;
    assert Reserved(s, n) && BookedFor(s, n);
    DefaultIffUnused(s, n);
  }

  /** Runs whose orders only name users already handed out are of that kind. */
  lemma {:induction false} LegalRunsAreExact(s: State, steps: seq<Step>)
    requires Inv(s) && Booked(s) && LegalRun(s, steps)
    ensures ProperRun(s, steps) && OnlyUnusedIds(s, steps) && ExactThroughout(s, steps)
    decreases |steps|
  {
    if steps != [] {
      NextUserUnused(s);
      ApplyInv(s, steps[0]);
      ApplyBooked(s, steps[0]);
      LegalRunsAreExact(Apply(s, steps[0]), steps[1..]);
    }
  }

  // ----- concrete losses

  /** The engine itself does not check user ids. A share bought under id 1 before id 1 has connected is
      gone after the connect. */
  lemma EarlyTraderForgotten()
    ensures var s, o := OneAsk(), Order(FIRST_ORDER_ID, 1, Buy, 10, 1, Limit);
            var t := Process(s, o).0;
            && !Legal(s, Place(o)) && t.ledger.Get(1).shares == START_SHARES + 1
            && Apply(t, Connect).ledger.Get(1).shares == START_SHARES
  {
    var s, o := OneAsk(), Order(FIRST_ORDER_ID, 1, Buy, 10, 1, Limit);
    var a := Announced(s, o);
    assert Admits(s, o) && CanFill(a, o);
    var left := o.(qty := 0);
    var f := Fill(a, o, 1);
    assert !CanFill(f, left);
    assert Match(f, left, 1) == Matched(f, left, []);
    assert Matching(s, o).state == f && Matching(s, o).taker == left;
    OnFillBooks(a.ledger, TradeOf(a, o), Buy, 1);
  }

  lemma FirstBid(b: Book, o: Order)
    requires b.bids == [] && o.side == Buy && o.qty > 0 && o.id !in b.index
    ensures RestingCash(AddResting(b, o), o.user) == o.price * o.qty
  {
    TotalInsert(Buy, b.bids, o, CashOf(o.user));
  }

  /** Nor does it take a trade: a bid that only rests under id 1 loses its reservation. */
  lemma EarlyBidUnreserved()
    ensures var s, o := OneAsk(), Order(FIRST_ORDER_ID, 1, Buy, 5, 1, Limit);
            var t := Process(s, o).0;
            && t.journal.tape == [] && t.ledger.Get(1).reservedBalance == 5 == RestingCash(t.book, 1)
            && Apply(t, Connect).ledger.Get(1).reservedBalance == 0
  {
    var s, o := OneAsk(), Order(FIRST_ORDER_ID, 1, Buy, 5, 1, Limit);
    assert Admits(s, o) && !CanFill(s, o);
    QuietPlace(s, o);
    var t := Process(s, o).0;
    assert t.ledger.Get(1) == Reserve(DEFAULT_POSITION, Buy, 5, 1);
    FirstBid(s.book, o);
  }
}
