/** An order that does not trade leaves no trace once it is cancelled. */
module RoundTrip {
  import opened Types
  import opened Queues
  import opened Levels
  import opened Exchange
  import opened Invariants
  import opened Greedy
  import opened Execution
  import opened Arithmetic

  lemma QuietPlace(s: State, o: Order)
    requires Admits(s, o) && o.kind == Limit && !CanFill(s, o)
    ensures var t, r := Process(s, o).0, Process(s, o).1;
            && r.trades == [] && r.filledQty == 0 && r.remainingQty == o.qty && r.status == New
            && t.book == AddResting(s.book, o)
            && t.ledger == OnResting(Opened(s, o).ledger, o.id, o.side, o.price, o.qty)
            && t.journal.tape == s.journal.tape && t.nextId == s.nextId
  {
  }

  /** Placing a limit order that crosses nothing and cancelling it restores both sides, the index and
      every position as get_position reads it. */
  lemma PlaceCancel(s: State, o: Order)
    requires Core(s) && ProperIds(s, Place(o)) && Admits(s, o) && o.kind == Limit && !CanFill(s, o)
    ensures var (t, ok) := Cancel(Process(s, o).0, o.id);
            && ok && t.book == s.book
            && (forall u :: t.ledger.Get(u) == s.ledger.Get(u))
            && t.journal.tape == s.journal.tape
            && t.ledger.users == s.ledger.users && t.ledger.nextUser == s.ledger.nextUser
  {
    QuietPlace(s, o);
    OpenedCore(s, o);
    NotResting(s.book, o.id);
    var q := s.book.Queue(o.side);
    RemoveInserted(o.side, q, o);
    var b := AddResting(s.book, o);
    assert b.Queue(o.side) == Insert(o.side, q, o);
    assert b.index - {o.id} == s.book.index;
    assert CancelBook(b, o.id) == s.book;
    var l := OnResting(Opened(s, o).ledger, o.id, o.side, o.price, o.qty);
    ReserveRelease(Opened(s, o).ledger, o);
    assert forall u :: Opened(s, o).ledger.Get(u) == s.ledger.Get(u);
  }

  lemma ReserveRelease(l: Ledger, o: Order)
    requires o.id in l.owner
    ensures var l' := OnCancel(OnResting(l, o.id, o.side, o.price, o.qty), o.id, o.side, o.price, o.qty);
            forall u :: l'.Get(u) == l.Get(u)
  {
  }

  /** The price levels themselves are back as well, a level the order created included: a flat book has
      only one tidy arrangement into levels. */
  lemma LevelsRestored(side: Side, before: seq<Level>, during: seq<Level>, o: Order)
    requires Tidy(side, before) && o.id !in Ids(Flatten(before))
    requires during == PushBack(side, before, o)
    ensures Erase(during, o.price, o.id) == before
  {
    PushBackTidy(side, before, o);
    PushBackRefines(side, before, o);
    var q := Flatten(during);
    InsertMembers(side, Flatten(before), o);
    assert forall x <- Flatten(before) :: x.id in Ids(Flatten(before));
    assert o in q;
    EraseTidy(side, during, o.price, o.id);
    EraseRefines(side, during, o.price, o.id);
    RemoveInserted(side, Flatten(before), o);
    FlattenInjective(side, Erase(during, o.price, o.id), before);
  }

  // ----- reused ids

  lemma RestReservedIff(s: State, taker: Order)
    requires taker.id in s.ledger.owner && s.ledger.owner[taker.id] == taker.user && Reserved(s, taker.user)
    requires 0 <= taker.qty && (taker.kind == Limit ==> 0 < taker.price)
    ensures Reserved(Rest(s, taker), taker.user)
       <==> taker.id !in s.book.index || taker.kind == Market || taker.qty == 0
  {
    if taker.kind == Limit && taker.qty > 0 {
      var u, q := taker.user, s.book.Queue(taker.side);
      TotalInsert(taker.side, q, taker, CashOf(u));
      TotalInsert(taker.side, q, taker, SharesOf(u));
      Positive(taker.price, taker.qty);
    }
  }

  /** Ids must be fresh: process_order reserves funds for a resting remainder without asking whether the
      book took it (core/src/engine/matching_engine.cpp:153-156), and the book drops an id it has indexed.
      After an admitted order its user's reservations are exact precisely if the id was not indexed or
      nothing was left to rest. The id may rest already, but not for another user. */
  lemma ReservationExactIffFresh(s: State, o: Order)
    requires Core(s) && Reserved(s, o.user) && Admits(s, o)
    requires Resting(s.book, o.id) ==> s.ledger.OwnerOf(o.id) == o.user
    ensures Reserved(Process(s, o).0, o.user)
       <==> o.id !in s.book.index || o.kind == Market || Takes(Opposing(s, o), o) == o.qty
  {
    var a, batch, m := Announced(s, o), s.journal.batchSeq, Matching(s, o);
    assert OwnersOk(a) by {
      forall side: Side, x | x in a.book.Queue(side) ensures a.ledger.OwnerOf(x.id) == x.user {
        assert x in s.book.Queue(side) && x.id in Ids(s.book.Queue(side));
      }
    }
    assert Reserved(a, o.user);
    MatchReserved(a, o, batch, o.user);
    MatchIsGreedy(a, o, batch);
    MatchFrame(a, o, batch);
    ReachableNonNegative(Opposite(o.side), Opposing(s, o), o);
    RestReservedIff(m.state, m.taker);
    AcceptedParts(s, o);
  }

  /** One ask at 10, and id 2, whose order was bought before and is still indexed. */
  function StaleId(): State {
    State(Book([], [Order(1, 0, Sell, 10, 1, Limit)], map[1 := Locator(Sell, 10, 1), 2 := Locator(Sell, 10, 2)]),
          Ledger(map[], map[1 := DEFAULT_POSITION], [1], 2), Journal([], 1, 1, [], 1, 1), FIRST_ORDER_ID)
  }

  lemma StaleIdInv()
    ensures Inv(StaleId())
  {
    var s := StaleId();
    forall u | u > 0 ensures Reserved(s, u) && 0 <= FreeShares(s.ledger, u) {
      NoneOwned(s.book.asks, u);
    }
  }

  /** Three units bid at 10 under the reused id: one is bought, two are reserved for and rest nowhere. */
  lemma ReusedIdLeavesReservation()
    ensures var s, o := StaleId(), Order(2, 1, Buy, 10, 3, Limit);
            && Inv(s) && Admits(s, o) && Takes(s.book.asks, o) == 1 && !Reserved(Process(s, o).0, 1)
  {
    var s, o := StaleId(), Order(2, 1, Buy, 10, 3, Limit);
    StaleIdInv();
    assert Reserved(s, 1);
    assert Total(s.book.asks, Reachable(o)) == 1 + Total(s.book.asks[1..], Reachable(o));
    ReservationExactIffFresh(s, o);
  }
}
