/** What every reachable state of the exchange satisfies: an uncrossed, well-ordered book, an exact
    index, reservations that equal what rests in the book, and no share sold twice. */
module Invariants {
  import opened Types
  import opened Queues
  import opened Exchange
  import opened Arithmetic

  ghost predicate Uncrossed(b: Book) {
    b.bids != [] && b.asks != [] ==> b.bids[0].price < b.asks[0].price
  }

  ghost predicate BookOk(b: Book) {
    && QueueOk(Buy, b.bids) && QueueOk(Sell, b.asks)
    && Ids(b.bids) !! Ids(b.asks)
    && Uncrossed(b)
  }

  /** Every resting order is indexed under its true side, price and node. */
  ghost predicate IndexOk(b: Book) {
    forall side: Side, o | o in b.Queue(side) ::
      o.id in b.index && b.index[o.id] == Locator(side, o.price, o.id)
  }

  /** Ids in use were allocated, or belong to the seeded orders. */
  ghost predicate IdsOk(s: State) {
    && FIRST_ORDER_ID <= s.nextId
    && (forall id <- s.ledger.owner :: FIRST_ORDER_ID <= id < s.nextId)
    && (forall id <- s.book.index :: id in s.ledger.owner || id < FIRST_ORDER_ID)
  }

  ghost predicate OwnersOk(s: State) {
    forall side: Side, o | o in s.book.Queue(side) :: s.ledger.OwnerOf(o.id) == o.user
  }

  /** No order or position has a user id that has not been handed out yet. */
  ghost predicate UsersOk(l: Ledger) {
    && 0 < l.nextUser
    && (forall id <- l.owner :: l.owner[id] < l.nextUser)
    && (forall u <- l.positions :: u < l.nextUser)
    && (forall u <- l.users :: u < l.nextUser)
    && NoDuplicates(l.users)
  }

  function RestingCash(b: Book, u: int): int { Total(b.bids, CashOf(u)) }

  function RestingShares(b: Book, u: int): int { Total(b.asks, SharesOf(u)) }

  /** A user's reservations are exactly what its resting orders lock. */
  ghost predicate ReservedOk(s: State) {
    forall u | u > 0 :: Reserved(s, u)
  }

  ghost predicate Reserved(s: State, u: int) {
    && s.ledger.Get(u).reservedBalance == RestingCash(s.book, u)
    && s.ledger.Get(u).reservedShares == RestingShares(s.book, u)
  }

  function FreeShares(l: Ledger, u: int): int { l.Get(u).shares - l.Get(u).reservedShares }

  function FreeCash(l: Ledger, u: int): int { l.Get(u).balance - l.Get(u).reservedBalance }

  /** No user has more shares on offer than it holds. */
  ghost predicate SharesOk(s: State) {
    forall u | u > 0 :: 0 <= FreeShares(s.ledger, u)
  }

  /** The part of the invariant that holds whatever user ids orders name. */
  ghost predicate Core(s: State) {
    BookOk(s.book) && IndexOk(s.book) && IdsOk(s) && OwnersOk(s)
  }

  ghost predicate Inv(s: State) {
    Core(s) && UsersOk(s.ledger) && ReservedOk(s) && SharesOk(s)
  }

  /** A freshly seeded exchange: an uncrossed book of anonymous orders, and nothing else yet. */
  ghost predicate Initial(s: State) {
    && BookOk(s.book) && IndexOk(s.book)
    && (forall id <- s.book.index :: id < FIRST_ORDER_ID && Resting(s.book, id))
    && (forall side: Side, o | o in s.book.Queue(side) :: o.user == 0)
    && s.ledger == Ledger(map[], map[], [], 1)
    && s.journal == Journal([], 1, 1, [], 1, 1)
    && s.nextId == FIRST_ORDER_ID
  }

  lemma NoneOwned(q: seq<Order>, u: int)
    requires forall o <- q :: o.user != u
    ensures Total(q, CashOf(u)) == 0 && Total(q, SharesOf(u)) == 0
  {
    if q != [] { NoneOwned(q[1..], u); }
  }

  lemma InitialInv(s: State)
    requires Initial(s)
    ensures Inv(s)
  {
    forall u | u > 0 ensures Reserved(s, u) && 0 <= FreeShares(s.ledger, u) {
      assert s.book.bids == s.book.Queue(Buy) && s.book.asks == s.book.Queue(Sell);
      NoneOwned(s.book.bids, u);
      NoneOwned(s.book.asks, u);
    }
  }

  /** The smallest interesting book: one anonymous ask. */
  function OneAsk(): State {
    State(Book([], [Order(1, 0, Sell, 10, 1, Limit)], map[1 := Locator(Sell, 10, 1)]),
          Ledger(map[], map[], [], 1), Journal([], 1, 1, [], 1, 1), FIRST_ORDER_ID + 1)
  }

  lemma OneAskInv()
    ensures Inv(OneAsk())
  {
    var s := OneAsk();
    assert Initial(s.(nextId := FIRST_ORDER_ID));
    InitialInv(s.(nextId := FIRST_ORDER_ID));
    forall u | u > 0 ensures Reserved(s, u) && 0 <= FreeShares(s.ledger, u) {
      assert Reserved(s.(nextId := FIRST_ORDER_ID), u);
    }
  }

  // ----- one fill

  /** The taker is registered and is not in the book. */
  ghost predicate Registered(s: State, taker: Order) {
    && taker.id in s.ledger.owner && s.ledger.owner[taker.id] == taker.user
    && taker.id !in s.book.index
    && 0 <= taker.qty
    && (taker.kind == Limit ==> 0 < taker.price)
  }

  /** It can also still deliver what it sells. */
  ghost predicate Taking(s: State, taker: Order) {
    && Registered(s, taker)
    && (taker.user > 0 && taker.side == Sell ==> taker.qty <= FreeShares(s.ledger, taker.user))
  }

  lemma NotResting(b: Book, id: int)
    requires IndexOk(b) && id !in b.index
    ensures id !in Ids(b.bids) && id !in Ids(b.asks)
  {
    assert b.Queue(Buy) == b.bids && b.Queue(Sell) == b.asks;
  }

  /** The head of the opposite queue, with all the invariants say about it. */
  lemma HeadFacts(s: State, taker: Order)
    requires BookOk(s.book) && OwnersOk(s) && CanFill(s, taker)
    ensures var maker := s.book.Queue(Opposite(taker.side))[0];
            && WellPlaced(Opposite(taker.side), maker)
            && s.ledger.OwnerOf(maker.id) == maker.user
            && 0 < FillSize(s, taker) <= taker.qty
            && FillSize(s, taker) <= maker.qty
  {
  }

  lemma FillBook(s: State, taker: Order, batch: int)
    requires BookOk(s.book) && IndexOk(s.book) && OwnersOk(s) && CanFill(s, taker)
    ensures var t := Fill(s, taker, batch);
            BookOk(t.book) && IndexOk(t.book) && OwnersOk(t)
  {
    HeadFacts(s, taker);
    var side, n := Opposite(taker.side), FillSize(s, taker);
    var q := s.book.Queue(side);
    var t := Fill(s, taker, batch);
    TakeHeadOk(side, q, n);
    TakeHeadMembers(q, n);
    forall sd: Side, o | o in t.book.Queue(sd)
      ensures o.id in t.book.index && t.book.index[o.id] == Locator(sd, o.price, o.id)
      ensures t.ledger.OwnerOf(o.id) == o.user
    {
      if o !in s.book.Queue(sd) {
        assert sd == side && o == q[0].(qty := q[0].qty - n) && q[0] in q;
      }
    }
  }

  lemma TakeHeadReserved(q: seq<Order>, n: int, u: int)
    requires q != []
    ensures Total(TakeHead(q, n), CashOf(u)) == Total(q, CashOf(u)) - (if q[0].user == u then q[0].price * n else 0)
    ensures Total(TakeHead(q, n), SharesOf(u)) == Total(q, SharesOf(u)) - (if q[0].user == u then n else 0)
  {
    TotalTakeHead(q, n, SharesOf(u));
    TotalTakeHead(q, n, CashOf(u));
    if q[0].user == u {
      Distribute(q[0].price, q[0].qty - n, n);
    }
  }

  lemma FillReserved(s: State, taker: Order, batch: int, u: int)
    requires BookOk(s.book) && OwnersOk(s) && CanFill(s, taker) && Reserved(s, u)
    ensures Reserved(Fill(s, taker, batch), u)
  {
    HeadFacts(s, taker);
    var side := Opposite(taker.side);
    TakeHeadReserved(s.book.Queue(side), FillSize(s, taker), u);
  }

  /** A fill lowers only the free shares of a selling taker, by what it fills. */
  lemma FillShares(s: State, taker: Order, batch: int, u: int)
    requires CanFill(s, taker) && s.ledger.OwnerOf(taker.id) == taker.user && 0 <= FillSize(s, taker)
    ensures FreeShares(s.ledger, u) - (if u == taker.user && taker.side == Sell then FillSize(s, taker) else 0)
         <= FreeShares(Fill(s, taker, batch).ledger, u)
  {
  }

  lemma FillUsers(s: State, taker: Order, batch: int)
    requires CanFill(s, taker) && UsersOk(s.ledger)
    ensures UsersOk(Fill(s, taker, batch).ledger)
  {
  }

  lemma FillCore(s: State, taker: Order, batch: int)
    requires Core(s) && Registered(s, taker) && CanFill(s, taker)
    ensures Core(Fill(s, taker, batch))
    ensures Registered(Fill(s, taker, batch), taker.(qty := taker.qty - FillSize(s, taker)))
  {
    FillBook(s, taker, batch);
    HeadFacts(s, taker);
  }

  // ----- all fills of an order

  lemma MatchCore(s: State, taker: Order, batch: int)
    requires Core(s) && Registered(s, taker)
    ensures var m := Match(s, taker, batch);
            && Core(m.state) && Registered(m.state, m.taker) && !CanFill(m.state, m.taker)
            && m.taker == taker.(qty := m.taker.qty) && 0 <= m.taker.qty <= taker.qty
            && m.state.book.Queue(taker.side) == s.book.Queue(taker.side)
            && m.state.book.index == s.book.index
    decreases |s.book.Queue(Opposite(taker.side))|, taker.qty > 0
  {
    if CanFill(s, taker) {
      HeadFacts(s, taker);
      FillCore(s, taker, batch);
      MatchFrame(s, taker, batch);
      MatchCore(Fill(s, taker, batch), taker.(qty := taker.qty - FillSize(s, taker)), batch);
    }
  }

  /** Matching keeps a user's reservations exact, whatever the id of the taker. */
  lemma MatchReserved(s: State, taker: Order, batch: int, u: int)
    requires BookOk(s.book) && IndexOk(s.book) && OwnersOk(s) && Reserved(s, u)
    ensures Reserved(Match(s, taker, batch).state, u)
    decreases |s.book.Queue(Opposite(taker.side))|, taker.qty > 0
  {
    if CanFill(s, taker) {
      HeadFacts(s, taker);
      FillBook(s, taker, batch);
      FillReserved(s, taker, batch, u);
      MatchReserved(Fill(s, taker, batch), taker.(qty := taker.qty - FillSize(s, taker)), batch, u);
    }
  }

  lemma MatchShares(s: State, taker: Order, batch: int, u: int)
    requires Core(s) && Registered(s, taker)
    ensures var m := Match(s, taker, batch);
            FreeShares(s.ledger, u) - (if u == taker.user && taker.side == Sell then taker.qty - m.taker.qty else 0)
              <= FreeShares(m.state.ledger, u)
    decreases |s.book.Queue(Opposite(taker.side))|, taker.qty > 0
  {
    if CanFill(s, taker) {
      HeadFacts(s, taker);
      FillCore(s, taker, batch);
      FillShares(s, taker, batch, u);
      MatchShares(Fill(s, taker, batch), taker.(qty := taker.qty - FillSize(s, taker)), batch, u);
    }
  }

  lemma MatchUsers(s: State, taker: Order, batch: int)
    requires UsersOk(s.ledger)
    ensures UsersOk(Match(s, taker, batch).state.ledger)
    decreases |s.book.Queue(Opposite(taker.side))|, taker.qty > 0
  {
    if CanFill(s, taker) {
      FillUsers(s, taker, batch);
      MatchUsers(Fill(s, taker, batch), taker.(qty := taker.qty - FillSize(s, taker)), batch);
    }
  }

  lemma MatchInv(s: State, taker: Order, batch: int)
    requires Inv(s) && Taking(s, taker)
    ensures var m := Match(s, taker, batch);
            && Inv(m.state) && Taking(m.state, m.taker) && !CanFill(m.state, m.taker)
            && m.taker == taker.(qty := m.taker.qty) && 0 <= m.taker.qty <= taker.qty
  {
    MatchCore(s, taker, batch);
    MatchUsers(s, taker, batch);
    MatchShares(s, taker, batch, taker.user);
    var t := Match(s, taker, batch).state;
    forall u | u > 0 ensures Reserved(t, u) && 0 <= FreeShares(t.ledger, u) {
      assert Reserved(s, u) && 0 <= FreeShares(s.ledger, u);
      MatchReserved(s, taker, batch, u);
      MatchShares(s, taker, batch, u);
    }
  }

  // ----- placing an order

  /** Accounts stay in order while neither the book nor any position changes. */
  lemma SameAccounts(s: State, t: State)
    requires ReservedOk(s) && SharesOk(s)
    requires t.book.bids == s.book.bids && t.book.asks == s.book.asks
    requires forall u :: t.ledger.Get(u) == s.ledger.Get(u)
    ensures ReservedOk(t) && SharesOk(t)
  {
    forall u | u > 0 ensures Reserved(t, u) && 0 <= FreeShares(t.ledger, u) {
      assert Reserved(s, u) && 0 <= FreeShares(s.ledger, u);
    }
  }

  lemma OpenedCore(s: State, o: Order)
    requires Core(s) && ProperIds(s, Place(o))
    ensures Core(Opened(s, o)) && o.id !in s.book.index
  {
  }

  lemma AnnouncedCore(s: State, o: Order)
    requires Core(s) && ProperIds(s, Place(o)) && Preflight(Opened(s, o), o).Admitted?
    ensures Core(Announced(s, o)) && Registered(Announced(s, o), o)
  {
    OpenedCore(s, o);
  }

  /** What adding an order does to the index and to membership, on either side. */
  lemma AddRestingMembers(b: Book, o: Order)
    requires IndexOk(b) && o.id !in b.index && o.qty > 0
    ensures IndexOk(AddResting(b, o))
    ensures forall id :: Resting(AddResting(b, o), id) <==> Resting(b, id) || id == o.id
    ensures forall sd: Side, x | x in AddResting(b, o).Queue(sd) :: x in b.Queue(sd) || (sd == o.side && x == o)
    ensures forall sd: Side, x | x in b.Queue(sd) :: x.id != o.id
  {
    NotResting(b, o.id);
    var q, c := b.Queue(o.side), AddResting(b, o);
    InsertMembers(o.side, q, o);
    assert forall sd: Side, x | x in c.Queue(sd) :: x in b.Queue(sd) || (sd == o.side && x == o);
    assert forall sd: Side, x | x in b.Queue(sd) :: x.id != o.id;
    assert c.Queue(Opposite(o.side)) == b.Queue(Opposite(o.side));
  }

  /** Whatever order is added, at a positive price that does not cross: the book stays in order. An empty
      order or one whose id is indexed is not added, every other one is. */
  lemma AddRestingSafe(b: Book, o: Order)
    requires BookOk(b) && IndexOk(b) && o.price > 0
    requires o.side == Buy && b.asks != [] ==> o.price < b.asks[0].price
    requires o.side == Sell && b.bids != [] ==> b.bids[0].price < o.price
    ensures BookOk(AddResting(b, o)) && IndexOk(AddResting(b, o))
    ensures o in AddResting(b, o).Queue(o.side) <==>
              o in b.Queue(o.side) || (o.qty > 0 && o.id !in b.index)
    ensures AddResting(b, o) == b <==> o.qty <= 0 || o.id in b.index
  {
    if o.qty > 0 && o.id !in b.index {
      var q := b.Queue(o.side);
      NotResting(b, o.id);
      AddRestingMembers(b, o);
      InsertOk(o.side, q, o);
      InsertMembers(o.side, q, o);
      InsertHead(o.side, q, o);
    }
  }

  lemma RestBook(s: State, taker: Order)
    requires Core(s) && Registered(s, taker) && !CanFill(s, taker) && taker.kind == Limit && taker.qty > 0
    ensures Core(Rest(s, taker))
  {
    var q := s.book.Queue(taker.side);
    NotResting(s.book, taker.id);
    AddRestingMembers(s.book, taker);
    InsertOk(taker.side, q, taker);
    InsertMembers(taker.side, q, taker);
    InsertHead(taker.side, q, taker);
  }

  lemma RestCore(s: State, taker: Order)
    requires Core(s) && Registered(s, taker) && !CanFill(s, taker)
    ensures Core(Rest(s, taker))
  {
    if taker.kind == Limit && taker.qty > 0 { RestBook(s, taker); }
  }

  lemma RestReserved(s: State, taker: Order, u: int)
    requires Registered(s, taker) && Reserved(s, u)
    ensures Reserved(Rest(s, taker), u)
  {
    if taker.kind == Limit && taker.qty > 0 {
      if taker.side == Buy {
        TotalInsert(Buy, s.book.bids, taker, CashOf(u));
      } else {
        TotalInsert(Sell, s.book.asks, taker, SharesOf(u));
      }
    }
  }

  lemma RestShares(s: State, taker: Order, u: int)
    requires Registered(s, taker)
    ensures FreeShares(s.ledger, u) - (if u == taker.user && taker.side == Sell then taker.qty else 0)
         <= FreeShares(Rest(s, taker).ledger, u)
  {
  }

  /** An accepted call is an announcement, the fills, and the rest of the order going into the book. */
  lemma AcceptedParts(s: State, o: Order)
    requires Preflight(Opened(s, o), o).Admitted?
    ensures var m, t := Matching(s, o), Process(s, o).0;
            t == Rest(m.state, m.taker).(journal := t.journal) && Process(s, o).1.remainingQty == m.taker.qty
  {
  }

  lemma PlaceCore(s: State, o: Order)
    requires Core(s) && ProperIds(s, Place(o))
    ensures Core(Process(s, o).0)
  {
    OpenedCore(s, o);
    if Preflight(Opened(s, o), o).Admitted? {
      AnnouncedCore(s, o);
      MatchCore(Announced(s, o), o, s.journal.batchSeq);
      RestCore(Matching(s, o).state, Matching(s, o).taker);
      AcceptedParts(s, o);
    }
  }

  /** Selling takes at most the order's quantity out of what its user can still offer; nobody else's
      free shares go down. */
  lemma AcceptedShares(s: State, o: Order, u: int)
    requires Core(s) && ProperIds(s, Place(o)) && Preflight(Opened(s, o), o).Admitted?
    ensures FreeShares(s.ledger, u) - (if u == o.user && o.side == Sell then o.qty else 0)
         <= FreeShares(Process(s, o).0.ledger, u)
  {
    AnnouncedCore(s, o);
    var a, batch, m := Announced(s, o), s.journal.batchSeq, Matching(s, o);
    MatchCore(a, o, batch);
    MatchShares(a, o, batch, u);
    RestShares(m.state, m.taker, u);
    AcceptedParts(s, o);
    assert FreeShares(a.ledger, u) == FreeShares(s.ledger, u);
  }

  /** A user's reservations stay exact, and its shares on offer stay covered. */
  lemma PlaceAccount(s: State, o: Order, u: int)
    requires Core(s) && ProperIds(s, Place(o)) && Reserved(s, u)
    ensures Reserved(Process(s, o).0, u)
    ensures u > 0 && 0 <= FreeShares(s.ledger, u) ==> 0 <= FreeShares(Process(s, o).0.ledger, u)
  {
    if Preflight(Opened(s, o), o).Admitted? {
      AnnouncedCore(s, o);
      var a, batch, m := Announced(s, o), s.journal.batchSeq, Matching(s, o);
      assert Reserved(a, u);
      MatchCore(a, o, batch);
      MatchReserved(a, o, batch, u);
      RestReserved(m.state, m.taker, u);
      AcceptedParts(s, o);
      AcceptedShares(s, o, u);
      assert o.user > 0 && o.side == Sell ==> o.qty <= FreeShares(s.ledger, o.user);
    }
  }

  lemma PlaceUsers(s: State, o: Order)
    requires UsersOk(s.ledger) && o.user < s.ledger.nextUser
    ensures UsersOk(Process(s, o).0.ledger)
  {
    if Preflight(Opened(s, o), o).Admitted? {
      MatchUsers(Announced(s, o), o, s.journal.batchSeq);
      AcceptedParts(s, o);
    }
  }

  lemma PlaceInv(s: State, o: Order)
    requires Inv(s) && Legal(s, Place(o))
    ensures Inv(Process(s, o).0)
  {
    PlaceCore(s, o);
    PlaceUsers(s, o);
    var t := Process(s, o).0;
    forall u | u > 0 ensures Reserved(t, u) && 0 <= FreeShares(t.ledger, u) {
      assert Reserved(s, u) && 0 <= FreeShares(s.ledger, u);
      PlaceAccount(s, o, u);
    }
  }

  // ----- cancelling an order

  /** Through the index, cancel_order deletes exactly the order a linear search of both sides would
      find, and leaves the order of everything else alone. */
  lemma CancelIsLinearDelete(b: Book, id: int)
    requires BookOk(b) && IndexOk(b) && Resting(b, id)
    ensures id in b.index
    ensures var c := CancelBook(b, id);
            c.bids == Remove(b.bids, id) && c.asks == Remove(b.asks, id) && c.index == b.index - {id}
    ensures FindIndexed(b, id) == Find(b.bids + b.asks, id)
    ensures FindIndexed(b, id).Some?
         && FindIndexed(b, id).value in b.Queue(b.index[id].side)
         && FindIndexed(b, id).value.id == id && FindIndexed(b, id).value.side == b.index[id].side
  {
    assert b.Queue(Buy) == b.bids && b.Queue(Sell) == b.asks;
    if id in Ids(b.bids) {
      RemoveAbsent(b.asks, id);
      FindConcat(b.bids, b.asks, id);
      assert Find(b.bids, id).value in b.Queue(Buy);
    } else {
      RemoveAbsent(b.bids, id);
      FindConcat(b.bids, b.asks, id);
      assert Find(b.asks, id).value in b.Queue(Sell);
    }
  }

  lemma RemoveAbsent(q: seq<Order>, id: int)
    requires id !in Ids(q)
    ensures Remove(q, id) == q
  {
    if q != [] {
      assert q == [q[0]] + q[1..];
      assert q[0].id in Ids(q);
      assert forall x <- q[1..] :: x in q;
      RemoveAbsent(q[1..], id);
    }
  }

  lemma FindConcat(a: seq<Order>, b: seq<Order>, id: int)
    ensures Find(a + b, id) == if id in Ids(a) then Find(a, id) else Find(b, id)
  {
    if a == [] {
      assert a + b == b;
    } else {
      assert a == [a[0]] + a[1..] && (a + b)[1..] == a[1..] + b;
      if a[0].id != id {
        assert id in Ids(a) <==> id in Ids(a[1..]);
        FindConcat(a[1..], b, id);
      } else {
        assert a[0] in a;
      }
    }
  }

  lemma CancelUncrossed(b: Book, id: int)
    requires BookOk(b)
    ensures Uncrossed(Book(Remove(b.bids, id), Remove(b.asks, id), b.index))
  {
  }

  lemma CancelBookOk(b: Book, id: int)
    requires BookOk(b) && IndexOk(b) && Resting(b, id)
    ensures BookOk(CancelBook(b, id))
    ensures !Resting(CancelBook(b, id), id)
    ensures forall sd: Side, x :: x in CancelBook(b, id).Queue(sd) <==> x in b.Queue(sd) && x.id != id
  {
    CancelIsLinearDelete(b, id);
    CancelUncrossed(b, id);
    RemoveOk(Buy, b.bids, id);
    RemoveOk(Sell, b.asks, id);
    RemoveMembers(b.bids, id);
    RemoveMembers(b.asks, id);
  }

  lemma CancelResting(b: Book, id: int)
    requires BookOk(b) && IndexOk(b) && Resting(b, id)
    ensures forall x :: Resting(CancelBook(b, id), x) <==> Resting(b, x) && x != id
  {
    CancelIsLinearDelete(b, id);
    RemoveMembers(b.bids, id);
    RemoveMembers(b.asks, id);
  }

  lemma CancelIndexOk(b: Book, id: int)
    requires BookOk(b) && IndexOk(b) && Resting(b, id)
    ensures IndexOk(CancelBook(b, id))
  {
    CancelBookOk(b, id);
    var c := CancelBook(b, id);
    forall sd: Side, o | o in c.Queue(sd)
      ensures o.id in c.index && c.index[o.id] == Locator(sd, o.price, o.id)
    {
      assert o in b.Queue(sd);
    }
  }

  lemma CancelAccounts(s: State, id: int, side: Side, o: Order, u: int)
    requires Find(s.book.Queue(side), id) == Some(o) && WellPlaced(side, o) && s.ledger.OwnerOf(id) == o.user
    requires u > 0 && Reserved(s, u)
    ensures var t := State(s.book.WithQueue(side, Remove(s.book.Queue(side), id)),
                           OnCancel(s.ledger, id, side, o.price, o.qty), s.journal, s.nextId);
            Reserved(t, u) && FreeShares(s.ledger, u) <= FreeShares(t.ledger, u)
  {
    if side == Buy {
      TotalRemove(s.book.bids, id, CashOf(u));
    } else {
      TotalRemove(s.book.asks, id, SharesOf(u));
    }
  }

  lemma CancelLedger(s: State, id: int)
    requires Core(s) && Resting(s.book, id)
    ensures var t := Cancel(s, id).0;
            && OwnersOk(t) && IdsOk(t) && (UsersOk(s.ledger) ==> UsersOk(t.ledger))
            && t.book == CancelBook(s.book, id)
  {
    var o := CancelledOrder(s, id);
    CancelBookOk(s.book, id);
    var t := Cancel(s, id).0;
    forall sd: Side, x | x in t.book.Queue(sd) ensures t.ledger.OwnerOf(x.id) == x.user {
      assert x in s.book.Queue(sd);
    }
  }

  lemma CancelCore(s: State, id: int)
    requires Core(s) && ProperIds(s, CancelId(id))
    ensures Core(Cancel(s, id).0)
  {
    if id in s.book.index {
      CancelBookOk(s.book, id);
      CancelIndexOk(s.book, id);
      CancelLedger(s, id);
    }
  }

  lemma CancelInv(s: State, id: int)
    requires Inv(s) && Legal(s, CancelId(id))
    ensures Inv(Cancel(s, id).0)
  {
    if id in s.book.index {
      CancelCore(s, id);
      CancelLedger(s, id);
      CancelAllAccounts(s, id);
    }
  }

  lemma CancelReserved(s: State, id: int, u: int)
    requires Core(s) && Resting(s.book, id) && u > 0 && Reserved(s, u)
    ensures Reserved(Cancel(s, id).0, u) && FreeShares(s.ledger, u) <= FreeShares(Cancel(s, id).0.ledger, u)
  {
    var o := CancelledOrder(s, id);
    CancelAccounts(s, id, s.book.index[id].side, o, u);
  }

  lemma CancelAllAccounts(s: State, id: int)
    requires Core(s) && ReservedOk(s) && SharesOk(s) && Resting(s.book, id)
    ensures ReservedOk(Cancel(s, id).0) && SharesOk(Cancel(s, id).0)
  {
    forall u | u > 0 ensures Reserved(Cancel(s, id).0, u) && 0 <= FreeShares(Cancel(s, id).0.ledger, u) {
      assert Reserved(s, u) && 0 <= FreeShares(s.ledger, u);
      CancelReserved(s, id, u);
    }
  }

  /** What find_order returns for an order that rests. */
  lemma CancelledOrder(s: State, id: int) returns (o: Order)
    requires Core(s) && Resting(s.book, id)
    ensures id in s.book.index
    ensures var side := s.book.index[id].side;
            && FindIndexed(s.book, id) == Some(o) && Find(s.book.Queue(side), id) == Some(o)
            && o in s.book.Queue(side) && WellPlaced(side, o) && s.ledger.OwnerOf(id) == o.user && o.id == id
  {
    CancelIsLinearDelete(s.book, id);
    o := FindIndexed(s.book, id).value;
  }

  // ----- whole runs

  lemma ApplyCore(s: State, step: Step)
    requires Core(s) && ProperIds(s, step)
    ensures Core(Apply(s, step))
  {
    match step
    case Place(o) => PlaceCore(s, o);
    case CancelId(id) => CancelCore(s, id);
    case _ =>
  }

  lemma {:induction false} RunCore(s: State, steps: seq<Step>)
    requires Core(s) && ProperRun(s, steps)
    ensures Core(Run(s, steps))
    decreases |steps|
  {
    if steps != [] {
      ApplyCore(s, steps[0]);
      RunCore(Apply(s, steps[0]), steps[1..]);
    }
  }

  lemma ApplyInv(s: State, step: Step)
    requires Inv(s) && Legal(s, step)
    ensures Inv(Apply(s, step))
  {
    match step
    case Place(o) => PlaceInv(s, o);
    case CancelId(id) => CancelInv(s, id);
    case Allocate => SameAccounts(s, Apply(s, Allocate));
    case Connect => NewUserInv(s);
    case Reconnect(uid) => if uid <= 0 { NewUserInv(s); } else { ReconnectInv(s, uid); }
  }

  lemma NewUserInv(s: State)
    requires Inv(s)
    ensures Inv(s.(ledger := NewUser(s.ledger)))
  {
    var l := NewUser(s.ledger);
    assert s.ledger.nextUser !in s.ledger.positions;
    assert forall i :: 0 <= i < |s.ledger.users| ==> s.ledger.users[i] in s.ledger.users;
    SameAccounts(s, s.(ledger := l));
  }

  lemma ReconnectInv(s: State, uid: int)
    requires Inv(s) && uid > 0
    ensures Inv(s.(ledger := ReconnectUser(s.ledger, uid)))
  {
    var l := ReconnectUser(s.ledger, uid);
    SameAccounts(s, s.(ledger := l));
  }

  /** Every state a legal run reaches satisfies the invariant. */
  lemma {:induction false} RunInv(s: State, steps: seq<Step>)
    requires Inv(s) && LegalRun(s, steps)
    ensures Inv(Run(s, steps))
    decreases |steps|
  {
    if steps != [] {
      ApplyInv(s, steps[0]);
      RunInv(Apply(s, steps[0]), steps[1..]);
    }
  }
}
