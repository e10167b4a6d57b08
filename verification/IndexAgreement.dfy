/** The id index over whole runs. Filling an order pops it from its level but leaves its index entry
    (core/src/engine/matching_engine.cpp:221-225), so the index holds the resting ids and the ids of
    makers filled so far; cancelling one of the latter would follow a dangling iterator. */
module IndexAgreement {
  import opened Types
  import opened Queues
  import opened Exchange
  import opened Invariants
  import opened Greedy
  import opened Execution
  import opened OrderBooks

  function RestingIds(b: Book): set<int> { Ids(b.bids) + Ids(b.asks) }

  /** The units from the front of the queue to the end of the order at this position. */
  function UnitsThrough(q: seq<Order>, i: int): int
    requires 0 <= i < |q|
  {
    Depth(q[..i + 1])
  }

  /** The orders that n units taken off the front of the queue fill to the last unit. */
  function Emptied(q: seq<Order>, n: int): set<int> {
    set i | 0 <= i < |q| && UnitsThrough(q, i) <= n :: q[i].id
  }

  /** The makers this step fills completely: none unless it places an order that is admitted. */
  function FilledBy(s: State, step: Step): set<int> {
    if step.Place? && Admits(s, step.order)
    then Emptied(Opposing(s, step.order), Takes(Opposing(s, step.order), step.order)) else {}
  }

  lemma ThroughTail(side: Side, q: seq<Order>, i: int)
    requires 0 <= i < |q| && forall o <- q :: WellPlaced(side, o)
    ensures UnitsThrough(q, i) == q[0].qty + (if i == 0 then 0 else UnitsThrough(q[1..], i - 1))
    ensures q[0].qty <= UnitsThrough(q, i)
  {
    assert q[..i + 1][1..] == q[1..][..i];
    assert forall o <- q[1..][..i] :: o in q;
    DepthNonNegative(side, q[1..][..i]);
  }

  lemma EmptiedNext(side: Side, q: seq<Order>, n: int)
    requires q != [] && forall o <- q :: WellPlaced(side, o)
    ensures Emptied(q, n) == if n < q[0].qty then {} else {q[0].id} + Emptied(q[1..], n - q[0].qty)
  {
    var tail, left := q[1..], n - q[0].qty;
    forall i | 0 <= i < |q|
      ensures UnitsThrough(q, i) == q[0].qty + (if i == 0 then 0 else UnitsThrough(tail, i - 1))
      ensures q[0].qty <= UnitsThrough(q, i)
    {
      ThroughTail(side, q, i);
    }
    if 0 <= left {
      assert UnitsThrough(q, 0) <= n;
      forall i | 0 <= i < |tail| && UnitsThrough(tail, i) <= left ensures tail[i].id in Emptied(q, n) {
        assert UnitsThrough(q, i + 1) <= n && q[i + 1] == tail[i];
      }
    }
  }

  /** What leaves the queue is what was filled to the last unit. */
  lemma EmptiedLeave(side: Side, q: seq<Order>, n: int)
    requires UniqueIds(q) && forall o <- q :: WellPlaced(side, o)
    ensures Ids(q) - Ids(Remainder(q, n)) == Emptied(q, n)
  {
    if q != [] {
      EmptiedNext(side, q, n);
      assert q == [q[0]] + q[1..];
      assert WellPlaced(side, q[0]);
      TailIds(q);
      RemainderIds(q[1..], n - q[0].qty);
      EmptiedLeave(side, q[1..], n - q[0].qty);
    }
  }

  function FilledMakers(s: State, steps: seq<Step>): set<int>
    decreases |steps|
  {
    if steps == [] then {} else FilledBy(s, steps[0]) + FilledMakers(Apply(s, steps[0]), steps[1..])
  }

  /** Index entries whose order no longer rests. */
  function Stale(b: Book): set<int> { b.index.Keys - RestingIds(b) }

  lemma RestingIndexed(b: Book)
    requires IndexOk(b)
    ensures RestingIds(b) <= b.index.Keys
  {
    forall id | id in RestingIds(b) ensures id in b.index {
      if id !in b.index { NotResting(b, id); }
    }
  }

  lemma SidesResting(b: Book, side: Side)
    ensures RestingIds(b) == Ids(b.Queue(side)) + Ids(b.Queue(Opposite(side)))
  {
  }

  lemma FilledLeave(s: State, o: Order)
    requires Core(s) && ProperIds(s, Place(o))
    ensures FilledBy(s, Place(o)) == Ids(Opposing(s, o)) - Ids(Opposing(Process(s, o).0, o))
  {
    if Admits(s, o) {
      AcceptedOutcome(s, o);
      EmptiedLeave(Opposite(o.side), Opposing(s, o), Takes(Opposing(s, o), o));
    }
  }

  lemma PlaceStale(s: State, o: Order)
    requires Core(s) && ProperIds(s, Place(o))
    ensures Stale(Process(s, o).0.book) == Stale(s.book) + FilledBy(s, Place(o))
  {
    OpenedCore(s, o);
    NotResting(s.book, o.id);
    FilledLeave(s, o);
    if Admits(s, o) {
      AcceptedOutcome(s, o);
      AcceptedIndex(s, o);
      var t, side := Process(s, o).0, o.side;
      RestingIndexed(s.book);
      SidesResting(s.book, side);
      SidesResting(t.book, side);
      RemainderIds(Opposing(s, o), Takes(Opposing(s, o), o));
      var f := Takes(Opposing(s, o), o);
      InsertMembers(side, s.book.Queue(side), o.(qty := o.qty - f));
      OtherSide(s, side);
    }
  }

  lemma OtherSide(s: State, side: Side)
    requires BookOk(s.book)
    ensures Ids(s.book.Queue(side)) !! Ids(s.book.Queue(Opposite(side)))
  {
  }

  lemma AcceptedIndex(s: State, o: Order)
    requires Core(s) && ProperIds(s, Place(o)) && Admits(s, o)
    ensures Process(s, o).0.book.index.Keys
         == s.book.index.Keys + (if o.kind == Limit && Takes(Opposing(s, o), o) < o.qty then {o.id} else {})
  {
    AnnouncedCore(s, o);
    MatchCore(Announced(s, o), o, s.journal.batchSeq);
    AcceptedOutcome(s, o);
  }

  lemma CancelStale(s: State, id: int)
    requires Core(s) && ProperIds(s, CancelId(id))
    ensures Stale(Cancel(s, id).0.book) == Stale(s.book)
  {
    if id in s.book.index {
      CancelIsLinearDelete(s.book, id);
      RemoveMembers(s.book.bids, id);
      RemoveMembers(s.book.asks, id);
    }
  }

  lemma {:induction false} RunStale(s: State, steps: seq<Step>)
    requires Core(s) && ProperRun(s, steps)
    ensures Stale(Run(s, steps).book) == Stale(s.book) + FilledMakers(s, steps)
    decreases |steps|
  {
    if steps != [] {
      var t := Apply(s, steps[0]);
      match steps[0] {
        case Place(o) => PlaceStale(s, o);
        case CancelId(id) => CancelStale(s, id);
        case _ =>
      }
      ApplyCore(s, steps[0]);
      RunStale(t, steps[1..]);
    }
  }

  /** In every reachable state the index keys are exactly the resting ids and, apart from them, the ids
      of the makers filled along the way; every resting id's entry gives its true side, price and node;
      and an id may be cancelled exactly if it is not one of those makers. */
  lemma IndexExact(s: State, steps: seq<Step>)
    requires Initial(s) && ProperRun(s, steps)
    ensures var b, filled := Run(s, steps).book, FilledMakers(s, steps);
            && b.index.Keys == RestingIds(b) + filled && RestingIds(b) !! filled
            && IndexOk(b)
            && forall id :: ProperIds(Run(s, steps), CancelId(id)) <==> id !in filled
  {
    InitialInv(s);
    RunCore(s, steps);
    RunStale(s, steps);
    RestingIndexed(Run(s, steps).book);
    forall id | id in s.book.index ensures id in RestingIds(s.book) {
      assert Resting(s.book, id);
    }
    assert Stale(s.book) == {};
  }

  /** An id may be cancelled exactly if its index entry points at a live node, which is what the order
      book's cancel_order and find_order need of their caller. */
  lemma LegalCancelIsSound(s: State, id: int)
    requires Core(s)
    ensures LocatorSound(s.book, id) <==> ProperIds(s, CancelId(id))
  {
    assert s.book.Queue(Buy) == s.book.bids && s.book.Queue(Sell) == s.book.asks;
    if id in s.book.index && Resting(s.book, id) {
      var o := CancelledOrder(s, id);
      var side := s.book.index[id].side;
      assert forall x | x in s.book.Queue(side) && x.id == id :: x.price == s.book.index[id].price;
    }
  }

  /** A cancel answers true exactly if the order rests; then it logs one event, for the order's user, and
      takes the id out of the book. It answers false for every other id and changes nothing. */
  lemma CancelAnswer(s: State, id: int)
    requires Core(s) && ProperIds(s, CancelId(id))
    ensures var (t, ok) := Cancel(s, id);
            && (ok <==> Resting(s.book, id))
            && (!ok ==> t == s)
            && (ok ==> exists side: Side, o ::
                  && o in s.book.Queue(side) && o.id == id && !Resting(t.book, id)
                  && t.journal.events == s.journal.events
                       + [OrderEvent(s.journal.eventSeq, s.journal.batchSeq, id, o.user, Canceled, Buy, 0, 0, 0)])
  {
    RestingIndexed(s.book);
    if Resting(s.book, id) {
      var o := CancelledOrder(s, id);
      CancelBookOk(s.book, id);
      assert o in s.book.Queue(s.book.index[id].side);
    }
  }

  lemma {:induction false} FilledAtOnce(side: Side, q: seq<Order>, n: int, id: int)
    requires (forall o <- q :: WellPlaced(side, o)) && id in Emptied(q, n)
    ensures exists m <- q :: m.id == id && Slice(id, m.price, m.qty) in Slices(q, n)
  {
    if q != [] {
      EmptiedNext(side, q, n);
      assert WellPlaced(side, q[0]);
      assert Slices(q, n) == [Slice(q[0].id, q[0].price, q[0].qty)] + Slices(q[1..], n - q[0].qty);
      if id != q[0].id {
        FilledAtOnce(side, q[1..], n - q[0].qty, id);
        var m :| m in q[1..] && m.id == id && Slice(id, m.price, m.qty) in Slices(q[1..], n - q[0].qty);
        assert m in q;
      }
    }
  }

  /** The documentation (README.md:361) has a filled maker removed from the index. It is not: one trade
      takes all that the order still had, and after it the id is indexed as before, though the order does
      not rest and it may not be cancelled. */
  lemma FilledMakerStaysIndexed(s: State, o: Order, id: int)
    requires Core(s) && ProperIds(s, Place(o)) && id in FilledBy(s, Place(o))
    ensures var (t, r) := Process(s, o);
            && id in t.book.index && !Resting(t.book, id) && !ProperIds(t, CancelId(id))
            && exists m <- Opposing(s, o) :: m.id == id && Slice(id, m.price, m.qty) in SlicesOf(r.trades)
  {
    PlaceStale(s, o);
    assert id in Stale(Process(s, o).0.book);
    AcceptedOutcome(s, o);
    FilledAtOnce(Opposite(o.side), Opposing(s, o), Takes(Opposing(s, o), o), id);
  }

  /** Such a maker, concretely: the only ask is bought, and the index still has it. */
  lemma BoughtOutAskStaysIndexed()
    ensures var s, o := OneAsk(), Order(FIRST_ORDER_ID, 0, Buy, 10, 1, Limit);
            && Inv(s) && Legal(s, Place(o)) && 1 in FilledBy(s, Place(o))
            && Process(s, o).0.book == Book([], [], s.book.index)
  {
    var s, o := OneAsk(), Order(FIRST_ORDER_ID, 0, Buy, 10, 1, Limit);
    OneAskInv();
    FilledLeave(s, o);
    var a := Announced(s, o);
    assert Admits(s, o) && CanFill(a, o);
    var f, left := Fill(a, o, 1), o.(qty := 0);
    assert Match(f, left, 1) == Matched(f, left, []);
    assert Matching(s, o).state == f && Matching(s, o).taker == left;
    assert s.book.asks[0] in s.book.asks;
  }
}
