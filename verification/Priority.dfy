/** Price-time priority over whole runs: an order that was there first, at a price at least as good, is
    gone before a later one trades, whatever is placed and cancelled in between. */
module Priority {
  import opened Types
  import opened Queues
  import opened Exchange
  import opened Invariants
  import opened Greedy
  import opened Execution

  /** Order b stands somewhere behind order a. */
  predicate Ahead(q: seq<Order>, a: int, b: int) {
    q != [] && (if q[0].id == a then b in Ids(q[1..]) else Ahead(q[1..], a, b))
  }

  lemma TailMembers(q: seq<Order>)
    requires q != []
    ensures Ids(q) == {q[0].id} + Ids(q[1..])
  {
    assert q == [q[0]] + q[1..];
    assert q[0] in q;
  }

  lemma AheadMembers(q: seq<Order>, a: int, b: int)
    requires Ahead(q, a, b)
    ensures a in Ids(q) && b in Ids(q)
  {
    TailMembers(q);
    if q[0].id != a { AheadMembers(q[1..], a, b); }
  }

  // ----- what each change to a queue does to the order of two ids in it

  lemma {:induction false} InsertAhead(side: Side, q: seq<Order>, o: Order, a: int, b: int)
    requires Ahead(q, a, b) && o.id != a
    ensures Ahead(Insert(side, q, o), a, b)
  {
    var r := Insert(side, q, o);
    if Before(side, o.price, q[0].price) {
      assert r[1..] == q;
    } else {
      assert r[1..] == Insert(side, q[1..], o);
      if q[0].id == a {
        InsertMembers(side, q[1..], o);
      } else {
        InsertAhead(side, q[1..], o, a, b);
      }
    }
  }

  lemma {:induction false} RemoveAhead(q: seq<Order>, id: int, a: int, b: int)
    requires Ahead(q, a, b) && UniqueIds(q) && id != a && id != b
    ensures Ahead(Remove(q, id), a, b)
  {
    TailIds(q);
    if q[0].id != id {
      assert Remove(q, id)[1..] == Remove(q[1..], id);
      if q[0].id == a {
        RemoveMembers(q[1..], id);
      } else {
        RemoveAhead(q[1..], id, a, b);
      }
    }
  }

  /** Taking units off the front: b trades only if a is emptied, and what is left keeps its order. */
  lemma {:induction false} TakeAhead(side: Side, q: seq<Order>, n: int, a: int, b: int)
    requires Ahead(q, a, b) && UniqueIds(q) && forall o <- q :: WellPlaced(side, o)
    ensures a in Ids(Remainder(q, n)) ==> Ahead(Remainder(q, n), a, b)
    ensures (exists x <- Slices(q, n) :: x.order == b) ==> a !in Ids(Remainder(q, n))
  {
    if n > 0 {
      TailIds(q);
      assert WellPlaced(side, q[0]);
      var left := n - q[0].qty;
      RemainderIds(q[1..], left);
      SliceOrders(q[1..], left);
      if q[0].id != a {
        AheadMembers(q[1..], a, b);
        TakeAhead(side, q[1..], left, a, b);
      } else if left < 0 {
        assert Slices(q[1..], left) == [];
      }
      if left < 0 { assert Remainder(q, n)[1..] == q[1..]; }
    }
  }

  /** A new order stands behind everything at least as good and in front of everything worse. */
  lemma {:induction false} InsertPlace(side: Side, q: seq<Order>, o: Order, a: Order)
    requires a in q && o.id !in Ids(q) && UniqueIds(q) && Sorted(side, q)
    ensures if Before(side, o.price, a.price) then Ahead(Insert(side, q, o), o.id, a.id)
                                              else Ahead(Insert(side, q, o), a.id, o.id)
  {
    TailMembers(q);
    TailIds(q);
    var r := Insert(side, q, o);
    if Before(side, o.price, q[0].price) {
      assert r[1..] == q && a.id in Ids(q);
      var i :| 0 <= i < |q| && q[i] == a;
      assert i > 0 ==> !Before(side, a.price, q[0].price);
    } else {
      assert r[1..] == Insert(side, q[1..], o);
      if a == q[0] {
        InsertMembers(side, q[1..], o);
        assert o in Insert(side, q[1..], o);
      } else {
        InsertPlace(side, q[1..], o, a);
      }
    }
  }

  // ----- one step

  lemma PlaceAhead(s: State, o: Order, side: Side, a: int, b: int)
    requires Core(s) && ProperIds(s, Place(o)) && Ahead(s.book.Queue(side), a, b)
    requires a in Ids(Process(s, o).0.book.Queue(side))
    ensures Ahead(Process(s, o).0.book.Queue(side), a, b)
  {
    var q := s.book.Queue(side);
    AheadMembers(q, a, b);
    if Admits(s, o) {
      AcceptedOutcome(s, o);
      if side == o.side {
        OpenedCore(s, o);
        NotResting(s.book, o.id);
        InsertAhead(side, q, o.(qty := o.qty - Takes(Opposing(s, o), o)), a, b);
      } else {
        TakeAhead(side, q, Takes(q, o), a, b);
      }
    } else {
      RefusedUnchanged(s, o);
    }
  }

  lemma CancelAhead(s: State, id: int, side: Side, a: int, b: int)
    requires Core(s) && ProperIds(s, CancelId(id)) && Ahead(s.book.Queue(side), a, b)
    requires var q := Cancel(s, id).0.book.Queue(side); a in Ids(q) && b in Ids(q)
    ensures Ahead(Cancel(s, id).0.book.Queue(side), a, b)
  {
    if id in s.book.index {
      CancelIsLinearDelete(s.book, id);
      CancelBookOk(s.book, id);
      RemoveAhead(s.book.Queue(side), id, a, b);
    }
  }

  lemma ApplyAhead(s: State, step: Step, side: Side, a: int, b: int)
    requires Core(s) && ProperIds(s, step) && Ahead(s.book.Queue(side), a, b)
    requires var q := Apply(s, step).book.Queue(side); a in Ids(q) && b in Ids(q)
    ensures Ahead(Apply(s, step).book.Queue(side), a, b)
  {
    match step
    case Place(o) => PlaceAhead(s, o, side, a, b);
    case CancelId(id) => CancelAhead(s, id, side, a, b);
    case _ =>
  }

  // ----- ids do not come back

  /** An id that has been used, or belongs to the seeded orders. */
  predicate Used(s: State, id: int) { id in s.ledger.owner || id < FIRST_ORDER_ID }

  lemma RestingUsed(s: State, side: Side, id: int)
    requires Core(s) && id in Ids(s.book.Queue(side))
    ensures Used(s, id)
  {
  }

  lemma UsedOnce(s: State, step: Step, id: int)
    requires Used(s, id) || (step.Place? && step.order.id == id)
    ensures Used(Apply(s, step), id)
  {
    if step.Place? { MatchFrame(Announced(s, step.order), step.order, s.journal.batchSeq); }
  }

  /** Only the placed order can be new on a side, and only on its own. */
  lemma PlaceGone(s: State, o: Order, side: Side, id: int)
    requires Core(s) && ProperIds(s, Place(o)) && id !in Ids(s.book.Queue(side))
    requires id != o.id || side != o.side
    ensures id !in Ids(Process(s, o).0.book.Queue(side))
  {
    if Admits(s, o) {
      AcceptedOutcome(s, o);
      var q, f := s.book.Queue(side), Takes(Opposing(s, o), o);
      RemainderIds(q, f);
      InsertMembers(side, q, o.(qty := o.qty - f));
    } else {
      RefusedUnchanged(s, o);
    }
  }

  lemma ApplyGone(s: State, step: Step, side: Side, id: int)
    requires Core(s) && ProperIds(s, step) && Used(s, id) && id !in Ids(s.book.Queue(side))
    ensures Used(Apply(s, step), id) && id !in Ids(Apply(s, step).book.Queue(side))
  {
    UsedOnce(s, step, id);
    match step
    case Place(o) => PlaceGone(s, o, side, id);
    case CancelId(x) => if x in s.book.index { CancelBookOk(s.book, x); }
    case _ =>
  }

  lemma {:induction false} RunGone(s: State, steps: seq<Step>, side: Side, id: int)
    requires Core(s) && ProperRun(s, steps) && Used(s, id) && id !in Ids(s.book.Queue(side))
    ensures id !in Ids(Run(s, steps).book.Queue(side))
    decreases |steps|
  {
    if steps != [] {
      ApplyGone(s, steps[0], side, id);
      ApplyCore(s, steps[0]);
      RunGone(Apply(s, steps[0]), steps[1..], side, id);
    }
  }

  // ----- whole runs

  /** Two resting orders never change places. */
  lemma {:induction false} StaysAhead(s: State, steps: seq<Step>, side: Side, a: int, b: int)
    requires Core(s) && ProperRun(s, steps) && Ahead(s.book.Queue(side), a, b)
    requires var q := Run(s, steps).book.Queue(side); a in Ids(q) && b in Ids(q)
    ensures Ahead(Run(s, steps).book.Queue(side), a, b)
    decreases |steps|
  {
    if steps != [] {
      var t := Apply(s, steps[0]);
      AheadMembers(s.book.Queue(side), a, b);
      RestingUsed(s, side, a);
      RestingUsed(s, side, b);
      ApplyCore(s, steps[0]);
      StaysHere(s, steps, side, a);
      StaysHere(s, steps, side, b);
      ApplyAhead(s, steps[0], side, a, b);
      StaysAhead(t, steps[1..], side, a, b);
    }
  }

  /** What rests before and after rests in between. */
  lemma StaysHere(s: State, steps: seq<Step>, side: Side, id: int)
    requires Core(s) && ProperRun(s, steps) && steps != [] && Used(s, id)
    requires id in Ids(Run(s, steps).book.Queue(side))
    ensures id in Ids(s.book.Queue(side)) && id in Ids(Apply(s, steps[0]).book.Queue(side))
  {
    var t := Apply(s, steps[0]);
    ApplyCore(s, steps[0]);
    if id !in Ids(s.book.Queue(side)) { RunGone(s, steps, side, id); }
    UsedOnce(s, steps[0], id);
    if id !in Ids(t.book.Queue(side)) { RunGone(t, steps[1..], side, id); }
  }

  /** An order trades only when everything ahead of it is gone. */
  lemma ServedInOrder(s: State, o: Order, side: Side, a: int, b: int)
    requires Core(s) && ProperIds(s, Place(o)) && Ahead(s.book.Queue(side), a, b)
    requires exists t <- Process(s, o).1.trades :: t.makerId == b
    ensures a !in Ids(Process(s, o).0.book.Queue(side))
  {
    if Admits(s, o) {
      AcceptedOutcome(s, o);
      ResultTrades(s, o);
      AheadMembers(s.book.Queue(side), a, b);
      MakerSliced(Process(s, o).1.trades, b);
      assert s.book.Queue(side) == Opposing(s, o);
      TakeAhead(side, Opposing(s, o), Takes(Opposing(s, o), o), a, b);
    } else {
      RefusedUnchanged(s, o);
    }
  }

  lemma MakerSliced(ts: seq<Trade>, id: int)
    requires exists t <- ts :: t.makerId == id
    ensures exists x <- SlicesOf(ts) :: x.order == id
  {
    if ts[0].makerId == id {
      assert SlicesOf(ts)[0].order == id;
    } else {
      assert ts == [ts[0]] + ts[1..];
      MakerSliced(ts[1..], id);
      var x :| x in SlicesOf(ts[1..]) && x.order == id;
      assert x in SlicesOf(ts);
    }
  }

  lemma JoinsBehind(s: State, p: Order, a: Order)
    requires Core(s) && ProperIds(s, Place(p)) && a in s.book.Queue(p.side)
    requires p.id in Ids(Process(s, p).0.book.Queue(p.side))
    ensures var q := Process(s, p).0.book.Queue(p.side);
            if Before(p.side, p.price, a.price) then Ahead(q, p.id, a.id) else Ahead(q, a.id, p.id)
  {
    OpenedCore(s, p);
    NotResting(s.book, p.id);
    if Admits(s, p) {
      AcceptedOutcome(s, p);
      InsertPlace(p.side, s.book.Queue(p.side), p.(qty := p.qty - Takes(Opposing(s, p), p)), a);
    } else {
      RefusedUnchanged(s, p);
    }
  }

  lemma ServedOverRun(s: State, steps: seq<Step>, o: Order, side: Side, a: int, b: int)
    requires Core(s) && Ahead(s.book.Queue(side), a, b)
    requires ProperRun(s, steps) && ProperIds(Run(s, steps), Place(o))
    ensures var (t, r) := Process(Run(s, steps), o);
            (exists x <- r.trades :: x.makerId == b) ==> a !in Ids(t.book.Queue(side))
  {
    var u := Run(s, steps);
    AheadMembers(s.book.Queue(side), a, b);
    RestingUsed(s, side, a);
    RestingUsed(s, side, b);
    RunCore(s, steps);
    RunUsed(s, steps, a);
    if a !in Ids(u.book.Queue(side)) {
      ApplyGone(u, Place(o), side, a);
    } else if exists x <- Process(u, o).1.trades :: x.makerId == b {
      MakerRests(u, o, b);
      RunGone(s, steps, Opposite(side), b);
      assert b in Ids(u.book.Queue(side));
      StaysAhead(s, steps, side, a, b);
      ServedInOrder(u, o, side, a, b);
    }
  }

  lemma MakerRests(s: State, o: Order, id: int)
    requires Core(s) && ProperIds(s, Place(o)) && exists t <- Process(s, o).1.trades :: t.makerId == id
    ensures id in Ids(Opposing(s, o))
  {
    if Admits(s, o) { ResultTrades(s, o); } else { RefusedUnchanged(s, o); }
  }

  lemma {:induction false} RunUsed(s: State, steps: seq<Step>, id: int)
    requires Used(s, id)
    ensures Used(Run(s, steps), id)
    decreases |steps|
  {
    if steps != [] {
      UsedOnce(s, steps[0], id);
      RunUsed(Apply(s, steps[0]), steps[1..], id);
    }
  }

  /** First come, first served: when order p comes in while order a rests on its side at a price at least
      as good, p trades from the book in a later call only if a does not rest after that call, whatever
      happens in between. A better-priced p overtakes: then a trades only once p is gone. */
  lemma FirstComeFirstServed(s: State, p: Order, a: Order, steps: seq<Step>, o: Order)
    requires Core(s) && ProperIds(s, Place(p)) && a in s.book.Queue(p.side)
    requires ProperRun(Process(s, p).0, steps) && ProperIds(Run(Process(s, p).0, steps), Place(o))
    ensures var (t, r) := Process(Run(Process(s, p).0, steps), o);
            var overtakes := if p.side == Buy then p.price > a.price else p.price < a.price;
            var (first, second) := if overtakes then (p.id, a.id) else (a.id, p.id);
            (exists x <- r.trades :: x.makerId == second) ==> first !in Ids(t.book.Queue(p.side))
  {
    var t := Process(s, p).0;
    PlaceCore(s, p);
    if p.id in Ids(t.book.Queue(p.side)) {
      var (first, second) := if Before(p.side, p.price, a.price) then (p.id, a.id) else (a.id, p.id);
      JoinsBehind(s, p, a);
      ServedOverRun(t, steps, o, p.side, first, second);
    } else {
      UsedOnce(s, Place(p), p.id);
      OpenedCore(s, p);
      NotResting(s.book, p.id);
      PlaceGone(s, p, Opposite(p.side), p.id);
      NeverServed(t, steps, o, p.side, p.id);
    }
  }

  /** What has left the book neither rests nor trades again. */
  lemma NeverServed(s: State, steps: seq<Step>, o: Order, side: Side, id: int)
    requires Core(s) && Used(s, id)
    requires id !in Ids(s.book.Queue(side)) && id !in Ids(s.book.Queue(Opposite(side)))
    requires ProperRun(s, steps) && ProperIds(Run(s, steps), Place(o))
    ensures var (t, r) := Process(Run(s, steps), o);
            id !in Ids(t.book.Queue(side)) && forall x <- r.trades :: x.makerId != id
  {
    var u := Run(s, steps);
    RunCore(s, steps);
    RunUsed(s, steps, id);
    RunGone(s, steps, side, id);
    RunGone(s, steps, Opposite(side), id);
    ApplyGone(u, Place(o), side, id);
    if exists x <- Process(u, o).1.trades :: x.makerId == id { MakerRests(u, o, id); }
  }
}
