/** One side of the book, flattened to price-then-arrival order. This is the view in which the
    exchange is specified; module Levels relates it to the price levels the book really stores. */
module Queues {
  import opened Types

  ghost predicate Sorted(side: Side, q: seq<Order>) {
    forall i, j :: 0 <= i < j < |q| ==> !Before(side, q[j].price, q[i].price)
  }

  ghost predicate UniqueIds(q: seq<Order>) {
    forall i, j :: 0 <= i < j < |q| ==> q[i].id != q[j].id
  }

  ghost predicate WellPlaced(side: Side, o: Order) {
    o.side == side && o.qty > 0 && o.price > 0
  }

  ghost predicate QueueOk(side: Side, q: seq<Order>) {
    && Sorted(side, q)
    && UniqueIds(q)
    && forall o <- q :: WellPlaced(side, o)
  }

  function Ids(q: seq<Order>): set<int> {
    set o | o in q :: o.id
  }

  /** Behind every order at least as good, in front of every strictly worse one. */
  function Insert(side: Side, q: seq<Order>, o: Order): seq<Order> {
    if q == [] || Before(side, o.price, q[0].price) then [o] + q
    else [q[0]] + Insert(side, q[1..], o)
  }

  /** Deletes the first order with this id, found by linear search. */
  function Remove(q: seq<Order>, id: int): seq<Order> {
    if q == [] then []
    else if q[0].id == id then q[1..]
    else [q[0]] + Remove(q[1..], id)
  }

  function Find(q: seq<Order>, id: int): (r: Option<Order>)
    ensures r.Some? <==> id in Ids(q)
    ensures r.Some? ==> r.value in q && r.value.id == id
  {
    if q == [] then None
    else if q[0].id == id then assert q[0] in q; Some(q[0])
    else
      assert q == [q[0]] + q[1..];
      Find(q[1..], id)
  }

  /** n units leave the head order; an emptied head is popped. */
  function TakeHead(q: seq<Order>, n: int): seq<Order>
    requires q != []
  {
    if q[0].qty == n then q[1..] else [q[0].(qty := q[0].qty - n)] + q[1..]
  }

  // ----- weighted totals: depth, reserved cash and reserved shares are all instances

  function Total(q: seq<Order>, weight: Order -> int): int {
    if q == [] then 0 else weight(q[0]) + Total(q[1..], weight)
  }

  function Units(): Order -> int { (o: Order) => o.qty }

  function CashOf(u: int): Order -> int { (o: Order) => if o.user == u then o.price * o.qty else 0 }

  function SharesOf(u: int): Order -> int { (o: Order) => if o.user == u then o.qty else 0 }

  function Depth(q: seq<Order>): int { Total(q, Units()) }

  lemma TotalInsert(side: Side, q: seq<Order>, o: Order, weight: Order -> int)
    ensures Total(Insert(side, q, o), weight) == Total(q, weight) + weight(o)
  {
    if q == [] || Before(side, o.price, q[0].price) {
      assert ([o] + q)[1..] == q;
    } else {
      TotalInsert(side, q[1..], o, weight);
      assert ([q[0]] + Insert(side, q[1..], o))[1..] == Insert(side, q[1..], o);
    }
  }

  lemma TotalRemove(q: seq<Order>, id: int, weight: Order -> int)
    requires id in Ids(q)
    ensures Total(Remove(q, id), weight) == Total(q, weight) - weight(Find(q, id).value)
  {
    if q[0].id != id {
      assert Find(q, id).Some?;
      TotalRemove(q[1..], id, weight);
      assert ([q[0]] + Remove(q[1..], id))[1..] == Remove(q[1..], id);
    }
  }

  lemma TotalTakeHead(q: seq<Order>, n: int, weight: Order -> int)
    requires q != []
    requires weight(q[0].(qty := 0)) == 0
    ensures Total(TakeHead(q, n), weight)
         == Total(q, weight) - weight(q[0]) + weight(q[0].(qty := q[0].qty - n))
  {
  }

  // ----- membership

  lemma InsertMembers(side: Side, q: seq<Order>, o: Order)
    ensures forall x :: x in Insert(side, q, o) <==> x == o || x in q
    ensures Ids(Insert(side, q, o)) == Ids(q) + {o.id}
  {
    if q != [] && !Before(side, o.price, q[0].price) {
      InsertMembers(side, q[1..], o);
      assert q == [q[0]] + q[1..];
    }
    assert o in Insert(side, q, o);
    assert forall x <- Insert(side, q, o) :: x.id in Ids(q) + {o.id};
  }

  lemma RemoveMembers(q: seq<Order>, id: int)
    requires UniqueIds(q)
    ensures forall x :: x in Remove(q, id) <==> x in q && x.id != id
    ensures Ids(Remove(q, id)) == Ids(q) - {id}
  {
    if q != [] {
      assert q == [q[0]] + q[1..];
      if q[0].id == id {
        assert forall x <- q[1..] :: x.id != id;
      } else {
        RemoveMembers(q[1..], id);
      }
    }
  }

  lemma TakeHeadMembers(q: seq<Order>, n: int)
    requires q != [] && UniqueIds(q)
    ensures var q' := TakeHead(q, n);
            && (forall x :: x in q' <==>
                  (x in q && x.id != q[0].id) || (q[0].qty != n && x == q[0].(qty := q[0].qty - n)))
            && Ids(q') == if q[0].qty == n then Ids(q) - {q[0].id} else Ids(q)
  {
  }

  lemma FindUnique(q: seq<Order>, o: Order)
    requires UniqueIds(q) && o in q
    ensures Find(q, o.id) == Some(o)
  {
  }

  // ----- the shape of a queue is kept by the three operations

  lemma PrependOrdered(side: Side, o: Order, q: seq<Order>)
    requires Sorted(side, q) && UniqueIds(q)
    requires forall x <- q :: x.id != o.id && !Before(side, x.price, o.price)
    ensures Sorted(side, [o] + q) && UniqueIds([o] + q)
  {
  }

  lemma InsertOrdered(side: Side, q: seq<Order>, o: Order)
    requires Sorted(side, q) && UniqueIds(q) && o.id !in Ids(q)
    ensures Sorted(side, Insert(side, q, o)) && UniqueIds(Insert(side, q, o))
  {
    forall x | x in q ensures x.id != o.id { assert x.id in Ids(q); }
    if q != [] && !Before(side, o.price, q[0].price) {
      assert q == [q[0]] + q[1..];
      InsertOrdered(side, q[1..], o);
      InsertMembers(side, q[1..], o);
      assert q[0].id in Ids(q);
      PrependOrdered(side, q[0], Insert(side, q[1..], o));
    } else {
      PrependOrdered(side, o, q);
    }
  }

  lemma InsertOk(side: Side, q: seq<Order>, o: Order)
    requires QueueOk(side, q) && WellPlaced(side, o) && o.id !in Ids(q)
    ensures QueueOk(side, Insert(side, q, o))
  {
    InsertOrdered(side, q, o);
    InsertMembers(side, q, o);
  }

  lemma RemoveOk(side: Side, q: seq<Order>, id: int)
    requires QueueOk(side, q)
    ensures QueueOk(side, Remove(q, id))
  {
    RemoveMembers(q, id);
    if q != [] && q[0].id != id {
      assert q == [q[0]] + q[1..];
      RemoveOk(side, q[1..], id);
      RemoveMembers(q[1..], id);
      PrependOrdered(side, q[0], Remove(q[1..], id));
    }
  }

  lemma TakeHeadOk(side: Side, q: seq<Order>, n: int)
    requires QueueOk(side, q) && q != [] && 0 < n <= q[0].qty
    ensures QueueOk(side, TakeHead(q, n))
    ensures TakeHead(q, n) != [] ==> !Before(side, TakeHead(q, n)[0].price, q[0].price)
  {
    TakeHeadMembers(q, n);
    var q' := TakeHead(q, n);
    if q[0].qty != n {
      assert forall i :: 0 < i < |q| ==> q'[i] == q[i];
      assert WellPlaced(side, q[0]);
    }
  }

  /** A new best price is the order just inserted, if it is strictly better than the old one. */
  lemma InsertHead(side: Side, q: seq<Order>, o: Order)
    ensures Insert(side, q, o)[0] == if q == [] || Before(side, o.price, q[0].price) then o else q[0]
  {
  }

  /** Inserting a new id and then deleting it leaves the queue as it was. */
  lemma RemoveInserted(side: Side, q: seq<Order>, o: Order)
    requires o.id !in Ids(q)
    ensures Remove(Insert(side, q, o), o.id) == q
    ensures Find(Insert(side, q, o), o.id) == Some(o)
  {
    if q == [] || Before(side, o.price, q[0].price) {
      assert ([o] + q)[1..] == q;
    } else {
      assert q == [q[0]] + q[1..];
      assert q[0].id in Ids(q);
      assert forall x <- q[1..] :: x in q;
      RemoveInserted(side, q[1..], o);
      assert Insert(side, q, o)[1..] == Insert(side, q[1..], o);
    }
  }
}
