/** One side of the book as it is stored: an ordered map from price to a FIFO list of orders
    (core/src/book/order_book.hpp:61-65). The ordered map is its sequence of entries, best price first. */
module Levels {
  import opened Types
  import opened Queues

  datatype Level = Level(price: int, orders: seq<Order>)

  /** The keys of the ordered map: strictly from best to worst. */
  ghost predicate Ordered(side: Side, ls: seq<Level>) {
    forall i, j :: 0 <= i < j < |ls| ==> Before(side, ls[i].price, ls[j].price)
  }

  ghost predicate Filed(l: Level) {
    forall o <- l.orders :: o.price == l.price
  }

  /** Between calls no level is empty and every order sits under its own price. */
  ghost predicate Tidy(side: Side, ls: seq<Level>) {
    && Ordered(side, ls)
    && forall l <- ls :: l.orders != [] && Filed(l)
  }

  function Flatten(ls: seq<Level>): seq<Order> {
    if ls == [] then [] else ls[0].orders + Flatten(ls[1..])
  }

  /** levels[o.price].push_back(o), where operator[] creates a missing level. */
  function PushBack(side: Side, ls: seq<Level>, o: Order): seq<Level> {
    if ls == [] || Before(side, o.price, ls[0].price) then [Level(o.price, [o])] + ls
    else if ls[0].price == o.price then [Level(o.price, ls[0].orders + [o])] + ls[1..]
    else [ls[0]] + PushBack(side, ls[1..], o)
  }

  /** Erases one list node, and its level once that is empty. */
  function Erase(ls: seq<Level>, price: int, id: int): seq<Level> {
    if ls == [] then []
    else if ls[0].price == price then
      var rest := Remove(ls[0].orders, id);
      if rest == [] then ls[1..] else [Level(price, rest)] + ls[1..]
    else [ls[0]] + Erase(ls[1..], price, id)
  }

  /** Dereferences a list node. */
  function NodeAt(ls: seq<Level>, price: int, id: int): Option<Order> {
    if ls == [] then None
    else if ls[0].price == price then Find(ls[0].orders, id)
    else NodeAt(ls[1..], price, id)
  }

  // ----- flattening

  lemma FlattenHead(ls: seq<Level>)
    requires ls != [] && ls[0].orders != []
    ensures Flatten(ls) != [] && Flatten(ls)[0] == ls[0].orders[0]
    ensures Flatten(ls)[1..] == ls[0].orders[1..] + Flatten(ls[1..])
  {
  }

  lemma FlattenMembers(ls: seq<Level>)
    ensures forall o :: o in Flatten(ls) <==> exists l <- ls :: o in l.orders
  {
    if ls != [] {
      FlattenMembers(ls[1..]);
      assert ls == [ls[0]] + ls[1..];
      forall o ensures o in Flatten(ls) <==> exists l <- ls :: o in l.orders {
        if o in ls[0].orders {
          assert ls[0] in ls;
        }
      }
    }
  }

  lemma TailTidy(side: Side, ls: seq<Level>)
    requires ls != [] && Tidy(side, ls)
    ensures Tidy(side, ls[1..])
    ensures forall o <- Flatten(ls[1..]) :: Before(side, ls[0].price, o.price)
  {
    FlattenMembers(ls[1..]);
    forall o | o in Flatten(ls[1..]) ensures Before(side, ls[0].price, o.price) {
      var l :| l in ls[1..] && o in l.orders;
      assert l in ls && Filed(l);
    }
  }

  /** A tidy side flattens to a queue sorted by price priority. */
  lemma FlattenSorted(side: Side, ls: seq<Level>)
    requires Tidy(side, ls)
    ensures Sorted(side, Flatten(ls))
  {
    if ls != [] {
      TailTidy(side, ls);
      FlattenSorted(side, ls[1..]);
      assert ls[0] in ls && Filed(ls[0]);
      forall i, j | 0 <= i < j < |Flatten(ls)|
        ensures !Before(side, Flatten(ls)[j].price, Flatten(ls)[i].price)
      {
        var n := |ls[0].orders|;
        assert i < n ==> Flatten(ls)[i] == ls[0].orders[i];
        assert j < n ==> Flatten(ls)[j] == ls[0].orders[j];
        assert i >= n ==> Flatten(ls)[i] == Flatten(ls[1..])[i - n];
        assert j >= n ==> Flatten(ls)[j] == Flatten(ls[1..])[j - n];
      }
    }
  }

  /** Nothing of the level structure is lost by flattening it. */
  lemma {:induction false} FlattenInjective(side: Side, ls: seq<Level>, ms: seq<Level>)
    requires Tidy(side, ls) && Tidy(side, ms) && Flatten(ls) == Flatten(ms)
    ensures ls == ms
  {
    if ls == [] || ms == [] {
      if ls != [] { assert ls[0] in ls; FlattenHead(ls); }
      if ms != [] { assert ms[0] in ms; FlattenHead(ms); }
    } else {
      assert ls[0] in ls && Filed(ls[0]) && ms[0] in ms && Filed(ms[0]);
      FlattenHead(ls);
      FlattenHead(ms);
      TailTidy(side, ls);
      TailTidy(side, ms);
      FirstLevel(side, ls);
      FirstLevel(side, ms);
      assert |ls[0].orders| == |ms[0].orders|;
      assert ls[0].orders == Flatten(ls)[..|ls[0].orders|];
      assert ms[0].orders == Flatten(ms)[..|ms[0].orders|];
      assert Flatten(ls[1..]) == Flatten(ls)[|ls[0].orders|..];
      assert Flatten(ms[1..]) == Flatten(ms)[|ms[0].orders|..];
      FlattenInjective(side, ls[1..], ms[1..]);
      assert ls == [ls[0]] + ls[1..] && ms == [ms[0]] + ms[1..];
    }
  }

  /** The first level of a flattened side ends where the price changes. */
  lemma FirstLevel(side: Side, ls: seq<Level>)
    requires ls != [] && Tidy(side, ls)
    ensures forall i :: 0 <= i < |ls[0].orders| ==> Flatten(ls)[i].price == ls[0].price
    ensures var n := |ls[0].orders|; n < |Flatten(ls)| ==> Flatten(ls)[n].price != ls[0].price
  {
  }

  // ----- the two mutations refine Insert and Remove on the flat queue

  lemma InsertPast(side: Side, front: seq<Order>, back: seq<Order>, o: Order)
    requires forall x <- front :: !Before(side, o.price, x.price)
    ensures Insert(side, front + back, o) == front + Insert(side, back, o)
  {
    if front == [] {
      assert front + back == back;
    } else {
      assert front[0] in front;
      assert (front + back)[1..] == front[1..] + back;
      InsertPast(side, front[1..], back, o);
    }
  }

  lemma PushBackTidy(side: Side, ls: seq<Level>, o: Order)
    requires Tidy(side, ls)
    ensures Tidy(side, PushBack(side, ls, o))
    ensures forall l <- PushBack(side, ls, o) :: l.price == o.price || exists m <- ls :: m.price == l.price
  {
    var ms := PushBack(side, ls, o);
    if ls != [] && !Before(side, o.price, ls[0].price) {
      assert ls[0] in ls && Filed(ls[0]);
      if ls[0].price != o.price {
        TailTidy(side, ls);
        PushBackTidy(side, ls[1..], o);
        forall l | l in ms[1..] ensures Before(side, ls[0].price, l.price) {
          assert l.price == o.price || exists m <- ls[1..] :: m.price == l.price;
        }
      }
    }
  }

  lemma {:induction false} PushBackRefines(side: Side, ls: seq<Level>, o: Order)
    requires Tidy(side, ls)
    ensures Flatten(PushBack(side, ls, o)) == Insert(side, Flatten(ls), o)
  {
    if ls == [] {
    } else {
      assert ls[0] in ls && Filed(ls[0]);
      FlattenHead(ls);
      if Before(side, o.price, ls[0].price) {
        assert PushBack(side, ls, o)[1..] == ls;
      } else {
        TailTidy(side, ls);
        InsertPast(side, ls[0].orders, Flatten(ls[1..]), o);
        if ls[0].price == o.price {
          var tail := Flatten(ls[1..]);
          assert tail != [] ==> tail[0] in tail;
          assert PushBack(side, ls, o)[1..] == ls[1..];
          assert (ls[0].orders + [o]) + tail == ls[0].orders + ([o] + tail);
        } else {
          PushBackRefines(side, ls[1..], o);
          assert PushBack(side, ls, o)[1..] == PushBack(side, ls[1..], o);
        }
      }
    }
  }

  lemma RemovePast(front: seq<Order>, back: seq<Order>, id: int)
    requires id !in Ids(front)
    ensures Remove(front + back, id) == front + Remove(back, id)
    ensures Find(front + back, id) == Find(back, id)
  {
    if front == [] {
      assert front + back == back;
    } else {
      assert front[0].id in Ids(front);
      assert forall o <- front[1..] :: o in front;
      assert (front + back)[1..] == front[1..] + back;
      RemovePast(front[1..], back, id);
    }
  }

  lemma RemoveWithin(front: seq<Order>, back: seq<Order>, id: int)
    requires id in Ids(front)
    ensures Remove(front + back, id) == Remove(front, id) + back
    ensures Find(front + back, id) == Find(front, id)
  {
    assert (front + back)[1..] == front[1..] + back;
    if front[0].id != id {
      assert front == [front[0]] + front[1..];
      RemoveWithin(front[1..], back, id);
    }
  }

  /** Erasing through a correct locator is deleting the id from the flat queue, and
      dereferencing it is finding the id there. */
  lemma {:induction false} EraseRefines(side: Side, ls: seq<Level>, price: int, id: int)
    requires Tidy(side, ls)
    requires exists o <- Flatten(ls) :: o.id == id
    requires forall o <- Flatten(ls) :: o.id == id ==> o.price == price
    ensures Flatten(Erase(ls, price, id)) == Remove(Flatten(ls), id)
    ensures NodeAt(ls, price, id) == Find(Flatten(ls), id)
  {
    assert ls != [];
    var head, tail := ls[0].orders, Flatten(ls[1..]);
    assert ls[0] in ls && Filed(ls[0]);
    assert Flatten(ls) == head + tail;
    TailTidy(side, ls);
    if ls[0].price == price {
      assert forall o <- tail :: o in Flatten(ls);
      RemoveWithin(head, tail, id);
      var rest := Remove(head, id);
      if rest == [] {
        assert rest + tail == tail;
      } else {
        assert Erase(ls, price, id)[1..] == ls[1..];
      }
    } else {
      assert forall o <- head :: o in Flatten(ls);
      RemovePast(head, tail, id);
      EraseRefines(side, ls[1..], price, id);
      assert Erase(ls, price, id)[1..] == Erase(ls[1..], price, id);
    }
  }

  lemma EraseTidy(side: Side, ls: seq<Level>, price: int, id: int)
    requires Tidy(side, ls)
    ensures Tidy(side, Erase(ls, price, id))
    ensures forall l <- Erase(ls, price, id) :: exists m <- ls :: m.price == l.price
  {
    if ls != [] {
      assert ls[0] in ls && Filed(ls[0]);
      TailTidy(side, ls);
      if ls[0].price == price {
        RemoveSubset(ls[0].orders, id);
      } else {
        EraseTidy(side, ls[1..], price, id);
        var ms := Erase(ls, price, id);
        forall l | l in ms[1..] ensures Before(side, ls[0].price, l.price) {
          var m :| m in ls[1..] && m.price == l.price;
        }
      }
    }
  }

  lemma RemoveSubset(q: seq<Order>, id: int)
    ensures forall x <- Remove(q, id) :: x in q
  {
    if q != [] && q[0].id != id {
      RemoveSubset(q[1..], id);
    }
  }

  // ----- while a level is being matched its list may run empty

  ghost predicate FrontOpen(side: Side, ls: seq<Level>) {
    && ls != []
    && Ordered(side, ls)
    && Filed(ls[0])
    && forall l <- ls[1..] :: l.orders != [] && Filed(l)
  }

  /** cleanup_best_..._level_if_empty */
  function DropEmptyFront(ls: seq<Level>): seq<Level> {
    if ls != [] && ls[0].orders == [] then ls[1..] else ls
  }

  lemma CleanupRefines(side: Side, ls: seq<Level>)
    requires FrontOpen(side, ls)
    ensures Tidy(side, DropEmptyFront(ls))
    ensures Flatten(DropEmptyFront(ls)) == Flatten(ls)
  {
  }

  function WithFront(ls: seq<Level>, orders: seq<Order>): seq<Level>
    requires ls != []
  {
    ls[0 := Level(ls[0].price, orders)]
  }

  lemma TakeHeadAppend(front: seq<Order>, back: seq<Order>, n: int)
    requires front != []
    ensures TakeHead(front + back, n) == TakeHead(front, n) + back
  {
  }

  /** A fill at the front of the best level is a fill at the head of the flat queue. */
  lemma FrontFillRefines(side: Side, ls: seq<Level>, n: int)
    requires FrontOpen(side, ls) && ls[0].orders != []
    ensures Flatten(ls) != [] && Flatten(ls)[0] == ls[0].orders[0] && ls[0].orders[0].price == ls[0].price
    ensures var ms := WithFront(ls, TakeHead(ls[0].orders, n));
            FrontOpen(side, ms) && Flatten(ms) == TakeHead(Flatten(ls), n)
  {
    var head, tail := ls[0].orders, Flatten(ls[1..]);
    var ms := WithFront(ls, TakeHead(head, n));
    assert ms[1..] == ls[1..];
    assert head[0] in head;
    TakeHeadAppend(head, tail, n);
    assert Filed(ms[0]) by {
      assert forall o <- head[1..] :: o in head;
    }
  }

  lemma TidyFront(side: Side, ls: seq<Level>)
    requires Tidy(side, ls) && ls != []
    ensures FrontOpen(side, ls) && ls[0].orders != []
    ensures Flatten(ls) != [] && Flatten(ls)[0].price == ls[0].price
  {
  }
}
