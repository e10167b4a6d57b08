/** The order-event log tells the whole story of every order: reading it from the start, checking each
    event against what came before, ends with exactly the orders that rest in the book. */
module LogReplay {
  import opened Types
  import opened Queues
  import opened Exchange
  import opened Invariants
  import opened Greedy
  import opened Execution

  /** What the log knows of an order: how much of it is left, and whose it is and where it is quoted. */
  datatype Life = Live(tag: Tag, remaining: int) | Ended(status: OrderStatus)

  datatype Tag = Tag(user: int, side: Side, price: int)

  type Lives = map<int, Life>

  function TagOf(o: Order): Tag { Tag(o.user, o.side, o.price) }

  function TagOn(e: OrderEvent): Tag { Tag(e.user, e.side, e.price) }

  /** A fill of a live order, under its own user, side and price, for what it says is left. */
  predicate Continues(m: Lives, e: OrderEvent) {
    && e.orderId in m && m[e.orderId].Live? && 0 < e.qty
    && m[e.orderId] == Live(TagOn(e), e.remaining + e.qty)
  }

  /** One event, accepted only if it continues its order's story. */
  function Note(m: Lives, e: OrderEvent): Option<Lives> {
    var id := e.orderId;
    match e.status
    case New =>
      if id !in m && e.remaining == e.qty && 0 < e.qty
      then Some(m[id := Live(TagOn(e), e.qty)]) else None
    case PartiallyFilled =>
      if Continues(m, e) && 0 < e.remaining then Some(m[id := m[id].(remaining := e.remaining)]) else None
    case Filled =>
      if Continues(m, e) && 0 == e.remaining then Some(m[id := Ended(Filled)]) else None
    case Canceled =>
      if id in m ==> m[id].Live? && m[id].tag.user == e.user then Some(m[id := Ended(Canceled)]) else None
    case Rejected =>
      if id !in m then Some(m[id := Ended(Rejected)]) else None
  }

  /** Reads a log, starting from the quantities of the orders that were seeded without events. */
  function Replay(seeded: Lives, events: seq<OrderEvent>): Option<Lives> {
    if events == [] then Some(seeded)
    else
      var n := |events| - 1;
      match Replay(seeded, events[..n])
      case None => None
      case Some(m) => Note(m, events[n])
  }

  lemma ReplayNext(seeded: Lives, events: seq<OrderEvent>, e: OrderEvent)
    requires Replay(seeded, events).Some?
    ensures Replay(seeded, events + [e]) == Note(Replay(seeded, events).value, e)
  {
  }

  /** The lives agree with the book: what rests is live as it rests; what is live rests, except the
      market orders (odd) whose remainder was dropped; what is indexed but gone was filled. */
  ghost predicate Tracks(b: Book, m: Lives, odd: set<int>) {
    && (forall side: Side, o | o in b.Queue(side) :: o.id in m && m[o.id] == Live(TagOf(o), o.qty))
    && (forall id <- m :: m[id].Live? && id !in odd ==> Resting(b, id))
    && (forall id <- odd :: id in m && m[id].Live? && !Resting(b, id))
    && (forall id <- b.index :: Resting(b, id) || (id in m && m[id] == Ended(Filled)))
  }

  /** Events are numbered from 1 without gaps, and carry batch ids already drawn. */
  ghost predicate Numbered(j: Journal) {
    && j.eventSeq == |j.events| + 1
    && (forall i :: 0 <= i < |j.events| ==> j.events[i].seqNo == i + 1)
    && (forall e <- j.events :: e.batchId < j.batchSeq)
  }

  ghost predicate LogOk(s: State, seeded: Lives, odd: set<int>) {
    && Numbered(s.journal)
    && Replay(seeded, s.journal.events).Some?
    && var m := Replay(seeded, s.journal.events).value;
       && Tracks(s.book, m, odd)
       && (forall id <- m :: id in s.ledger.owner || id < FIRST_ORDER_ID)
  }

  function LivesOf(s: State, seeded: Lives): Lives {
    match Replay(seeded, s.journal.events)
    case None => map[]
    case Some(m) => m
  }

  lemma EmitNumbered(j: Journal, batch: int, id: int, user: int, status: OrderStatus, side: Side,
                     price: int, qty: int, remaining: int)
    requires Numbered(j) && batch < j.batchSeq
    ensures Numbered(Emit(j, batch, id, user, status, side, price, qty, remaining))
  {
  }

  /** A call that logs one event keeps the log in order if the event fits the lives and the new lives fit
      the book. */
  lemma LogEvent(s: State, t: State, e: OrderEvent, m: Lives, seeded: Lives, odd: set<int>)
    requires LogOk(s, seeded, odd) && Numbered(t.journal)
    requires t.journal.events == s.journal.events + [e] && t.ledger.owner == s.ledger.owner
    requires Note(LivesOf(s, seeded), e) == Some(m) && e.orderId in LivesOf(s, seeded)
    requires Tracks(t.book, m, odd)
    ensures LogOk(t, seeded, odd) && LivesOf(t, seeded) == m
  {
  }

  // ----- one fill

  /** What the log knows of the head order before and after a fill of n units. */
  function AfterFill(m: Lives, maker: Order, n: int): Lives {
    m[maker.id := if maker.qty == n then Ended(Filled) else Live(TagOf(maker), maker.qty - n)]
  }

  lemma FillTracks(b: Book, side: Side, n: int, m: Lives, odd: set<int>)
    requires BookOk(b) && IndexOk(b) && b.Queue(side) != [] && 0 < n <= b.Queue(side)[0].qty
    requires Tracks(b, m, odd)
    ensures Tracks(b.WithQueue(side, TakeHead(b.Queue(side), n)), AfterFill(m, b.Queue(side)[0], n), odd)
  {
    var q := b.Queue(side);
    var c := b.WithQueue(side, TakeHead(q, n));
    TakeHeadMembers(q, n);
    assert q[0] in q;
    var m' := AfterFill(m, q[0], n);
    assert Ids(b.Queue(Buy)) !! Ids(b.Queue(Sell));
    forall sd: Side, o | o in c.Queue(sd) ensures o.id in m' && m'[o.id] == Live(TagOf(o), o.qty) {
      if o in b.Queue(sd) {
        assert m[o.id] == Live(TagOf(o), o.qty);
        if sd != side { assert o.id in Ids(b.Queue(sd)) && q[0].id in Ids(q); }
      }
    }
    assert c.Queue(Opposite(side)) == b.Queue(Opposite(side));
    assert forall id :: Resting(b, id) <==> id in Ids(b.Queue(side)) || id in Ids(b.Queue(Opposite(side)));
    assert forall id :: Resting(c, id) <==> id in Ids(c.Queue(side)) || id in Ids(c.Queue(Opposite(side)));
  }

  lemma FillNote(m: Lives, maker: Order, n: int, e: OrderEvent)
    requires maker.id in m && m[maker.id] == Live(TagOf(maker), maker.qty) && 0 < n <= maker.qty
    requires e.orderId == maker.id && TagOn(e) == TagOf(maker)
    requires e.qty == n && e.remaining == maker.qty - n
    requires e.status == if maker.qty == n then Filled else PartiallyFilled
    ensures Note(m, e) == Some(AfterFill(m, maker, n))
  {
  }

  /** The event a fill logs for its maker. */
  function MakerEvent(s: State, taker: Order, batch: int): OrderEvent
    requires CanFill(s, taker)
  {
    var maker, n := s.book.Queue(Opposite(taker.side))[0], FillSize(s, taker);
    OrderEvent(s.journal.eventSeq, batch, maker.id, maker.user, if maker.qty == n then Filled else PartiallyFilled,
               maker.side, maker.price, n, maker.qty - n)
  }

  lemma FillParts(s: State, taker: Order, batch: int)
    requires CanFill(s, taker)
    ensures var t, side := Fill(s, taker, batch), Opposite(taker.side);
            && t.book == s.book.WithQueue(side, TakeHead(s.book.Queue(side), FillSize(s, taker)))
            && t.ledger.owner == s.ledger.owner
            && t.journal.events == s.journal.events + [MakerEvent(s, taker, batch)]
            && (Numbered(s.journal) && batch < s.journal.batchSeq ==> Numbered(t.journal))
  {
  }

  lemma FillLog(s: State, taker: Order, batch: int, seeded: Lives, odd: set<int>)
    requires BookOk(s.book) && IndexOk(s.book) && OwnersOk(s) && CanFill(s, taker)
    requires LogOk(s, seeded, odd) && batch < s.journal.batchSeq
    ensures var t := Fill(s, taker, batch);
            && LogOk(t, seeded, odd)
            && LivesOf(t, seeded) == AfterFill(LivesOf(s, seeded), s.book.Queue(Opposite(taker.side))[0],
                                               FillSize(s, taker))
  {
    HeadFacts(s, taker);
    FillParts(s, taker, batch);
    var side, n := Opposite(taker.side), FillSize(s, taker);
    var m, maker := LivesOf(s, seeded), s.book.Queue(side)[0];
    assert maker in s.book.Queue(side);
    FillNote(m, maker, n, MakerEvent(s, taker, batch));
    FillTracks(s.book, side, n, m, odd);
    LogEvent(s, Fill(s, taker, batch), MakerEvent(s, taker, batch), AfterFill(m, maker, n), seeded, odd);
  }

  lemma MatchLog(s: State, taker: Order, batch: int, seeded: Lives, odd: set<int>)
    requires Core(s) && Registered(s, taker) && LogOk(s, seeded, odd) && batch < s.journal.batchSeq
    ensures var m := Match(s, taker, batch);
            && LogOk(m.state, seeded, odd) && m.state.journal.batchSeq == s.journal.batchSeq
            && (taker.id in LivesOf(s, seeded) ==>
                  taker.id in LivesOf(m.state, seeded)
                  && LivesOf(m.state, seeded)[taker.id] == LivesOf(s, seeded)[taker.id])
    decreases |s.book.Queue(Opposite(taker.side))|, taker.qty > 0
  {
    if CanFill(s, taker) {
      HeadFacts(s, taker);
      FillCore(s, taker, batch);
      FillLog(s, taker, batch, seeded, odd);
      var q := s.book.Queue(Opposite(taker.side));
      assert q[0] in q && q[0].id != taker.id;
      MatchLog(Fill(s, taker, batch), taker.(qty := taker.qty - FillSize(s, taker)), batch, seeded, odd);
    }
  }

  // ----- placing an order

  lemma FreshId(s: State, o: Order, seeded: Lives, odd: set<int>)
    requires Core(s) && ProperIds(s, Place(o)) && LogOk(s, seeded, odd)
    ensures o.id !in LivesOf(s, seeded) && o.id !in s.book.index && !Resting(s.book, o.id)
  {
    if o.id !in s.book.index { NotResting(s.book, o.id); }
  }

  lemma RefuseLog(s: State, o: Order, v: Verdict, seeded: Lives, odd: set<int>)
    requires Core(s) && ProperIds(s, Place(o)) && LogOk(s, seeded, odd)
    requires v.Refused? && (v.status == Rejected || v.status == Canceled)
    ensures LogOk(Refuse(s, o, v).0, seeded, odd)
  {
    FreshId(s, o, seeded, odd);
    var j := Opened(s, o).journal;
    var e := OrderEvent(j.eventSeq, s.journal.batchSeq, o.id, o.user, v.status, o.side, o.price, 0, 0);
    ReplayNext(seeded, j.events, e);
    EmitNumbered(j, s.journal.batchSeq, o.id, o.user, v.status, o.side, o.price, 0, 0);
    assert Refuse(s, o, v).0.journal.events == s.journal.events + [e];
  }

  lemma AnnounceLog(s: State, o: Order, seeded: Lives, odd: set<int>)
    requires Core(s) && ProperIds(s, Place(o)) && LogOk(s, seeded, odd) && 0 < o.qty
    ensures LogOk(Announced(s, o), seeded, odd + {o.id})
    ensures LivesOf(Announced(s, o), seeded) == LivesOf(s, seeded)[o.id := Live(TagOf(o), o.qty)]
  {
    FreshId(s, o, seeded, odd);
    var j := Opened(s, o).journal;
    var e := OrderEvent(j.eventSeq, s.journal.batchSeq, o.id, o.user, New, o.side, o.price, o.qty, o.qty);
    ReplayNext(seeded, j.events, e);
    EmitNumbered(j, s.journal.batchSeq, o.id, o.user, New, o.side, o.price, o.qty, o.qty);
    assert Announced(s, o).journal.events == s.journal.events + [e];
  }

  function FinalLife(o: Order, left: int): Life { if left == 0 then Ended(Filled) else Live(TagOf(o), left) }

  lemma AddTracks(b: Book, o: Order, m: Lives, odd: set<int>)
    requires IndexOk(b) && o.id !in b.index && o.qty > 0 && o.id !in odd && Tracks(b, m, odd + {o.id})
    ensures Tracks(AddResting(b, o), m[o.id := Live(TagOf(o), o.qty)], odd)
  {
    AddRestingMembers(b, o);
    var c, m' := AddResting(b, o), m[o.id := Live(TagOf(o), o.qty)];
    forall side: Side, x | x in c.Queue(side) ensures x.id in m' && m'[x.id] == Live(TagOf(x), x.qty) {
      if x in b.Queue(side) { assert m[x.id] == Live(TagOf(x), x.qty); }
    }
  }

  lemma DoneTracks(b: Book, id: int, m: Lives, odd: set<int>)
    requires IndexOk(b) && id !in b.index && id !in odd && Tracks(b, m, odd + {id})
    ensures Tracks(b, m[id := Ended(Filled)], odd)
  {
  }

  lemma DropTracks(b: Book, o: Order, m: Lives, odd: set<int>)
    requires IndexOk(b) && o.id !in b.index && Tracks(b, m, odd + {o.id})
    ensures Tracks(b, m[o.id := Live(TagOf(o), o.qty)], odd + {o.id})
  {
  }

  lemma RestTracks(s: State, taker: Order, m: Lives, odd: set<int>)
    requires IndexOk(s.book) && taker.id !in s.book.index && 0 <= taker.qty && taker.id !in odd
    requires Tracks(s.book, m, odd + {taker.id})
    ensures Tracks(Rest(s, taker).book, m[taker.id := FinalLife(taker, taker.qty)],
                   if taker.kind == Market && taker.qty > 0 then odd + {taker.id} else odd)
  {
    if taker.qty == 0 {
      DoneTracks(s.book, taker.id, m, odd);
    } else if taker.kind == Limit {
      AddTracks(s.book, taker, m, odd);
    } else {
      DropTracks(s.book, taker, m, odd);
    }
  }

  lemma ConcludeLog(s: State, batch: int, o: Order, left: int, seeded: Lives)
    requires Numbered(s.journal) && batch < s.journal.batchSeq && Replay(seeded, s.journal.events).Some?
    requires var m := LivesOf(s, seeded); o.id in m && m[o.id] == Live(TagOf(o), o.qty)
    requires 0 <= left <= o.qty && 0 < o.qty
    ensures var t := Conclude(s, batch, o, left);
            && Numbered(t.journal) && t.book == s.book && t.ledger == s.ledger
            && Replay(seeded, t.journal.events) == Some(LivesOf(s, seeded)[o.id := FinalLife(o, left)])
  {
    if left != o.qty {
      var j := s.journal;
      var e := OrderEvent(j.eventSeq, batch, o.id, o.user, FinalStatus(o, left), o.side, o.price, o.qty - left, left);
      ReplayNext(seeded, j.events, e);
      EmitNumbered(j, batch, o.id, o.user, FinalStatus(o, left), o.side, o.price, o.qty - left, left);
    } else {
      assert LivesOf(s, seeded) == LivesOf(s, seeded)[o.id := FinalLife(o, left)];
    }
  }

  /** A market order for more than there is on the other side: its remainder is dropped, its last event
      is a partial fill, and no event says that it is over. */
  predicate Drops(s: State, o: Order) {
    Admits(s, o) && o.kind == Market && Depth(Opposing(s, o)) < o.qty
  }

  lemma DropsRemainder(s: State, o: Order)
    requires Core(s) && ProperIds(s, Place(o))
    ensures Drops(s, o) <==> o.kind == Market && 0 < Process(s, o).1.remainingQty
  {
    if !Admits(s, o) {
      RefusedUnchanged(s, o);
    } else if o.kind == Market {
      MarketOrderTrades(s, o);
      AcceptedOutcome(s, o);
    }
  }

  function OddOrders(s: State, step: Step): set<int> {
    if step.Place? && Drops(s, step.order) then {step.order.id} else {}
  }

  lemma PlaceLog(s: State, o: Order, seeded: Lives, odd: set<int>)
    requires Core(s) && ProperIds(s, Place(o)) && LogOk(s, seeded, odd)
    ensures LogOk(Process(s, o).0, seeded, odd + OddOrders(s, Place(o)))
  {
    var v := Preflight(Opened(s, o), o);
    if v.Refused? {
      RefuseLog(s, o, v, seeded, odd);
      assert odd + OddOrders(s, Place(o)) == odd;
    } else {
      FreshId(s, o, seeded, odd);
      AnnouncedCore(s, o);
      var a, batch := Announced(s, o), s.journal.batchSeq;
      AnnounceLog(s, o, seeded, odd);
      MatchLog(a, o, batch, seeded, odd + {o.id});
      MatchCore(a, o, batch);
      DropsRemainder(s, o);
      AcceptLog(s, o, seeded, odd);
    }
  }

  lemma AcceptLog(s: State, o: Order, seeded: Lives, odd: set<int>)
    requires Admits(s, o)
    requires Drops(s, o) <==> o.kind == Market && 0 < Process(s, o).1.remainingQty
    requires var m := Matching(s, o);
             && Core(m.state) && Registered(m.state, m.taker) && m.taker == o.(qty := m.taker.qty)
             && m.taker.qty <= o.qty && 0 < o.qty
             && LogOk(m.state, seeded, odd + {o.id}) && s.journal.batchSeq < m.state.journal.batchSeq
             && o.id !in odd && o.id in LivesOf(m.state, seeded)
             && LivesOf(m.state, seeded)[o.id] == Live(TagOf(o), o.qty)
    ensures LogOk(Accept(s, o).0, seeded, odd + OddOrders(s, Place(o)))
  {
    var m := Matching(s, o);
    var rested := Publish(Rest(m.state, m.taker), Accept(s, o).1.trades);
    RestTracks(m.state, m.taker, LivesOf(m.state, seeded), odd);
    var odd' := if m.taker.kind == Market && m.taker.qty > 0 then odd + {o.id} else odd;
    assert odd' == odd + OddOrders(s, Place(o));
    ConcludeLog(rested, s.journal.batchSeq, o, m.taker.qty, seeded);
    assert Accept(s, o).0 == Conclude(rested, s.journal.batchSeq, o, m.taker.qty);
  }

  // ----- cancelling an order

  lemma CancelTracks(b: Book, id: int, m: Lives, odd: set<int>)
    requires BookOk(b) && IndexOk(b) && Resting(b, id) && Tracks(b, m, odd)
    ensures Tracks(CancelBook(b, id), m[id := Ended(Canceled)], odd)
  {
    CancelBookOk(b, id);
    CancelResting(b, id);
    RemoveLife(b, CancelBook(b, id), id, m, odd);
  }

  lemma RemoveLife(b: Book, c: Book, id: int, m: Lives, odd: set<int>)
    requires Tracks(b, m, odd) && Resting(b, id) && c.index.Keys <= b.index.Keys - {id}
    requires forall side: Side, o | o in c.Queue(side) :: o in b.Queue(side) && o.id != id
    requires forall x :: Resting(c, x) <==> Resting(b, x) && x != id
    ensures Tracks(c, m[id := Ended(Canceled)], odd)
  {
  }

  lemma CancelNote(m: Lives, id: int, e: OrderEvent)
    requires id in m && m[id].Live? && e.orderId == id && e.status == Canceled && e.user == m[id].tag.user
    ensures Note(m, e) == Some(m[id := Ended(Canceled)])
  {
  }

  lemma CancelLog(s: State, id: int, seeded: Lives, odd: set<int>)
    requires Core(s) && ProperIds(s, CancelId(id)) && LogOk(s, seeded, odd)
    ensures LogOk(Cancel(s, id).0, seeded, odd)
  {
    if id in s.book.index {
      var o := CancelledOrder(s, id);
      var m := LivesOf(s, seeded);
      assert m[o.id] == Live(TagOf(o), o.qty);
      CancelTracks(s.book, id, m, odd);
      var j, t := s.journal.(batchSeq := s.journal.batchSeq + 1), Cancel(s, id).0;
      EmitNumbered(j, s.journal.batchSeq, id, s.ledger.OwnerOf(id), Canceled, Buy, 0, 0, 0);
      CancelNote(m, id, t.journal.events[|j.events|]);
      LogEvent(s, t, t.journal.events[|j.events|], m[id := Ended(Canceled)], seeded, odd);
    }
  }

  // ----- whole runs

  lemma ApplyLog(s: State, step: Step, seeded: Lives, odd: set<int>)
    requires Core(s) && ProperIds(s, step) && LogOk(s, seeded, odd)
    ensures LogOk(Apply(s, step), seeded, odd + OddOrders(s, step))
  {
    match step
    case Place(o) => PlaceLog(s, o, seeded, odd);
    case CancelId(id) => CancelLog(s, id, seeded, odd);
    case _ =>
  }

  function DroppedIds(s: State, steps: seq<Step>): set<int>
    decreases |steps|
  {
    if steps == [] then {} else OddOrders(s, steps[0]) + DroppedIds(Apply(s, steps[0]), steps[1..])
  }

  lemma {:induction false} RunLog(s: State, steps: seq<Step>, seeded: Lives, odd: set<int>)
    requires Core(s) && ProperRun(s, steps) && LogOk(s, seeded, odd)
    ensures LogOk(Run(s, steps), seeded, odd + DroppedIds(s, steps))
    decreases |steps|
  {
    if steps == [] {
      assert odd + {} == odd;
    } else {
      ApplyCore(s, steps[0]);
      ApplyLog(s, steps[0], seeded, odd);
      RunLog(Apply(s, steps[0]), steps[1..], seeded, odd + OddOrders(s, steps[0]));
      assert odd + OddOrders(s, steps[0]) + DroppedIds(Apply(s, steps[0]), steps[1..]) == odd + DroppedIds(s, steps);
    }
  }

  function RestingLife(b: Book, id: int): Option<Life> {
    match Find(b.bids + b.asks, id)
    case None => None
    case Some(o) => Some(Live(TagOf(o), o.qty))
  }

  function LiveLife(m: Lives, id: int): Option<Life> {
    if id in m && m[id].Live? then Some(m[id]) else None
  }

  /** Seeded orders enter the story as they were seeded. */
  function SeededLives(b: Book): Lives {
    map id | id in Ids(b.bids) + Ids(b.asks) :: RestingLife(b, id).value
  }

  lemma TracksLife(b: Book, m: Lives, odd: set<int>, id: int)
    requires BookOk(b) && Tracks(b, m, odd)
    ensures LiveLife(m, id) == RestingLife(b, id) <==> id !in odd
  {
    FindConcat(b.bids, b.asks, id);
    if id in Ids(b.bids) {
      assert Find(b.bids, id).value in b.Queue(Buy);
    } else if id in Ids(b.asks) {
      assert Find(b.asks, id).value in b.Queue(Sell);
    }
  }

  lemma RestingAreLive(b: Book, m: Lives, odd: set<int>)
    requires BookOk(b) && Tracks(b, m, odd)
    ensures forall id | Resting(b, id) :: id in m && m[id].Live?
    ensures forall id <- odd :: RestingLife(b, id).None?
  {
    forall id | Resting(b, id) ensures id in m && m[id].Live? {
      var side := if id in Ids(b.bids) then Buy else Sell;
      var o :| o in b.Queue(side) && o.id == id;
    }
    forall id | id in odd ensures RestingLife(b, id).None? {
      FindConcat(b.bids, b.asks, id);
    }
  }

  lemma SeededLife(b: Book, side: Side, o: Order)
    requires BookOk(b) && o in b.Queue(side)
    ensures Find(b.bids + b.asks, o.id) == Some(o)
    ensures o.id in SeededLives(b) && SeededLives(b)[o.id] == Live(TagOf(o), o.qty)
  {
    FindConcat(b.bids, b.asks, o.id);
    FindUnique(b.Queue(side), o);
    assert o.id in Ids(b.Queue(side));
  }

  lemma InitialLog(s: State)
    requires Initial(s)
    ensures LogOk(s, SeededLives(s.book), {})
  {
    var m, b := SeededLives(s.book), s.book;
    forall side: Side, o | o in b.Queue(side) ensures o.id in m && m[o.id] == Live(TagOf(o), o.qty) {
      SeededLife(b, side, o);
    }
    forall id | id in m ensures id < FIRST_ORDER_ID && Resting(b, id) {
      if id !in b.index { NotResting(b, id); }
    }
    assert Tracks(b, m, {});
    assert Replay(m, s.journal.events) == Some(m);
  }

  /** The log of any run replays without a single misplaced event, and the user, side, price and remaining
      quantity it gives for an id are those of the order resting in the book, none for an order that was
      filled, cancelled, refused or never seen. The only exceptions are the market orders that were for more
      than there was on the other side: they do not rest, and are live for good. Sequence numbers count from
      1 without gaps, no event has a batch id still to be drawn, and the ids still indexed but no longer
      resting are ids the log says were filled. */
  lemma LogReconstructsBook(s: State, steps: seq<Step>)
    requires Initial(s) && ProperRun(s, steps)
    ensures var t := Run(s, steps);
            var replayed := Replay(SeededLives(s.book), t.journal.events);
            && replayed.Some?
            && (forall id :: LiveLife(replayed.value, id) == RestingLife(t.book, id) <==> id !in DroppedIds(s, steps))
            && (forall id <- DroppedIds(s, steps) ::
                  LiveLife(replayed.value, id).Some? && RestingLife(t.book, id).None?)
            && Numbered(t.journal)
            && (forall id <- t.book.index ::
                  Resting(t.book, id) <==> !(id in replayed.value && replayed.value[id] == Ended(Filled)))
  {
    InitialInv(s);
    InitialLog(s);
    RunCore(s, steps);
    RunLog(s, steps, SeededLives(s.book), {});
    var t := Run(s, steps);
    var m := LivesOf(t, SeededLives(s.book));
    assert {} + DroppedIds(s, steps) == DroppedIds(s, steps);
    forall id ensures LiveLife(m, id) == RestingLife(t.book, id) <==> id !in DroppedIds(s, steps) {
      TracksLife(t.book, m, DroppedIds(s, steps), id);
    }
    RestingAreLive(t.book, m, DroppedIds(s, steps));
  }

  lemma TwoSteps(s: State, a: Step, b: Step)
    requires Legal(s, a) && Legal(Apply(s, a), b)
    ensures LegalRun(s, [a, b]) && ProperRun(s, [a, b])
    ensures DroppedIds(s, [a, b]) == OddOrders(s, a) + OddOrders(Apply(s, a), b)
  {
    var t, rest := Apply(s, a), [b];
    assert [a, b][1..] == rest && rest[1..] == [];
    assert DroppedIds(t, rest) == OddOrders(t, b) + DroppedIds(Apply(t, b), []);
  }

  /** The exception, concretely: two units bought at market where one is for sale. The order does not rest
      and never will, and the log has it live. */
  lemma DroppedOrderStaysLive()
    ensures var s, o := OneAsk().(nextId := FIRST_ORDER_ID), Order(FIRST_ORDER_ID, 0, Buy, 0, 2, Market);
            var steps := [Allocate, Place(o)];
            var t := Run(s, steps);
            var replayed := Replay(SeededLives(s.book), t.journal.events);
            && Initial(s) && LegalRun(s, steps) && replayed.Some?
            && LiveLife(replayed.value, o.id).Some? && RestingLife(t.book, o.id).None?
  {
    var s, o := OneAsk().(nextId := FIRST_ORDER_ID), Order(FIRST_ORDER_ID, 0, Buy, 0, 2, Market);
    assert Initial(s) by { OneAskInv(); }
    assert Drops(Apply(s, Allocate), o) by {
      assert Depth(s.book.asks) == 1 + Depth(s.book.asks[1..]);
    }
    TwoSteps(s, Allocate, Place(o));
    LogReconstructsBook(s, [Allocate, Place(o)]);
  }

  // ----- batches

  /** Everything logged since j carries this batch id. */
  ghost predicate Extends(j: Journal, k: Journal, batch: int) {
    && |j.events| <= |k.events| && k.events[..|j.events|] == j.events
    && forall i :: |j.events| <= i < |k.events| ==> k.events[i].batchId == batch
  }

  lemma MatchExtends(s: State, taker: Order, batch: int, j: Journal)
    requires Extends(j, s.journal, batch)
    ensures Extends(j, Match(s, taker, batch).state.journal, batch)
    ensures Match(s, taker, batch).state.journal.batchSeq == s.journal.batchSeq
    decreases |s.book.Queue(Opposite(taker.side))|, taker.qty > 0
  {
    if CanFill(s, taker) {
      MatchExtends(Fill(s, taker, batch), taker.(qty := taker.qty - FillSize(s, taker)), batch, j);
    }
  }

  /** One call, one batch: the events a step logs carry the batch id it drew. In a log that is numbered,
      as that of every run is, no other event has it. */
  lemma OneBatchPerCall(s: State, step: Step)
    ensures Extends(s.journal, Apply(s, step).journal, s.journal.batchSeq)
    ensures Numbered(s.journal) ==>
              var es := Apply(s, step).journal.events;
              forall i :: 0 <= i < |es| ==> (es[i].batchId == s.journal.batchSeq <==> |s.journal.events| <= i)
    ensures |Apply(s, step).journal.events| > |s.journal.events| ==>
              Apply(s, step).journal.batchSeq == s.journal.batchSeq + 1
  {
    match step
    case Place(o) =>
      MatchExtends(Announced(s, o), o, s.journal.batchSeq, s.journal);
    case _ =>
  }

  // ----- one call's events

  /** The event that reports a trade to its maker. */
  predicate Reports(e: OrderEvent, t: Trade, batch: int) {
    && e.orderId == t.makerId && e.price == t.price && e.qty == t.qty && e.batchId == batch
    && e.status == (if e.remaining == 0 then Filled else PartiallyFilled)
  }

  lemma MatchReports(s: State, taker: Order, batch: int)
    ensures var m := Match(s, taker, batch);
            ReportedFrom(s.journal.events, m.state.journal.events, m.trades, batch)
    decreases |s.book.Queue(Opposite(taker.side))|, taker.qty > 0
  {
    if CanFill(s, taker) {
      var t, left := Fill(s, taker, batch), taker.(qty := taker.qty - FillSize(s, taker));
      MatchReports(t, left, batch);
      FillParts(s, taker, batch);
      ReportsNext(s.journal.events, MakerEvent(s, taker, batch), TradeOf(s, taker),
                  Match(t, left, batch).state.journal.events, Match(t, left, batch).trades, batch);
    }
  }

  /** The events es continue the log by one event per trade, in order. */
  predicate ReportedFrom(log: seq<OrderEvent>, es: seq<OrderEvent>, trades: seq<Trade>, batch: int) {
    && |es| == |log| + |trades| && es[..|log|] == log
    && forall i :: 0 <= i < |trades| ==> Reports(es[|log| + i], trades[i], batch)
  }

  lemma ReportsNext(log: seq<OrderEvent>, e: OrderEvent, t: Trade, es: seq<OrderEvent>, rest: seq<Trade>, batch: int)
    requires Reports(e, t, batch) && ReportedFrom(log + [e], es, rest, batch)
    ensures ReportedFrom(log, es, [t] + rest, batch)
  {
    var n, trades := |log|, [t] + rest;
    assert es[n] == es[..n + 1][n] == e;
    assert es[..n] == es[..n + 1][..n];
    forall i | 0 <= i < |trades| ensures Reports(es[n + i], trades[i], batch) {
      if i > 0 { assert Reports(es[|log + [e]| + (i - 1)], rest[i - 1], batch); }
    }
  }

  function NewEvent(s: State, o: Order): OrderEvent {
    OrderEvent(s.journal.eventSeq, s.journal.batchSeq, o.id, o.user, New, o.side, o.price, o.qty, o.qty)
  }

  lemma MatchingReports(s: State, o: Order)
    ensures var m, n := Matching(s, o), |s.journal.events|;
            var es := m.state.journal.events;
            && |es| == n + 1 + |m.trades| && es[..n] == s.journal.events && es[n] == NewEvent(s, o)
            && forall i :: 0 <= i < |m.trades| ==> Reports(es[n + 1 + i], m.trades[i], s.journal.batchSeq)
  {
    var a, m, n := Announced(s, o), Matching(s, o), |s.journal.events|;
    MatchReports(a, o, s.journal.batchSeq);
    var es := m.state.journal.events;
    assert es[n] == es[..n + 1][n] == a.journal.events[n];
    assert es[..n] == es[..n + 1][..n];
    forall i | 0 <= i < |m.trades| ensures Reports(es[n + 1 + i], m.trades[i], s.journal.batchSeq) {
      assert Reports(es[|a.journal.events| + i], m.trades[i], s.journal.batchSeq);
    }
  }

  /** What an accepted call adds after matching: nothing, or the taker's outcome. */
  lemma AcceptedTail(s: State, o: Order)
    requires Admits(s, o)
    ensures var m, r, es := Matching(s, o), Process(s, o).1, Process(s, o).0.journal.events;
            && |r.trades| == |m.trades| && r.filledQty == o.qty - m.taker.qty
            && (forall i :: 0 <= i < |r.trades| ==> SliceOf(r.trades[i]) == SliceOf(m.trades[i]))
            && (if r.filledQty == 0 then es == m.state.journal.events
                else es == m.state.journal.events
                           + [OrderEvent(m.state.journal.eventSeq, s.journal.batchSeq, o.id, o.user, r.status,
                                         o.side, o.price, r.filledQty, r.remainingQty)])
  {
  }

  /** An accepted call logs the order as new, then one event per trade in trade order, then the order's own
      outcome if it traded; nothing else. */
  lemma AcceptedEvents(s: State, o: Order)
    requires Admits(s, o)
    ensures var r, es := Process(s, o).1, Process(s, o).0.journal.events;
            var n, k, b := |s.journal.events|, |r.trades|, s.journal.batchSeq;
            && |es| == n + 1 + k + (if r.filledQty != 0 then 1 else 0)
            && es[..n] == s.journal.events && es[n] == NewEvent(s, o)
            && (forall i :: 0 <= i < k ==> Reports(es[n + 1 + i], r.trades[i], b))
            && (r.filledQty != 0 ==>
                  var e := es[n + 1 + k];
                  && e.orderId == o.id && e.user == o.user && e.side == o.side && e.price == o.price
                  && e.batchId == b && e.status == r.status
                  && e.qty == r.filledQty && e.remaining == r.remainingQty)
  {
    MatchingReports(s, o);
    AcceptedTail(s, o);
    var m, r, es := Matching(s, o), Process(s, o).1, Process(s, o).0.journal.events;
    var n, b := |s.journal.events|, s.journal.batchSeq;
    forall i | 0 <= i < |r.trades| ensures Reports(es[n + 1 + i], r.trades[i], b) {
      assert Reports(m.state.journal.events[n + 1 + i], m.trades[i], b);
      assert SliceOf(r.trades[i]) == SliceOf(m.trades[i]);
    }
  }

  /** A refused call logs one event and nothing else, and that event is never NEW. */
  lemma RefusedEvents(s: State, o: Order)
    requires !Admits(s, o)
    ensures var (t, r) := Process(s, o);
            && t.journal.events == s.journal.events
                 + [OrderEvent(s.journal.eventSeq, s.journal.batchSeq, o.id, o.user, r.status, o.side, o.price, 0, 0)]
            && (r.status == Rejected || r.status == Canceled)
  {
  }
}
