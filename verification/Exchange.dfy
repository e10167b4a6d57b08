/** The exchange as one state machine over values: the reference the imperative classes are
    proved against, and the object every whole-run theorem is about. A call holds the book mutex,
    so it is one atomic step. */
module Exchange {
  import opened Types
  import opened Queues

  /** Ids below this one belong to the seeded orders; next_order_id starts here. */
  const FIRST_ORDER_ID := 1000

  // ----- state

  /** Both sides flattened to priority order, and the id index. */
  datatype Book = Book(bids: seq<Order>, asks: seq<Order>, index: map<int, Locator>) {
    function Queue(side: Side): seq<Order> { if side == Buy then bids else asks }

    function WithQueue(side: Side, q: seq<Order>): Book {
      if side == Buy then this.(bids := q) else this.(asks := q)
    }
  }

  datatype Ledger = Ledger(owner: map<int, int>, positions: map<int, Position>, users: seq<int>, nextUser: int) {
    function OwnerOf(id: int): int { if id in owner then owner[id] else 0 }

    function Get(u: int): Position { if u in positions then positions[u] else DEFAULT_POSITION }

    function Set(u: int, p: Position): Ledger { this.(positions := positions[u := p]) }
  }

  /** What the order sink and the trade sink have received, and the counters that number it. */
  datatype Journal = Journal(events: seq<OrderEvent>, eventSeq: int, batchSeq: int,
                             tape: seq<Trade>, tradeSeq: int, nextTradeId: int)

  datatype State = State(book: Book, ledger: Ledger, journal: Journal, nextId: int)

  // ----- order book (core/src/book/order_book.cpp)

  function AddResting(b: Book, o: Order): Book {
    if o.qty <= 0 || o.id in b.index then b
    else b.WithQueue(o.side, Insert(o.side, b.Queue(o.side), o))
          .(index := b.index[o.id := Locator(o.side, o.price, o.id)])
  }

  /** find_order: the index says on which side the node lives. */
  function FindIndexed(b: Book, id: int): Option<Order> {
    if id in b.index then Find(b.Queue(b.index[id].side), id) else None
  }

  function CancelBook(b: Book, id: int): Book {
    if id !in b.index then b
    else
      var side := b.index[id].side;
      b.WithQueue(side, Remove(b.Queue(side), id)).(index := b.index - {id})
  }

  // ----- user manager (core/src/user/user_manager.cpp)

  function Bought(p: Position, value: int, qty: int): Position {
    p.(balance := p.balance - value, shares := p.shares + qty, netQty := p.netQty + qty,
       totalBuyQty := p.totalBuyQty + qty, totalBuyValue := p.totalBuyValue + value)
  }

  function Sold(p: Position, value: int, qty: int): Position {
    p.(balance := p.balance + value, shares := p.shares - qty, netQty := p.netQty - qty,
       totalSellQty := p.totalSellQty + qty, totalSellValue := p.totalSellValue + value)
  }

  /** Adds to what is locked in resting orders of one side. */
  function Reserve(p: Position, side: Side, price: int, qty: int): Position {
    if side == Buy then p.(reservedBalance := p.reservedBalance + price * qty)
    else p.(reservedShares := p.reservedShares + qty)
  }

  function Release(p: Position, side: Side, price: int, qty: int): Position {
    if side == Buy then p.(reservedBalance := p.reservedBalance - price * qty)
    else p.(reservedShares := p.reservedShares - qty)
  }

  /** The taker's position first, then the maker's: they may be the same one. */
  function OnFill(l: Ledger, makerId: int, takerId: int, price: int, qty: int, takerSide: Side): Ledger {
    var maker, taker, value := l.OwnerOf(makerId), l.OwnerOf(takerId), price * qty;
    if takerSide == Buy then
      var l1 := l.Set(taker, Bought(l.Get(taker), value, qty));
      l1.Set(maker, Release(Sold(l1.Get(maker), value, qty), Sell, price, qty))
    else
      var l1 := l.Set(taker, Sold(l.Get(taker), value, qty));
      l1.Set(maker, Release(Bought(l1.Get(maker), value, qty), Buy, price, qty))
  }

  function OnResting(l: Ledger, id: int, side: Side, price: int, qty: int): Ledger {
    if id !in l.owner then l
    else l.Set(l.owner[id], Reserve(l.Get(l.owner[id]), side, price, qty))
  }

  function OnCancel(l: Ledger, id: int, side: Side, price: int, qty: int): Ledger {
    if id !in l.owner then l
    else l.Set(l.owner[id], Release(l.Get(l.owner[id]), side, price, qty))
  }

  function NewUser(l: Ledger): Ledger {
    l.Set(l.nextUser, DEFAULT_POSITION).(users := l.users + [l.nextUser], nextUser := l.nextUser + 1)
  }

  function ReconnectUser(l: Ledger, uid: int): Ledger {
    if uid <= 0 then NewUser(l)
    else Ledger(l.owner,
                if uid in l.positions then l.positions else l.positions[uid := DEFAULT_POSITION],
                if uid in l.users then l.users else l.users + [uid],
                Max(l.nextUser, uid + 1))
  }

  // ----- matching engine (core/src/engine/matching_engine.cpp)

  function Emit(j: Journal, batch: int, id: int, user: int, status: OrderStatus, side: Side,
                price: int, qty: int, remaining: int): Journal
  {
    j.(events := j.events + [OrderEvent(j.eventSeq, batch, id, user, status, side, price, qty, remaining)],
       eventSeq := j.eventSeq + 1)
  }

  datatype Verdict = Admitted | Refused(status: OrderStatus, reason: string)

  function Preflight(s: State, o: Order): Verdict {
    var opposite := s.book.Queue(Opposite(o.side));
    var p := s.ledger.Get(o.user);
    if o.qty <= 0 then Refused(Rejected, "quantity must be positive")
    else if o.kind == Limit && o.price <= 0 then Refused(Rejected, "limit order price must be positive")
    else if o.kind.Market? && opposite == [] then
      Refused(Canceled, if o.side == Buy then "no asks available for market buy"
                                         else "no bids available for market sell")
    else if o.user > 0 && o.side == Buy
            && p.balance - p.reservedBalance < (if o.kind.Limit? then o.price else opposite[0].price) * o.qty then
      Refused(Rejected, "insufficient cash")
    else if o.user > 0 && o.side == Sell && p.shares - p.reservedShares < o.qty then
      Refused(Rejected, "insufficient shares")
    else Admitted
  }

  function FillSize(s: State, taker: Order): int
    requires s.book.Queue(Opposite(taker.side)) != []
  {
    Min(taker.qty, s.book.Queue(Opposite(taker.side))[0].qty)
  }

  function TradeOf(s: State, taker: Order): Trade
    requires s.book.Queue(Opposite(taker.side)) != []
  {
    var maker := s.book.Queue(Opposite(taker.side))[0];
    Trade(0, maker.id, taker.id, s.ledger.OwnerOf(maker.id), taker.user, maker.price, FillSize(s, taker), 0)
  }

  /** One fill against the head of the opposite queue: the body of the inner matching loop. */
  function Fill(s: State, taker: Order, batch: int): State
    requires s.book.Queue(Opposite(taker.side)) != []
  {
    var side := Opposite(taker.side);
    var maker := s.book.Queue(side)[0];
    var n := FillSize(s, taker);
    s.(book := s.book.WithQueue(side, TakeHead(s.book.Queue(side), n)),
       ledger := OnFill(s.ledger, maker.id, taker.id, maker.price, n, taker.side),
       journal := Emit(s.journal, batch, maker.id, maker.user,
                       if maker.qty == n then Filled else PartiallyFilled,
                       maker.side, maker.price, n, maker.qty - n))
  }

  predicate CanFill(s: State, taker: Order) {
    var q := s.book.Queue(Opposite(taker.side));
    taker.qty > 0 && q != [] && Crosses(taker, q[0].price)
  }

  datatype Matched = Matched(state: State, taker: Order, trades: seq<Trade>) {
    /** The same outcome, seen from before the given trades were made. */
    function After(earlier: seq<Trade>): Matched { this.(trades := earlier + trades) }
  }

  /** Head-first matching until the taker is done, the side is empty, or the price stops crossing. */
  function Match(s: State, taker: Order, batch: int): Matched
    decreases |s.book.Queue(Opposite(taker.side))|, taker.qty > 0
  {
    if !CanFill(s, taker) then Matched(s, taker, [])
    else
      var n := FillSize(s, taker);
      Match(Fill(s, taker, batch), taker.(qty := taker.qty - n), batch).After([TradeOf(s, taker)])
  }

  /** What matching does not touch. */
  lemma MatchFrame(s: State, taker: Order, batch: int)
    ensures var m := Match(s, taker, batch);
            && m.taker == taker.(qty := m.taker.qty)
            && m.state.book.Queue(taker.side) == s.book.Queue(taker.side)
            && m.state.book.index == s.book.index
            && m.state.ledger.owner == s.ledger.owner
            && m.state.ledger.users == s.ledger.users && m.state.ledger.nextUser == s.ledger.nextUser
            && m.state.nextId == s.nextId
    decreases |s.book.Queue(Opposite(taker.side))|, taker.qty > 0
  {
    if CanFill(s, taker) {
      MatchFrame(Fill(s, taker, batch), taker.(qty := taker.qty - FillSize(s, taker)), batch);
    }
  }

  function Stamp(trades: seq<Trade>, firstSeq: int, firstId: int): seq<Trade> {
    seq(|trades|, i requires 0 <= i < |trades| => trades[i].(seqNo := firstSeq + i, tradeId := firstId + i))
  }

  /** Registered under its owner, with a batch id drawn for the call. */
  function Opened(s: State, o: Order): State {
    s.(ledger := s.ledger.(owner := s.ledger.owner[o.id := o.user]),
       journal := s.journal.(batchSeq := s.journal.batchSeq + 1))
  }

  /** Admitted, with its NEW event out. */
  function Announced(s: State, o: Order): State {
    var t := Opened(s, o);
    t.(journal := Emit(t.journal, s.journal.batchSeq, o.id, o.user, New, o.side, o.price, o.qty, o.qty))
  }

  /** The rest of a limit order goes into the book and locks its owner's funds. */
  function Rest(s: State, taker: Order): State {
    if taker.kind == Limit && taker.qty > 0 then
      s.(book := AddResting(s.book, taker),
         ledger := OnResting(s.ledger, taker.id, taker.side, taker.price, taker.qty))
    else s
  }

  function Publish(s: State, stamped: seq<Trade>): State {
    s.(journal := s.journal.(tape := s.journal.tape + stamped,
                             tradeSeq := s.journal.tradeSeq + |stamped|,
                             nextTradeId := s.journal.nextTradeId + |stamped|))
  }

  function FinalStatus(o: Order, left: int): OrderStatus {
    if o.qty == left then New else if left == 0 then Filled else PartiallyFilled
  }

  function Conclude(s: State, batch: int, o: Order, left: int): State {
    if o.qty == left then s
    else s.(journal := Emit(s.journal, batch, o.id, o.user, FinalStatus(o, left), o.side, o.price,
                            o.qty - left, left))
  }

  function Matching(s: State, o: Order): Matched {
    Match(Announced(s, o), o, s.journal.batchSeq)
  }

  function Accept(s: State, o: Order): (State, OrderResult) {
    var m := Matching(s, o);
    var stamped := Stamp(m.trades, m.state.journal.tradeSeq, m.state.journal.nextTradeId);
    (Conclude(Publish(Rest(m.state, m.taker), stamped), s.journal.batchSeq, o, m.taker.qty),
     OrderResult(o.id, FinalStatus(o, m.taker.qty), o.qty, o.qty - m.taker.qty, m.taker.qty, stamped, ""))
  }

  function Refuse(s: State, o: Order, v: Verdict): (State, OrderResult)
    requires v.Refused?
  {
    var t := Opened(s, o);
    (t.(journal := Emit(t.journal, s.journal.batchSeq, o.id, o.user, v.status, o.side, o.price, 0, 0)),
     OrderResult(o.id, v.status, o.qty, 0, 0, [], v.reason))
  }

  function Process(s: State, o: Order): (State, OrderResult) {
    var v := Preflight(Opened(s, o), o);
    if v.Refused? then Refuse(s, o, v) else Accept(s, o)
  }

  function Cancel(s: State, id: int): (State, bool) {
    if id !in s.book.index then (s, false)
    else
      var found := FindIndexed(s.book, id);
      (s.(book := CancelBook(s.book, id),
          journal := Emit(s.journal.(batchSeq := s.journal.batchSeq + 1), s.journal.batchSeq, id,
                          s.ledger.OwnerOf(id), Canceled, Buy, 0, 0, 0),
          ledger := if found.None? then s.ledger
                    else OnCancel(s.ledger, id, found.value.side, found.value.price, found.value.qty)),
       true)
  }

  // ----- runs

  datatype Step = Allocate | Place(order: Order) | CancelId(id: int) | Connect | Reconnect(uid: int)

  function Apply(s: State, step: Step): State {
    match step
    case Allocate => s.(nextId := s.nextId + 1)
    case Place(o) => Process(s, o).0
    case CancelId(id) => Cancel(s, id).0
    case Connect => s.(ledger := NewUser(s.ledger))
    case Reconnect(uid) => s.(ledger := ReconnectUser(s.ledger, uid))
  }

  function Run(s: State, steps: seq<Step>): State
    decreases |steps|
  {
    if steps == [] then s else Run(Apply(s, steps[0]), steps[1..])
  }

  predicate Resting(b: Book, id: int) {
    id in Ids(b.bids) || id in Ids(b.asks)
  }

  /** An order id comes from next_order_id and is used once. An id to cancel rests in the book or is
      unknown to the index: the iterator of a filled order dangles. */
  predicate ProperIds(s: State, step: Step) {
    match step
    case Place(o) => FIRST_ORDER_ID <= o.id < s.nextId && o.id !in s.ledger.owner
    case CancelId(id) => id in s.book.index ==> Resting(s.book, id)
    case _ => true
  }

  /** Order ids are proper, and a user is anonymous or known to the user manager. */
  predicate Legal(s: State, step: Step) {
    ProperIds(s, step) && (step.Place? ==> step.order.user < s.ledger.nextUser)
  }

  /** Order ids are proper throughout; user ids are whatever the orders name. */
  predicate ProperRun(s: State, steps: seq<Step>)
    decreases |steps|
  {
    steps == [] || (ProperIds(s, steps[0]) && ProperRun(Apply(s, steps[0]), steps[1..]))
  }

  predicate LegalRun(s: State, steps: seq<Step>)
    decreases |steps|
  {
    steps == [] || (Legal(s, steps[0]) && LegalRun(Apply(s, steps[0]), steps[1..]))
  }
}
