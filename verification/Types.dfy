/** The value types every component shares (core/src/types/types.hpp, core/src/engine/order_sink.hpp,
    core/src/user/user_manager.hpp). Integers are unbounded. */
module Types {

  datatype Option<+T> = None | Some(value: T)

  datatype Side = Buy | Sell

  datatype OrderType = Limit | Market

  datatype Order = Order(id: int, user: int, side: Side, price: int, qty: int, kind: OrderType)

  datatype Trade = Trade(tradeId: int, makerId: int, takerId: int, makerUser: int, takerUser: int,
                         price: int, qty: int, seqNo: int)

  datatype OrderStatus = New | PartiallyFilled | Filled | Canceled | Rejected

  datatype OrderEvent = OrderEvent(seqNo: int, batchId: int, orderId: int, user: int, status: OrderStatus,
                                   side: Side, price: int, qty: int, remaining: int)

  datatype OrderResult = OrderResult(id: int, status: OrderStatus, originalQty: int, filledQty: int,
                                     remainingQty: int, trades: seq<Trade>, reason: string)

  datatype Position = Position(balance: int, reservedBalance: int, shares: int, reservedShares: int,
                               netQty: int, totalBuyQty: int, totalSellQty: int,
                               totalBuyValue: int, totalSellValue: int)

  const START_BALANCE := 100000
  const START_SHARES := 100
  const DEFAULT_POSITION := Position(START_BALANCE, 0, START_SHARES, 0, 0, 0, 0, 0, 0)

  /** Where an indexed order lives. The list iterator is represented by the id of the node it points to. */
  datatype Locator = Locator(side: Side, price: int, node: int)

  function Min(a: int, b: int): int { if a < b then a else b }

  function Max(a: int, b: int): int { if a < b then b else a }

  ghost predicate NoDuplicates(xs: seq<int>) {
    forall i, j :: 0 <= i < j < |xs| ==> xs[i] != xs[j]
  }

  function Opposite(side: Side): Side { if side == Buy then Sell else Buy }

  /** p is a strictly better resting price than q: asks run low to high, bids high to low. */
  predicate Before(side: Side, p: int, q: int) {
    if side == Sell then p < q else p > q
  }

  /** The incoming order may trade at this resting price. */
  predicate Crosses(taker: Order, price: int) {
    taker.kind == Market || (if taker.side == Buy then price <= taker.price else price >= taker.price)
  }
}
