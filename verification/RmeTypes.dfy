/** Value types of the reference matching engine: prices, orders, events and results. */
module RmeTypes {
  const U64_MAX: int := 0xFFFF_FFFF_FFFF_FFFF

  type U64 = x: int | 0 <= x <= U64_MAX

  type Price = U64

  // An opaque identifier; only equality is used.
  type OrderId = string

  datatype Side = Buy | Sell {
    function Flip(): Side {
      if Buy? then Sell else Buy
    }
  }

  datatype Order = Order(id: OrderId, side: Side, price: Price, qty: U64, seqNum: U64)

  datatype OrderEvent =
    | LimitOrder(id: OrderId, side: Side, price: Price, qty: U64, seqNum: U64)
    | MarketOrder(id: OrderId, side: Side, qty: U64, seqNum: U64)
    | CancelOrder(id: OrderId)

  datatype FillEvent =
    FillEvent(aggressorId: OrderId, restingId: OrderId, price: Price, qty: U64, aggressorSide: Side)

  datatype RejectReason = UnknownOrderId | NoLiquidity

  datatype RejectEvent = RejectEvent(orderId: OrderId, reason: RejectReason)

  // Raw price to total resting quantity, one map per side. Level totals are
  // unbounded here; the 64-bit sum is not part of this model.
  datatype FinalBookSnapshot = FinalBookSnapshot(bids: map<Price, nat>, asks: map<Price, nat>)

  datatype MatchResult =
    MatchResult(fills: seq<FillEvent>, rejections: seq<RejectEvent>, finalBook: FinalBookSnapshot)
}
