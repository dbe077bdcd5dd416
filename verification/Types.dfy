/** Value types shared by the order book, the waiting registry and the matching engine. */
module Types {
  type OrderId = nat
  type ClientId = int
  type Symbol = string
  type Quantity = int
  type Price = real
  type Time = int

  datatype Option<+T> = None | Some(value: T)

  datatype Side = Buy | Sell {
    function Other(): Side { if this == Buy then Sell else Buy }
  }

  datatype OrderKind = Market | Limit | Stop | LimitStop

  /** A release bound: the infinities stand for "no bound on this side". */
  datatype Bound = NegInf | At(price: Price) | PosInf {
    predicate AtMost(p: Price) { NegInf? || (At? && price <= p) }
    predicate AtLeast(p: Price) { PosInf? || (At? && price >= p) }
  }

  datatype Order = Order(
    id: OrderId, client: ClientId, side: Side, kind: OrderKind, symbol: Symbol,
    quantity: Quantity, price: Price, releaseLower: Bound, releaseUpper: Bound,
    submittedAt: Time, notBefore: Option<Time>, expiresAt: Option<Time>)
  {
    predicate ReleaseBandContains(reference: Price) {
      releaseLower.AtMost(reference) && releaseUpper.AtLeast(reference)
    }

    predicate Started(now: Time) { notBefore.None? || now >= notBefore.value }

    predicate Expired(now: Time) { expiresAt.Some? && now >= expiresAt.value }
  }

  datatype OrderRequest = OrderRequest(
    client: ClientId, side: Side, kind: OrderKind, symbol: Symbol, quantity: Quantity,
    price: Price, triggerLower: Option<Price>, triggerUpper: Option<Price>,
    expiresIn: Option<Time>, notBeforeIn: Option<Time>)

  datatype Trade = Trade(
    buyOrderId: OrderId, sellOrderId: OrderId, buyer: ClientId, seller: ClientId,
    symbol: Symbol, quantity: Quantity, price: Price, timestamp: Time)

  /** What `quantity` shares are worth at `price`. */
  function Notional(quantity: Quantity, price: Price): real { quantity as real * price }

  /** The quantity that changes hands in a list of trades. */
  function Filled(trades: seq<Trade>): Quantity {
    if trades == [] then 0 else trades[0].quantity + Filled(trades[1..])
  }

  lemma ProductGrows(p: int, q: int, d: int)
    requires p <= q && d >= 0
    ensures p * d <= q * d
  {}

  function Min(a: int, b: int): int { if a <= b then a else b }
}
