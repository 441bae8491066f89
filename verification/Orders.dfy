/** Orders and trades: the values every other component passes around
    (backend/include/titanx/model, backend/src/model). Prices are fixed-point
    integers; timestamps and trade ids carry no behaviour and are not modelled. */
module Orders {

  type OrderId(==, !new)
  type Account(==, !new)
  type Symbol(==, !new)

  datatype Option<+T> = None | Some(value: T)

  datatype Side = Buy | Sell {
    function Opposite(): Side {
      if Buy? then Sell else Buy
    }

    /** The signed change a fill of `quantity` on this side makes to a position. */
    function Signed(quantity: int): int {
      if Buy? then quantity else -quantity
    }
  }

  datatype Kind = Market | Limit | Ioc | Fok | StopLimit

  datatype Status = Pending | PartiallyFilled | Filled | Cancelled | Rejected

  datatype Order = Order(
    id: OrderId,
    account: Account,
    symbol: Symbol,
    side: Side,
    kind: Kind,
    price: int,
    stopPrice: int,
    quantity: int,
    remaining: int,
    status: Status)
  {
    /** Copy-on-modify update of the unfilled quantity; the status follows it. */
    function WithRemaining(n: int): Order {
      this.(remaining := n,
            status := if n == 0 then Filled else if n < quantity then PartiallyFilled else status)
    }
  }

  /** A freshly created order; the id stands for the generated UUID. */
  function Create(id: OrderId, account: Account, symbol: Symbol, side: Side, kind: Kind,
                  price: int, stopPrice: int, quantity: int): Order
  {
    Order(id, account, symbol, side, kind, price, stopPrice, quantity, quantity, Pending)
  }

  /** What the gateway hands to the engine: nothing filled yet. */
  predicate Unfilled(o: Order) {
    o.remaining == o.quantity && o.status == Pending
  }

  /** The status an order must show, given how much of it is left. */
  predicate StatusFits(o: Order) {
    o.status == (if o.remaining == 0 then Filled else if o.remaining < o.quantity then PartiallyFilled else Pending)
  }

  /** The same order, up to what fills change. */
  predicate SameTicket(a: Order, b: Order) {
    a == b.(remaining := a.remaining, status := a.status)
  }

  datatype Trade = Trade(
    symbol: Symbol,
    aggressorId: OrderId,
    aggressorAccount: Account,
    passiveId: OrderId,
    passiveAccount: Account,
    price: int,
    quantity: int,
    aggressorSide: Side)

  function MakeTrade(aggressor: Order, passive: Order, price: int, quantity: int): Trade {
    Trade(aggressor.symbol, aggressor.id, aggressor.account, passive.id, passive.account,
          price, quantity, aggressor.side)
  }

  function Min(a: int, b: int): int {
    if a <= b then a else b
  }

  function Max(a: int, b: int): int {
    if a >= b then a else b
  }
}
