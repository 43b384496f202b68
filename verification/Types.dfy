/**
 Messages and orders shared by the exchange and its clients.

 The source marks unused message fields with the largest value of their type; here each
 kind of message is its own constructor and carries only the fields the source fills in.
 */
module Types {

  datatype Option<+T> = None | Some(value: T)

  datatype Side = Buy | Sell

  /** Who placed an order: a client's own order id, or `Hidden` in published market data. */
  datatype Owner = Client(id: nat, oid: nat) | Hidden

  datatype Order = Order(owner: Owner, oid: nat, side: Side, price: int, qty: nat, priority: nat)

  datatype Request =
    | New(owner: Owner, ticker: nat, side: Side, price: int, qty: nat)
    | CancelOrder(owner: Owner, ticker: nat)

  datatype Response =
    | Accepted(owner: Owner, ticker: nat, oid: nat, side: Side, price: int, remain: nat)
    | Filled(owner: Owner, ticker: nat, oid: nat, side: Side, price: int, exec: nat, remain: nat)
    | Cancelled(owner: Owner, ticker: nat, oid: nat, side: Side, price: int, remain: nat)
    | CancelRejected(owner: Owner, ticker: nat)

  datatype Update =
    | Add(ticker: nat, oid: nat, side: Side, price: int, qty: nat, priority: nat)
    | Modify(ticker: nat, oid: nat, side: Side, price: int, qty: nat, priority: nat)
    | Cancel(ticker: nat, oid: nat, side: Side, price: int, qty: nat, priority: nat)
    | Trade(ticker: nat, side: Side, price: int, qty: nat)
    | Clear(ticker: nat)
    | SnapshotStart(last: nat)
    | SnapshotEnd(last: nat)

  /** The priority a CANCEL carries when a fill, not its owner, removed the order. */
  const PRIORITY_INVALID: nat := 0xFFFF_FFFF_FFFF_FFFF

  function Opposite(side: Side): Side {
    if side.Buy? then Sell else Buy
  }

  /** Price `p` is strictly more aggressive than `q` on `side`. */
  predicate Better(side: Side, p: int, q: int) {
    if side.Buy? then p > q else p < q
  }

  /** An incoming order on `side` limited at `price` may trade against a resting price. */
  predicate Crosses(side: Side, price: int, resting: int) {
    !Better(side, resting, price)
  }

  function Min(a: nat, b: nat): nat {
    if a < b then a else b
  }
}
