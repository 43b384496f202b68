/**
 The order book as market data describes it: per side, one sequence of orders in price-time
 priority. The price levels of the source are the maximal runs of equal price.

 `Apply` is what a client's book does with one update; `Replay` folds it over a stream.
 */
module Market {
  import opened Types

  /** One ticker's book: each side lists its orders from most to least aggressive. */
  datatype Sides = Sides(bids: seq<Order>, asks: seq<Order>) {
    function Of(side: Side): seq<Order> {
      if side.Buy? then bids else asks
    }

    function With(side: Side, orders: seq<Order>): Sides {
      if side.Buy? then this.(bids := orders) else this.(asks := orders)
    }
  }

  const EMPTY := Sides([], [])

  /** Queue `o` behind every order at least as aggressive, ahead of all others. */
  function Place(s: seq<Order>, o: Order): (r: seq<Order>)
    ensures |r| == |s| + 1
  {
    if s == [] || Better(o.side, o.price, s[0].price) then [o] + s else [s[0]] + Place(s[1..], o)
  }

  function SetQty(s: seq<Order>, oid: nat, qty: nat): (r: seq<Order>)
    ensures |r| == |s|
  {
    if s == [] then []
    else if s[0].oid == oid then [s[0].(qty := qty)] + s[1..]
    else [s[0]] + SetQty(s[1..], oid, qty)
  }

  function RemoveOid(s: seq<Order>, oid: nat): seq<Order> {
    if s == [] then []
    else if s[0].oid == oid then s[1..]
    else [s[0]] + RemoveOid(s[1..], oid)
  }

  /** The orders resting at one price, in arrival order. */
  function LevelQueue(s: seq<Order>, price: int): (q: seq<Order>)
    ensures forall k | 0 <= k < |q| :: q[k] in s && q[k].price == price
  {
    if s == [] then []
    else if s[0].price == price then [s[0]] + LevelQueue(s[1..], price)
    else LevelQueue(s[1..], price)
  }

  /** The order an ADD puts in a client's book. */
  function Quote(u: Update): Order
    requires u.Add?
  {
    Order(Hidden, u.oid, u.side, u.price, u.qty, u.priority)
  }

  /** The ADD that announces an order. */
  function Announce(ticker: nat, o: Order): Update {
    Add(ticker, o.oid, o.side, o.price, o.qty, o.priority)
  }

  /** A client's handling of one update to the book of its ticker. */
  function Apply(c: Sides, u: Update): Sides {
    match u
    case Add(_, _, side, _, _, _) => c.With(side, Place(c.Of(side), Quote(u)))
    case Modify(_, oid, _, _, qty, _) => Sides(SetQty(c.bids, oid, qty), SetQty(c.asks, oid, qty))
    case Cancel(_, oid, _, _, _, _) => Sides(RemoveOid(c.bids, oid), RemoveOid(c.asks, oid))
    case Clear(_) => EMPTY
    case _ => c
  }

  /** One ticker's book after a stream of its updates. */
  function Folded(c: Sides, us: seq<Update>): Sides
    decreases us
  {
    if us == [] then c else Folded(Apply(c, us[0]), us[1..])
  }

  function OrderCount(c: Sides): nat {
    |c.bids| + |c.asks|
  }

  /** `oid` names the live order of this side and price. */
  ghost predicate Names(c: Sides, oid: nat, side: Side, price: int) {
    exists i :: 0 <= i < |c.Of(side)| && c.Of(side)[i].oid == oid && c.Of(side)[i].price == price
  }

  /** `oid` is larger than the id of every live order. */
  ghost predicate Newest(c: Sides, oid: nat) {
    && (forall i | 0 <= i < |c.bids| :: c.bids[i].oid < oid)
    && (forall i | 0 <= i < |c.asks| :: c.asks[i].oid < oid)
  }

  /**
   The update makes sense for this book: an ADD is newer than every live order, a MODIFY or
   CANCEL names a live order by its own side and price (so no id lookup finds null).
   */
  ghost predicate Fits(c: Sides, u: Update) {
    match u
    case Add(_, oid, _, _, qty, _) => Newest(c, oid) && qty > 0
    case Modify(_, oid, side, price, qty, _) => Names(c, oid, side, price) && qty > 0
    case Cancel(_, oid, side, price, _, _) => Names(c, oid, side, price)
    case Trade(_, _, _, _) => true
    case _ => false
  }

  /** `a` is ahead of `b`: better price, or same price and older. */
  predicate Ahead(side: Side, a: Order, b: Order) {
    Better(side, a.price, b.price) || (a.price == b.price && a.oid < b.oid)
  }

  /** Price-time order of one side, by price and then by order id. */
  ghost predicate Ordered(s: seq<Order>, side: Side) {
    && (forall i | 0 <= i < |s| :: s[i].side == side && s[i].qty > 0)
    && (forall i, j {:trigger Ahead(side, s[i], s[j])} | 0 <= i < j < |s| :: Ahead(side, s[i], s[j]))
    && (forall i, j | 0 <= i < j < |s| :: s[i].oid != s[j].oid)
  }

  /** No id of `s` is an id of `t`. */
  ghost predicate Apart(s: seq<Order>, t: seq<Order>) {
    forall i, j | 0 <= i < |s| && 0 <= j < |t| :: s[i].oid != t[j].oid
  }

  ghost predicate WellFormed(c: Sides) {
    && Ordered(c.bids, Buy)
    && Ordered(c.asks, Sell)
    && Apart(c.bids, c.asks)
  }

  // ----- what the three list edits do, by position

  /** Where `Place` puts an order. */
  function Rank(s: seq<Order>, o: Order): (k: nat)
    ensures k <= |s|
  {
    if s == [] || Better(o.side, o.price, s[0].price) then 0 else 1 + Rank(s[1..], o)
  }

  lemma {:induction false} PlaceAt(s: seq<Order>, o: Order)
    ensures Place(s, o) == s[..Rank(s, o)] + [o] + s[Rank(s, o)..]
    ensures forall i | 0 <= i < Rank(s, o) :: !Better(o.side, o.price, s[i].price)
    ensures Rank(s, o) < |s| ==> Better(o.side, o.price, s[Rank(s, o)].price)
  {
    if s != [] && !Better(o.side, o.price, s[0].price) {
      PlaceAt(s[1..], o);
    }
  }

  lemma {:induction false} SetQtyAt(s: seq<Order>, k: nat, qty: nat)
    requires k < |s| && forall i | 0 <= i < k :: s[i].oid != s[k].oid
    ensures SetQty(s, s[k].oid, qty) == s[k := s[k].(qty := qty)]
  {
    if k > 0 {
      SetQtyAt(s[1..], k - 1, qty);
    }
  }

  lemma {:induction false} RemoveAt(s: seq<Order>, k: nat)
    requires k < |s| && forall i | 0 <= i < k :: s[i].oid != s[k].oid
    ensures RemoveOid(s, s[k].oid) == s[..k] + s[k + 1..]
  {
    if k > 0 {
      RemoveAt(s[1..], k - 1);
    }
  }

  lemma {:induction false} Missing(s: seq<Order>, oid: nat, qty: nat)
    requires forall i | 0 <= i < |s| :: s[i].oid != oid
    ensures SetQty(s, oid, qty) == s && RemoveOid(s, oid) == s
  {
    if s != [] {
      Missing(s[1..], oid, qty);
    }
  }

  /** What stands where after an order was placed. */
  lemma PlacedAt(s: seq<Order>, o: Order, i: nat)
    requires i <= |s|
    ensures Place(s, o)[i] == if i < Rank(s, o) then s[i] else if i == Rank(s, o) then o else s[i - 1]
  {
    PlaceAt(s, o);
  }

  /** Placing the newest order of a side keeps the side in price-time order. */
  lemma PlaceOrdered(s: seq<Order>, o: Order)
    requires Ordered(s, o.side) && o.qty > 0
    requires forall i | 0 <= i < |s| :: s[i].oid < o.oid
    ensures Ordered(Place(s, o), o.side)
  {
    hide Place, Rank;
    PlaceAt(s, o);
    var k, r := Rank(s, o), Place(s, o);
    forall i, j | 0 <= i < j < |r|
      ensures Ahead(o.side, r[i], r[j]) && r[i].oid != r[j].oid && r[i].side == r[j].side == o.side
    {
      PlacedAt(s, o, i);
      PlacedAt(s, o, j);
      if j == k {
      } else if i == k {
        assert j - 1 == k || Ahead(o.side, s[k], s[j - 1]);
      } else {
        assert Ahead(o.side, s[if i < k then i else i - 1], s[if j < k then j else j - 1]);
      }
    }
    forall i | 0 <= i < |r|
      ensures r[i].side == o.side && r[i].qty > 0
    {
      PlacedAt(s, o, i);
    }
  }

  lemma PlaceElements(s: seq<Order>, o: Order)
    ensures forall x | x in Place(s, o) :: x in s || x == o
  {
    PlaceAt(s, o);
  }

  lemma SetQtyOrdered(s: seq<Order>, side: Side, k: nat, qty: nat)
    requires Ordered(s, side) && k < |s| && qty > 0
    ensures Ordered(s[k := s[k].(qty := qty)], side)
  {
    var r := s[k := s[k].(qty := qty)];
    forall i, j | 0 <= i < j < |r|
      ensures Ahead(side, r[i], r[j])
    {
      assert Ahead(side, s[i], s[j]);
    }
  }

  lemma RemoveOrdered(s: seq<Order>, side: Side, k: nat)
    requires Ordered(s, side) && k < |s|
    ensures Ordered(s[..k] + s[k + 1..], side)
  {
    var r := s[..k] + s[k + 1..];
    assert forall i | 0 <= i < |r| :: r[i] == s[if i < k then i else i + 1];
  }

  /** Edits by id touch exactly the position of the live order the id names. */
  lemma EditAt(c: Sides, side: Side, k: nat, qty: nat)
    requires WellFormed(c) && k < |c.Of(side)|
    ensures var s := c.Of(side);
            && Sides(SetQty(c.bids, s[k].oid, qty), SetQty(c.asks, s[k].oid, qty))
               == c.With(side, s[k := s[k].(qty := qty)])
            && Sides(RemoveOid(c.bids, s[k].oid), RemoveOid(c.asks, s[k].oid))
               == c.With(side, s[..k] + s[k + 1..])
  {
    SetQtyAt(c.Of(side), k, qty);
    RemoveAt(c.Of(side), k);
    Missing(c.Of(Opposite(side)), c.Of(side)[k].oid, qty);
  }

  /** Replacing one side by a well-ordered one keeps a book well formed when no foreign id appears. */
  lemma WithWellFormed(c: Sides, side: Side, s: seq<Order>)
    requires WellFormed(c) && Ordered(s, side) && Apart(s, c.Of(Opposite(side)))
    ensures WellFormed(c.With(side, s))
  {
    if side.Sell? {
      forall i, j | 0 <= i < |c.bids| && 0 <= j < |s|
        ensures c.bids[i].oid != s[j].oid
      {
        assert s[j].oid != c.bids[i].oid;
      }
    }
  }

  lemma AddWellFormed(c: Sides, side: Side, o: Order)
    requires WellFormed(c) && o.side == side && Newest(c, o.oid) && o.qty > 0
    ensures WellFormed(c.With(side, Place(c.Of(side), o)))
  {
    PlaceOrdered(c.Of(side), o);
    PlaceElements(c.Of(side), o);
    var r, t := Place(c.Of(side), o), c.Of(Opposite(side));
    forall i, j | 0 <= i < |r| && 0 <= j < |t|
      ensures r[i].oid != t[j].oid
    {
      assert r[i] in r;
      if r[i] != o {
        var k :| 0 <= k < |c.Of(side)| && c.Of(side)[k] == r[i];
        assert if side.Buy? then c.bids[k].oid != c.asks[j].oid else c.bids[j].oid != c.asks[k].oid;
      }
    }
    WithWellFormed(c, side, r);
  }

  lemma SetQtyWellFormed(c: Sides, side: Side, k: nat, qty: nat)
    requires WellFormed(c) && k < |c.Of(side)| && qty > 0
    ensures WellFormed(c.With(side, c.Of(side)[k := c.Of(side)[k].(qty := qty)]))
  {
    SetQtyOrdered(c.Of(side), side, k, qty);
    WithWellFormed(c, side, c.Of(side)[k := c.Of(side)[k].(qty := qty)]);
  }

  lemma RemoveWellFormed(c: Sides, side: Side, k: nat)
    requires WellFormed(c) && k < |c.Of(side)|
    ensures WellFormed(c.With(side, c.Of(side)[..k] + c.Of(side)[k + 1..]))
  {
    RemoveOrdered(c.Of(side), side, k);
    WithWellFormed(c, side, c.Of(side)[..k] + c.Of(side)[k + 1..]);
  }

  /** Every update that fits keeps the book well formed. */
  lemma ApplyWellFormed(c: Sides, u: Update)
    requires WellFormed(c) && Fits(c, u)
    ensures WellFormed(Apply(c, u))
  {
    match u {
      case Add(_, _, side, _, _, _) =>
        AddWellFormed(c, side, Quote(u));
      case Modify(_, oid, side, price, qty, _) =>
        var k :| 0 <= k < |c.Of(side)| && c.Of(side)[k].oid == oid && c.Of(side)[k].price == price;
        EditAt(c, side, k, qty);
        SetQtyWellFormed(c, side, k, qty);
      case Cancel(_, oid, side, price, _, _) =>
        var k :| 0 <= k < |c.Of(side)| && c.Of(side)[k].oid == oid && c.Of(side)[k].price == price;
        EditAt(c, side, k, 0);
        RemoveWellFormed(c, side, k);
      case _ =>
    }
  }

  // ----- lookup by order id

  function FindIn(s: seq<Order>, oid: nat): (r: Option<Order>)
    ensures r.Some? ==> r.value in s && r.value.oid == oid
    ensures r.None? ==> forall i | 0 <= i < |s| :: s[i].oid != oid
  {
    if s == [] then None else if s[0].oid == oid then Some(s[0]) else FindIn(s[1..], oid)
  }

  /** The live order with this id. */
  function Find(c: Sides, oid: nat): (r: Option<Order>) {
    if FindIn(c.bids, oid).Some? then FindIn(c.bids, oid) else FindIn(c.asks, oid)
  }

  lemma {:induction false} FindInPlace(s: seq<Order>, o: Order, oid: nat)
    requires FindIn(s, o.oid).None?
    ensures FindIn(Place(s, o), oid) == if oid == o.oid then Some(o) else FindIn(s, oid)
  {
    if s != [] && !Better(o.side, o.price, s[0].price) {
      FindInPlace(s[1..], o, oid);
    }
  }

  lemma {:induction false} FindInSetQty(s: seq<Order>, y: nat, qty: nat, oid: nat)
    ensures FindIn(SetQty(s, y, qty), oid) ==
            if oid == y && FindIn(s, y).Some? then Some(FindIn(s, y).value.(qty := qty)) else FindIn(s, oid)
  {
    if s != [] && s[0].oid != y {
      FindInSetQty(s[1..], y, qty, oid);
    }
  }

  lemma {:induction false} FindInRemove(s: seq<Order>, side: Side, y: nat, oid: nat)
    requires Ordered(s, side)
    ensures FindIn(RemoveOid(s, y), oid) == if oid == y then None else FindIn(s, oid)
  {
    if s != [] {
      FindInRemove(s[1..], side, y, oid);
      if s[0].oid == y {
        Missing(s[1..], y, 0);
      }
    }
  }

  /** What one fitting update does to the order an id names: the order-table view of `Apply`. */
  lemma FindApply(c: Sides, u: Update, oid: nat)
    requires WellFormed(c) && Fits(c, u)
    ensures Find(Apply(c, u), oid) ==
            match u
              case Add(_, x, _, _, _, _) => if oid == x then Some(Quote(u)) else Find(c, oid)
              case Modify(_, x, _, _, qty, _) =>
                if oid == x && Find(c, x).Some? then Some(Find(c, x).value.(qty := qty)) else Find(c, oid)
              case Cancel(_, x, _, _, _, _) => if oid == x then None else Find(c, oid)
              case _ => Find(c, oid)
  {
    match u {
      case Add(_, x, side, _, _, _) =>
        FindInPlace(c.Of(side), Quote(u), oid);
      case Modify(_, x, _, _, qty, _) =>
        FindInSetQty(c.bids, x, qty, oid);
        FindInSetQty(c.asks, x, qty, oid);
      case Cancel(_, x, _, _, _, _) =>
        FindInRemove(c.bids, Buy, x, oid);
        FindInRemove(c.asks, Sell, x, oid);
      case _ =>
    }
  }

  lemma {:induction false} FindInAt(s: seq<Order>, k: nat)
    requires k < |s| && forall i | 0 <= i < k :: s[i].oid != s[k].oid
    ensures FindIn(s, s[k].oid) == Some(s[k])
  {
    if k > 0 {
      FindInAt(s[1..], k - 1);
    }
  }

  /** Every resting order is the one its id finds. */
  lemma FindLive(c: Sides, side: Side, k: nat)
    requires WellFormed(c) && k < |c.Of(side)|
    ensures Find(c, c.Of(side)[k].oid) == Some(c.Of(side)[k])
  {
    FindInAt(c.Of(side), k);
  }

  // ----- streams over several tickers

  function ApplyAll(cs: seq<Sides>, u: Update): (r: seq<Sides>)
    ensures |r| == |cs|
  {
    match u
    case SnapshotStart(_) => cs
    case SnapshotEnd(_) => cs
    case _ => if u.ticker < |cs| then cs[u.ticker := Apply(cs[u.ticker], u)] else cs
  }

  function Replay(cs: seq<Sides>, us: seq<Update>): (r: seq<Sides>)
    ensures |r| == |cs|
    decreases us
  {
    if us == [] then cs else Replay(ApplyAll(cs, us[0]), us[1..])
  }

  ghost predicate FitsAll(cs: seq<Sides>, u: Update) {
    !u.SnapshotStart? && !u.SnapshotEnd? && u.ticker < |cs| && Fits(cs[u.ticker], u)
  }

  /** Each update of the stream fits the books as they are when it arrives. */
  ghost predicate Legal(cs: seq<Sides>, us: seq<Update>)
    decreases us
  {
    us == [] || (FitsAll(cs, us[0]) && Legal(ApplyAll(cs, us[0]), us[1..]))
  }

  ghost predicate AllWellFormed(cs: seq<Sides>) {
    forall t | 0 <= t < |cs| :: WellFormed(cs[t])
  }

  function Fresh(tickers: nat): (r: seq<Sides>)
    ensures |r| == tickers && forall t | 0 <= t < tickers :: r[t] == EMPTY
  {
    seq(tickers, _ => EMPTY)
  }

  lemma {:induction false} ReplayConcat(cs: seq<Sides>, us: seq<Update>, vs: seq<Update>)
    ensures Replay(cs, us + vs) == Replay(Replay(cs, us), vs)
    ensures Legal(cs, us + vs) <==> Legal(cs, us) && Legal(Replay(cs, us), vs)
    decreases us
  {
    if us == [] {
      assert us + vs == vs;
    } else {
      assert (us + vs)[1..] == us[1..] + vs;
      ReplayConcat(ApplyAll(cs, us[0]), us[1..], vs);
    }
  }

  lemma {:induction false} ReplayWellFormed(cs: seq<Sides>, us: seq<Update>)
    requires AllWellFormed(cs) && Legal(cs, us)
    ensures AllWellFormed(Replay(cs, us))
    decreases us
  {
    if us != [] {
      ApplyWellFormed(cs[us[0].ticker], us[0]);
      ReplayWellFormed(ApplyAll(cs, us[0]), us[1..]);
    }
  }
}
