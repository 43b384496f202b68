/**
 The matching engine's book as a function of its requests: what each request does to the
 resting orders and which client responses and market updates it sends, in order.

 The linked-structure model in `MatchingBook` is proved against these functions.
 */
module Exchange {
  import opened Types
  import opened Market

  datatype Book = Book(sides: Sides, nextOid: nat)

  const NEW_BOOK := Book(EMPTY, 1)

  /** The result of an operation: the new book and the messages sent meanwhile. */
  datatype Outcome = Outcome(sides: Sides, remains: nat, responses: seq<Response>, updates: seq<Update>)

  /** An incoming order while it is being matched. */
  datatype Taker = Taker(owner: Owner, ticker: nat, oid: nat, side: Side, price: int)

  /** One trade against the first order of the opposite side. */
  function MatchFirst(c: Sides, t: Taker, remains: nat): Outcome
    requires c.Of(Opposite(t.side)) != []
  {
    var opp := Opposite(t.side);
    var m := c.Of(opp)[0];
    var rest := c.Of(opp)[1..];
    var fill := Min(remains, m.qty);
    var left := m.qty - fill;
    Outcome(
      c.With(opp, if left == 0 then rest else [m.(qty := left)] + rest),
      remains - fill,
      [ Filled(t.owner, t.ticker, t.oid, t.side, m.price, fill, remains - fill),
        Filled(m.owner, t.ticker, m.oid, m.side, m.price, fill, left) ],
      [ Trade(t.ticker, t.side, m.price, fill),
        if left == 0 then Cancel(t.ticker, m.oid, m.side, m.price, m.qty, PRIORITY_INVALID)
        else Modify(t.ticker, m.oid, m.side, m.price, left, m.priority) ])
  }

  predicate CanMatch(c: Sides, t: Taker, remains: nat) {
    var s := c.Of(Opposite(t.side));
    remains > 0 && s != [] && Crosses(t.side, t.price, s[0].price)
  }

  function FindMatch(c: Sides, t: Taker, remains: nat): Outcome
    decreases remains, |c.Of(Opposite(t.side))|
  {
    if !CanMatch(c, t, remains) then Outcome(c, remains, [], [])
    else
      var first := MatchFirst(c, t, remains);
      var more := FindMatch(first.sides, t, first.remains);
      Outcome(more.sides, more.remains, first.responses + more.responses, first.updates + more.updates)
  }

  /** A new order of this book, matched. */
  function Matched(b: Book, r: Request): Outcome
    requires r.New?
  {
    FindMatch(b.sides, Taker(r.owner, r.ticker, b.nextOid, r.side, r.price), r.qty)
  }

  /** The orders the side-less price table finds at a price. */
  function TableLevel(c: Sides, price: int): seq<Order> {
    if LevelQueue(c.bids, price) != [] then LevelQueue(c.bids, price) else LevelQueue(c.asks, price)
  }

  function NextPriority(c: Sides, price: int): nat {
    var q := TableLevel(c, price);
    if q == [] then 1 else q[|q| - 1].priority + 1
  }

  function Rest(c: Sides, t: Taker, remains: nat): Order {
    Order(t.owner, t.oid, t.side, t.price, remains, NextPriority(c, t.price))
  }

  function AddOrder(b: Book, r: Request): (out: (Book, Outcome))
    requires r.New?
  {
    var t := Taker(r.owner, r.ticker, b.nextOid, r.side, r.price);
    var accepted := Accepted(r.owner, r.ticker, t.oid, r.side, r.price, r.qty);
    var m := FindMatch(b.sides, t, r.qty);
    if m.remains == 0 then
      (Book(m.sides, b.nextOid + 1), m.(responses := [accepted] + m.responses))
    else
      var o := Rest(m.sides, t, m.remains);
      var sides := m.sides.With(r.side, Place(m.sides.Of(r.side), o));
      (Book(sides, b.nextOid + 1),
       Outcome(sides, m.remains, [accepted] + m.responses,
               m.updates + [Announce(r.ticker, o)]))
  }

  function FindOwner(s: seq<Order>, owner: Owner): (k: nat)
    ensures k <= |s| && (k < |s| ==> s[k].owner == owner)
    ensures forall i | 0 <= i < k :: s[i].owner != owner
  {
    if s == [] || s[0].owner == owner then 0 else 1 + FindOwner(s[1..], owner)
  }

  /** The side and position of an owner's live order. */
  function Locate(c: Sides, owner: Owner): (r: Option<(Side, nat)>)
    ensures r.Some? ==> r.value.1 < |c.Of(r.value.0)| && c.Of(r.value.0)[r.value.1].owner == owner
    ensures r.None? <==> !Owns(c, owner)
  {
    if FindOwner(c.bids, owner) < |c.bids| then Some((Buy, FindOwner(c.bids, owner)))
    else if FindOwner(c.asks, owner) < |c.asks| then Some((Sell, FindOwner(c.asks, owner)))
    else None
  }

  function CancelOwned(b: Book, r: Request): (out: (Book, Outcome))
    requires r.CancelOrder?
  {
    match Locate(b.sides, r.owner)
    case None => (b, Outcome(b.sides, 0, [CancelRejected(r.owner, r.ticker)], []))
    case Some((side, k)) =>
      var s := b.sides.Of(side);
      var o := s[k];
      var sides := b.sides.With(side, s[..k] + s[k + 1..]);
      (Book(sides, b.nextOid),
       Outcome(sides, 0, [Cancelled(r.owner, r.ticker, o.oid, o.side, o.price, o.qty)],
               [Types.Update.Cancel(r.ticker, o.oid, o.side, o.price, 0, o.priority)]))
  }

  function Process(b: Book, r: Request): (Book, Outcome) {
    if r.New? then AddOrder(b, r) else CancelOwned(b, r)
  }

  ghost predicate Owns(c: Sides, owner: Owner) {
    (exists i :: 0 <= i < |c.bids| && c.bids[i].owner == owner)
    || (exists i :: 0 <= i < |c.asks| && c.asks[i].owner == owner)
  }

  /** What clients promise: a new order's id does not name a live order of theirs. */
  ghost predicate Admissible(b: Book, r: Request) {
    r.owner.Client? && (r.New? ==> !Owns(b.sides, r.owner))
  }

  // ----- the invariant of every reachable book

  predicate Resting(o: Order, side: Side, bound: nat) {
    o.side == side && o.qty > 0 && 0 < o.oid < bound && o.owner.Client?
  }

  predicate Strangers(a: Order, b: Order) {
    a.oid != b.oid && a.owner != b.owner
  }

  /** `a` rests before `b` on one side: better price, or same price and both older and prior. */
  predicate Before(side: Side, a: Order, b: Order) {
    && Strangers(a, b)
    && (Better(side, a.price, b.price) || (a.price == b.price && a.oid < b.oid && a.priority < b.priority))
  }

  ghost predicate SoundSide(s: seq<Order>, side: Side, bound: nat) {
    && (forall i {:trigger Resting(s[i], side, bound)} | 0 <= i < |s| :: Resting(s[i], side, bound))
    && (forall i, j {:trigger Before(side, s[i], s[j])} | 0 <= i < j < |s| :: Before(side, s[i], s[j]))
  }

  ghost predicate Disjoint(s: seq<Order>, t: seq<Order>) {
    forall i, j {:trigger Strangers(s[i], t[j])} | 0 <= i < |s| && 0 <= j < |t| :: Strangers(s[i], t[j])
  }

  /** Best bid below best ask. */
  predicate Uncrossed(c: Sides) {
    c.bids != [] && c.asks != [] ==> c.bids[0].price < c.asks[0].price
  }

  /** The invariant, with every live order older than `bound`. */
  ghost predicate SoundSides(c: Sides, bound: nat) {
    SoundSide(c.bids, Buy, bound) && SoundSide(c.asks, Sell, bound) && Disjoint(c.bids, c.asks) && Uncrossed(c)
  }

  ghost predicate Sound(b: Book) {
    b.nextOid > 0 && SoundSides(b.sides, b.nextOid)
  }
}
