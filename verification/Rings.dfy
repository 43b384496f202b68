/**
 The two linked structures of an order book: the circular list of orders at one price, in arrival
 order, and the circular list of price levels of one side, most aggressive first. Both kinds of
 node are relinked in place; the ghost sequences name the nodes in list order.
 */
module Rings {
  import opened Types

  class OrderNode {
    const owner: Owner
    const oid: nat
    const side: Side
    const price: int
    const priority: nat
    const block: nat   // its place in the order pool
    var qty: nat
    var prev: OrderNode?
    var next: OrderNode?

    function View(): Order
      reads this`qty
    {
      Order(owner, oid, side, price, qty, priority)
    }

    constructor (o: Order, block: nat)
      ensures View() == o && this.block == block && prev == null && next == null
    {
      this.block := block;
      owner, oid, side, price, qty, priority := o.owner, o.oid, o.side, o.price, o.qty, o.priority;
      prev, next := null, null;
    }
  }

  class LevelNode {
    const side: Side
    const price: int
    const block: nat   // its place in the level pool
    var first: OrderNode
    var prev: LevelNode?
    var next: LevelNode?
    ghost var queue: seq<OrderNode>  // the ring of orders, from `first` on

    constructor (order: OrderNode, block: nat)
      ensures this.block == block
      ensures side == order.side && price == order.price && first == order && queue == [order]
      ensures prev == null && next == null
    {
      side, price, this.block, first, queue := order.side, order.price, block, order, [order];
      prev, next := null, null;
    }
  }

  // ----- positions in a ring of `n`

  function Pred(i: nat, n: nat): nat
    requires i < n
  {
    if i == 0 then n - 1 else i - 1
  }

  function Succ(i: nat, n: nat): nat
    requires i < n
  {
    if i == n - 1 then 0 else i + 1
  }

  /** The former position of what is at `i` after position `k` was taken out. */
  function Kept(i: nat, k: nat): nat {
    if i < k then i else i + 1
  }

  /** The former position of what is at `i != k` after something was put in at `k`. */
  function Shifted(i: nat, k: nat): nat
    requires i != k
  {
    if i < k then i else i - 1
  }

  ghost predicate Injective<T>(s: seq<T>) {
    forall i, j | 0 <= i < j < |s| :: s[i] != s[j]
  }

  /** Positions after the removal of `k` follow each other as before, except across the gap. */
  lemma KeptNeighbours(i: nat, k: nat, n: nat)
    requires k < n && n > 1 && i < n - 1
    ensures Kept(Succ(i, n - 1), k) == if Kept(i, k) == Pred(k, n) then Succ(k, n) else Succ(Kept(i, k), n)
    ensures Kept(Pred(i, n - 1), k) == if Kept(i, k) == Succ(k, n) then Pred(k, n) else Pred(Kept(i, k), n)
  {
  }

  lemma ShiftedNeighbours(i: nat, k: nat, n: nat)
    requires k < n && i < n + 1 && i != k
    ensures Succ(i, n + 1) == k <==> Shifted(i, k) == Pred(k, n)
    ensures Succ(i, n + 1) != k ==> Shifted(Succ(i, n + 1), k) == Succ(Shifted(i, k), n)
    ensures Pred(i, n + 1) == k <==> Shifted(i, k) == k
    ensures Pred(i, n + 1) != k ==> Shifted(Pred(i, n + 1), k) == Pred(Shifted(i, k), n)
  {
  }

  lemma KeptAt<T>(s: seq<T>, i: nat, k: nat)
    requires k < |s| && i < |s| - 1
    ensures Kept(i, k) != k && Kept(i, k) < |s| && (s[..k] + s[k + 1..])[i] == s[Kept(i, k)]
  {
  }

  lemma ShiftedAt<T>(s: seq<T>, x: T, i: nat, k: nat)
    requires k <= |s| && i <= |s|
    ensures i != k ==> Shifted(i, k) < |s|
    ensures (s[..k] + [x] + s[k..])[i] == if i == k then x else s[Shifted(i, k)]
  {
  }

  lemma KeptInjective<T>(s: seq<T>, k: nat)
    requires Injective(s) && k < |s|
    ensures Injective(s[..k] + s[k + 1..])
  {
    var r := s[..k] + s[k + 1..];
    forall i, j | 0 <= i < j < |r|
      ensures r[i] != r[j]
    {
      assert r[i] == s[Kept(i, k)] && r[j] == s[Kept(j, k)];
    }
  }

  lemma ShiftedInjective<T>(s: seq<T>, x: T, k: nat)
    requires Injective(s) && x !in s && k <= |s|
    ensures Injective(s[..k] + [x] + s[k..])
  {
    var r := s[..k] + [x] + s[k..];
    forall i, j | 0 <= i < j < |r|
      ensures r[i] != r[j]
    {
      assert r[i] == (if i == k then x else s[Shifted(i, k)]) && r[j] == if j == k then x else s[Shifted(j, k)];
    }
  }

  // ----- orders at one price

  ghost predicate OrderRing(q: seq<OrderNode>)
    reads q`prev, q`next
  {
    && q != [] && Injective(q)
    && (forall i | 0 <= i < |q| :: q[i].next == q[Succ(i, |q|)])
    && (forall i | 0 <= i < |q| :: q[i].prev == q[Pred(i, |q|)])
  }

  method StartOrderRing(order: OrderNode)
    modifies order`prev, order`next
    ensures OrderRing([order])
  {
    order.prev := order;
    order.next := order;
  }

  /** Appends at the end of the ring that starts at `first`. */
  method AppendOrder(first: OrderNode, order: OrderNode, ghost q: seq<OrderNode>)
    requires OrderRing(q) && first == q[0] && order !in q
    modifies q`prev, q`next, order`prev, order`next
    ensures OrderRing(q + [order])
  {
    first.prev.next := order;
    order.prev := first.prev;
    order.next := first;
    first.prev := order;
  }

  /** Takes the order at position `k` out of a ring of at least two. */
  method UnlinkOrder(order: OrderNode, ghost q: seq<OrderNode>, ghost k: nat)
    requires OrderRing(q) && |q| > 1 && k < |q| && q[k] == order
    modifies q`prev, q`next
    ensures OrderRing(q[..k] + q[k + 1..])
    ensures order.prev == null && order.next == null
  {
    var before, after := order.prev, order.next;
    before.next := after;
    after.prev := before;
    order.prev := null;
    order.next := null;
    OrderGapClosed(q, k);
  }

  /** Once the neighbours of position `k` point past it, the others form a ring. */
  lemma OrderGapClosed(q: seq<OrderNode>, k: nat)
    requires Injective(q) && |q| > 1 && k < |q|
    requires forall j | 0 <= j < |q| && j != k ::
               q[j].next == if j == Pred(k, |q|) then q[Succ(k, |q|)] else q[Succ(j, |q|)]
    requires forall j | 0 <= j < |q| && j != k ::
               q[j].prev == if j == Succ(k, |q|) then q[Pred(k, |q|)] else q[Pred(j, |q|)]
    ensures OrderRing(q[..k] + q[k + 1..])
  {
    KeptInjective(q, k);
    hide Injective;
    var r := q[..k] + q[k + 1..];
    forall i | 0 <= i < |r|
      ensures r[i].next == r[Succ(i, |r|)] && r[i].prev == r[Pred(i, |r|)]
    {
      KeptNeighbours(i, k, |q|);
      hide Succ, Pred, Kept;
      KeptAt(q, i, k);
      KeptAt(q, Succ(i, |r|), k);
      KeptAt(q, Pred(i, |r|), k);
    }
  }

  // ----- levels of one side

  ghost predicate LevelRing(s: seq<LevelNode>)
    reads s`prev, s`next
  {
    && Injective(s)
    && (forall i | 0 <= i < |s| :: s[i].next == s[Succ(i, |s|)])
    && (forall i | 0 <= i < |s| :: s[i].prev == s[Pred(i, |s|)])
  }

  /** All levels are of this side, most aggressive first, no two at one price. */
  ghost predicate Descending(s: seq<LevelNode>, side: Side) {
    && (forall i | 0 <= i < |s| :: s[i].side == side)
    && (forall i, j | 0 <= i < j < |s| :: Better(side, s[i].price, s[j].price))
  }

  ghost function Head(s: seq<LevelNode>): LevelNode? {
    if s == [] then null else s[0]
  }

  /** Where a level of this price belongs: after all better ones. */
  ghost predicate BelongsAt(s: seq<LevelNode>, side: Side, price: int, k: nat) {
    && k <= |s|
    && (forall i | 0 <= i < k :: Better(side, s[i].price, price))
    && (forall i | k <= i < |s| :: Better(side, price, s[i].price))
  }

  /** Links a new level into its side. */
  method InsertLevel(best: LevelNode?, level: LevelNode, ghost s: seq<LevelNode>)
    returns (best': LevelNode, ghost k: nat)
    requires LevelRing(s) && best == Head(s) && level !in s && Descending(s, level.side)
    requires forall i | 0 <= i < |s| :: s[i].price != level.price
    modifies s`prev, s`next, level`prev, level`next
    ensures BelongsAt(s, level.side, level.price, k)
    ensures LevelRing(s[..k] + [level] + s[k..]) && best' == (s[..k] + [level] + s[k..])[0]
    ensures best' == if k == 0 then level else best
  {
    if best == null {
      level.prev := level;
      level.next := level;
      assert s[..0] + [level] + s[0..] == [level];
      return level, 0;
    }
    hide LevelRing, Descending;
    var target, after;
    target, after, k := FindPlace(best, level, s);
    if after {
      LinkAfter(best, target, level, s);
      assert s[..k] + [level] + s[k..] == s + [level];
      best' := best;
    } else {
      best' := LinkBefore(best, target, level, s, k);
    }
  }

  /**
   The walk of the insertion. It starts at the best level, goes around at most once, and stops at
   the first worse level or, past the last one, back at the best.
   */
  method FindPlace(best: LevelNode, level: LevelNode, ghost s: seq<LevelNode>)
    returns (target: LevelNode, after: bool, ghost k: nat)
    requires LevelRing(s) && s != [] && best == s[0] && Descending(s, level.side)
    requires forall i | 0 <= i < |s| :: s[i].price != level.price
    ensures BelongsAt(s, level.side, level.price, k)
    ensures after <==> k == |s|
    ensures target == if after then best else s[k]
  {
    target := best;
    after := Better(level.side, target.price, level.price);
    k := 0;
    if after {
      target := target.next;
      k := 1;
      after := Better(level.side, target.price, level.price);
    }
    while after && target != best
      invariant k <= |s| && target == s[if k == |s| then 0 else k]
      invariant forall i | 0 <= i < k :: Better(level.side, s[i].price, level.price)
      invariant after ==> k > 0
      invariant !after ==> k < |s| && !Better(level.side, s[k].price, level.price)
      decreases |s| - k, if after then 1 else 0
    {
      after := Better(level.side, target.price, level.price);
      if after {
        target := target.next;
        k := k + 1;
      }
    }
  }

  /** Links `level` behind the last level, which the walk reports by arriving back at the best. */
  method LinkAfter(best: LevelNode, arrived: LevelNode, level: LevelNode, ghost s: seq<LevelNode>)
    requires LevelRing(s) && s != [] && best == s[0] && arrived == best && level !in s
    modifies s`prev, s`next, level`prev, level`next
    ensures LevelRing(s + [level])
  {
    var target := arrived;
    if target == best {
      target := best.prev;
    }
    level.prev := target;
    target.next.prev := level;
    level.next := target.next;
    target.next := level;
  }

  /** Links `level` before the level at position `k`, and makes it the best one if it is. */
  method LinkBefore(best: LevelNode, target: LevelNode, level: LevelNode, ghost s: seq<LevelNode>, ghost k: nat)
    returns (best': LevelNode)
    requires LevelRing(s) && k < |s| && target == s[k] && level !in s && best == s[0]
    requires Better(level.side, level.price, best.price) <==> k == 0  // it is then the new best
    modifies s`prev, s`next, level`prev, level`next
    ensures LevelRing(s[..k] + [level] + s[k..]) && best' == if k == 0 then level else best
  {
    level.prev := target.prev;
    level.next := target;
    target.prev.next := level;
    target.prev := level;
    LevelGapOpened(s, level, k);
    best' := best;
    if Better(level.side, level.price, best.price) {
      assert target.next != best;
      target.next := if target.next == best then level else target.next;
      best' := level;
    }
  }

  /** Once `level` stands between position `k` and the one before it, they form a ring. */
  lemma LevelGapOpened(s: seq<LevelNode>, level: LevelNode, k: nat)
    requires Injective(s) && k < |s| && level !in s
    requires level.prev == s[Pred(k, |s|)] && level.next == s[k]
    requires forall j | 0 <= j < |s| :: s[j].next == if j == Pred(k, |s|) then level else s[Succ(j, |s|)]
    requires forall j | 0 <= j < |s| :: s[j].prev == if j == k then level else s[Pred(j, |s|)]
    ensures LevelRing(s[..k] + [level] + s[k..])
  {
    ShiftedInjective(s, level, k);
    hide Injective;
    var r := s[..k] + [level] + s[k..];
    forall i | 0 <= i < |r|
      ensures r[i].next == r[Succ(i, |r|)] && r[i].prev == r[Pred(i, |r|)]
    {
      ShiftedAt(s, level, i, k);
      ShiftedAt(s, level, Succ(i, |r|), k);
      ShiftedAt(s, level, Pred(i, |r|), k);
      if i != k {
        ShiftedNeighbours(i, k, |s|);
      }
    }
  }

  /** Takes the level at position `k` out of its side. */
  method RemoveLevel(best: LevelNode, level: LevelNode, ghost s: seq<LevelNode>, ghost k: nat)
    returns (best': LevelNode?)
    requires LevelRing(s) && k < |s| && s[k] == level && best == s[0]
    modifies s`prev, s`next
    ensures LevelRing(s[..k] + s[k + 1..]) && best' == Head(s[..k] + s[k + 1..])
    ensures |s| > 1 ==> level.prev == null && level.next == null
  {
    if level.next == level {
      assert |s| == 1;
      best' := null;
    } else {
      best' := if level == best then level.next else best;
      UnlinkLevel(level, s, k);
    }
  }

  method UnlinkLevel(level: LevelNode, ghost s: seq<LevelNode>, ghost k: nat)
    requires LevelRing(s) && |s| > 1 && k < |s| && s[k] == level
    modifies s`prev, s`next
    ensures LevelRing(s[..k] + s[k + 1..]) && level.prev == null && level.next == null
  {
    level.prev.next := level.next;
    level.next.prev := level.prev;
    level.prev := null;
    level.next := null;
    LevelGapClosed(s, k);
  }

  lemma LevelGapClosed(s: seq<LevelNode>, k: nat)
    requires Injective(s) && |s| > 1 && k < |s|
    requires forall j | 0 <= j < |s| && j != k ::
               s[j].next == if j == Pred(k, |s|) then s[Succ(k, |s|)] else s[Succ(j, |s|)]
    requires forall j | 0 <= j < |s| && j != k ::
               s[j].prev == if j == Succ(k, |s|) then s[Pred(k, |s|)] else s[Pred(j, |s|)]
    ensures LevelRing(s[..k] + s[k + 1..])
  {
    KeptInjective(s, k);
    hide Injective;
    var r := s[..k] + s[k + 1..];
    forall i | 0 <= i < |r|
      ensures r[i].next == r[Succ(i, |r|)] && r[i].prev == r[Pred(i, |r|)]
    {
      KeptNeighbours(i, k, |s|);
      hide Succ, Pred, Kept;
      KeptAt(s, i, k);
      KeptAt(s, Succ(i, |r|), k);
      KeptAt(s, Pred(i, |r|), k);
    }
  }
}
