/**
 A side of the book as a list of price levels, and how edits of one level show in the side as a
 whole: what joins a level's queue joins the side in price-time order.
 */
module Levels {
  import opened Types
  import opened Market

  /** All orders of a side, level by level. */
  function Concat(vs: seq<seq<Order>>): seq<Order> {
    if vs == [] then [] else vs[0] + Concat(vs[1..])
  }

  lemma {:induction false} ConcatAppend(vs: seq<seq<Order>>, ws: seq<seq<Order>>)
    ensures Concat(vs + ws) == Concat(vs) + Concat(ws)
  {
    if vs == [] {
      assert vs + ws == ws;
    } else {
      assert (vs + ws)[1..] == vs[1..] + ws;
      ConcatAppend(vs[1..], ws);
    }
  }

  lemma ConcatSplit(vs: seq<seq<Order>>, k: nat)
    requires k < |vs|
    ensures Concat(vs) == Concat(vs[..k]) + vs[k] + Concat(vs[k + 1..])
  {
    assert vs == vs[..k] + vs[k..];
    ConcatAppend(vs[..k], vs[k..]);
  }

  /** The levels hold orders of their own price and side only, and none is empty. */
  ghost predicate Sorted(vs: seq<seq<Order>>, prices: seq<int>, side: Side) {
    && |vs| == |prices|
    && (forall i | 0 <= i < |vs| :: vs[i] != [])
    && (forall i, j | 0 <= i < |vs| && 0 <= j < |vs[i]| :: vs[i][j].price == prices[i] && vs[i][j].side == side)
    && (forall i, j | 0 <= i < j < |prices| :: Better(side, prices[i], prices[j]))
  }

  ghost predicate NoWorse(s: seq<Order>, o: Order) {
    forall i | 0 <= i < |s| :: !Better(o.side, o.price, s[i].price)
  }

  /** An order goes behind everything that is not worse, if what follows is worse. */
  lemma {:induction false} PlaceBetween(a: seq<Order>, b: seq<Order>, o: Order)
    requires NoWorse(a, o) && (b == [] || Better(o.side, o.price, b[0].price))
    ensures Place(a + b, o) == a + [o] + b
  {
    if a == [] {
      assert a + b == b;
    } else {
      assert (a + b)[1..] == a[1..] + b;
      assert NoWorse(a[1..], o);
      PlaceBetween(a[1..], b, o);
    }
  }

  lemma {:induction false} ConcatNoWorse(vs: seq<seq<Order>>, o: Order)
    requires forall i | 0 <= i < |vs| :: NoWorse(vs[i], o)
    ensures NoWorse(Concat(vs), o)
  {
    if vs != [] {
      ConcatNoWorse(vs[1..], o);
    }
  }

  lemma ConcatFirst(vs: seq<seq<Order>>)
    requires vs != [] && vs[0] != []
    ensures Concat(vs) != [] && Concat(vs)[0] == vs[0][0]
  {
  }

  /** Levels before `k` are no worse than `o`, level `k` on are strictly worse. */
  ghost predicate Between(prices: seq<int>, o: Order, k: nat) {
    && k <= |prices|
    && (forall i | 0 <= i < k :: !Better(o.side, o.price, prices[i]))
    && (k < |prices| ==> Better(o.side, o.price, prices[k]))
  }

  lemma SplitPlace(vs: seq<seq<Order>>, prices: seq<int>, o: Order, k: nat)
    requires Sorted(vs, prices, o.side) && Between(prices, o, k)
    ensures Place(Concat(vs), o) == Concat(vs[..k]) + [o] + Concat(vs[k..])
  {
    assert vs == vs[..k] + vs[k..];
    ConcatAppend(vs[..k], vs[k..]);
    ConcatNoWorse(vs[..k], o);
    if k < |vs| {
      ConcatFirst(vs[k..]);
    }
    PlaceBetween(Concat(vs[..k]), Concat(vs[k..]), o);
  }

  /** A new level in its place is the order in its place. */
  lemma NewLevelPlaces(vs: seq<seq<Order>>, prices: seq<int>, o: Order, k: nat)
    requires Sorted(vs, prices, o.side) && Between(prices, o, k)
    ensures Concat(vs[..k] + [[o]] + vs[k..]) == Place(Concat(vs), o)
  {
    SplitPlace(vs, prices, o, k);
    ConcatAppend(vs[..k] + [[o]], vs[k..]);
    ConcatAppend(vs[..k], [[o]]);
    assert Concat([[o]]) == [o] + Concat([]);
  }

  /** An order at the price of level `k` belongs behind that level. */
  lemma LevelBefore(vs: seq<seq<Order>>, prices: seq<int>, o: Order, k: nat)
    requires Sorted(vs, prices, o.side) && k < |vs| && prices[k] == o.price
    ensures |vs| == |prices| && Between(prices, o, k + 1)
  {
    forall i | 0 <= i < k + 1
      ensures !Better(o.side, o.price, prices[i])
    {
      assert i == k || Better(o.side, prices[i], prices[k]);
    }
  }

  /** At the end of its level's queue is the order in its place. */
  lemma OldLevelPlaces(vs: seq<seq<Order>>, prices: seq<int>, o: Order, k: nat)
    requires Sorted(vs, prices, o.side) && k < |vs| && prices[k] == o.price
    ensures Concat(vs[k := vs[k] + [o]]) == Place(Concat(vs), o)
  {
    hide Place, Concat, Sorted;
    LevelBefore(vs, prices, o, k);
    SplitPlace(vs, prices, o, k + 1);
    ConcatSplit(vs[k := vs[k] + [o]], k);
    assert vs[k := vs[k] + [o]][..k] == vs[..k] && vs[k := vs[k] + [o]][k + 1..] == vs[k + 1..];
    ConcatSplit(vs[..k + 1], k);
    assert vs[..k + 1][..k] == vs[..k] && vs[..k + 1][k + 1..] == [];
    NoLevels();
  }

  lemma NoLevels()
    ensures Concat([]) == []
  {
  }

  /** The position in its side of order `j` of level `i`. */
  function Offset(vs: seq<seq<Order>>, i: nat, j: nat): nat
    requires i < |vs|
  {
    |Concat(vs[..i])| + j
  }

  lemma OffsetAt(vs: seq<seq<Order>>, i: nat, j: nat)
    requires i < |vs| && j < |vs[i]|
    ensures Offset(vs, i, j) < |Concat(vs)| && Concat(vs)[Offset(vs, i, j)] == vs[i][j]
  {
    ConcatSplit(vs, i);
  }

  /** The level and the place in it of position `f` of the side. */
  lemma {:induction false} Position(vs: seq<seq<Order>>, f: nat) returns (i: nat, j: nat)
    requires f < |Concat(vs)|
    ensures i < |vs| && j < |vs[i]| && vs[i][j] == Concat(vs)[f]
  {
    if f < |vs[0]| {
      i, j := 0, f;
    } else {
      i, j := Position(vs[1..], f - |vs[0]|);
      i := i + 1;
    }
  }

  /** Taking an order out of its level takes it out of the side. */
  lemma LevelRemove(vs: seq<seq<Order>>, i: nat, j: nat)
    requires i < |vs| && j < |vs[i]|
    ensures var f := Offset(vs, i, j); var s := Concat(vs);
            f < |s| && Concat(vs[i := vs[i][..j] + vs[i][j + 1..]]) == s[..f] + s[f + 1..]
  {
    var a, b := Concat(vs[..i]), Concat(vs[i + 1..]);
    ConcatSplit(vs, i);
    EditConcat(vs, i, vs[i][..j] + vs[i][j + 1..]);
    WithoutMiddle(a, vs[i], b, j);
  }

  lemma WithoutMiddle(a: seq<Order>, m: seq<Order>, b: seq<Order>, j: nat)
    requires j < |m|
    ensures a + (m[..j] + m[j + 1..]) + b == (a + m + b)[..|a| + j] + (a + m + b)[|a| + j + 1..]
  {
    assert (a + m + b)[..|a| + j] == a + m[..j];
    assert (a + m + b)[|a| + j + 1..] == m[j + 1..] + b;
  }

  /** Changing a quantity in a level changes it in the side. */
  lemma LevelSetQty(vs: seq<seq<Order>>, i: nat, j: nat, o: Order)
    requires i < |vs| && j < |vs[i]|
    ensures var f := Offset(vs, i, j); var s := Concat(vs);
            f < |s| && Concat(vs[i := vs[i][j := o]]) == s[f := o]
  {
    ConcatSplit(vs, i);
    EditConcat(vs, i, vs[i][j := o]);
    WithMiddle(Concat(vs[..i]), vs[i], Concat(vs[i + 1..]), j, o);
  }

  lemma WithMiddle(a: seq<Order>, m: seq<Order>, b: seq<Order>, j: nat, o: Order)
    requires j < |m|
    ensures a + m[j := o] + b == (a + m + b)[|a| + j := o]
  {
  }

  lemma EditConcat(vs: seq<seq<Order>>, i: nat, v: seq<Order>)
    requires i < |vs|
    ensures Concat(vs[i := v]) == Concat(vs[..i]) + v + Concat(vs[i + 1..])
  {
    ConcatSplit(vs[i := v], i);
    assert vs[i := v][..i] == vs[..i] && vs[i := v][i + 1..] == vs[i + 1..];
  }

  /** Dropping a level of one order is dropping that order. */
  lemma LevelDrop(vs: seq<seq<Order>>, i: nat)
    requires i < |vs| && |vs[i]| == 1
    ensures var f := Offset(vs, i, 0); var s := Concat(vs);
            f < |s| && s[f] == vs[i][0] && Concat(vs[..i] + vs[i + 1..]) == s[..f] + s[f + 1..]
  {
    ConcatSplit(vs, i);
    ConcatAppend(vs[..i], vs[i + 1..]);
  }

  /** How many levels a side has: its runs of equal price. */
  function LevelCount(s: seq<Order>): nat {
    if |s| <= 1 then |s| else (if s[0].price == s[1].price then 0 else 1) + LevelCount(s[1..])
  }

  lemma {:induction false} CountConcat(a: seq<Order>, b: seq<Order>)
    requires a != [] && (forall i | 0 <= i < |a| :: a[i].price == a[0].price) && (b == [] || b[0].price != a[0].price)
    ensures LevelCount(a + b) == 1 + LevelCount(b)
  {
    if |a| == 1 {
      assert (a + b)[1..] == b;
    } else {
      assert (a + b)[1..] == a[1..] + b;
      CountConcat(a[1..], b);
    }
  }

  lemma {:induction false} LevelsCount(vs: seq<seq<Order>>, prices: seq<int>, side: Side)
    requires Sorted(vs, prices, side)
    ensures LevelCount(Concat(vs)) == |vs|
  {
    if vs != [] {
      LevelsCount(vs[1..], prices[1..], side);
      if |vs| > 1 {
        ConcatFirst(vs[1..]);
        assert Better(side, prices[0], prices[1]);
      }
      CountConcat(vs[0], Concat(vs[1..]));
    }
  }

  /** The queue of a level is what the whole side has at its price. */
  lemma {:induction false} QueueOfLevel(vs: seq<seq<Order>>, prices: seq<int>, side: Side, price: int)
    requires Sorted(vs, prices, side)
    ensures forall k | 0 <= k < |vs| && prices[k] == price :: LevelQueue(Concat(vs), price) == vs[k]
    ensures price !in prices ==> LevelQueue(Concat(vs), price) == []
  {
    if vs != [] {
      QueueOfLevel(vs[1..], prices[1..], side, price);
      QueueConcat(vs[0], Concat(vs[1..]), price);
      QueueUniform(vs[0], prices[0], price);
      if prices[0] == price {
        assert price !in prices[1..] by {
          assert forall j | 0 < j < |prices| :: Better(side, prices[0], prices[j]);
        }
      }
    }
  }

  lemma {:induction false} QueueConcat(a: seq<Order>, b: seq<Order>, price: int)
    ensures LevelQueue(a + b, price) == LevelQueue(a, price) + LevelQueue(b, price)
  {
    if a == [] {
      assert a + b == b;
    } else {
      assert (a + b)[1..] == a[1..] + b;
      QueueConcat(a[1..], b, price);
    }
  }

  lemma {:induction false} QueueUniform(a: seq<Order>, p: int, price: int)
    requires forall i | 0 <= i < |a| :: a[i].price == p
    ensures LevelQueue(a, price) == if p == price then a else []
  {
    if a != [] {
      QueueUniform(a[1..], p, price);
    }
  }

  // ----- room in the pools

  function LevelTotal(c: Sides): nat {
    LevelCount(c.bids) + LevelCount(c.asks)
  }

  /** Both pools have a block for an order resting here, and one to spare; a level needs one only if it is new. */
  predicate Rests(c: Sides, side: Side, price: int, levels: nat, orders: nat) {
    && OrderCount(c) + 2 <= orders
    && (LevelQueue(c.Of(side), price) != [] || LevelTotal(c) + 2 <= levels)
  }
}
