/**
 The price table is indexed by price modulo its length and by nothing else, so two live prices
 may meet in one slot. This module settles when queueing an order by slot is right.
 */
module PriceSlots {
  import opened Types
  import opened Market
  import opened Levels

  /** One side as its levels, best first. */
  datatype Ladder = Ladder(prices: seq<int>, queues: seq<seq<Order>>)

  ghost predicate Distinct(prices: seq<int>, slots: nat)
    requires slots > 0
  {
    forall i, j | 0 <= i < j < |prices| :: prices[i] % slots != prices[j] % slots
  }

  /** No price of `prices` is in the slot of `price`. */
  ghost predicate Vacant(prices: seq<int>, price: int, slots: nat)
    requires slots > 0
  {
    forall i | 0 <= i < |prices| :: prices[i] % slots != price % slots
  }

  ghost predicate Disjoint(prices: seq<int>, others: seq<int>, slots: nat)
    requires slots > 0
  {
    forall i | 0 <= i < |prices| :: Vacant(others, prices[i], slots)
  }

  /** Both sides are ladders of uniform, sorted levels, and no two levels share a slot. */
  ghost predicate Proper(bids: Ladder, asks: Ladder, slots: nat)
    requires slots > 0
  {
    && |bids.prices| == |bids.queues| && |asks.prices| == |asks.queues|
    && Sorted(bids.queues, bids.prices, Buy) && Sorted(asks.queues, asks.prices, Sell)
    && Distinct(bids.prices, slots) && Distinct(asks.prices, slots)
    && Disjoint(bids.prices, asks.prices, slots)
  }

  /** The first level in a slot, or the number of levels. */
  function InSlot(prices: seq<int>, slot: nat, slots: nat): (k: nat)
    requires slots > 0
    ensures k <= |prices|
    ensures k < |prices| ==> prices[k] % slots == slot
    ensures forall i | 0 <= i < k :: prices[i] % slots != slot
  {
    if prices == [] || prices[0] % slots == slot then 0 else 1 + InSlot(prices[1..], slot, slots)
  }

  /** Where a new level goes. */
  function LevelRank(prices: seq<int>, o: Order): (k: nat)
    ensures k <= |prices|
    ensures forall i | 0 <= i < k :: !Better(o.side, o.price, prices[i])
    ensures k < |prices| ==> Better(o.side, o.price, prices[k])
  {
    if prices == [] || Better(o.side, o.price, prices[0]) then 0 else 1 + LevelRank(prices[1..], o)
  }

  function Join(l: Ladder, k: nat, o: Order): Ladder
    requires k < |l.queues|
  {
    l.(queues := l.queues[k := l.queues[k] + [o]])
  }

  function Insert(l: Ladder, o: Order): Ladder
    requires |l.prices| == |l.queues|
  {
    var k := LevelRank(l.prices, o);
    Ladder(l.prices[..k] + [o.price] + l.prices[k..], l.queues[..k] + [[o]] + l.queues[k..])
  }

  /** Queueing an order the way the source does: at the level in its slot, whatever that level's price. */
  function QueueBySlot(bids: Ladder, asks: Ladder, o: Order, slots: nat): (r: (Ladder, Ladder))
    requires slots > 0 && |bids.prices| == |bids.queues| && |asks.prices| == |asks.queues|
  {
    var slot := o.price % slots;
    var b, a := InSlot(bids.prices, slot, slots), InSlot(asks.prices, slot, slots);
    if b < |bids.prices| then (Join(bids, b, o), asks)
    else if a < |asks.prices| then (bids, Join(asks, a, o))
    else if o.side.Buy? then (Insert(bids, o), asks)
    else (bids, Insert(asks, o))
  }

  /** Whatever is live in the order's slot has the order's price, on the order's side. */
  ghost predicate OwnSlot(bids: Ladder, asks: Ladder, o: Order, slots: nat)
    requires slots > 0
  {
    && (forall i | 0 <= i < |bids.prices| && bids.prices[i] % slots == o.price % slots ::
          bids.prices[i] == o.price && o.side == Buy)
    && (forall i | 0 <= i < |asks.prices| && asks.prices[i] % slots == o.price % slots ::
          asks.prices[i] == o.price && o.side == Sell)
  }

  lemma JoinSorted(l: Ladder, side: Side, k: nat, o: Order)
    requires Sorted(l.queues, l.prices, side) && k < |l.queues|
    ensures Sorted(Join(l, k, o).queues, l.prices, side) <==> (l.prices[k] == o.price && o.side == side)
  {
    var q := Join(l, k, o).queues;
    assert q[k][|q[k]| - 1] == o;
    assert forall i, j | 0 <= i < |q| && 0 <= j < |q[i]| && !(i == k && j == |q[k]| - 1) :: q[i][j] == l.queues[i][j];
  }

  lemma InsertedAt(l: Ladder, o: Order, i: nat)
    requires |l.prices| == |l.queues| && i <= |l.prices|
    ensures var k, r := LevelRank(l.prices, o), Insert(l, o);
            && |r.prices| == |r.queues| == |l.prices| + 1
            && r.prices[i] == (if i < k then l.prices[i] else if i == k then o.price else l.prices[i - 1])
            && r.queues[i] == (if i < k then l.queues[i] else if i == k then [o] else l.queues[i - 1])
  {
  }

  lemma InsertDescends(l: Ladder, o: Order)
    requires Sorted(l.queues, l.prices, o.side) && forall i | 0 <= i < |l.prices| :: l.prices[i] != o.price
    ensures forall i, j | 0 <= i < j < |Insert(l, o).prices| ::
              Better(o.side, Insert(l, o).prices[i], Insert(l, o).prices[j])
  {
    hide Insert;
    var k, r := LevelRank(l.prices, o), Insert(l, o);
    InsertedAt(l, o, 0);
    forall i, j | 0 <= i < j < |r.prices|
      ensures Better(o.side, r.prices[i], r.prices[j])
    {
      InsertedAt(l, o, i);
      InsertedAt(l, o, j);
      if i == k && j > k + 1 {
        assert Better(o.side, l.prices[k], l.prices[j - 1]);
      }
    }
  }

  lemma InsertSorted(l: Ladder, o: Order)
    requires Sorted(l.queues, l.prices, o.side) && forall i | 0 <= i < |l.prices| :: l.prices[i] != o.price
    ensures Sorted(Insert(l, o).queues, Insert(l, o).prices, o.side)
  {
    hide Insert;
    InsertDescends(l, o);
    InsertedAt(l, o, 0);
    var r := Insert(l, o);
    forall i | 0 <= i < |r.queues|
      ensures r.queues[i] != []
      ensures forall j | 0 <= j < |r.queues[i]| ::
                r.queues[i][j].price == r.prices[i] && r.queues[i][j].side == o.side
    {
      InsertedAt(l, o, i);
    }
  }

  /** A price joining a side that is vacant at its slot. */
  lemma InsertDistinct(l: Ladder, o: Order, slots: nat)
    requires slots > 0 && |l.prices| == |l.queues| && Distinct(l.prices, slots) && Vacant(l.prices, o.price, slots)
    ensures Distinct(Insert(l, o).prices, slots)
    ensures forall i | 0 <= i < |Insert(l, o).prices| ::
              Insert(l, o).prices[i] == o.price || Insert(l, o).prices[i] in l.prices
  {
    hide Insert;
    InsertedAt(l, o, 0);
    var r := Insert(l, o);
    forall i, j | 0 <= i < j < |r.prices|
      ensures r.prices[i] % slots != r.prices[j] % slots
    {
      InsertedAt(l, o, i);
      InsertedAt(l, o, j);
    }
    forall i | 0 <= i < |r.prices|
      ensures r.prices[i] == o.price || r.prices[i] in l.prices
    {
      InsertedAt(l, o, i);
    }
  }

  lemma InsertBid(bids: Ladder, asks: Ladder, o: Order, slots: nat)
    requires slots > 0 && Proper(bids, asks, slots) && o.side == Buy
    requires Vacant(bids.prices, o.price, slots) && Vacant(asks.prices, o.price, slots)
    ensures Proper(Insert(bids, o), asks, slots)
  {
    InsertSorted(bids, o);
    InsertDistinct(bids, o, slots);
    InsertedAt(bids, o, 0);
    hide Sorted, Insert, Vacant;
  }

  lemma InsertAsk(bids: Ladder, asks: Ladder, o: Order, slots: nat)
    requires slots > 0 && Proper(bids, asks, slots) && o.side == Sell
    requires Vacant(bids.prices, o.price, slots) && Vacant(asks.prices, o.price, slots)
    ensures Proper(bids, Insert(asks, o), slots)
  {
    InsertSorted(asks, o);
    InsertDistinct(asks, o, slots);
    InsertedAt(asks, o, 0);
    hide Sorted, Insert;
  }

  /** Queueing by slot keeps the book proper exactly when the slot is the order's own. */
  lemma QueueBySlotProper(bids: Ladder, asks: Ladder, o: Order, slots: nat)
    requires slots > 0 && Proper(bids, asks, slots)
    ensures var (b, a) := QueueBySlot(bids, asks, o, slots);
            Proper(b, a, slots) <==> OwnSlot(bids, asks, o, slots)
  {
    hide Sorted, Insert;
    var slot := o.price % slots;
    var i, j := InSlot(bids.prices, slot, slots), InSlot(asks.prices, slot, slots);
    if i < |bids.prices| {
      JoinSorted(bids, Buy, i, o);
    } else if j < |asks.prices| {
      JoinSorted(asks, Sell, j, o);
    } else if o.side.Buy? {
      InsertBid(bids, asks, o, slots);
    } else {
      InsertAsk(bids, asks, o, slots);
    }
  }

  /** In its own slot an order lands where price-time order puts it. */
  lemma QueueBySlotPlaces(bids: Ladder, asks: Ladder, o: Order, slots: nat)
    requires slots > 0 && Proper(bids, asks, slots) && OwnSlot(bids, asks, o, slots)
    ensures var (b, a) := QueueBySlot(bids, asks, o, slots); var was := Sides(Concat(bids.queues), Concat(asks.queues));
            Sides(Concat(b.queues), Concat(a.queues)) == was.With(o.side, Place(was.Of(o.side), o))
  {
    var slot := o.price % slots;
    var i, j := InSlot(bids.prices, slot, slots), InSlot(asks.prices, slot, slots);
    if i < |bids.prices| {
      OldLevelPlaces(bids.queues, bids.prices, o, i);
    } else if j < |asks.prices| {
      OldLevelPlaces(asks.queues, asks.prices, o, j);
    } else if o.side.Buy? {
      NewLevelPlaces(bids.queues, bids.prices, o, LevelRank(bids.prices, o));
    } else {
      NewLevelPlaces(asks.queues, asks.prices, o, LevelRank(asks.prices, o));
    }
  }

  /** With 256 slots a bid at 356 joins the queue of the bids at 100, behind them. */
  lemma CollisionExample(a: Order)
    requires a.side == Buy && a.price == 100
    ensures var bids := Ladder([100], [[a]]); var none := Ladder([], []);
            var o := a.(oid := a.oid + 1, price := 356);
            && Proper(bids, none, 256)
            && QueueBySlot(bids, none, o, 256) == (Ladder([100], [[a, o]]), none)
            && Place([a], o) == [o, a]
  {
    var bids, none, o := Ladder([100], [[a]]), Ladder([], []), a.(oid := a.oid + 1, price := 356);
    assert InSlot([100], 100, 256) == 0;
    assert [a] + [o] == [a, o];
    assert bids.queues[0 := [a, o]] == [[a, o]];
    assert Place([a], o) == [o] + [a];
  }

  // ----- a side has one decomposition into levels

  lemma {:induction false} SameLevels(vs: seq<seq<Order>>, ps: seq<int>, ws: seq<seq<Order>>, qs: seq<int>, side: Side)
    requires Sorted(vs, ps, side) && Sorted(ws, qs, side) && Concat(vs) == Concat(ws)
    ensures vs == ws && ps == qs
  {
    if vs == [] {
      if ws != [] {
        ConcatFirst(ws);
      }
    } else {
      ConcatFirst(vs);
      assert ws != [];
      ConcatFirst(ws);
      assert ps[0] == vs[0][0].price == ws[0][0].price == qs[0];
      QueueOfLevel(vs, ps, side, ps[0]);
      QueueOfLevel(ws, qs, side, ps[0]);
      assert Concat(vs[1..]) == Concat(vs)[|vs[0]|..];
      SameLevels(vs[1..], ps[1..], ws[1..], qs[1..], side);
    }
  }

  /** Where the slot is the order's own, proper ladders that show the order in its place are `QueueBySlot`'s. */
  lemma QueueBySlotOnly(bids: Ladder, asks: Ladder, o: Order, slots: nat, bids': Ladder, asks': Ladder)
    requires slots > 0 && Proper(bids, asks, slots) && OwnSlot(bids, asks, o, slots) && Proper(bids', asks', slots)
    requires var was := Sides(Concat(bids.queues), Concat(asks.queues));
             Sides(Concat(bids'.queues), Concat(asks'.queues)) == was.With(o.side, Place(was.Of(o.side), o))
    ensures (bids', asks') == QueueBySlot(bids, asks, o, slots)
  {
    hide QueueBySlot, OwnSlot, Place, Sorted, Distinct, Disjoint;
    QueueBySlotProper(bids, asks, o, slots);
    QueueBySlotPlaces(bids, asks, o, slots);
    var (b, a) := QueueBySlot(bids, asks, o, slots);
    SameLevels(b.queues, b.prices, bids'.queues, bids'.prices, Buy);
    SameLevels(a.queues, a.prices, asks'.queues, asks'.prices, Sell);
  }
}
