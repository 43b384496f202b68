/**
 The linked structure both order books of the source are made of: two rings of price levels, the
 price table that both sides share, and a ring of orders at each level. The exchange's and the
 client's book carry the same code for it; here it is one class.

 `Flat` is a side as one list in price-time order; every operation is proved against it.
 */
module LevelBooks {
  import opened Types
  import opened Market
  import opened Rings
  import opened Levels
  import opened PriceSlots
  import P = Pools

  /** A level's ring of orders, showing `vals`. */
  ghost predicate QueueShows(l: LevelNode, vals: seq<Order>)
    reads l`first, l`queue, l.queue
  {
    && l.queue != [] && OrderRing(l.queue) && l.first == l.queue[0] && |vals| == |l.queue|
    && (forall j | 0 <= j < |vals| :: vals[j] == l.queue[j].View())
  }

  /** A level in its ring of orders, all of its own price and side, showing `vals`. */
  ghost predicate LevelShows(l: LevelNode, vals: seq<Order>)
    reads l`first, l`queue, l.queue
  {
    && QueueShows(l, vals)
    && (forall j | 0 <= j < |vals| :: l.queue[j].price == l.price && l.queue[j].side == l.side)
  }

  /** Every order of the level is among `orders`. */
  ghost predicate QueueIn(l: LevelNode, orders: set<OrderNode>)
    reads l`queue
  {
    forall j | 0 <= j < |l.queue| :: l.queue[j] in orders
  }

  ghost function Prices(nodes: seq<LevelNode>): (r: seq<int>)
    ensures |r| == |nodes| && forall i | 0 <= i < |r| :: r[i] == nodes[i].price
  {
    seq(|nodes|, i requires 0 <= i < |nodes| => nodes[i].price)
  }

  /** No live price of the book falls in the slot of `price` without being `price`. */
  ghost predicate SlotFree(c: Sides, price: int, slots: nat)
    requires slots > 0
  {
    forall side: Side, i | 0 <= i < |c.Of(side)| && c.Of(side)[i].price % slots == price % slots ::
      c.Of(side)[i].price == price
  }

  /** The two pools of a book. */
  class BookPools {
    var levels: P.Pool
    var orders: P.Pool

    constructor (levelBlocks: nat, orderBlocks: nat)
      ensures levels == P.Fresh(levelBlocks) && orders == P.Fresh(orderBlocks)
    {
      levels, orders := P.Fresh(levelBlocks), P.Fresh(orderBlocks);
    }

    /** Allocates a level's block; None where the process exits. */
    method TakeLevel() returns (block: Option<nat>)
      requires P.Valid(levels)
      modifies this`levels
      ensures block == if P.Alloc(old(levels)).Some? then Some(old(levels.next)) else None
      ensures block.Some? ==> levels == P.Alloc(old(levels)).value
    {
      block := None;
      match P.Alloc(levels) {
        case None =>
        case Some(p) =>
          block := Some(levels.next);
          levels := p;
      }
    }

    /** Allocates an order's block; None where the process exits. */
    method TakeOrder() returns (block: Option<nat>)
      requires P.Valid(orders)
      modifies this`orders
      ensures block == if P.Alloc(old(orders)).Some? then Some(old(orders.next)) else None
      ensures block.Some? ==> orders == P.Alloc(old(orders)).value
    {
      block := None;
      match P.Alloc(orders) {
        case None =>
        case Some(p) =>
          block := Some(orders.next);
          orders := p;
      }
    }

    /** Gives a level's block back; it must be in use. */
    method GiveLevel(block: nat)
      requires block < |levels.free| && !levels.free[block]
      modifies this`levels
      ensures levels == P.Free(old(levels), block)
    {
      levels := P.Free(levels, block);
    }

    /** Gives an order's block back; it must be in use. */
    method GiveOrder(block: nat)
      requires block < |orders.free| && !orders.free[block]
      modifies this`orders
      ensures orders == P.Free(old(orders), block)
    {
      orders := P.Free(orders, block);
    }
  }

  lemma {:induction false} InjectiveSize<T>(s: seq<T>)
    requires Injective(s)
    ensures |set x | x in s| == |s|
  {
    if s != [] {
      var t := s[..|s| - 1];
      InjectiveSize(t);
      assert (set x | x in s) == (set x | x in t) + {s[|s| - 1]};
    }
  }

  function LevelBlock(n: LevelNode): nat {
    n.block
  }

  function OrderBlock(o: OrderNode): nat {
    o.block
  }

  /** The position of a level in the book. */
  datatype Spot = Spot(side: Side, index: nat)

  class LevelBook {
    var bids: LevelNode?
    var asks: LevelNode?
    const table: array<LevelNode?>  // by price modulo its length, both sides
    const pools: BookPools
    ghost var bidNodes: seq<LevelNode>
    ghost var askNodes: seq<LevelNode>
    ghost var bidVals: seq<seq<Order>>
    ghost var askVals: seq<seq<Order>>
    ghost var orders: set<OrderNode>

    function Slot(price: int): (i: nat)
      requires table.Length > 0
      ensures i < table.Length
    {
      price % table.Length
    }

    ghost function Nodes(side: Side): seq<LevelNode>
      reads this`bidNodes, this`askNodes
    {
      if side.Buy? then bidNodes else askNodes
    }

    ghost function Vals(side: Side): seq<seq<Order>>
      reads this`bidVals, this`askVals
    {
      if side.Buy? then bidVals else askVals
    }

    function Best(side: Side): LevelNode?
      reads this`bids, this`asks
    {
      if side.Buy? then bids else asks
    }

    /** One side as a list in price-time order. */
    ghost function Flat(side: Side): seq<Order>
      reads this
    {
      Concat(Vals(side))
    }

    ghost function View(): Sides
      reads this
    {
      Sides(Concat(bidVals), Concat(askVals))
    }

    ghost predicate SideLinked(side: Side)
      reads this`bids, this`asks, this`bidNodes, this`askNodes, this`bidVals, this`askVals
      reads Nodes(side)`prev, Nodes(side)`next
    {
      && Best(side) == Head(Nodes(side))
      && LevelRing(Nodes(side)) && Descending(Nodes(side), side)
      && |Vals(side)| == |Nodes(side)|
    }

    ghost predicate SideShows(side: Side)
      requires |Vals(side)| == |Nodes(side)|
      reads this, Nodes(side), orders
    {
      forall i | 0 <= i < |Nodes(side)| ::
        QueueIn(Nodes(side)[i], orders) && LevelShows(Nodes(side)[i], Vals(side)[i])
    }

    /** The table finds every level at its price's slot, and holds nothing else. */
    ghost predicate TableShows()
      reads this, table
    {
      && table.Length > 0
      && (forall i | 0 <= i < |bidNodes| :: table[Slot(bidNodes[i].price)] == bidNodes[i])
      && (forall i | 0 <= i < |askNodes| :: table[Slot(askNodes[i].price)] == askNodes[i])
      && (forall i | 0 <= i < table.Length && table[i] != null ::
            table[i] in Nodes(table[i].side) && Slot(table[i].price) == i)
    }

    /** Every order is in the queue of the level its price finds. */
    ghost predicate OrdersFound()
      requires table.Length > 0
      reads this, table, bidNodes, askNodes, orders, set i | 0 <= i < table.Length :: table[i]
    {
      forall o | o in orders :: table[Slot(o.price)] != null && o in table[Slot(o.price)].queue
    }

    ghost predicate Valid()
      reads this, table, bidNodes, askNodes, orders, set i | 0 <= i < table.Length :: table[i]
    {
      && SideLinked(Buy) && SideLinked(Sell) && SideShows(Buy) && SideShows(Sell)
      && TableShows() && OrdersFound()
    }

    /** The level nodes of both sides. */
    ghost function LevelNodes(): set<LevelNode>
      reads this`bidNodes, this`askNodes
    {
      (set n | n in bidNodes) + (set n | n in askNodes)
    }

    /** The level pool's used blocks are the levels' own. */
    ghost predicate LevelsPooled()
      reads this`bidNodes, this`askNodes, pools`levels
    {
      P.Housed(pools.levels, LevelNodes(), LevelBlock)
    }

    /** The order pool's used blocks are the orders' own, and those of orders about to join. */
    ghost predicate OrdersPooled(joining: set<OrderNode>)
      reads this`orders, pools`orders
    {
      P.Housed(pools.orders, orders + joining, OrderBlock)
    }

    ghost predicate Pooled()
      reads this`bidNodes, this`askNodes, this`orders, pools
    {
      LevelsPooled() && OrdersPooled({})
    }

    /** Slots of the price table, which are also the level pool's blocks, and blocks of the order pool. */
    constructor (slots: nat, blocks: nat)
      requires slots > 0 && blocks > 0
      ensures Valid() && fresh(table) && table.Length == slots && orders == {} && View() == EMPTY
      ensures bidNodes == askNodes == []
      ensures Pooled() && fresh(pools) && pools.levels == P.Fresh(slots) && pools.orders == P.Fresh(blocks)
    {
      bids, asks := null, null;
      table := new LevelNode?[slots](_ => null);
      pools := new BookPools(slots, blocks);
      bidNodes, askNodes, bidVals, askVals, orders := [], [], [], [], {};
      new;
      P.NoneLive(slots);
      P.NoneLive(blocks);
      NothingListed();
    }

    lemma NothingListed()
      requires bids == asks == null && bidNodes == askNodes == [] && bidVals == askVals == [] && orders == {}
      requires table.Length > 0 && forall i | 0 <= i < table.Length :: table[i] == null
      ensures Valid()
    {
    }

    /** As many level nodes as levels. */
    lemma LevelsCounted()
      requires SideLinked(Buy) && SideLinked(Sell)
      ensures |LevelNodes()| == |bidNodes| + |askNodes|
    {
      hide LevelRing, Descending;
      SideInjective(Buy);
      SideInjective(Sell);
      InjectiveSize(bidNodes);
      InjectiveSize(askNodes);
      OppositeApart(Buy);
      var a, b := set n | n in bidNodes, set n | n in askNodes;
      assert a !! b;
    }

    lemma SideInjective(side: Side)
      requires SideLinked(side)
      ensures Injective(Nodes(side))
    {
    }

    /** Two levels of the book at one price, or even in one slot, are the same level. */
    lemma SameSlot(side: Side, i: nat, side': Side, j: nat)
      requires TableShows() && i < |Nodes(side)| && j < |Nodes(side')|
      requires Slot(Nodes(side)[i].price) == Slot(Nodes(side')[j].price)
      ensures Nodes(side)[i] == Nodes(side')[j]
    {
    }

    lemma SideOf(side: Side, i: nat)
      requires SideLinked(side) && i < |Nodes(side)|
      ensures Nodes(side)[i].side == side
    {
    }

    /** Queues of different levels have no order in common. */
    lemma QueuesApart(side: Side, i: nat, side': Side, j: nat, o: OrderNode)
      requires TableShows() && SideLinked(Buy) && SideLinked(Sell) && SideShows(Buy) && SideShows(Sell)
      requires i < |Nodes(side)| && j < |Nodes(side')| && Nodes(side)[i] != Nodes(side')[j]
      requires o in Nodes(side)[i].queue
      ensures o !in Nodes(side')[j].queue
    {
      assert LevelShows(Nodes(side)[i], Vals(side)[i]) && LevelShows(Nodes(side')[j], Vals(side')[j]);
      if o in Nodes(side')[j].queue {
        SameSlot(side, i, side', j);
      }
    }

    /** What the table holds is listed. */
    lemma TableListed()
      requires Valid()
      ensures forall i | 0 <= i < table.Length && table[i] != null :: table[i] in bidNodes || table[i] in askNodes
    {
    }

    /** Where a live level stands, and what it shows. */
    lemma LevelAt(l: LevelNode) returns (k: nat)
      requires Valid() && exists i :: 0 <= i < table.Length && table[i] == l
      ensures k < |Nodes(l.side)| == |Vals(l.side)| && Nodes(l.side)[k] == l && LevelShows(l, Vals(l.side)[k])
      ensures QueueIn(l, orders)
    {
      k :| 0 <= k < |Nodes(l.side)| && Nodes(l.side)[k] == l;
    }

    /** No other level has an order of `l`. */
    ghost predicate Alone(l: LevelNode)
      reads this, bidNodes, askNodes, l
    {
      && (forall n, o | n in bidNodes && n != l && o in n.queue :: o !in l.queue)
      && (forall n, o | n in askNodes && n != l && o in n.queue :: o !in l.queue)
    }

    lemma LevelAlone(l: LevelNode)
      requires Valid() && exists i :: 0 <= i < table.Length && table[i] == l
      ensures Alone(l)
    {
      var k :| 0 <= k < |Nodes(l.side)| && Nodes(l.side)[k] == l;
      forall side: Side, n, o | n in Nodes(side) && n != l && o in n.queue
        ensures o !in l.queue
      {
        var i :| 0 <= i < |Nodes(side)| && Nodes(side)[i] == n;
        QueuesApart(side, i, l.side, k, o);
      }
      assert Nodes(Buy) == bidNodes && Nodes(Sell) == askNodes;
    }

    /** The first order of the best level is the first of its side. */
    lemma BestIsFirst(side: Side)
      requires Valid()
      ensures Best(side) == null <==> View().Of(side) == []
      ensures Best(side) != null ==>
                Best(side).first in orders && Best(side).first.side == side
                && Best(side).first.View() == View().Of(side)[0]
    {
      if Nodes(side) != [] {
        var l := Nodes(side)[0];
        assert LevelShows(l, Vals(side)[0]) && QueueIn(l, orders);
        ConcatFirst(Vals(side));
      }
    }

    /** The best level shows the queue of the side's first price. */
    lemma BestShows(side: Side)
      requires Valid()
      ensures Best(side) == null <==> View().Of(side) == []
      ensures Best(side) != null ==>
                && View().Of(side)[0].price == Best(side).price
                && LevelShows(Best(side), LevelQueue(View().Of(side), Best(side).price))
    {
      hide Concat;
      BestIsFirst(side);
      if Nodes(side) != [] {
        var l := Nodes(side)[0];
        assert LevelShows(l, Vals(side)[0]);
        SideSorted(side);
        QueueOfLevel(Vals(side), Prices(Nodes(side)), side, l.price);
      }
    }

    /** A side whose level the table does not find at a price has nothing there. */
    lemma NothingAt(side: Side, price: int)
      requires Valid() && (table[Slot(price)] == null || table[Slot(price)].side != side)
      ensures LevelQueue(Flat(side), price) == []
    {
      hide Valid, Concat, Sorted;
      SideSorted(side);
      QueueOfLevel(Vals(side), Prices(Nodes(side)), side, price);
      NotListed(side, price);
    }

    /** The level the table finds at its own price holds all its side has there. */
    lemma QueueAt(l: LevelNode)
      requires Valid() && table[Slot(l.price)] == l
      ensures LevelShows(l, LevelQueue(Flat(l.side), l.price))
    {
      hide Valid, Concat, Sorted, LevelShows;
      var k := LevelAt(l);
      SideSorted(l.side);
      QueueOfLevel(Vals(l.side), Prices(Nodes(l.side)), l.side, l.price);
    }

    /** The table and the two sides agree on what rests at a price. */
    lemma TableAgrees(price: int)
      requires Valid() && (table[Slot(price)] != null ==> table[Slot(price)].price == price)
      ensures table[Slot(price)] == null ==> LevelQueue(Flat(Buy), price) == [] == LevelQueue(Flat(Sell), price)
      ensures table[Slot(price)] != null ==>
                var l := table[Slot(price)]; var q := LevelQueue(Flat(l.side), price);
                && LevelQueue(Flat(Opposite(l.side)), price) == []
                && q != [] && l.first.prev != null && l.first.prev.View() == q[|q| - 1]
    {
      hide Valid, Flat, LevelQueue, Injective;
      SlotsLive(price);
      if table[Slot(price)] == null {
        NothingAt(Buy, price);
        NothingAt(Sell, price);
      } else {
        var l := table[Slot(price)];
        NothingAt(Opposite(l.side), price);
        QueueAt(l);
      }
    }

    /** The order before a level's first is the last of its queue. */
    lemma LevelEnd(l: LevelNode)
      requires Valid() && exists i :: 0 <= i < table.Length && table[i] == l
      ensures l.queue != [] && l.first.prev == l.queue[|l.queue| - 1]
    {
      var k := LevelAt(l);
    }

    /** A level in the table has a live first order of its own price and side. */
    lemma SlotsLive(price: int)
      requires Valid()
      ensures table.Length > 0
      ensures var l := table[Slot(price)];
              l != null ==> Slot(l.price) == Slot(price)
                            && l.first in orders && l.first.price == l.price && l.first.side == l.side
    {
      var l := table[Slot(price)];
      if l != null {
        var k := LevelAt(l);
      }
    }

    /** The level found at a price nothing opposite rests at is that price's, on the given side. */
    lemma LevelFits(side: Side, price: int)
      requires Valid() && SlotFree(View(), price, table.Length)
      requires LevelQueue(View().Of(Opposite(side)), price) == []
      ensures var l := table[Slot(price)]; l != null ==> l.price == price && l.side == side
    {
      hide Valid;
      SlotsLive(price);
      var l := table[Slot(price)];
      if l != null {
        var f := WhereListed(l.first);
        assert View().Of(l.side)[f].price % table.Length == price % table.Length;
        TableAgrees(price);
      }
    }

    /** The level pool has room exactly while two more than the levels of both sides fit in it. */
    lemma LevelRoom()
      requires Valid() && LevelsPooled()
      ensures P.Valid(pools.levels)
      ensures P.Alloc(pools.levels).Some? <==>
                LevelCount(View().bids) + LevelCount(View().asks) + 2 <= |pools.levels.free|
    {
      hide Valid, Concat, LevelCount, Sorted, P.Alloc;
      SideSorted(Buy);
      SideSorted(Sell);
      LevelsCount(bidVals, Prices(bidNodes), Buy);
      LevelsCount(askVals, Prices(askNodes), Sell);
      Parts();
      LevelsCounted();
      P.HousedRoom(pools.levels, LevelNodes(), LevelBlock);
    }

    /** The pools' used blocks, in numbers: one for every level of both sides, one for every order. */
    lemma BlocksInUse()
      requires Valid() && Pooled()
      ensures |P.Live(pools.levels)| == |bidNodes| + |askNodes| == LevelTotal(View())
      ensures |P.Live(pools.orders)| == |orders|
    {
      hide Concat, LevelCount, Sorted, P.Alloc, P.Live;
      SideSorted(Buy);
      SideSorted(Sell);
      LevelsCount(bidVals, Prices(bidNodes), Buy);
      LevelsCount(askVals, Prices(askNodes), Sell);
      LevelsCounted();
      assert orders + {} == orders;
    }

    /** Each listed order is the view of a live one. */
    lemma ListedLive(side: Side, f: nat) returns (order: OrderNode)
      requires Valid() && f < |View().Of(side)|
      ensures order in orders && order.View() == View().Of(side)[f]
    {
      var i, j := Position(Vals(side), f);
      assert LevelShows(Nodes(side)[i], Vals(side)[i]) && QueueIn(Nodes(side)[i], orders);
      order := Nodes(side)[i].queue[j];
    }

    lemma NotListed(side: Side, price: int)
      requires Valid() && (table[Slot(price)] == null || table[Slot(price)].side != side)
      ensures price !in Prices(Nodes(side))
    {
    }

    /** No level joined the book but new ones. */
    twostate predicate NodesGrown()
      reads this
    {
      && (forall i | 0 <= i < |bidNodes| :: fresh(bidNodes[i]) || bidNodes[i] in old(bidNodes + askNodes))
      && (forall i | 0 <= i < |askNodes| :: fresh(askNodes[i]) || askNodes[i] in old(bidNodes + askNodes))
    }

    /** Nothing joined the book but new levels and orders. */
    twostate predicate Grown()
      reads this
    {
      NodesGrown() && fresh(orders - old(orders))
    }

    twostate lemma StillGrown()
      requires bidNodes == old(bidNodes) && askNodes == old(askNodes) && orders == old(orders)
      ensures Grown()
    {
    }

    // ----- keeping the book valid when one level changes

    /** Neither the level nor an order in it changed. */
    twostate predicate Untouched(n: LevelNode)
      reads n, n.queue
    {
      && n.queue == old(n.queue) && n.first == old(n.first)
      && forall o | o in n.queue :: o.prev == old(o.prev) && o.next == old(o.next) && o.qty == old(o.qty)
    }

    /** An untouched level still shows what it showed. */
    twostate lemma LevelKept(at: Spot)
      requires at.index < |old(Nodes(at.side))| && at.index < |old(Vals(at.side))|
      requires old(LevelShows(Nodes(at.side)[at.index], Vals(at.side)[at.index]))
      requires Untouched(old(Nodes(at.side))[at.index])
      ensures LevelShows(old(Nodes(at.side))[at.index], old(Vals(at.side))[at.index])
    {
    }

    /** Outside level `l` no list, level or order of `was` changed. */
    twostate predicate OnlyLevel(l: LevelNode, was: set<OrderNode>)
      reads this`bidNodes, this`askNodes, this`bids, this`asks, table, bidNodes, askNodes, was
    {
      && bidNodes == old(bidNodes) && askNodes == old(askNodes) && bids == old(bids) && asks == old(asks)
      && (forall i | 0 <= i < table.Length :: table[i] == old(table[i]))
      && (forall n | n in bidNodes :: n.prev == old(n.prev) && n.next == old(n.next))
      && (forall n | n in askNodes :: n.prev == old(n.prev) && n.next == old(n.next))
      && (forall n | n in bidNodes && n != l :: n.first == old(n.first) && n.queue == old(n.queue))
      && (forall n | n in askNodes && n != l :: n.first == old(n.first) && n.queue == old(n.queue))
      && (forall o | o in was && o !in old(l.queue) ::
            o.prev == old(o.prev) && o.next == old(o.next) && o.qty == old(o.qty))
    }

    twostate lemma SameLists(l: LevelNode)
      requires OnlyLevel(l, old(orders))
      ensures bidNodes == old(bidNodes) && askNodes == old(askNodes)
    {
    }

    /** The live orders are what they were, with the queue of `l` replaced. */
    twostate predicate QueueReplaced(l: LevelNode)
      reads this`orders, l`queue
    {
      && QueueIn(l, orders)
      && (forall o | o in old(orders) && o !in old(l.queue) :: o in orders)
      && (forall o | o in orders :: o in l.queue || (o in old(orders) && o !in old(l.queue)))
    }

    /** Other levels are untouched and their orders still live. */
    twostate lemma OthersUntouched(l: LevelNode)
      requires old(Valid()) && old(Alone(l)) && OnlyLevel(l, old(orders)) && QueueReplaced(l)
      ensures forall side: Side, i | 0 <= i < |Nodes(side)| && Nodes(side)[i] != l ::
                Untouched(Nodes(side)[i]) && QueueIn(Nodes(side)[i], orders)
    {
      hide LevelShows, LevelRing, Descending, TableShows, OrdersFound;
      forall side: Side, i | 0 <= i < |Nodes(side)| && Nodes(side)[i] != l
        ensures Untouched(Nodes(side)[i]) && QueueIn(Nodes(side)[i], orders)
      {
        var n := Nodes(side)[i];
        assert n in Nodes(side) && n.queue == old(n.queue) && old(QueueIn(n, orders));
        forall o | o in n.queue
          ensures o in old(orders) && o !in old(l.queue)
        {
        }
      }
    }

    twostate lemma OthersShow(l: LevelNode)
      requires old(Valid()) && old(Alone(l)) && OnlyLevel(l, old(orders)) && QueueReplaced(l)
      ensures forall side: Side, i | 0 <= i < |Nodes(side)| && Nodes(side)[i] != l ::
                QueueIn(Nodes(side)[i], orders) && LevelShows(Nodes(side)[i], old(Vals(side))[i])
    {
      OthersUntouched(l);
      assert bidNodes == old(bidNodes) && askNodes == old(askNodes);
      hide Untouched, QueueIn, OnlyLevel, QueueReplaced, LevelShows, Alone, TableShows, OrdersFound;
      forall side: Side, i | 0 <= i < |Nodes(side)| && Nodes(side)[i] != l
        ensures QueueIn(Nodes(side)[i], orders) && LevelShows(Nodes(side)[i], old(Vals(side))[i])
      {
        assert old(LevelShows(Nodes(side)[i], Vals(side)[i]));
        LevelKept(Spot(side, i));
      }
    }

    twostate lemma RingsKept(l: LevelNode)
      requires old(Valid()) && OnlyLevel(l, old(orders))
      requires |bidVals| == |old(bidVals)| && |askVals| == |old(askVals)|
      ensures SideLinked(Buy) && SideLinked(Sell)
    {
      hide SideShows, TableShows, OrdersFound;
    }

    twostate lemma TableKept(l: LevelNode)
      requires old(Valid()) && OnlyLevel(l, old(orders))
      ensures TableShows()
    {
      hide SideShows, SideLinked, OrdersFound;
    }

    twostate lemma FoundKept(l: LevelNode)
      requires old(Valid()) && old(Alone(l)) && OnlyLevel(l, old(orders)) && QueueReplaced(l)
      requires l in Nodes(l.side) && forall j | 0 <= j < |l.queue| :: l.queue[j].price == l.price
      requires TableShows()
      ensures OrdersFound()
    {
      forall o | o in orders
        ensures table[Slot(o.price)] != null && o in table[Slot(o.price)].queue
      {
        if o in l.queue {
          assert table[Slot(l.price)] == l;
        } else {
          var n := old(table[Slot(o.price)]);
          assert n in Nodes(n.side) && n != l;
        }
      }
    }

    /** Only the level at `at` holds and shows something else than before. */
    twostate predicate Replaced(at: Spot, was: set<OrderNode>)
      requires at.index < |Nodes(at.side)|
      reads this, table, bidNodes, askNodes, was
      reads if at.index < |Nodes(at.side)| then Nodes(at.side)[at.index].queue else []
    {
      var l := Nodes(at.side)[at.index];
      && old(allocated(l)) && OnlyLevel(l, was) && QueueReplaced(l)
      && |Vals(at.side)| == |old(Vals(at.side))| && at.index < |Vals(at.side)|
      && Vals(at.side) == old(Vals(at.side))[at.index := Vals(at.side)[at.index]]
      && Vals(Opposite(at.side)) == old(Vals(Opposite(at.side)))
      && LevelShows(l, Vals(at.side)[at.index])
    }

    twostate lemma ReplacedFacts(at: Spot)
      requires at.index < |Nodes(at.side)| && Replaced(at, old(orders))
      ensures bidNodes == old(bidNodes) && askNodes == old(askNodes)
      ensures var l := Nodes(at.side)[at.index];
              old(allocated(l)) && OnlyLevel(l, old(orders)) && QueueReplaced(l) && QueueIn(l, orders)
      ensures at.index < |Vals(at.side)| && |bidVals| == |old(bidVals)| && |askVals| == |old(askVals)|
      ensures LevelShows(Nodes(at.side)[at.index], Vals(at.side)[at.index])
      ensures Vals(at.side) == old(Vals(at.side))[at.index := Vals(at.side)[at.index]]
      ensures Vals(Opposite(at.side)) == old(Vals(Opposite(at.side)))
    {
      hide LevelShows, LevelRing, Descending;
    }

    /** With one level replaced, every level still holds live orders and shows its values. */
    twostate lemma AllShow(at: Spot)
      requires old(Valid()) && at.index < |old(Nodes(at.side))| && old(Alone(Nodes(at.side)[at.index]))
      requires at.index < |Nodes(at.side)| && Replaced(at, old(orders))
      requires SideLinked(Buy) && SideLinked(Sell)
      ensures forall side: Side, i | 0 <= i < |Nodes(side)| ::
                QueueIn(Nodes(side)[i], orders) && LevelShows(Nodes(side)[i], Vals(side)[i])
    {
      hide LevelShows, QueueIn, LevelRing, Descending, OnlyLevel, QueueReplaced, Valid, Alone, Replaced;
      ReplacedFacts(at);
      var l := Nodes(at.side)[at.index];
      OthersShow(l);
      forall side: Side, i | 0 <= i < |Nodes(side)|
        ensures QueueIn(Nodes(side)[i], orders) && LevelShows(Nodes(side)[i], Vals(side)[i])
      {
        OnlyOnce(at.side, at.index, side, i);
        if Nodes(side)[i] != l {
          assert side == at.side || side == Opposite(at.side);
          assert Vals(side)[i] == old(Vals(side))[i];
        }
      }
    }

    /** Replacing what one level holds and shows keeps the book valid. */
    twostate lemma LevelReplaced(at: Spot)
      requires old(Valid()) && at.index < |old(Nodes(at.side))| && old(Alone(Nodes(at.side)[at.index]))
      requires at.index < |Nodes(at.side)| && Replaced(at, old(orders))
      ensures Valid()
    {
      hide LevelShows, LevelRing, Descending, TableShows, SideShows, OnlyLevel, QueueReplaced, Replaced, Valid, Alone;
      ReplacedFacts(at);
      var l := Nodes(at.side)[at.index];
      RingsKept(l);
      SideOf(at.side, at.index);
      TableKept(l);
      QueueUniform(at);
      FoundKept(l);
      AllShow(at);
      ShowSides();
      Assemble();
    }

    lemma ShowSides()
      requires |bidVals| == |bidNodes| && |askVals| == |askNodes|
      requires forall side: Side, i | 0 <= i < |Nodes(side)| ::
                 QueueIn(Nodes(side)[i], orders) && LevelShows(Nodes(side)[i], Vals(side)[i])
      ensures SideShows(Buy) && SideShows(Sell)
    {
    }

    lemma QueueUniform(at: Spot)
      requires at.index < |Nodes(at.side)| && at.index < |Vals(at.side)|
      requires LevelShows(Nodes(at.side)[at.index], Vals(at.side)[at.index])
      ensures var l := Nodes(at.side)[at.index]; forall j | 0 <= j < |l.queue| :: l.queue[j].price == l.price
    {
    }

    lemma OnlyOnce(side: Side, i: nat, side': Side, j: nat)
      requires SideLinked(Buy) && SideLinked(Sell) && i < |Nodes(side)| && j < |Nodes(side')|
      ensures Nodes(side)[i] == Nodes(side')[j] <==> (side == side' && i == j)
    {
      assert Nodes(side)[i].side == side && Nodes(side')[j].side == side';
    }

    // ----- orders joining and leaving a level

    lemma SideSorted(side: Side)
      requires Valid()
      ensures Sorted(Vals(side), Prices(Nodes(side)), side)
    {
      forall i | 0 <= i < |Vals(side)|
        ensures Vals(side)[i] != []
        ensures forall j | 0 <= j < |Vals(side)[i]| ::
                  Vals(side)[i][j].price == Prices(Nodes(side))[i] && Vals(side)[i][j].side == side
      {
        assert LevelShows(Nodes(side)[i], Vals(side)[i]);
      }
    }

    /** Links an order at the end of a level's ring; nothing else changes. */
    method Enqueue(level: LevelNode, order: OrderNode, ghost vals: seq<Order>)
      requires LevelShows(level, vals) && QueueIn(level, orders) && order !in orders
      modifies this`orders, level`queue, level.queue`prev, level.queue`next, order`prev, order`next
      ensures QueueShows(level, vals + [order.View()])
      ensures LevelShows(level, vals + [order.View()]) <==> level.price == order.price && level.side == order.side
      ensures orders == old(orders) + {order} && level.queue == old(level.queue) + [order]
      ensures QueueReplaced(level) && OnlyLevel(level, old(orders))
    {
      hide QueueIn, QueueReplaced, OrderRing;
      LinkLast(level, order, vals);
      LastFits(level, order, vals);
    }

    lemma LastFits(level: LevelNode, order: OrderNode, vals: seq<Order>)
      requires QueueShows(level, vals + [order.View()]) && level.queue[|vals|] == order
      requires forall j | 0 <= j < |vals| :: level.queue[j].price == level.price && level.queue[j].side == level.side
      ensures LevelShows(level, vals + [order.View()]) <==> level.price == order.price && level.side == order.side
    {
    }

    method LinkLast(level: LevelNode, order: OrderNode, ghost vals: seq<Order>)
      requires QueueShows(level, vals) && QueueIn(level, orders) && order !in orders
      modifies this`orders, level`queue, level.queue`prev, level.queue`next, order`prev, order`next
      ensures QueueShows(level, vals + [order.View()])
      ensures orders == old(orders) + {order} && level.queue == old(level.queue) + [order]
      ensures QueueReplaced(level)
    {
      hide OrderRing, Injective;
      ghost var q := level.queue;
      QueueInSet(level);
      AppendOrder(level.first, order, q);
      level.queue := q + [order];
      orders := orders + {order};
      SetInQueue(level);
    }

    /**
     Appends an order to the level that is already in its slot. If that level is of another price or
     side, the rings are then those `QueueBySlot` gives, and the book is no longer valid.
     */
    method AddToLevel(order: OrderNode, level: LevelNode)
      requires Valid() && order !in orders && level == table[Slot(order.price)]
      modifies this`bidVals, this`askVals, this`orders, level`queue, orders`prev, orders`next, order`prev, order`next
      ensures orders == old(orders) + {order} && bidNodes == old(bidNodes) && askNodes == old(askNodes)
      ensures Valid() <==> OwnLevel(level, order)
      ensures OwnLevel(level, order) ==>
              View() == old(View()).With(order.side, Place(old(View()).Of(order.side), order.View()))
      ensures !OwnLevel(level, order) ==>
              (LadderOf(this, Buy), LadderOf(this, Sell))
              == QueueBySlot(old(LadderOf(this, Buy)), old(LadderOf(this, Sell)), order.View(), table.Length)
    {
      hide Valid, Concat, Place, OrderRing, LevelRing, Sorted, LevelShows, QueueShows, QueueIn, QueueReplaced,
           OnlyLevel, Alone, LadderOf, QueueBySlot, Proper;
      ghost var side := level.side;
      ghost var k := LevelAt(level);
      LevelAlone(level);
      SideSorted(side);
      QueueInSet(level);
      ValidProper(this);
      SlotRule(this, order.View(), side, k);
      ghost var vals := Vals(side)[k := Vals(side)[k] + [order.View()]];
      Enqueue(level, order, Vals(side)[k]);
      SameLists(level);
      if OwnLevel(level, order) {
        if side.Buy? {
          bidVals := vals;
        } else {
          askVals := vals;
        }
        LevelReplaced(Spot(side, k));
        OldLevelPlaces(old(Vals(side)), Prices(Nodes(side)), order.View(), k);
      } else {
        OthersShow(level);
        RingsKept(level);
        JoinedLadder(this, side, k, order.View());
        Mixed(this, level, order);
      }
    }

    lemma QueueInSet(l: LevelNode)
      requires QueueIn(l, orders)
      ensures forall o | o in l.queue :: o in orders
    {
    }

    // ----- a level joining the book

    /** The level lists with one new entry, at `at`. */
    twostate predicate ListsGrew(at: Spot)
      reads this`bidNodes, this`askNodes, this`bidVals, this`askVals
    {
      var k := at.index;
      && k < |Nodes(at.side)| && |Vals(at.side)| == |Nodes(at.side)| == |old(Nodes(at.side))| + 1
      && |old(Vals(at.side))| == |old(Nodes(at.side))|
      && Nodes(at.side) == old(Nodes(at.side))[..k] + [Nodes(at.side)[k]] + old(Nodes(at.side))[k..]
      && Vals(at.side) == old(Vals(at.side))[..k] + [Vals(at.side)[k]] + old(Vals(at.side))[k..]
      && Nodes(Opposite(at.side)) == old(Nodes(Opposite(at.side)))
      && Vals(Opposite(at.side)) == old(Vals(Opposite(at.side)))
    }

    /** The table with one slot set. */
    twostate predicate TableSet(slot: nat, new l: LevelNode?)
      reads table
    {
      && slot < table.Length
      && forall i | 0 <= i < table.Length :: table[i] == if i == slot then l else old(table[i])
    }

    /** The named levels hold what they held, and the orders of `was` are as they were. */
    twostate predicate ContentsKept(some: seq<LevelNode>, others: seq<LevelNode>, was: set<OrderNode>)
      reads this, some, others, was
    {
      && (forall n | n in some :: n.first == old(n.first) && n.queue == old(n.queue))
      && (forall n | n in others :: n.first == old(n.first) && n.queue == old(n.queue))
      && (forall o | o in was :: o in orders && o.prev == old(o.prev) && o.next == old(o.next) && o.qty == old(o.qty))
    }

    /** Where position `i` of the grown side was before. */
    twostate lemma AddedFrom(at: Spot)
      requires ListsGrew(at)
      ensures forall i | 0 <= i < |Nodes(at.side)| && i != at.index ::
                && Shifted(i, at.index) < |old(Nodes(at.side))|
                && Nodes(at.side)[i] == old(Nodes(at.side))[Shifted(i, at.index)]
                && Vals(at.side)[i] == old(Vals(at.side))[Shifted(i, at.index)]
    {
      forall i | 0 <= i < |Nodes(at.side)| && i != at.index
        ensures Shifted(i, at.index) < |old(Nodes(at.side))|
        ensures Nodes(at.side)[i] == old(Nodes(at.side))[Shifted(i, at.index)]
        ensures Vals(at.side)[i] == old(Vals(at.side))[Shifted(i, at.index)]
      {
        ShiftedAt(old(Nodes(at.side)), Nodes(at.side)[at.index], i, at.index);
        ShiftedAt(old(Vals(at.side)), Vals(at.side)[at.index], i, at.index);
      }
    }

    /** A level whose contents were kept still shows what it showed. */
    twostate lemma KeptShows(at: Spot)
      requires old(Valid()) && ContentsKept(old(bidNodes), old(askNodes), old(orders))
      requires at.index < |old(Nodes(at.side))|
      ensures at.index < |old(Vals(at.side))|
      ensures QueueIn(old(Nodes(at.side))[at.index], orders)
      ensures LevelShows(old(Nodes(at.side))[at.index], old(Vals(at.side))[at.index])
    {
      hide LevelRing, Descending, TableShows, OrdersFound;
      var n := old(Nodes(at.side))[at.index];
      assert n in old(Nodes(at.side)) && old(QueueIn(n, orders)) && old(LevelShows(n, Vals(at.side)[at.index]));
      LevelKept(at);
    }

    twostate lemma AddedShows(at: Spot)
      requires old(Valid()) && ListsGrew(at) && ContentsKept(old(bidNodes), old(askNodes), old(orders))
      requires QueueIn(Nodes(at.side)[at.index], orders)
      requires LevelShows(Nodes(at.side)[at.index], Vals(at.side)[at.index])
      ensures |bidVals| == |bidNodes| && |askVals| == |askNodes| && SideShows(Buy) && SideShows(Sell)
    {
      hide Valid, ContentsKept, QueueIn, LevelShows, ListsGrew;
      AddedFrom(at);
      GrewFacts(at);
      forall side: Side, i | 0 <= i < |Nodes(side)|
        ensures i < |Vals(side)| && QueueIn(Nodes(side)[i], orders) && LevelShows(Nodes(side)[i], Vals(side)[i])
      {
        if side != at.side || i != at.index {
          KeptShows(Spot(side, if side == at.side then Shifted(i, at.index) else i));
        }
      }
      OldLengths();
      ShowSides();
    }

    twostate lemma OldLengths()
      requires old(Valid())
      ensures |old(bidVals)| == |old(bidNodes)| && |old(askVals)| == |old(askNodes)|
    {
    }

    twostate lemma AddedTable(at: Spot)
      requires old(TableShows()) && ListsGrew(at) && Nodes(at.side)[at.index].side == at.side
      requires TableSet(Slot(Nodes(at.side)[at.index].price), Nodes(at.side)[at.index])
      requires var p := Nodes(at.side)[at.index].price; old(table[Slot(p)]) == null
      ensures TableShows()
    {
      hide ListsGrew;
      AddedFrom(at);
      GrewFacts(at);
      forall side: Side, i | 0 <= i < |Nodes(side)|
        ensures table[Slot(Nodes(side)[i].price)] == Nodes(side)[i]
      {
        if side != at.side || i != at.index {
          var j := if side == at.side then Shifted(i, at.index) else i;
          assert old(table[Slot(Nodes(side)[j].price)]) == old(Nodes(side)[j]);
        }
      }
      assert Nodes(Buy) == bidNodes && Nodes(Sell) == askNodes;
      AddedMembers(at);
    }

    twostate lemma AddedMembers(at: Spot)
      requires ListsGrew(at)
      ensures forall side: Side, n | n in old(Nodes(side)) :: n in Nodes(side)
      ensures Nodes(at.side)[at.index] in Nodes(at.side)
    {
    }

    twostate lemma AddedFound(new l: LevelNode)
      requires old(Valid()) && TableSet(Slot(l.price), l) && ContentsKept(old(bidNodes), old(askNodes), old(orders))
      requires var p := l.price; old(table[Slot(p)]) == null
      requires forall o | o in orders :: o in old(orders) || (o in l.queue && o.price == l.price)
      ensures OrdersFound()
    {
      hide SideLinked, SideShows;
      forall o | o in orders
        ensures table[Slot(o.price)] != null && o in table[Slot(o.price)].queue
      {
        if o in old(orders) {
          var n := old(table[Slot(o.price)]);
          assert n in old(Nodes(n.side)) && n.queue == old(n.queue);
        }
      }
    }

    lemma FreeSlot(level: LevelNode)
      requires Valid() && table[Slot(level.price)] == null
      ensures forall side: Side, i | 0 <= i < |Nodes(side)| :: Nodes(side)[i].price != level.price
      ensures level !in Nodes(Buy) && level !in Nodes(Sell) && table.Length > 0
    {
      hide SideLinked, SideShows, OrdersFound;
      forall side: Side, i | 0 <= i < |Nodes(side)|
        ensures Nodes(side)[i].price != level.price
      {
        assert table[Slot(Nodes(side)[i].price)] == Nodes(side)[i];
      }
      assert Nodes(Buy) == bidNodes && Nodes(Sell) == askNodes;
    }

    lemma Assemble()
      requires SideLinked(Buy) && SideLinked(Sell) && SideShows(Buy) && SideShows(Sell)
      requires TableShows() && OrdersFound()
      ensures Valid()
    {
    }

    lemma Parts()
      requires Valid()
      ensures SideLinked(Buy) && SideLinked(Sell) && SideShows(Buy) && SideShows(Sell)
      ensures TableShows() && OrdersFound()
    {
    }

    /** Enters a level in the table and links it into its side. */
    method LinkLevel(level: LevelNode, ghost v: seq<Order>) returns (ghost k: nat)
      requires SideLinked(level.side) && level !in Nodes(level.side) && table.Length > 0
      requires forall i | 0 <= i < |Nodes(level.side)| :: Nodes(level.side)[i].price != level.price
      modifies this`bids, this`asks, this`bidNodes, this`askNodes, this`bidVals, this`askVals, table
      modifies Nodes(level.side)`prev, Nodes(level.side)`next, level`prev, level`next
      ensures SideLinked(level.side) && ListsGrew(Spot(level.side, k)) && TableSet(Slot(level.price), level)
      ensures Nodes(level.side)[k] == level && Vals(level.side)[k] == v
      ensures Best(Opposite(level.side)) == old(Best(Opposite(level.side)))
      ensures Nodes(Opposite(level.side)) == old(Nodes(Opposite(level.side)))
      ensures BelongsAt(old(Nodes(level.side)), level.side, level.price, k)
    {
      hide LevelRing, Descending, BelongsAt;
      table[Slot(level.price)] := level;
      k := LinkInSide(level, v);
    }

    method LinkInSide(level: LevelNode, ghost v: seq<Order>) returns (ghost k: nat)
      requires SideLinked(level.side) && level !in Nodes(level.side)
      requires forall i | 0 <= i < |Nodes(level.side)| :: Nodes(level.side)[i].price != level.price
      modifies this`bids, this`asks, this`bidNodes, this`askNodes, this`bidVals, this`askVals
      modifies Nodes(level.side)`prev, Nodes(level.side)`next, level`prev, level`next
      ensures SideLinked(level.side) && ListsGrew(Spot(level.side, k))
      ensures Nodes(level.side)[k] == level && Vals(level.side)[k] == v
      ensures Best(Opposite(level.side)) == old(Best(Opposite(level.side)))
      ensures BelongsAt(old(Nodes(level.side)), level.side, level.price, k)
    {
      hide LevelRing, Descending;
      ghost var s, vs := Nodes(level.side), Vals(level.side);
      var best';
      best', k := InsertLevel(if level.side.Buy? then bids else asks, level, s);
      if level.side.Buy? {
        bids, bidNodes, bidVals := best', s[..k] + [level] + s[k..], vs[..k] + [v] + vs[k..];
      } else {
        asks, askNodes, askVals := best', s[..k] + [level] + s[k..], vs[..k] + [v] + vs[k..];
      }
      DescendingGrows(s, level, k);
    }

    lemma DescendingGrows(s: seq<LevelNode>, level: LevelNode, k: nat)
      requires Descending(s, level.side) && BelongsAt(s, level.side, level.price, k)
      ensures Descending(s[..k] + [level] + s[k..], level.side)
    {
      var r := s[..k] + [level] + s[k..];
      assert forall i | 0 <= i < |r| :: r[i] == if i == k then level else s[Shifted(i, k)];
    }

    twostate predicate RingUntouched(side: Side)
      reads this`bids, this`asks, this`bidNodes, this`askNodes, Nodes(side)
    {
      && Best(side) == old(Best(side)) && Nodes(side) == old(Nodes(side))
      && forall n | n in Nodes(side) :: n.prev == old(n.prev) && n.next == old(n.next)
    }

    /** The other side's ring is as it was. */
    twostate lemma OtherSideLinked(side: Side)
      requires old(SideLinked(side)) && RingUntouched(side)
      requires Vals(side) == old(Vals(side))
      ensures SideLinked(side)
    {
    }

    /** Linking a level in, with its orders, keeps the book valid. */
    twostate lemma AddedValid(at: Spot)
      requires old(Valid()) && ListsGrew(at)
      requires var l := Nodes(at.side)[at.index]; var v := Vals(at.side)[at.index]; var p := l.price;
               && l.side == at.side && LevelShows(l, v) && TableSet(Slot(p), l) && old(table[Slot(p)]) == null
               && orders == old(orders) + (set o | o in l.queue)
      requires ContentsKept(old(bidNodes), old(askNodes), old(orders))
      requires SideLinked(at.side) && RingUntouched(Opposite(at.side))
      ensures Valid()
    {
      hide Valid, LevelRing, LevelShows, SideShows, SideLinked, TableShows, OrdersFound, ListsGrew, QueueIn,
           ContentsKept;
      GrewFacts(at);
      var l := Nodes(at.side)[at.index];
      LevelPrices(l, Vals(at.side)[at.index]);
      SetInQueue(l);
      OldLinks();
      OtherSideLinked(Opposite(at.side));
      AddedShows(at);
      OldTable();
      AddedTable(at);
      AddedFound(l);
      Assemble();
    }

    twostate lemma OldTable()
      requires old(Valid())
      ensures old(TableShows())
    {
    }

    /** A new level joins the book with its orders. */
    method AddPriceLevel(level: LevelNode, ghost v: seq<Order>) returns (ghost k: nat)
      requires Valid() && table[Slot(level.price)] == null && LevelShows(level, v)
      requires forall o | o in level.queue :: o !in orders
      modifies this, table, bidNodes`prev, bidNodes`next, askNodes`prev, askNodes`next, level`prev, level`next
      ensures Valid() && orders == old(orders) + (set o | o in level.queue)
      ensures ListsGrew(Spot(level.side, k)) && Nodes(level.side)[k] == level && Vals(level.side)[k] == v
      ensures BelongsAt(old(Nodes(level.side)), level.side, level.price, k)
    {
      hide Valid, Concat, LevelRing, LevelShows, SideShows, SideLinked, TableShows, OrdersFound, ListsGrew, BelongsAt;
      FreeSlot(level);
      Parts();
      OppositeApart(level.side);
      LevelPrices(level, v);
      k := LinkLevel(level, v);
      orders := orders + (set o | o in level.queue);
      GrewFacts(Spot(level.side, k));
      AddedValid(Spot(level.side, k));
    }

    twostate lemma GrewFacts(at: Spot)
      requires ListsGrew(at)
      ensures at.index < |Nodes(at.side)| == |Vals(at.side)|
      ensures Nodes(Opposite(at.side)) == old(Nodes(Opposite(at.side)))
      ensures Vals(Opposite(at.side)) == old(Vals(Opposite(at.side)))
      ensures forall n | n in Nodes(at.side) :: n in old(Nodes(at.side)) || n == Nodes(at.side)[at.index]
    {
    }

    lemma LevelPrices(l: LevelNode, v: seq<Order>)
      requires LevelShows(l, v)
      ensures forall o | o in l.queue :: o.price == l.price
    {
    }

    /** The side with a new one-order level is the side with that order placed. */
    twostate lemma GrewPlaces(at: Spot)
      requires ListsGrew(at) && |Vals(at.side)[at.index]| == 1
      requires var o := Vals(at.side)[at.index][0];
               && o.side == at.side && old(Sorted(Vals(at.side), Prices(Nodes(at.side)), at.side))
               && BelongsAt(old(Nodes(at.side)), at.side, o.price, at.index)
      ensures View() == old(View()).With(at.side, Place(old(View()).Of(at.side), Vals(at.side)[at.index][0]))
    {
      hide Concat, Place, Sorted;
      var o := Vals(at.side)[at.index][0];
      assert Vals(at.side)[at.index] == [o];
      NewLevelPlaces(old(Vals(at.side)), Prices(old(Nodes(at.side))), o, at.index);
    }

    /** Starts a new level with one order; fails where the level pool overruns. */
    method AddNewLevel(order: OrderNode) returns (ok: bool)
      requires Valid() && LevelsPooled() && order !in orders && table[Slot(order.price)] == null
      modifies this, table, bidNodes`prev, bidNodes`next, askNodes`prev, askNodes`next, order`prev, order`next
      modifies pools`levels
      ensures ok <==> P.Alloc(old(pools.levels)).Some?
      ensures ok ==> Valid() && LevelsPooled() && orders == old(orders) + {order}
      ensures ok ==> |pools.levels.free| == |old(pools.levels.free)|
      ensures ok ==> forall n | n in bidNodes || n in askNodes :: fresh(n) || n in old(bidNodes) || n in old(askNodes)
      ensures ok ==> View() == old(View()).With(order.side, Place(old(View()).Of(order.side), order.View()))
    {
      hide Valid, Concat, Place, Sorted, Prices, ListsGrew, BelongsAt, OrderRing, LevelNodes, P.Alloc, P.Housed;
      SideSorted(order.side);
      StartOrderRing(order);
      PoolParts();
      ghost var nodes := LevelNodes();
      var block := pools.TakeLevel();
      if block.None? {
        return false;
      }
      var level := new LevelNode(order, block.value);
      Unlisted(level);
      label linked:
      ghost var k := AddPriceLevel(level, [order.View()]);
      GrewFacts@linked(Spot(order.side, k));
      GrewPlaces@linked(Spot(order.side, k));
      GrewLevels@linked(Spot(order.side, k));
      P.HousedTaken<LevelNode>(old(pools.levels), nodes, LevelBlock, level);
      P.AllocSize(old(pools.levels));
      ok := true;
    }

    lemma Unlisted(level: LevelNode)
      requires Valid() && table[Slot(level.price)] == null
      ensures level !in LevelNodes()
    {
      hide Valid;
      FreeSlot(level);
      assert Nodes(Buy) == bidNodes && Nodes(Sell) == askNodes;
    }

    lemma PoolParts()
      requires LevelsPooled()
      ensures P.Valid(pools.levels)
    {
    }

    twostate lemma GrewLevels(at: Spot)
      requires ListsGrew(at)
      ensures LevelNodes() == old(LevelNodes()) + {Nodes(at.side)[at.index]}
    {
      AddedMembers(at);
      GrewFacts(at);
    }

    lemma OppositeApart(side: Side)
      requires SideLinked(Buy) && SideLinked(Sell)
      ensures forall n | n in Nodes(side) :: n !in Nodes(Opposite(side))
    {
      forall n | n in Nodes(side)
        ensures n !in Nodes(Opposite(side))
      {
        assert n.side == side;
      }
    }

    /** Constructs an order in the order pool, to join the book; null where the pool overruns. */
    method NewOrder(o: Order) returns (order: OrderNode?)
      requires OrdersPooled({})
      modifies pools`orders
      ensures order != null <==> P.Alloc(old(pools.orders)).Some?
      ensures order != null ==> fresh(order) && order !in orders && order.View() == o && OrdersPooled({order})
      ensures order != null ==> |pools.orders.free| == |old(pools.orders.free)|
    {
      hide P.Alloc;
      assert orders + {} == orders;
      var block := pools.TakeOrder();
      if block.None? {
        return null;
      }
      var node := new OrderNode(o, block.value);
      P.HousedTaken<OrderNode>(old(pools.orders), orders, OrderBlock, node);
      P.AllocSize(old(pools.orders));
      order := node;
    }

    /**
     Queues an order, whose block is taken already, at the level in its price's slot, starting one if
     there is none; fails where that overruns the level pool. The rings end as `QueueBySlot` says, and
     the book stays valid exactly if the level found was the order's own.
     */
    method AddOrder(order: OrderNode) returns (ok: bool)
      requires Valid() && LevelsPooled() && OrdersPooled({order}) && order !in orders
      modifies this, table, bidNodes, askNodes, orders, order, pools`levels
      ensures ok <==> old(table[Slot(order.price)]) != null || P.Alloc(old(pools.levels)).Some?
      ensures ok ==> Pooled() && orders == old(orders) + {order} && NodesGrown()
      ensures ok ==> |pools.levels.free| == |old(pools.levels.free)|
      ensures ok ==>
              (LadderOf(this, Buy), LadderOf(this, Sell))
              == QueueBySlot(old(LadderOf(this, Buy)), old(LadderOf(this, Sell)), old(order.View()), table.Length)
      ensures ok ==> (Valid() <==> OwnLevel(old(table[Slot(order.price)]), order))
      ensures ok && Valid() ==>
              View() == old(View()).With(order.side, Place(old(View()).Of(order.side), old(order.View())))
      ensures ok ==> order.qty == old(order.qty) && forall o | o in old(orders) :: o.qty == old(o.qty)
    {
      hide Valid, View, LadderOf, QueueBySlot, OwnSlot, Proper, Place, P.Alloc, P.Housed;
      SlotsLive(0);
      ghost var was, o := (LadderOf(this, Buy), LadderOf(this, Sell)), order.View();
      LadderView(this);
      ValidProper(this);
      var level := table[Slot(order.price)];
      if OwnLevel(level, order) {
        OwnLevelOwnSlot(this, order);
      }
      if level == null {
        ok := AddNewLevel(order);
      } else {
        LevelListed(level);
        AddToLevel(order, level);
        ok := true;
      }
      if ok && OwnLevel(level, order) {
        LadderView(this);
        ValidProper(this);
        QueueBySlotOnly(was.0, was.1, o, table.Length, LadderOf(this, Buy), LadderOf(this, Sell));
      }
      assert orders + {} == orders;
    }

    lemma LevelListed(l: LevelNode)
      requires Valid() && exists i :: 0 <= i < table.Length && table[i] == l
      ensures l in bidNodes || l in askNodes
    {
    }

    // ----- an order leaving a level that stays

    /** Unlinks the order at position `j` of a level that has others; nothing else changes. */
    method Dequeue(level: LevelNode, order: OrderNode, ghost vals: seq<Order>, ghost j: nat)
      requires LevelShows(level, vals) && QueueIn(level, orders)
      requires |level.queue| > 1 && j < |level.queue| && level.queue[j] == order
      modifies this`orders, level`queue, level`first, level.queue`prev, level.queue`next
      ensures LevelShows(level, vals[..j] + vals[j + 1..]) && orders == old(orders) - {order}
      ensures QueueReplaced(level) && OnlyLevel(level, old(orders))
    {
      hide LevelShows, QueueIn, QueueReplaced;
      UnlinkFromLevel(level, order, vals, j);
    }

    method UnlinkFromLevel(level: LevelNode, order: OrderNode, ghost vals: seq<Order>, ghost j: nat)
      requires LevelShows(level, vals) && QueueIn(level, orders)
      requires |level.queue| > 1 && j < |level.queue| && level.queue[j] == order
      modifies this`orders, level`queue, level`first, level.queue`prev, level.queue`next
      ensures LevelShows(level, vals[..j] + vals[j + 1..]) && orders == old(orders) - {order}
      ensures QueueReplaced(level)
    {
      hide OrderRing, Injective;
      ghost var q := level.queue;
      QueueInSet(level);
      DropMembers(q, j);
      FirstOnce(level, j);
      var after := order.next;
      UnlinkOrder(order, q, j);
      if level.first == order {
        level.first := after;
      }
      level.queue := q[..j] + q[j + 1..];
      orders := orders - {order};
      ShowsWithout(level, q, vals, j);
      SetInQueue(level);
    }

    lemma FirstOnce(l: LevelNode, j: nat)
      requires OrderRing(l.queue) && l.first == l.queue[0] && j < |l.queue|
      ensures l.first == l.queue[j] <==> j == 0
    {
    }

    /** A ring without position `j` shows the values without it. */
    lemma ShowsWithout(l: LevelNode, q: seq<OrderNode>, vals: seq<Order>, j: nat)
      requires |q| == |vals| && |q| > 1 && j < |q| && l.queue == q[..j] + q[j + 1..]
      requires OrderRing(l.queue) && l.first == l.queue[0]
      requires forall i | 0 <= i < |q| :: vals[i] == q[i].View() && q[i].price == l.price && q[i].side == l.side
      ensures LevelShows(l, vals[..j] + vals[j + 1..])
    {
      hide OrderRing, Injective;
      var r, v := l.queue, vals[..j] + vals[j + 1..];
      forall i | 0 <= i < |r|
        ensures v[i] == r[i].View() && r[i].price == l.price && r[i].side == l.side
      {
        KeptAt(q, i, j);
        KeptAt(vals, i, j);
      }
    }

    lemma SetInQueue(l: LevelNode)
      requires forall o | o in l.queue :: o in orders
      ensures QueueIn(l, orders)
    {
    }

    lemma DropMembers(q: seq<OrderNode>, j: nat)
      requires OrderRing(q) && j < |q|
      ensures q[j] !in q[..j] + q[j + 1..]
      ensures forall o | o in q[..j] + q[j + 1..] :: o in q
      ensures forall o | o in q && o != q[j] :: o in q[..j] + q[j + 1..]
      ensures j == 0 && |q| > 1 ==> q[0].next == (q[..j] + q[j + 1..])[0]
    {
      var r := q[..j] + q[j + 1..];
      forall o | o in q && o != q[j]
        ensures o in r
      {
        var i :| 0 <= i < |q| && q[i] == o;
        assert r[if i < j then i else i - 1] == o;
      }
    }

    /** Takes an order out of a level that has others. */
    method RemoveFromLevel(order: OrderNode, level: LevelNode, ghost j: nat) returns (ghost f: nat)
      requires Valid() && level == table[Slot(order.price)]
      requires |level.queue| > 1 && j < |level.queue| && level.queue[j] == order
      modifies this`bidVals, this`askVals, this`orders, level`queue, level`first, orders`prev, orders`next
      ensures Valid() && orders == old(orders) - {order}
      ensures bidNodes == old(bidNodes) && askNodes == old(askNodes)
      ensures old(f < |View().Of(level.side)| && View().Of(level.side)[f] == order.View())
      ensures View() == old(View()).With(level.side, old(View().Of(level.side)[..f] + View().Of(level.side)[f + 1..]))
    {
      hide Valid, Concat, LevelShows, QueueIn, Offset;
      ghost var k := LevelAt(level);
      ghost var was := Vals(level.side);
      ShownAt(level, was[k], j);
      f := Offset(was, k, j);
      OffsetAt(was, k, j);
      LevelRemove(was, k, j);
      QueueInSet(level);
      TakeFromLevel(order, level, k, j);
    }

    method TakeFromLevel(order: OrderNode, level: LevelNode, ghost k: nat, ghost j: nat)
      requires Valid() && level == table[Slot(order.price)]
      requires k < |Nodes(level.side)| == |Vals(level.side)| && Nodes(level.side)[k] == level
      requires |level.queue| > 1 && j < |level.queue| == |Vals(level.side)[k]| && level.queue[j] == order
      modifies this`bidVals, this`askVals, this`orders, level`queue, level`first, level.queue`prev, level.queue`next
      ensures Valid() && orders == old(orders) - {order}
      ensures bidNodes == old(bidNodes) && askNodes == old(askNodes)
      ensures Vals(Opposite(level.side)) == old(Vals(Opposite(level.side)))
      ensures Vals(level.side)
           == old(Vals(level.side))[k := old(Vals(level.side))[k][..j] + old(Vals(level.side))[k][j + 1..]]
    {
      hide Valid, OrderRing, LevelRing, LevelShows, QueueIn, QueueReplaced, OnlyLevel, Alone, Untouched;
      ghost var side, was := level.side, Vals(level.side);
      LevelAlone(level);
      ShowsAt(Spot(side, k));
      Dequeue(level, order, was[k], j);
      if side.Buy? {
        bidVals := was[k := was[k][..j] + was[k][j + 1..]];
      } else {
        askVals := was[k := was[k][..j] + was[k][j + 1..]];
      }
      SameLists(level);
      LevelReplaced(Spot(side, k));
    }

    lemma ShowsAt(at: Spot)
      requires Valid() && at.index < |Nodes(at.side)|
      ensures at.index < |Vals(at.side)| && LevelShows(Nodes(at.side)[at.index], Vals(at.side)[at.index])
      ensures QueueIn(Nodes(at.side)[at.index], orders)
    {
    }

    lemma ShownAt(l: LevelNode, v: seq<Order>, j: nat)
      requires LevelShows(l, v) && j < |l.queue|
      ensures |v| == |l.queue| && v[j] == l.queue[j].View()
    {
    }

    // ----- a level leaving the book

    /** The level lists without the entry that was at `at`. */
    twostate predicate ListsShrank(at: Spot)
      reads this`bidNodes, this`askNodes, this`bidVals, this`askVals
    {
      var k := at.index;
      && k < |old(Nodes(at.side))| == |old(Vals(at.side))|
      && Nodes(at.side) == old(Nodes(at.side))[..k] + old(Nodes(at.side))[k + 1..]
      && Vals(at.side) == old(Vals(at.side))[..k] + old(Vals(at.side))[k + 1..]
      && Nodes(Opposite(at.side)) == old(Nodes(Opposite(at.side)))
      && Vals(Opposite(at.side)) == old(Vals(Opposite(at.side)))
    }

    twostate lemma ShrankFrom(at: Spot)
      requires ListsShrank(at)
      ensures at.index < |old(Nodes(at.side))| == |old(Vals(at.side))|
      ensures |Nodes(at.side)| == |Vals(at.side)| == |old(Nodes(at.side))| - 1
      ensures forall i | 0 <= i < |Nodes(at.side)| ::
                && Kept(i, at.index) < |old(Nodes(at.side))| && Kept(i, at.index) != at.index
                && Nodes(at.side)[i] == old(Nodes(at.side))[Kept(i, at.index)]
                && Vals(at.side)[i] == old(Vals(at.side))[Kept(i, at.index)]
      ensures Nodes(Opposite(at.side)) == old(Nodes(Opposite(at.side)))
      ensures Vals(Opposite(at.side)) == old(Vals(Opposite(at.side)))
      ensures Vals(at.side) == old(Vals(at.side))[..at.index] + old(Vals(at.side))[at.index + 1..]
    {
    }

    /** Members of the shrunken lists are the old ones but the one taken out. */
    twostate lemma ShrankMembers(at: Spot)
      requires ListsShrank(at) && old(SideLinked(Buy)) && old(SideLinked(Sell))
      ensures forall side: Side, n | n in old(Nodes(side)) && n != old(Nodes(at.side))[at.index] :: n in Nodes(side)
      ensures forall side: Side, n | n in Nodes(side) :: n in old(Nodes(side)) && n != old(Nodes(at.side))[at.index]
    {
      var l := old(Nodes(at.side))[at.index];
      ShrankFrom(at);
      forall n | n in old(Nodes(at.side)) && n != l
        ensures n in Nodes(at.side)
      {
        var i :| 0 <= i < |old(Nodes(at.side))| && old(Nodes(at.side))[i] == n;
        assert Nodes(at.side)[if i < at.index then i else i - 1] == n;
      }
      assert l.side == at.side;
      forall n | n in Nodes(Opposite(at.side))
        ensures n != l
      {
        assert n.side == Opposite(at.side);
      }
    }

    twostate lemma DroppedShows(at: Spot)
      requires old(Valid()) && ListsShrank(at) && orders <= old(orders)
      requires ContentsKept(old(bidNodes), old(askNodes), orders) && old(Alone(Nodes(at.side)[at.index]))
      requires forall o | o in old(orders) && o !in old(Nodes(at.side)[at.index].queue) :: o in orders
      ensures |bidVals| == |bidNodes| && |askVals| == |askNodes| && SideShows(Buy) && SideShows(Sell)
    {
      hide Valid, ContentsKept, QueueIn, LevelShows, ListsShrank, Alone;
      OldLinks();
      ShrankFrom(at);
      ShrankMembers(at);
      OldLengths();
      forall side: Side, i | 0 <= i < |Nodes(side)|
        ensures QueueIn(Nodes(side)[i], orders) && LevelShows(Nodes(side)[i], Vals(side)[i])
      {
        var j := if side == at.side then Kept(i, at.index) else i;
        assert Nodes(side)[i] in Nodes(side);
        RemainderShows((at, Spot(side, j)));
      }
      ShowSides();
    }

    twostate lemma OldLinks()
      requires old(Valid())
      ensures old(SideLinked(Buy)) && old(SideLinked(Sell))
    {
    }

    /** A level other than the one dropped still shows what it showed. */
    twostate lemma RemainderShows(p: (Spot, Spot))
      requires old(Valid()) && p.0.index < |old(Nodes(p.0.side))| && p.1.index < |old(Nodes(p.1.side))|
      requires orders <= old(orders)
      requires ContentsKept(old(bidNodes), old(askNodes), orders) && old(Alone(Nodes(p.0.side)[p.0.index]))
      requires forall o | o in old(orders) && o !in old(Nodes(p.0.side)[p.0.index].queue) :: o in orders
      requires old(Nodes(p.1.side))[p.1.index] != old(Nodes(p.0.side))[p.0.index]
      ensures p.1.index < |old(Vals(p.1.side))|
      ensures QueueIn(old(Nodes(p.1.side))[p.1.index], orders)
      ensures LevelShows(old(Nodes(p.1.side))[p.1.index], old(Vals(p.1.side))[p.1.index])
    {
      hide LevelRing, Descending, TableShows, OrdersFound;
      var at := p.1;
      var n := old(Nodes(at.side))[at.index];
      assert n in old(Nodes(at.side)) && old(QueueIn(n, orders)) && old(LevelShows(n, Vals(at.side)[at.index]));
      assert forall o | o in old(n.queue) :: o !in old(Nodes(p.0.side)[p.0.index].queue);
      LevelKept(at);
    }

    twostate lemma DroppedTable(at: Spot)
      requires old(Valid()) && ListsShrank(at)
      requires TableSet(Slot(old(Nodes(at.side))[at.index].price), null)
      ensures TableShows()
    {
      hide ListsShrank, SideShows, SideLinked, OrdersFound;
      OldLinks();
      ShrankFrom(at);
      ShrankMembers(at);
      var l := old(Nodes(at.side))[at.index];
      assert old(table[Slot(l.price)]) == l;
      forall side: Side, i | 0 <= i < |Nodes(side)|
        ensures table[Slot(Nodes(side)[i].price)] == Nodes(side)[i]
      {
        var n, j := Nodes(side)[i], if side == at.side then Kept(i, at.index) else i;
        assert n in Nodes(side) && n == old(Nodes(side))[j] && old(table[Slot(n.price)]) == n;
      }
      assert Nodes(Buy) == bidNodes && Nodes(Sell) == askNodes;
    }

    twostate lemma DroppedFound(at: Spot)
      requires old(Valid()) && at.index < |old(Nodes(at.side))| && orders <= old(orders)
      requires TableSet(Slot(old(Nodes(at.side))[at.index].price), null)
      requires ContentsKept(old(bidNodes), old(askNodes), orders)
      requires forall o | o in orders :: o !in old(Nodes(at.side)[at.index].queue)
      ensures OrdersFound()
    {
      hide SideShows, SideLinked;
      var l := old(Nodes(at.side))[at.index];
      assert old(table[Slot(l.price)]) == l;
      forall o | o in orders
        ensures table[Slot(o.price)] != null && o in table[Slot(o.price)].queue
      {
        var n := old(table[Slot(o.price)]);
        assert n in old(Nodes(n.side)) && n.queue == old(n.queue);
      }
    }

    /** Unlinks a level from its side and clears its slot. */
    method UnlinkLevelAt(level: LevelNode, ghost k: nat)
      requires SideLinked(level.side) && table.Length > 0
      requires k < |Nodes(level.side)| && Nodes(level.side)[k] == level
      modifies this`bids, this`asks, this`bidNodes, this`askNodes, this`bidVals, this`askVals, table
      modifies Nodes(level.side)`prev, Nodes(level.side)`next
      ensures SideLinked(level.side) && ListsShrank(Spot(level.side, k)) && TableSet(Slot(level.price), null)
      ensures Best(Opposite(level.side)) == old(Best(Opposite(level.side)))
      ensures Nodes(Opposite(level.side)) == old(Nodes(Opposite(level.side)))
    {
      hide LevelRing, Descending;
      ghost var s, vs := Nodes(level.side), Vals(level.side);
      var best := if level.side.Buy? then bids else asks;
      DescendingShrinks(s, level.side, k);
      var best' := RemoveLevel(best, level, s, k);
      if level.side.Buy? {
        bids, bidNodes, bidVals := best', s[..k] + s[k + 1..], vs[..k] + vs[k + 1..];
      } else {
        asks, askNodes, askVals := best', s[..k] + s[k + 1..], vs[..k] + vs[k + 1..];
      }
      table[Slot(level.price)] := null;
    }

    lemma DescendingShrinks(s: seq<LevelNode>, side: Side, k: nat)
      requires Descending(s, side) && k < |s|
      ensures Descending(s[..k] + s[k + 1..], side)
    {
      var r := s[..k] + s[k + 1..];
      assert forall i | 0 <= i < |r| :: r[i] == s[Kept(i, k)];
    }

    /** Unlinks the level of a price, with the orders in it. */
    method DropPriceLevel(price: int) returns (ghost k: nat)
      requires Valid() && table[Slot(price)] != null && table[Slot(price)].price == price
      modifies this, table, bidNodes`prev, bidNodes`next, askNodes`prev, askNodes`next
      ensures Valid() && orders == old(orders) - (set o | o in old(table[Slot(price)].queue))
      ensures ListsShrank(Spot(old(table[Slot(price)]).side, k))
      ensures old(Nodes(table[Slot(price)].side)[k]) == old(table[Slot(price)])
    {
      hide Valid, Concat, LevelRing, LevelShows, SideShows, SideLinked, TableShows, OrdersFound, ListsShrank, QueueIn,
           Alone;
      Parts();
      SlotsExist();
      var level := table[Slot(price)];
      k := LevelAt(level);
      LevelAlone(level);
      OppositeApart(level.side);
      UnlinkLevelAt(level, k);
      orders := orders - (set o | o in level.queue);
      DroppedValid(Spot(level.side, k));
    }

    /** Unlinking a level and forgetting its orders keeps the book valid. */
    twostate lemma DroppedValid(at: Spot)
      requires old(Valid()) && ListsShrank(at) && at.index < |old(Nodes(at.side))|
      requires TableSet(Slot(old(Nodes(at.side))[at.index].price), null)
      requires old(Alone(Nodes(at.side)[at.index]))
      requires orders == old(orders) - (set o | o in old(Nodes(at.side)[at.index].queue))
      requires ContentsKept(old(bidNodes), old(askNodes), orders)
      requires SideLinked(at.side) && RingUntouched(Opposite(at.side))
      ensures Valid()
    {
      hide Valid, LevelRing, LevelShows, SideShows, SideLinked, TableShows, OrdersFound, ListsShrank, QueueIn, Alone,
           ContentsKept;
      ShrankFrom(at);
      OldLinks();
      OtherSideLinked(Opposite(at.side));
      DroppedShows(at);
      DroppedTable(at);
      DroppedFound(at);
      Assemble();
    }

    /** Removes the level of a price, with the orders in it, and gives its block back. */
    method RemovePriceLevel(price: int) returns (ghost k: nat)
      requires Valid() && LevelsPooled() && table[Slot(price)] != null && table[Slot(price)].price == price
      modifies this, table, bidNodes`prev, bidNodes`next, askNodes`prev, askNodes`next, pools`levels
      ensures Valid() && LevelsPooled() && orders == old(orders) - (set o | o in old(table[Slot(price)].queue))
      ensures ListsShrank(Spot(old(table[Slot(price)]).side, k))
      ensures old(Nodes(table[Slot(price)].side)[k]) == old(table[Slot(price)])
      ensures |pools.levels.free| == |old(pools.levels.free)|
    {
      hide Valid, ListsShrank, SideLinked, SideShows, TableShows, OrdersFound, LevelNodes, P.Housed;
      Parts();
      var level := table[Slot(price)];
      k := DropPriceLevel(price);
      ShrankLevels(Spot(level.side, k));
      P.HousedGiven<LevelNode>(pools.levels, old(LevelNodes()), LevelBlock, level);
      pools.GiveLevel(level.block);
    }

    twostate lemma ShrankLevels(at: Spot)
      requires ListsShrank(at) && old(SideLinked(Buy)) && old(SideLinked(Sell))
      ensures at.index < |old(Nodes(at.side))| && old(Nodes(at.side))[at.index] in old(LevelNodes())
      ensures LevelNodes() == old(LevelNodes()) - {old(Nodes(at.side))[at.index]}
    {
      ShrankMembers(at);
      ShrankFrom(at);
      assert forall n :: n in old(LevelNodes()) <==> n in old(Nodes(Buy)) || n in old(Nodes(Sell));
      assert forall n :: n in LevelNodes() <==> n in Nodes(Buy) || n in Nodes(Sell);
    }

    lemma SlotsExist()
      requires TableShows()
      ensures table.Length > 0
    {
    }

    /** Takes out the only order of a level, and the level with it. */
    method RemoveOnly(order: OrderNode) returns (ghost f: nat)
      requires Valid() && LevelsPooled() && order in orders && table[Slot(order.price)] != null
      requires var l := table[Slot(order.price)]; l.price == order.price && l.side == order.side && l.queue == [order]
      modifies this, table, bidNodes`prev, bidNodes`next, askNodes`prev, askNodes`next, pools`levels
      ensures Valid() && LevelsPooled() && orders == old(orders) - {order}
      ensures |pools.levels.free| == |old(pools.levels.free)|
      ensures forall n | n in bidNodes || n in askNodes :: n in old(bidNodes) || n in old(askNodes)
      ensures old(f < |View().Of(order.side)| && View().Of(order.side)[f] == order.View())
      ensures View() == old(View()).With(order.side, old(View().Of(order.side)[..f] + View().Of(order.side)[f + 1..]))
    {
      hide Valid, Concat, ListsShrank, Offset, P.Housed;
      ghost var side, was := order.side, Vals(order.side);
      Singles(side);
      ghost var k := RemovePriceLevel(order.price);
      ShrankFrom(Spot(side, k));
      f := Offset(was, k, 0);
      LevelDrop(was, k);
      ShrankNodes(Spot(side, k));
    }

    twostate lemma ShrankNodes(at: Spot)
      requires ListsShrank(at)
      ensures forall n | n in bidNodes || n in askNodes :: n in old(bidNodes) || n in old(askNodes)
    {
    }

    /** Takes a live order out of the book; an emptied level goes with it. */
    method RemoveOrder(order: OrderNode) returns (ghost f: nat)
      requires Valid() && Pooled() && order in orders
      modifies this, table, bidNodes, askNodes, orders`prev, orders`next, pools
      ensures Valid() && Pooled() && orders == old(orders) - {order}
      ensures |pools.levels.free| == |old(pools.levels.free)| && |pools.orders.free| == |old(pools.orders.free)|
      ensures Grown() && forall n | n in bidNodes || n in askNodes :: n in old(bidNodes + askNodes)
      ensures old(f < |View().Of(order.side)| && View().Of(order.side)[f] == order.View())
      ensures View() == old(View()).With(order.side, old(View().Of(order.side)[..f] + View().Of(order.side)[f + 1..]))
    {
      hide Valid, View, P.Housed;
      ghost var j := FindInQueue(order);
      var level := table[Slot(order.price)];
      if order.prev == order {
        f := RemoveOnly(order);
      } else {
        f := RemoveFromLevel(order, level, j);
      }
      assert old(orders + {}) == old(orders) && orders + {} == orders;
      P.HousedGiven(pools.orders, old(orders), OrderBlock, order);
      pools.GiveOrder(order.block);
    }

    /** Reduces a live order in place. */
    method SetQty(order: OrderNode, qty: nat) returns (ghost f: nat)
      requires Valid() && order in orders
      modifies order`qty, this`bidVals, this`askVals
      ensures Valid() && orders == old(orders) && order.qty == qty
      ensures bidNodes == old(bidNodes) && askNodes == old(askNodes)
      ensures old(f < |View().Of(order.side)| && View().Of(order.side)[f] == order.View())
      ensures View() == old(View()).With(order.side, old(View().Of(order.side))[f := old(order.View()).(qty := qty)])
    {
      hide Valid, Concat, OrderRing, LevelRing, LevelShows, QueueIn, QueueReplaced, OnlyLevel, Alone;
      ghost var j := FindInQueue(order);
      ghost var level, side := table[Slot(order.price)], order.side;
      ghost var k := LevelAt(level);
      LevelAlone(level);
      ghost var v := Vals(side)[k];
      ShownAt(level, v, j);
      ghost var w := order.View().(qty := qty);
      ghost var vals := Vals(side)[k := v[j := w]];
      f := Offset(Vals(side), k, j);
      OffsetAt(Vals(side), k, j);
      LevelSetQty(Vals(side), k, j, w);
      Reduce(level, order, v, j, qty);
      if side.Buy? {
        bidVals := vals;
      } else {
        askVals := vals;
      }
      LevelReplaced(Spot(side, k));
    }

    method Reduce(ghost level: LevelNode, order: OrderNode, ghost v: seq<Order>, ghost j: nat, qty: nat)
      requires LevelShows(level, v) && QueueIn(level, orders) && j < |level.queue| && level.queue[j] == order
      modifies order`qty
      ensures order.qty == qty && LevelShows(level, v[j := v[j].(qty := qty)])
      ensures QueueReplaced(level) && OnlyLevel(level, old(orders))
    {
      hide OrderRing;
      RingOnce(level.queue);
      order.qty := qty;
    }

    lemma RingOnce(q: seq<OrderNode>)
      requires OrderRing(q)
      ensures forall i, j | 0 <= i < j < |q| :: q[i] != q[j]
    {
    }

    /** Walks around a side's ring and gives back every level's block. */
    method FreeLevels(best: LevelNode?, ghost s: seq<LevelNode>, ghost nodes: set<LevelNode>)
      requires LevelRing(s) && best == Head(s) && P.Housed(pools.levels, nodes, LevelBlock)
      requires forall n | n in s :: n in nodes
      modifies pools`levels
      ensures P.Housed(pools.levels, nodes - (set n | n in s), LevelBlock)
      ensures |pools.levels.free| == |old(pools.levels.free)|
    {
      hide P.Housed;
      if best == null {
        assert nodes - (set n | n in s) == nodes;
        return;
      }
      var level := best.next;
      ghost var i, left := 1, nodes;
      while level != best
        invariant 1 <= i <= |s| && level == if i == |s| then s[0] else s[i]
        invariant left == nodes - (set n | n in s[1..i]) && P.Housed(pools.levels, left, LevelBlock)
        invariant |pools.levels.free| == |old(pools.levels.free)|
        decreases |s| - i
      {
        var node: LevelNode := level;
        assert s[1..i + 1] == s[1..i] + [s[i]] && forall j | 1 <= j < i :: s[j] != s[i];
        P.HousedGiven<LevelNode>(pools.levels, left, LevelBlock, node);
        pools.GiveLevel(node.block);
        left := left - {node};
        level := node.next;
        i := i + 1;
      }
      var first: LevelNode := best;
      assert s == [s[0]] + s[1..i] && forall j | 1 <= j < i :: s[j] != s[0];
      P.HousedGiven<LevelNode>(pools.levels, left, LevelBlock, first);
      pools.GiveLevel(first.block);
      assert left - {first} == nodes - (set n | n in s);
    }

    /** Gives back the blocks of every level of both sides. */
    method FreeSides()
      requires SideLinked(Buy) && SideLinked(Sell) && LevelsPooled()
      modifies pools`levels
      ensures P.Housed<LevelNode>(pools.levels, {}, LevelBlock)
      ensures |pools.levels.free| == |old(pools.levels.free)|
    {
      hide LevelRing, Descending, P.Housed;
      ghost var nodes, a, b := LevelNodes(), set n | n in bidNodes, set n | n in askNodes;
      OppositeApart(Sell);
      FreeLevels(bids, bidNodes, nodes);
      FreeLevels(asks, askNodes, nodes - a);
      assert nodes - a - b == {};
    }

    /**
     Empties both sides, the orders' blocks already given back. The table is left as it is, so it goes
     on finding the levels dropped: the book is valid again exactly when there was nothing to drop.
     */
    method Drop()
      requires Valid() && LevelsPooled() && P.Housed<OrderNode>(pools.orders, {}, OrderBlock)
      modifies this, pools`levels
      ensures View() == EMPTY && bidNodes == askNodes == [] && orders == {} && Pooled()
      ensures |pools.levels.free| == |old(pools.levels.free)|
      ensures table[..] == old(table[..])
      ensures Valid() <==> old(View()) == EMPTY
    {
      hide Valid, View, SideLinked, SideShows, TableShows, OrdersFound, P.Housed;
      TableOfEmpty();
      Parts();
      FreeSides();
      bids, asks := null, null;
      bidNodes, askNodes, bidVals, askVals, orders := [], [], [], [], {};
      BareValid();
      BarePooled();
    }

    /** The table is empty exactly when the book is. */
    lemma TableOfEmpty()
      requires Valid()
      ensures table.Length > 0
      ensures View() == EMPTY <==> forall i | 0 <= i < table.Length :: table[i] == null
    {
      forall side: Side
        ensures View().Of(side) == [] <==> Nodes(side) == []
        ensures Nodes(side) != [] ==> table[Slot(Nodes(side)[0].price)] != null
      {
        BestIsFirst(side);
      }
      assert Nodes(Buy) == bidNodes && Nodes(Sell) == askNodes;
    }

    lemma BarePooled()
      requires bidNodes == askNodes == [] && orders == {}
      requires P.Housed<LevelNode>(pools.levels, {}, LevelBlock) && P.Housed<OrderNode>(pools.orders, {}, OrderBlock)
      ensures Pooled()
    {
      hide P.Housed;
      assert LevelNodes() == {} && orders + {} == {};
    }

    lemma BareValid()
      requires bids == asks == null && bidNodes == askNodes == [] && bidVals == askVals == [] && orders == {}
      requires table.Length > 0
      ensures View() == EMPTY
      ensures Valid() <==> forall i | 0 <= i < table.Length :: table[i] == null
    {
    }

    /** A live order is listed on its side. */
    lemma WhereListed(order: OrderNode) returns (f: nat)
      requires Valid() && order in orders
      ensures f < |Flat(order.side)| && Flat(order.side)[f] == order.View()
    {
      var j := FindInQueue(order);
      var k := LevelAt(table[Slot(order.price)]);
      OffsetAt(Vals(order.side), k, j);
      f := Offset(Vals(order.side), k, j);
    }

    /** Levels of one order show one value. */
    lemma Singles(side: Side)
      requires Valid()
      ensures |Vals(side)| == |Nodes(side)|
      ensures forall i | 0 <= i < |Nodes(side)| && |Nodes(side)[i].queue| == 1 ::
                Vals(side)[i] == [Nodes(side)[i].queue[0].View()]
    {
      forall i | 0 <= i < |Nodes(side)| && |Nodes(side)[i].queue| == 1
        ensures Vals(side)[i] == [Nodes(side)[i].queue[0].View()]
      {
        assert LevelShows(Nodes(side)[i], Vals(side)[i]);
      }
    }

    /** A live order stands in the queue its price finds; it is alone there exactly when it is its own neighbour. */
    lemma FindInQueue(order: OrderNode) returns (j: nat)
      requires Valid() && order in orders
      ensures table.Length > 0 && table[Slot(order.price)] != null
      ensures var l := table[Slot(order.price)];
              && l.price == order.price && l.side == order.side && (l in bidNodes || l in askNodes)
              && j < |l.queue| && l.queue[j] == order && (order.prev == order <==> |l.queue| == 1)
    {
      var l := table[Slot(order.price)];
      j :| 0 <= j < |l.queue| && l.queue[j] == order;
      var k := LevelAt(l);
      assert |l.queue| > 1 ==> l.queue[j].prev != l.queue[j];
    }
  }

  // ----- a book's rings read as ladders, whatever the prices of the orders in them

  /** The orders of a ring as they stand. */
  ghost function Values(q: seq<OrderNode>): (r: seq<Order>)
    reads q
    ensures |r| == |q| && forall j | 0 <= j < |r| :: r[j] == q[j].View()
  {
    seq(|q|, j requires 0 <= j < |q| reads q => q[j].View())
  }

  /** The orders in the rings of some levels. */
  ghost function Members(nodes: seq<LevelNode>): set<OrderNode>
    reads nodes
  {
    set n, o | n in nodes && o in n.queue :: o
  }

  ghost function Queues(nodes: seq<LevelNode>): (r: seq<seq<Order>>)
    reads nodes, Members(nodes)
    ensures |r| == |nodes| && forall i | 0 <= i < |r| :: r[i] == Values(nodes[i].queue)
  {
    if nodes == [] then []
    else
      assert forall o | o in nodes[0].queue :: nodes[0] in nodes && o in Members(nodes);
      [Values(nodes[0].queue)] + Queues(nodes[1..])
  }

  /** One side of a linked book, read off its rings. */
  ghost function LadderOf(book: LevelBook, side: Side): (l: Ladder)
    reads book, book.Nodes(side), Members(book.Nodes(side))
    ensures |l.prices| == |l.queues|
  {
    Ladder(Prices(book.Nodes(side)), Queues(book.Nodes(side)))
  }

  /** What leaves the rings and the quantities alone leaves the ladders alone. */
  twostate lemma SameLadders(book: LevelBook)
    requires book.bidNodes == old(book.bidNodes) && book.askNodes == old(book.askNodes)
    requires forall side: Side, i | 0 <= i < |book.Nodes(side)| :: RingKept(book.Nodes(side)[i])
    ensures LadderOf(book, Buy) == old(LadderOf(book, Buy)) && LadderOf(book, Sell) == old(LadderOf(book, Sell))
  {
    forall side: Side, i | 0 <= i < |book.Nodes(side)|
      ensures Queues(book.Nodes(side))[i] == old(Queues(book.Nodes(side)))[i]
    {
      assert RingKept(book.Nodes(side)[i]);
    }
    assert Queues(book.bidNodes) == Queues(book.Nodes(Buy)) && Queues(book.askNodes) == Queues(book.Nodes(Sell));
  }

  twostate predicate RingKept(n: LevelNode)
    reads n, n.queue
  {
    n.queue == old(n.queue) && forall j | 0 <= j < |n.queue| :: n.queue[j].qty == old(n.queue[j].qty)
  }

  /** A valid book's rings are proper ladders, and show its view. */
  lemma ValidProper(book: LevelBook)
    requires book.Valid()
    ensures Proper(LadderOf(book, Buy), LadderOf(book, Sell), book.table.Length)
    ensures forall side: Side :: LadderOf(book, side) == Ladder(Prices(book.Nodes(side)), book.Vals(side))
  {
    hide Sorted, LadderOf, LevelBook.Valid, Distinct, Disjoint;
    LadderShows(book, Buy);
    LadderShows(book, Sell);
    forall side: Side
      ensures LadderOf(book, side) == Ladder(Prices(book.Nodes(side)), book.Vals(side))
    {
      LadderShows(book, side);
    }
    SlotsDistinct(book);
    book.SideSorted(Buy);
    book.SideSorted(Sell);
  }

  /** Rings that show `vals` are read off as `vals`. */
  lemma LadderIs(book: LevelBook, side: Side, vals: seq<seq<Order>>)
    requires |vals| == |book.Nodes(side)|
    requires forall i | 0 <= i < |vals| :: QueueShows(book.Nodes(side)[i], vals[i])
    ensures LadderOf(book, side) == Ladder(Prices(book.Nodes(side)), vals)
  {
    hide OrderRing;
    forall i | 0 <= i < |vals|
      ensures Values(book.Nodes(side)[i].queue) == vals[i]
    {
      assert QueueShows(book.Nodes(side)[i], vals[i]);
    }
  }

  lemma LadderShows(book: LevelBook, side: Side)
    requires book.Valid()
    ensures LadderOf(book, side) == Ladder(Prices(book.Nodes(side)), book.Vals(side))
    ensures |Prices(book.Nodes(side))| == |book.Vals(side)| && book.table.Length > 0
  {
    book.SlotsLive(0);
    book.SideSorted(side);
    hide LevelBook.Valid, QueueShows;
    forall i | 0 <= i < |book.Nodes(side)|
      ensures QueueShows(book.Nodes(side)[i], book.Vals(side)[i])
    {
      book.ShowsAt(Spot(side, i));
    }
    LadderIs(book, side, book.Vals(side));
  }

  lemma SlotsDistinct(book: LevelBook)
    requires book.Valid()
    ensures Distinct(Prices(book.bidNodes), book.table.Length) && Distinct(Prices(book.askNodes), book.table.Length)
    ensures Disjoint(Prices(book.bidNodes), Prices(book.askNodes), book.table.Length)
  {
    book.Parts();
    book.SideInjective(Buy);
    book.SideInjective(Sell);
    book.OppositeApart(Buy);
    hide LevelBook.Valid, LevelBook.SideLinked, LevelBook.SideShows, LevelBook.OrdersFound;
    assert book.Nodes(Buy) == book.bidNodes && book.Nodes(Sell) == book.askNodes;
  }

  /** The level the table finds is the one `InSlot` finds. */
  lemma FoundInSlot(book: LevelBook, slot: nat, side: Side, k: nat)
    requires book.Valid() && slot < book.table.Length
    requires k < |book.Nodes(side)| && book.table[slot] == book.Nodes(side)[k]
    ensures InSlot(Prices(book.Nodes(side)), slot, book.table.Length) == k
    ensures InSlot(Prices(book.Nodes(Opposite(side))), slot, book.table.Length) == |book.Nodes(Opposite(side))|
  {
    book.Parts();
    book.SideInjective(side);
    book.OppositeApart(side);
    hide LevelBook.Valid, LevelBook.SideLinked, LevelBook.SideShows, LevelBook.OrdersFound;
    var i, j := InSlot(Prices(book.Nodes(side)), slot, book.table.Length),
                InSlot(Prices(book.Nodes(Opposite(side))), slot, book.table.Length);
    assert book.Slot(book.Nodes(side)[k].price) == slot;
    if i != k {
      book.SameSlot(side, i, side, k);
    }
    if j < |book.Nodes(Opposite(side))| {
      book.SameSlot(Opposite(side), j, side, k);
    }
  }

  /** What `QueueBySlot` says when the table finds level `k` of a side. */
  lemma SlotRule(book: LevelBook, o: Order, side: Side, k: nat)
    requires book.Valid() && k < |book.Nodes(side)| && book.table[book.Slot(o.price)] == book.Nodes(side)[k]
    ensures QueueBySlot(LadderOf(book, Buy), LadderOf(book, Sell), o, book.table.Length)
         == if side.Buy? then (Join(LadderOf(book, Buy), k, o), LadderOf(book, Sell))
            else (LadderOf(book, Buy), Join(LadderOf(book, Sell), k, o))
  {
    hide LevelBook.Valid;
    FoundInSlot(book, book.Slot(o.price), side, k);
  }

  /** A level holding an order of another price or side makes the book invalid. */
  lemma Mixed(book: LevelBook, level: LevelNode, order: OrderNode)
    requires order in level.queue && (level.price != order.price || level.side != order.side)
    requires level in book.Nodes(level.side)
    ensures !book.Valid()
  {
    if book.Valid() {
      var k :| 0 <= k < |book.Nodes(level.side)| && book.Nodes(level.side)[k] == level;
      book.ShowsAt(Spot(level.side, k));
    }
  }

  /** The ladders of a book with one more order at the end of level `k`, its lists of values still the old ones. */
  lemma JoinedLadder(book: LevelBook, side: Side, k: nat, o: Order)
    requires book.SideLinked(Buy) && book.SideLinked(Sell) && k < |book.Nodes(side)|
    requires QueueShows(book.Nodes(side)[k], book.Vals(side)[k] + [o])
    requires |book.bidVals| == |book.bidNodes| && |book.askVals| == |book.askNodes|
    requires forall d: Side, i | 0 <= i < |book.Nodes(d)| && book.Nodes(d)[i] != book.Nodes(side)[k] ::
               LevelShows(book.Nodes(d)[i], book.Vals(d)[i])
    ensures LadderOf(book, side) == Join(Ladder(Prices(book.Nodes(side)), book.Vals(side)), k, o)
    ensures LadderOf(book, Opposite(side)) == Ladder(Prices(book.Nodes(Opposite(side))), book.Vals(Opposite(side)))
  {
    hide LevelBook.SideLinked, QueueShows, LadderOf;
    forall d: Side, i | 0 <= i < |book.Nodes(d)|
      ensures book.Nodes(d)[i] == book.Nodes(side)[k] <==> d == side && i == k
    {
      book.OnlyOnce(d, i, side, k);
    }
    LadderIs(book, side, book.Vals(side)[k := book.Vals(side)[k] + [o]]);
    LadderIs(book, Opposite(side), book.Vals(Opposite(side)));
  }

  /** The level is the order's own, if there is one. */
  predicate OwnLevel(l: LevelNode?, o: OrderNode) {
    l != null ==> l.price == o.price && l.side == o.side
  }

  /** Then everything live in the slot has the order's price, on its side. */
  lemma OwnLevelOwnSlot(book: LevelBook, o: OrderNode)
    requires book.Valid() && OwnLevel(book.table[book.Slot(o.price)], o)
    ensures OwnSlot(LadderOf(book, Buy), LadderOf(book, Sell), o.View(), book.table.Length)
  {
    book.Parts();
    hide LevelBook.Valid, LevelBook.SideShows, LevelBook.OrdersFound, LevelRing;
    forall side: Side, i | 0 <= i < |book.Nodes(side)| && book.Slot(book.Nodes(side)[i].price) == book.Slot(o.price)
      ensures book.Nodes(side)[i].price == o.price && o.side == side
    {
      assert book.table[book.Slot(book.Nodes(side)[i].price)] == book.Nodes(side)[i];
      book.SideOf(side, i);
    }
    assert book.Nodes(Buy) == book.bidNodes && book.Nodes(Sell) == book.askNodes;
  }

  lemma LadderView(book: LevelBook)
    requires book.Valid()
    ensures Sides(Concat(LadderOf(book, Buy).queues), Concat(LadderOf(book, Sell).queues)) == book.View()
  {
    hide LevelBook.Valid, LadderOf, Concat;
    ValidProper(book);
  }
}
