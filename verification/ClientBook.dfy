/**
 A client's copy of one ticker's book: the same linked structures as the exchange's
 (`LevelBooks`), a table from order id to order, and the best bid and offer kept beside them.
 Each market update is proved to do to the levels what `Market.Apply` says, and to the kept best
 what `BestOffer.Refresh` says.
 */
module ClientBooks {
  import opened Types
  import opened Market
  import opened Rings
  import opened Levels
  import opened PriceSlots
  import opened LevelBooks
  import opened BestOffer
  import P = Pools

  /** An ADD finds room: no other price in its slot, nothing opposite at its own price. */
  ghost predicate Roomy(c: Sides, u: Update, slots: nat)
    requires slots > 0
  {
    u.Add? ==> SlotFree(c, u.price, slots) && LevelQueue(c.Of(Opposite(u.side)), u.price) == []
  }

  class ClientBook {
    const book: LevelBook
    const byId: array<OrderNode?>
    var bid: Option<Touch>
    var ask: Option<Touch>

    function Best(): Bbo
      reads this
    {
      Bbo(bid, ask)
    }

    /** The id table holds exactly the live orders. */
    ghost predicate IdsFind()
      reads byId, book`orders
    {
      && (forall o | o in book.orders :: o.oid < byId.Length && byId[o.oid] == o && o.owner == Hidden)
      && (forall i | 0 <= i < byId.Length && byId[i] != null :: byId[i] in book.orders && byId[i].oid == i)
    }

    ghost predicate Valid()
      reads book, book.table, book.bidNodes, book.askNodes, book.orders, book.pools, byId
      reads set i | 0 <= i < book.table.Length :: book.table[i]
    {
      book.Valid() && book.Pooled() && Kept()
    }

    /** What is kept beside the levels: the id table, the count of orders, the sizes of the pools. */
    ghost predicate Kept()
      reads book, book.pools, byId
    {
      && IdsFind() && |book.orders| == OrderCount(book.View())
      && |book.pools.levels.free| == book.table.Length && |book.pools.orders.free| == byId.Length
    }

    constructor (orderIds: nat, slots: nat)
      requires slots > 0 && orderIds > 0
      ensures Valid() && book.View() == EMPTY && Best() == NO_BBO
      ensures book.table.Length == slots && byId.Length == orderIds
      ensures fresh(byId) && fresh(book) && fresh(book.table) && fresh(book.pools)
      ensures book.bidNodes == book.askNodes == [] && book.orders == {}
    {
      hide LevelBook.Valid, LevelBook.View, LevelBook.Pooled, P.Valid;
      book := new LevelBook(slots, orderIds);
      byId := new OrderNode?[orderIds](_ => null);
      bid, ask := None, None;
    }

    /** The live order an id names. */
    lemma Named(oid: nat, side: Side, price: int)
      requires Valid() && Names(book.View(), oid, side, price)
      ensures oid < byId.Length && byId[oid] != null && byId[oid] in book.orders && byId[oid].oid == oid
    {
      hide LevelBook.Valid;
      var k :| 0 <= k < |book.View().Of(side)| && book.View().Of(side)[k].oid == oid
               && book.View().Of(side)[k].price == price;
      var order := book.ListedLive(side, k);
      assert byId[order.oid] == order;
    }

    lemma IdFree(oid: nat)
      requires Valid() && Newest(book.View(), oid) && oid < byId.Length
      ensures byId[oid] == null
    {
      hide LevelBook.Valid;
      if byId[oid] != null {
        var f := book.WhereListed(byId[oid]);
      }
    }

    /** When the two allocations of an ADD succeed. */
    lemma RoomToAdd(u: Update)
      requires u.Add? && Valid() && Roomy(book.View(), u, book.table.Length)
      ensures P.Valid(book.pools.orders) && P.Valid(book.pools.levels)
      ensures var l := book.table[book.Slot(u.price)]; l != null ==> l.price == u.price && l.side == u.side
      ensures Rests(book.View(), u.side, u.price, book.table.Length, byId.Length) <==>
                P.Alloc(book.pools.orders).Some?
                && (book.table[book.Slot(u.price)] != null || P.Alloc(book.pools.levels).Some?)
    {
      hide LevelBook.Valid, P.Alloc, IdsFind, SlotFree;
      book.LevelFits(u.side, u.price);
      book.TableAgrees(u.price);
      book.LevelRoom();
      assert book.orders + {} == book.orders;
      P.HousedRoom<OrderNode>(book.pools.orders, book.orders, OrderBlock);
    }

    twostate lemma Entered(new order: OrderNode)
      requires old(Kept()) && book.orders == old(book.orders) + {order} && order !in old(book.orders)
      requires order.owner == Hidden && order.oid < byId.Length && old(byId[..])[order.oid] == null
      requires byId[..] == old(byId[..])[order.oid := order]
      requires OrderCount(book.View()) == old(OrderCount(book.View())) + 1
      requires |book.pools.levels.free| == |old(book.pools.levels.free)|
      requires |book.pools.orders.free| == |old(book.pools.orders.free)|
      ensures Kept()
    {
      hide OrderCount;
      assert forall i | 0 <= i < byId.Length :: byId[i] == byId[..][i];
    }

    /** Fails where the process exits for want of a block. */
    method AddOrder(u: Update) returns (ok: bool)
      requires u.Add? && Valid() && Newest(book.View(), u.oid) && u.oid < byId.Length
      requires Roomy(book.View(), u, book.table.Length)
      modifies byId, book, book.table, book.bidNodes, book.askNodes, book.orders, book.pools
      ensures ok <==> Rests(old(book.View()), u.side, u.price, book.table.Length, byId.Length)
      ensures ok ==> Valid() && book.Grown() && book.View() == Apply(old(book.View()), u)
    {
      hide LevelBook.Valid, LevelBook.View, LevelBook.LevelsPooled, LevelBook.OrdersPooled, SlotFree, Place, Newest,
           Roomy, Rests, P.Alloc, Kept, LadderOf, QueueBySlot;
      IdFree(u.oid);
      RoomToAdd(u);
      var order := book.NewOrder(Quote(u));
      if order == null {
        return false;
      }
      ok := book.AddOrder(order);
      if ok {
        byId[u.oid] := order;
        Entered(order);
      }
    }

    method ModifyOrder(u: Update)
      requires u.Modify? && Valid() && WellFormed(book.View()) && Names(book.View(), u.oid, u.side, u.price)
      modifies byId, book, book.table, book.bidNodes, book.askNodes, book.orders
      ensures Valid() && book.Grown() && book.View() == Apply(old(book.View()), u)
    {
      hide LevelBook.Valid, LevelBook.View, LevelBook.Pooled, WellFormed, Names;
      Named(u.oid, u.side, u.price);
      ghost var was := book.View();
      var order := byId[u.oid];
      ghost var f := book.SetQty(order, u.qty);
      EditAt(was, order.side, f, u.qty);
    }

    method CancelOrder(u: Update)
      requires u.Cancel? && Valid() && WellFormed(book.View()) && Names(book.View(), u.oid, u.side, u.price)
      modifies byId, book, book.table, book.bidNodes, book.askNodes, book.orders, book.pools
      ensures Valid() && book.Grown() && book.View() == Apply(old(book.View()), u)
    {
      hide LevelBook.Valid, LevelBook.View, LevelBook.Pooled, WellFormed, Names;
      Named(u.oid, u.side, u.price);
      ghost var was := book.View();
      var order := byId[u.oid];
      ghost var f := book.RemoveOrder(order);
      EditAt(was, order.side, f, 0);
      byId[order.oid] := null;
    }

    /** The price of a level and the sum of its queue. */
    method Summed(level: LevelNode, ghost vals: seq<Order>) returns (t: Touch)
      requires LevelShows(level, vals)
      ensures t == Touch(level.price, Total(vals))
    {
      ghost var q := level.queue;
      var qty := level.first.qty;
      var order := level.first.next;
      ghost var i := 1;
      assert vals[..1] == [vals[0]];
      while order != level.first
        invariant 1 <= i <= |q| && order == (if i == |q| then q[0] else q[i])
        invariant qty == Total(vals[..i])
        decreases |q| - i
      {
        TotalAppend(vals[..i], vals[i]);
        assert vals[..i + 1] == vals[..i] + [vals[i]];
        qty := qty + order.qty;
        order := order.next;
        i := i + 1;
      }
      assert vals[..i] == vals;
      t := Touch(level.price, qty);
    }

    /** Recomputes the best of the sides flagged. */
    method UpdateBbo(bidFlag: bool, askFlag: bool)
      requires bidFlag || askFlag ==> Valid()
      modifies this
      ensures Best() == Bbo(if bidFlag then BestOf(book.View().bids) else old(bid),
                            if askFlag then BestOf(book.View().asks) else old(ask))
    {
      hide LevelBook.Valid, LevelBook.View, LevelBook.Pooled, Kept, LevelShows, LevelQueue;
      if bidFlag {
        book.BestShows(Buy);
        if book.bids != null {
          var t := Summed(book.bids, LevelQueue(book.View().bids, book.bids.price));
          bid := Some(t);
        } else {
          bid := None;
        }
      }
      if askFlag {
        book.BestShows(Sell);
        if book.asks != null {
          var t := Summed(book.asks, LevelQueue(book.View().asks, book.asks.price));
          ask := Some(t);
        } else {
          ask := None;
        }
      }
    }

    /** Whether the update is at or better than the best level of a side. */
    predicate AtBest(u: Update, side: Side)
      reads book
    {
      var best := book.Best(side);
      (u.Add? || u.Modify? || u.Cancel?) && best != null && u.side == side && !Better(side, best.price, u.price)
    }

    lemma FlagsTouch(u: Update, side: Side)
      requires Valid()
      ensures AtBest(u, side) == Touches(book.View(), u, side)
    {
      hide LevelBook.Valid, LevelBook.View, LevelShows;
      book.BestShows(side);
    }

    /** Gives back the block of every order the id table holds. */
    method FreeOrders()
      requires IdsFind() && book.OrdersPooled({})
      modifies book.pools`orders
      ensures P.Housed<OrderNode>(book.pools.orders, {}, OrderBlock)
      ensures |book.pools.orders.free| == |old(book.pools.orders.free)|
    {
      hide P.Housed;
      ghost var left := book.orders;
      assert book.orders + {} == left;
      for i := 0 to byId.Length
        invariant left == set o | o in book.orders && i <= o.oid
        invariant P.Housed(book.pools.orders, left, OrderBlock)
        invariant |book.pools.orders.free| == |old(book.pools.orders.free)|
      {
        if byId[i] != null {
          var order: OrderNode := byId[i];
          P.HousedGiven(book.pools.orders, left, OrderBlock, order);
          book.pools.GiveOrder(order.block);
          left := left - {order};
        }
      }
      assert left == {};
    }

    /** Gives every order and level back to the pools, empties the id table and both sides, but not the price table. */
    method ClearEntireBook()
      requires Valid()
      modifies byId, book, book.pools
      ensures book.View() == EMPTY && book.Grown() && book.Pooled() && Kept()
      ensures Valid() <==> old(book.View()) == EMPTY
    {
      hide LevelBook.Valid, LevelBook.View, P.Housed, IdsFind;
      FreeOrders();
      ForgetIds();
      book.Drop();
      NothingKept();
    }

    method ForgetIds()
      modifies byId
      ensures forall j | 0 <= j < byId.Length :: byId[j] == null
    {
      for i := 0 to byId.Length
        invariant forall j | 0 <= j < i :: byId[j] == null
      {
        byId[i] := null;
      }
    }

    lemma NothingKept()
      requires book.orders == {} && (forall j | 0 <= j < byId.Length :: byId[j] == null) && book.View() == EMPTY
      requires |book.pools.levels.free| == book.table.Length && |book.pools.orders.free| == byId.Length
      ensures Kept()
    {
    }

    /** Handles one market update; fails where the process exits for want of a block. */
    method OnMarketUpdate(u: Update) returns (ok: bool)
      requires Valid() && WellFormed(book.View())
      requires Fits(book.View(), u) || u.Clear? || u.SnapshotStart? || u.SnapshotEnd?
      requires Roomy(book.View(), u, book.table.Length) && (u.Add? ==> u.oid < byId.Length)
      modifies this, byId, book, book.table, book.bidNodes, book.askNodes, book.orders, book.pools
      ensures ok <==> (u.Add? ==> Rests(old(book.View()), u.side, u.price, book.table.Length, byId.Length))
      ensures ok ==> book.View() == Apply(old(book.View()), u) && book.Grown()
      ensures ok ==> Best() == Refresh(old(Best()), old(book.View()), u)
      ensures ok ==> (Valid() <==> (u.Clear? ==> old(book.View()) == EMPTY))
    {
      hide LevelBook.Valid, LevelBook.View, LevelBook.Pooled, Kept, WellFormed, Roomy, Newest, Names, IdsFind, BestOf,
           Place, LevelBook.Slot, LevelBook.NodesGrown, Rests;
      FlagsTouch(u, Buy);
      FlagsTouch(u, Sell);
      var bidFlag, askFlag := AtBest(u, Buy), AtBest(u, Sell);
      ok := true;
      match u {
        case Add(_, _, _, _, _, _) =>
          ok := AddOrder(u);
          if !ok {
            return;
          }
        case Modify(_, _, _, _, _, _) => ModifyOrder(u);
        case Cancel(_, _, _, _, _, _) => CancelOrder(u);
        case Trade(_, _, _, _) =>
          book.StillGrown();
          return;
        case Clear(_) => ClearEntireBook();
        case _ => book.StillGrown();
      }
      UpdateBbo(bidFlag, askFlag);
    }
  }
}
