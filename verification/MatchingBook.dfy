/**
 The exchange's limit order book as linked structures: price levels and queues (`LevelBooks`),
 the table from a client and its order id to the live order, and the matching loop. Each
 operation is proved to do to the book, and to send, what `Exchange` says.
 */
module MatchingBooks {
  import opened Types
  import opened Market
  import opened Exchange
  import opened ReachableBook
  import opened Rings
  import opened Levels
  import opened PriceSlots
  import opened LevelBooks
  import opened PoolRoom
  import P = Pools

  // ----- prices that share a slot of the price table

  /** Matching brings no new price into the book. */
  lemma {:induction false} FindMatchSlots(c: Sides, t: Taker, remains: nat, price: int, slots: nat)
    requires slots > 0 && SlotFree(c, price, slots)
    ensures SlotFree(FindMatch(c, t, remains).sides, price, slots)
    decreases remains, |c.Of(Opposite(t.side))|
  {
    if CanMatch(c, t, remains) {
      var first := MatchFirst(c, t, remains);
      var opp := Opposite(t.side);
      forall side: Side, i | 0 <= i < |first.sides.Of(side)| && first.sides.Of(side)[i].price % slots == price % slots
        ensures first.sides.Of(side)[i].price == price
      {
        var d := |c.Of(side)| - |first.sides.Of(side)|;
        assert first.sides.Of(side)[i].price == c.Of(side)[i + d].price;
      }
      FindMatchSlots(first.sides, t, first.remains, price, slots);
    }
  }

  lemma OnlyAt(c: Sides, bound: nat, side: Side, k: nat, f: nat)
    requires SoundSides(c, bound) && k < |c.Of(side)| && f < |c.Of(side)|
    requires c.Of(side)[f].oid == c.Of(side)[k].oid
    ensures f == k
  {
    assert forall i | 0 <= i < k :: Before(side, c.Of(side)[i], c.Of(side)[k]);
    assert forall i | k < i < |c.Of(side)| :: Before(side, c.Of(side)[k], c.Of(side)[i]);
  }

  /**
   Matching that began as `FindMatch(c0, t, qty)` and has already sent `r` and `u` is the same
   as what has been sent followed by `FindMatch(c, t, remains)`.
   */
  ghost predicate Continues(start: Outcome, t: Taker, now: Outcome) {
    var all := Exchange.FindMatch(start.sides, t, start.remains);
    var rest := Exchange.FindMatch(now.sides, t, now.remains);
    && all.sides == rest.sides && all.remains == rest.remains
    && start.responses + all.responses == now.responses + rest.responses
    && start.updates + all.updates == now.updates + rest.updates
  }

  /** `now` after one more trade. */
  function Then(now: Outcome, first: Outcome): Outcome {
    Outcome(first.sides, first.remains, now.responses + first.responses, now.updates + first.updates)
  }

  lemma ContinuesStep(start: Outcome, t: Taker, now: Outcome)
    requires Continues(start, t, now) && CanMatch(now.sides, t, now.remains)
    ensures Continues(start, t, Then(now, MatchFirst(now.sides, t, now.remains)))
  {
    var first := MatchFirst(now.sides, t, now.remains);
    var rest := Exchange.FindMatch(now.sides, t, now.remains);
    var more := Exchange.FindMatch(first.sides, t, first.remains);
    assert now.responses + rest.responses == now.responses + first.responses + more.responses;
    assert now.updates + rest.updates == now.updates + first.updates + more.updates;
  }

  lemma ContinuesDone(start: Outcome, t: Taker, now: Outcome)
    requires Continues(start, t, now) && !CanMatch(now.sides, t, now.remains)
    ensures now == Then(start, Exchange.FindMatch(start.sides, t, start.remains))
  {
  }

  lemma ContinuesAtFirst(start: Outcome, t: Taker)
    ensures Continues(start, t, start)
  {
  }

  /** A trade fills the incoming order or takes one order out of the book. */
  lemma MatchFirstShrinks(c: Sides, t: Taker, remains: nat)
    requires CanMatch(c, t, remains)
    ensures var out := MatchFirst(c, t, remains);
            out.remains <= remains
            && (out.remains == 0 || |out.sides.Of(Opposite(t.side))| < |c.Of(Opposite(t.side))|)
  {
  }

  /** What becomes of an accepted order. */
  ghost function Settled(c: Sides, t: Taker, qty: nat): Outcome {
    var m := Exchange.FindMatch(c, t, qty);
    if m.remains == 0 then m
    else
      var o := Rest(m.sides, t, m.remains);
      Outcome(m.sides.With(t.side, Place(m.sides.Of(t.side), o)), m.remains,
              m.responses, m.updates + [Announce(t.ticker, o)])
  }

  lemma AddOrderSettles(b: Book, r: Request)
    requires r.New?
    ensures var t := Taker(r.owner, r.ticker, b.nextOid, r.side, r.price);
            var (b', out) := Exchange.AddOrder(b, r); var settled := Settled(b.sides, t, r.qty);
            && b' == Book(settled.sides, b.nextOid + 1) && out.updates == settled.updates
            && out.responses == [Accepted(r.owner, r.ticker, t.oid, r.side, r.price, r.qty)] + settled.responses
  {
  }

  lemma SoundNow(b: Book)
    requires Sound(b)
    ensures SoundSides(b.sides, b.nextOid)
  {
  }

  /** What `!CanMatch` means while something is left to match. */
  lemma Stops(c: Sides, t: Taker, remains: nat)
    requires remains > 0 && !CanMatch(c, t, remains)
    ensures var s := c.Of(Opposite(t.side)); s == [] || !Crosses(t.side, t.price, s[0].price)
  {
  }

  lemma Owned(c: Sides, owner: Owner) returns (side: Side, f: nat)
    requires Owns(c, owner)
    ensures f < |c.Of(side)| && c.Of(side)[f].owner == owner
  {
    side := if exists i :: 0 <= i < |c.bids| && c.bids[i].owner == owner then Buy else Sell;
    f :| 0 <= f < |c.Of(side)| && c.Of(side)[f].owner == owner;
  }

  /** A trade that fills the first order: its quantity goes to zero, then it goes. */
  lemma FilledFirst(c: Sides, t: Taker, remains: nat, bound: nat, f: nat)
    requires var s := c.Of(Opposite(t.side));
             && SoundSides(c, bound) && s != [] && s[0].qty <= remains
             && f < |s| && s[0 := s[0].(qty := 0)][f].oid == s[0].oid
    ensures var s := c.Of(Opposite(t.side)); var now := s[0 := s[0].(qty := 0)];
            MatchFirst(c, t, remains) == Outcome(
              c.With(Opposite(t.side), now).With(Opposite(t.side), now[..f] + now[f + 1..]),
              remains - s[0].qty,
              [ Filled(t.owner, t.ticker, t.oid, t.side, s[0].price, s[0].qty, remains - s[0].qty),
                Filled(s[0].owner, t.ticker, s[0].oid, s[0].side, s[0].price, s[0].qty, 0) ],
              [ Types.Update.Trade(t.ticker, t.side, s[0].price, s[0].qty),
                Types.Update.Cancel(t.ticker, s[0].oid, s[0].side, s[0].price, s[0].qty, PRIORITY_INVALID) ])
  {
    var s := c.Of(Opposite(t.side));
    var now := s[0 := s[0].(qty := 0)];
    assert now[f].oid == s[f].oid;
    OnlyAt(c, bound, Opposite(t.side), 0, f);
    assert now[..0] + now[0 + 1..] == s[1..];
  }

  /** A trade that leaves the first order with less. */
  lemma ReducedFirst(c: Sides, t: Taker, remains: nat)
    requires var s := c.Of(Opposite(t.side)); s != [] && remains < s[0].qty
    ensures var s := c.Of(Opposite(t.side)); var left := s[0].qty - remains;
            MatchFirst(c, t, remains) == Outcome(
              c.With(Opposite(t.side), s[0 := s[0].(qty := left)]), 0,
              [ Filled(t.owner, t.ticker, t.oid, t.side, s[0].price, remains, 0),
                Filled(s[0].owner, t.ticker, s[0].oid, s[0].side, s[0].price, remains, left) ],
              [ Types.Update.Trade(t.ticker, t.side, s[0].price, remains),
                Types.Update.Modify(t.ticker, s[0].oid, s[0].side, s[0].price, left, s[0].priority) ])
  {
    var s, out := c.Of(Opposite(t.side)), MatchFirst(c, t, remains);
    assert Min(remains, s[0].qty) == remains;
    assert s[0 := s[0].(qty := s[0].qty - remains)] == [s[0].(qty := s[0].qty - remains)] + s[1..];
    assert out.remains == 0 && out.responses[0] == Filled(t.owner, t.ticker, t.oid, t.side, s[0].price, remains, 0);
  }

  class MatchingBook {
    const book: LevelBook
    const clients: array2<OrderNode?>  // by client id and that client's order id
    var nextOid: nat
    var responses: seq<Response>       // sent to the gateway so far
    var updates: seq<Update>           // sent to the market data publisher so far

    ghost function State(): Book
      reads this, book
    {
      Book(book.View(), nextOid)
    }

    predicate HasSlot(owner: Owner)
    {
      owner.Client? && owner.id < clients.Length0 && owner.oid < clients.Length1
    }

    /** The client table holds exactly the live orders, each under its owner. */
    ghost predicate ClientsFind()
      reads clients, book`orders
    {
      && (forall o | o in book.orders :: HasSlot(o.owner) && clients[o.owner.id, o.owner.oid] == o)
      && (forall i, j | 0 <= i < clients.Length0 && 0 <= j < clients.Length1 && clients[i, j] != null ::
            clients[i, j] in book.orders && clients[i, j].owner == Client(i, j))
    }

    ghost predicate Valid()
      reads book, book.table, book.bidNodes, book.askNodes, book.orders, book.pools, clients
      reads set i | 0 <= i < book.table.Length :: book.table[i]
    {
      book.Valid() && book.Pooled() && Kept()
    }

    /** What is kept beside the levels: the client table, the count of orders, the sizes of the pools. */
    ghost predicate Kept()
      reads book, book.pools, clients
    {
      && ClientsFind() && |book.orders| == OrderCount(book.View())
      && |book.pools.levels.free| == book.table.Length && |book.pools.orders.free| == clients.Length1
    }

    constructor (clientIds: nat, orderIds: nat, slots: nat)
      requires slots > 0 && orderIds > 0
      ensures Valid() && State() == NEW_BOOK && responses == [] && updates == []
      ensures book.table.Length == slots && clients.Length0 == clientIds && clients.Length1 == orderIds
      ensures fresh(clients) && fresh(book) && fresh(book.table) && fresh(book.pools)
      ensures book.bidNodes == book.askNodes == [] && book.orders == {}
    {
      hide LevelBook.Valid, LevelBook.View, LevelBook.Pooled, P.Valid;
      book := new LevelBook(slots, orderIds);
      clients := new OrderNode?[clientIds, orderIds]((i, j) => null);
      nextOid := 1;
      responses, updates := [], [];
    }

    ghost function Sent(remains: nat): Outcome
      reads this, book
    {
      Outcome(book.View(), remains, responses, updates)
    }

    /** The book keeps to the nodes it had. */
    twostate predicate Within()
      reads this, book
    {
      && book.orders <= old(book.orders)
      && (forall i | 0 <= i < |book.bidNodes| :: book.bidNodes[i] in old(book.bidNodes + book.askNodes))
      && (forall i | 0 <= i < |book.askNodes| :: book.askNodes[i] in old(book.bidNodes + book.askNodes))
    }

    /** Takes an order out of the book and out of the client table. */
    method Remove(order: OrderNode) returns (ghost f: nat)
      requires Valid() && order in book.orders
      modifies clients, book, book.table, book.bidNodes, book.askNodes, book.orders, book.pools
      ensures Valid() && Within() && book.orders == old(book.orders) - {order}
      ensures old(f < |book.View().Of(order.side)| && book.View().Of(order.side)[f] == order.View())
      ensures var s := old(book.View().Of(order.side));
              book.View() == old(book.View()).With(order.side, s[..f] + s[f + 1..])
    {
      hide LevelBook.Valid, LevelBook.View, LevelBook.Pooled;
      f := book.RemoveOrder(order);
      clients[order.owner.id, order.owner.oid] := null;
    }

    /** One trade between an incoming order and the first order of the opposite side. */
    method Match(t: Taker, order: OrderNode, remains: nat, ghost bound: nat) returns (left: nat)
      requires Valid() && SoundSides(book.View(), bound)
      requires order in book.orders && order.side == Opposite(t.side)
      requires var s := book.View().Of(Opposite(t.side)); s != [] && s[0] == order.View()
      modifies this`responses, this`updates, clients
      modifies book, book.table, book.bidNodes, book.askNodes, book.orders, book.pools
      ensures Valid() && Within()
      ensures Sent(left) == Then(old(Sent(remains)), MatchFirst(old(book.View()), t, remains))
    {
      hide LevelBook.Valid, LevelBook.View, LevelBook.Pooled, SoundSides, MatchFirst, ClientsFind;
      ghost var was := book.View();
      var orderQty := order.qty;
      var fill := Min(remains, orderQty);
      left := remains - fill;
      ghost var f := book.SetQty(order, orderQty - fill);
      OnlyAt(was, bound, Opposite(t.side), 0, f);
      responses := responses +
        [ Filled(t.owner, t.ticker, t.oid, t.side, order.price, fill, left),
          Filled(order.owner, t.ticker, order.oid, order.side, order.price, fill, order.qty) ];
      updates := updates +
        [ Types.Update.Trade(t.ticker, t.side, order.price, fill),
          if order.qty == 0
          then Types.Update.Cancel(t.ticker, order.oid, order.side, order.price, orderQty, PRIORITY_INVALID)
          else Types.Update.Modify(t.ticker, order.oid, order.side, order.price, order.qty, order.priority) ];
      if order.qty == 0 {
        f := Remove(order);
        FilledFirst(was, t, remains, bound, f);
      } else {
        ReducedFirst(was, t, remains);
      }
    }

    /** Trades an incoming order until it is filled or nothing crosses it. */
    method FindMatch(t: Taker, qty: nat, ghost bound: nat) returns (remains: nat)
      requires Valid() && SoundSides(book.View(), bound)
      modifies this`responses, this`updates, clients
      modifies book, book.table, book.bidNodes, book.askNodes, book.orders, book.pools
      ensures Valid() && Within()
      ensures Sent(remains) == Then(old(Sent(qty)), Exchange.FindMatch(old(book.View()), t, qty))
    {
      hide LevelBook.Valid, LevelBook.View, LevelBook.Pooled, Kept, Continues, Exchange.FindMatch, SoundSides,
           MatchFirst;
      remains := qty;
      var best := book.Best(Opposite(t.side));
      book.BestIsFirst(Opposite(t.side));
      ContinuesAtFirst(Sent(qty), t);
      while remains > 0 && best != null && Crosses(t.side, t.price, best.first.price)
        invariant Valid() && SoundSides(book.View(), bound) && Within()
        invariant best == book.Best(Opposite(t.side))
        invariant best == null <==> book.View().Of(Opposite(t.side)) == []
        invariant best != null ==> best.first in book.orders && best.first.side == Opposite(t.side)
                                   && best.first.View() == book.View().Of(Opposite(t.side))[0]
        invariant Continues(old(Sent(qty)), t, Sent(remains))
        decreases remains, |book.View().Of(Opposite(t.side))|
      {
        MatchFirstSound(book.View(), t, remains, bound);
        MatchFirstShrinks(book.View(), t, remains);
        ContinuesStep(old(Sent(qty)), t, Sent(remains));
        remains := Match(t, best.first, remains, bound);
        best := book.Best(Opposite(t.side));
        book.BestIsFirst(Opposite(t.side));
      }
      ContinuesDone(old(Sent(qty)), t, Sent(remains));
    }

    /** The level found at an uncrossed price is that price's, on the side that may rest there. */
    lemma LevelIsOwn(side: Side, price: int, bound: nat)
      requires book.Valid() && SoundSides(book.View(), bound) && SlotFree(book.View(), price, book.table.Length)
      requires var s := book.View().Of(Opposite(side)); s == [] || !Crosses(side, price, s[0].price)
      ensures var l := book.table[book.Slot(price)];
              l != null ==> l.price == price && l.side == side
    {
      hide LevelBook.Valid, SoundSides;
      SoundOf(book.View(), Opposite(side), bound);
      NoLevelThere(book.View().Of(Opposite(side)), Opposite(side), bound, price);
      book.LevelFits(side, price);
    }

    /** One more than the last priority of the level in a price's slot, or 1. */
    method GetNextPriority(price: int) returns (priority: nat)
      requires book.Valid()
      ensures var l := book.table[book.Slot(price)];
              && (l == null ==> priority == 1)
              && (l != null ==> l.queue != [] && priority == l.queue[|l.queue| - 1].priority + 1)
              && ((l != null ==> l.price == price) ==> priority == NextPriority(book.View(), price))
    {
      hide LevelBook.Valid, LevelBook.View, NextPriority;
      book.SlotsLive(price);
      var level := book.table[book.Slot(price)];
      if level == null {
        priority := 1;
      } else {
        book.LevelEnd(level);
        priority := level.first.prev.priority + 1;
      }
      if level != null ==> level.price == price {
        TablePriority(price);
      }
    }

    /** In its own price's level the table finds the priority of the pure book. */
    lemma TablePriority(price: int)
      requires book.Valid() && (book.table[book.Slot(price)] != null ==> book.table[book.Slot(price)].price == price)
      ensures var l := book.table[book.Slot(price)];
              && (l != null ==> l.first.prev != null)
              && NextPriority(book.View(), price) == if l == null then 1 else l.first.prev.priority + 1
    {
      hide LevelBook.Valid;
      book.TableAgrees(price);
    }

    /** An owner without a live order has an empty table entry. */
    lemma EntryFree(owner: Owner)
      requires Valid() && HasSlot(owner) && !Owns(book.View(), owner)
      ensures clients[owner.id, owner.oid] == null
    {
      hide LevelBook.Valid;
      var o := clients[owner.id, owner.oid];
      if o != null {
        var f := book.WhereListed(o);
      }
    }

    /** The table stays right when an order enters at its owner's empty entry. */
    twostate lemma Entered(order: OrderNode)
      requires old(ClientsFind()) && book.orders == old(book.orders) + {order} && order !in old(book.orders)
      requires HasSlot(order.owner) && old(clients[order.owner.id, order.owner.oid]) == null
      requires clients[order.owner.id, order.owner.oid] == order
      requires forall i, j | 0 <= i < clients.Length0 && 0 <= j < clients.Length1 && Client(i, j) != order.owner ::
                 clients[i, j] == old(clients[i, j])
      ensures ClientsFind()
    {
    }

    /**
     Rests an order in the book and enters it in the client table; fails where the level pool overruns.
     All stays valid exactly if the level in the price's slot was the order's own.
     */
    method AddOrderToBook(order: OrderNode) returns (ok: bool)
      requires book.Valid() && book.LevelsPooled() && book.OrdersPooled({order}) && Kept()
      requires order !in book.orders && HasSlot(order.owner)
      requires clients[order.owner.id, order.owner.oid] == null
      modifies clients, book, book.table, book.bidNodes, book.askNodes, book.orders, order, book.pools`levels
      ensures ok <==> old(book.table[book.Slot(order.price)]) != null || P.Alloc(old(book.pools.levels)).Some?
      ensures ok ==> ClientsFind() && book.orders == old(book.orders) + {order} && book.NodesGrown()
      ensures ok ==> clients[order.owner.id, order.owner.oid] == order
      ensures ok ==>
              (LadderOf(book, Buy), LadderOf(book, Sell))
              == QueueBySlot(old(LadderOf(book, Buy)), old(LadderOf(book, Sell)), old(order.View()), book.table.Length)
      ensures ok ==> (Valid() <==> OwnLevel(old(book.table[book.Slot(order.price)]), order))
      ensures ok && Valid() ==>
              book.View()
              == old(book.View()).With(order.side, Place(old(book.View()).Of(order.side), old(order.View())))
    {
      hide LevelBook.Valid, LevelBook.View, LevelBook.Pooled, LevelBook.LevelsPooled, LevelBook.OrdersPooled,
           LevelBook.NodesGrown, Place, P.Alloc, ClientsFind, LadderOf, QueueBySlot;
      ok := book.AddOrder(order);
      if ok {
        label queued:
        clients[order.owner.id, order.owner.oid] := order;
        SameLadders@queued(book);
        Entered(order);
      }
    }

    /** Handles a new order: accept, match, and rest what is left; fails where the process exits for want of a block. */
    method Add(owner: Owner, ticker: nat, side: Side, price: int, qty: nat) returns (ok: bool)
      requires Valid() && Sound(State()) && Admissible(State(), New(owner, ticker, side, price, qty))
      requires var m := Exchange.FindMatch(book.View(), Taker(owner, ticker, nextOid, side, price), qty);
               m.remains == 0 || (HasSlot(owner) && SlotFree(m.sides, price, book.table.Length))
      modifies this, clients, book, book.table, book.bidNodes, book.askNodes, book.orders, book.pools
      ensures ok <==> RoomFor(old(State()), New(owner, ticker, side, price, qty), book.table.Length, clients.Length1)
      ensures ok ==> Valid() && book.Grown()
      ensures ok ==>
              var (b, out) := Exchange.AddOrder(old(State()), New(owner, ticker, side, price, qty));
              && State() == b && Sound(b)
              && responses == old(responses) + out.responses && updates == old(updates) + out.updates
    {
      hide Valid, LevelBook.View, Exchange.AddOrder, Settled, Sound, SoundSides, Rests, SlotFree, Owns;
      ghost var r := New(owner, ticker, side, price, qty);
      ProcessSound(State(), r);
      var t := Taker(owner, ticker, nextOid, side, price);
      AddOrderSettles(State(), r);
      SoundNow(State());
      responses := responses + [Accepted(owner, ticker, nextOid, side, price, qty)];
      nextOid := nextOid + 1;
      ok := MatchAndRest(t, qty);
    }

    /** Matches an accepted order and rests what is left of it. */
    method MatchAndRest(t: Taker, qty: nat) returns (ok: bool)
      requires Valid() && SoundSides(book.View(), t.oid) && t.owner.Client? && !Owns(book.View(), t.owner)
      requires var m := Exchange.FindMatch(book.View(), t, qty);
               m.remains == 0 || (HasSlot(t.owner) && SlotFree(m.sides, t.price, book.table.Length))
      modifies this`responses, this`updates, clients
      modifies book, book.table, book.bidNodes, book.askNodes, book.orders, book.pools
      ensures var m := Exchange.FindMatch(old(book.View()), t, qty);
              ok <==> m.remains == 0 || Rests(m.sides, t.side, t.price, book.table.Length, clients.Length1)
      ensures ok ==> Valid() && book.Grown()
      ensures ok ==>
              var out := Settled(old(book.View()), t, qty);
              && book.View() == out.sides
              && responses == old(responses) + out.responses && updates == old(updates) + out.updates
    {
      hide Valid, LevelBook.View, Exchange.FindMatch, SoundSides, SlotFree, Owns, Place, CanMatch, Rest, Rests,
           Announce;
      ghost var was := book.View();
      HasTable();
      FindMatchSound(was, t, qty, t.oid);
      var remains := FindMatch(t, qty, t.oid);
      ok := true;
      if remains > 0 {
        ok := RestRemainder(t, remains);
      }
    }

    lemma HasTable()
      requires Valid()
      ensures book.table.Length > 0
    {
      hide LevelBook.Valid, LevelBook.Pooled;
      book.SlotsLive(0);
    }

    /** Rests what could not be matched and announces it; fails where a pool overruns. */
    method RestRemainder(t: Taker, remains: nat) returns (ok: bool)
      requires Valid() && SoundSides(book.View(), t.oid) && SlotFree(book.View(), t.price, book.table.Length)
      requires remains > 0 && !CanMatch(book.View(), t, remains)
      requires HasSlot(t.owner) && !Owns(book.View(), t.owner)
      modifies this`updates, clients, book, book.table, book.bidNodes, book.askNodes, book.orders, book.pools
      ensures ok <==> Rests(old(book.View()), t.side, t.price, book.table.Length, clients.Length1)
      ensures ok ==> Valid() && book.Grown()
      ensures ok ==>
              var o := Rest(old(book.View()), t, remains); var s := old(book.View()).Of(t.side);
              book.View() == old(book.View()).With(t.side, Place(s, o))
              && updates == old(updates) + [Announce(t.ticker, o)]
    {
      hide LevelBook.Valid, LevelBook.View, LevelBook.LevelsPooled, SoundSides, ClientsFind, SlotFree, Owns, Place,
           NextPriority, Rests, P.Alloc, LevelBook.OrdersPooled, LadderOf, QueueBySlot;
      Stops(book.View(), t, remains);
      LevelIsOwn(t.side, t.price, t.oid);
      EntryFree(t.owner);
      RoomToRest(t.side, t.price);
      var priority := GetNextPriority(t.price);
      var order := book.NewOrder(Order(t.owner, t.oid, t.side, t.price, remains, priority));
      if order == null {
        return false;
      }
      ok := AddOrderToBook(order);
      if ok {
        updates := updates + [Types.Update.Add(t.ticker, t.oid, t.side, t.price, remains, priority)];
      }
    }

    /** When the two allocations of a resting order succeed. */
    lemma RoomToRest(side: Side, price: int)
      requires Valid()
      requires var l := book.table[book.Slot(price)]; l != null ==> l.price == price && l.side == side
      ensures P.Valid(book.pools.orders) && P.Valid(book.pools.levels)
      ensures Rests(book.View(), side, price, book.table.Length, clients.Length1) <==>
                P.Alloc(book.pools.orders).Some?
                && (book.table[book.Slot(price)] != null || P.Alloc(book.pools.levels).Some?)
    {
      hide LevelBook.Valid, P.Alloc, ClientsFind;
      book.TableAgrees(price);
      book.LevelRoom();
      assert book.orders + {} == book.orders;
      P.HousedRoom<OrderNode>(book.pools.orders, book.orders, OrderBlock);
    }

    /** Handles a cancel request: remove the order if its client has it live, else reject. */
    method Cancel(owner: Owner, ticker: nat)
      requires Valid() && Sound(State()) && owner.Client?
      requires owner.id < clients.Length0 ==> owner.oid < clients.Length1
      modifies this`responses, this`updates, clients
      modifies book, book.table, book.bidNodes, book.askNodes, book.orders, book.pools
      ensures Valid() && Within() && book.Grown()
      ensures var (b, out) := CancelOwned(old(State()), CancelOrder(owner, ticker));
              && State() == b && Sound(b)
              && responses == old(responses) + out.responses && updates == old(updates) + out.updates
    {
      hide LevelBook.Valid, LevelBook.View, LevelBook.Pooled, Kept, SoundSides, Owns, Locate;
      ghost var was := book.View();
      ProcessSound(State(), CancelOrder(owner, ticker));
      var order: OrderNode? := null;
      if owner.id < clients.Length0 {
        order := clients[owner.id, owner.oid];
      }
      EntryLocates(owner);
      if order == null {
        responses := responses + [CancelRejected(owner, ticker)];
      } else {
        var response := Cancelled(owner, ticker, order.oid, order.side, order.price, order.qty);
        var update := Types.Update.Cancel(ticker, order.oid, order.side, order.price, 0, order.priority);
        ghost var f := Remove(order);
        LocateOwned(was, nextOid, order.side, f);
        updates := updates + [update];
        responses := responses + [response];
      }
    }

    /** A client's entry is empty exactly when the client has no such order resting. */
    lemma EntryLocates(owner: Owner)
      requires Valid() && owner.Client?
      requires owner.id < clients.Length0 ==> owner.oid < clients.Length1
      ensures HasSlot(owner) && clients[owner.id, owner.oid] != null ==>
                clients[owner.id, owner.oid] in book.orders && clients[owner.id, owner.oid].owner == owner
      ensures !HasSlot(owner) || clients[owner.id, owner.oid] == null ==> Locate(book.View(), owner) == None
    {
      hide LevelBook.Valid;
      if Owns(book.View(), owner) {
        var side, f := Owned(book.View(), owner);
        var order := book.ListedLive(side, f);
        assert clients[order.owner.id, order.owner.oid] == order;
      }
    }
  }
}
