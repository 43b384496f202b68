/**
 A snapshot fed to a linked client book. Into a book that holds nothing its CLEAR does no harm, and
 the ADDs after it meet every condition of the linked book: the client ends with the market, queue
 for queue, unless the pools are too small for it.
 */
module SnapshotFeeds {
  import opened Types
  import opened Market
  import opened Synthesizer
  import opened Snapshots
  import opened ReachableBook
  import opened Levels
  import opened LevelBooks
  import opened PoolRoom
  import opened ClientBooks
  import opened Mirrors

  /** Live prices that share a slot are one price, on one side. */
  ghost predicate OwnSlots(c: Sides, slots: nat)
    requires slots > 0
  {
    forall a, b | a in c.bids + c.asks && b in c.bids + c.asks && a.price % slots == b.price % slots ::
      a.price == b.price && a.side == b.side
  }

  lemma Live(c: Sides, n: nat, a: Order)
    requires a in OlderSides(c, n).bids + OlderSides(c, n).asks
    ensures a in c.bids + c.asks && a.oid < n
  {
    OlderElements(c.bids, n);
    OlderElements(c.asks, n);
  }

  /** The older part of a slot-proper market has room for the next order of it. */
  lemma OlderRoomy(c: Sides, slots: nat, t: nat, o: Order)
    requires slots > 0 && OwnSlots(c, slots) && WellFormed(c) && o in c.bids + c.asks
    ensures Newest(OlderSides(c, o.oid), o.oid) && Roomy(OlderSides(c, o.oid), Announce(t, o), slots)
  {
    var older := OlderSides(c, o.oid);
    forall d: Side, i | 0 <= i < |older.Of(d)|
      ensures older.Of(d)[i].oid < o.oid
      ensures older.Of(d)[i].price % slots == o.price % slots ==> older.Of(d)[i].price == o.price && o.side == d
    {
      var a := older.Of(d)[i];
      OlderElements(c.Of(d), o.oid);
      assert a in c.Of(d);
    }
    assert older.Of(Buy) == older.bids && older.Of(Sell) == older.asks;
    LevelEmpty(older.Of(Opposite(o.side)), o.price);
  }

  /** The conditions on one ticker's part of a snapshot: it lists the live orders of `c`. */
  ghost predicate Lists(tab: Table, t: nat, ids: nat, c: Sides) {
    && WellFormed(c) && Masked(c.bids) && Masked(c.asks) && IdsBelow(tab, ids)
    && forall oid: nat :: Entry(tab, t, oid) == Find(c, oid)
  }

  lemma Listed(tab: Table, t: nat, ids: nat, c: Sides, n: nat)
    requires Lists(tab, t, ids, c)
    ensures (t, n) in tab <==> Find(c, n).Some?
    ensures (t, n) in tab ==> n < ids && tab[(t, n)] == Find(c, n).value
  {
    assert Entry(tab, t, n) == Find(c, n);
  }

  lemma Found(c: Sides, n: nat)
    requires WellFormed(c) && Masked(c.bids) && Masked(c.asks) && Find(c, n).Some?
    ensures var o := Find(c, n).value; o in c.bids + c.asks && o.oid == n && o.owner == Hidden && o.qty > 0
  {
  }

  /** The ADD of one live order, met by the part of the market older than it. */
  lemma AnnounceSmooth(c: Sides, slots: nat, ids: nat, t: nat, n: nat)
    requires slots > 0 && OwnSlots(c, slots) && WellFormed(c) && Masked(c.bids) && Masked(c.asks)
    requires Find(c, n).Some? && n < ids
    ensures var u := Announce(t, Find(c, n).value);
            Smooth(OlderSides(c, n), [u], slots, ids) && Folded(OlderSides(c, n), [u]) == OlderSides(c, n + 1)
  {
    hide WellFormed, Masked, OwnSlots, Find, OlderSides, Roomy;
    var o := Find(c, n).value;
    Found(c, n);
    OlderRoomy(c, slots, t, o);
    OlderStep(c, n);
    SmoothOne(OlderSides(c, n), Announce(t, o), slots, ids);
  }

  /** The pools hold this book and have a block each to spare. */
  predicate Holds(c: Sides, levels: nat, orders: nat) {
    LevelTotal(c) < levels && OrderCount(c) < orders
  }

  lemma NoOrders(tab: Table, t: nat, c: Sides, slots: nat, ids: nat)
    requires slots > 0
    ensures OrdersBelow(tab, t, 0) == [] && OlderSides(c, 0) == EMPTY
    ensures Smooth(EMPTY, [], slots, ids) && Folded(EMPTY, []) == EMPTY
    ensures Held(EMPTY, [], slots, ids) && (ids > 0 ==> Holds(EMPTY, slots, ids))
  {
    OlderNone(c.bids);
    OlderNone(c.asks);
  }

  /** The ADDs of one ticker, into an empty book. */
  lemma {:induction false} OrdersSmooth(tab: Table, t: nat, c: Sides, slots: nat, ids: nat, n: nat)
    requires slots > 0 && OwnSlots(c, slots) && Lists(tab, t, ids, c)
    ensures Smooth(EMPTY, OrdersBelow(tab, t, n), slots, ids)
    ensures Folded(EMPTY, OrdersBelow(tab, t, n)) == OlderSides(c, n)
  {
    hide Lists, OwnSlots, OlderSides, Smooth, Folded, Held, Holds;
    if n == 0 {
      NoOrders(tab, t, c, slots, ids);
    } else {
      OrdersSmooth(tab, t, c, slots, ids, n - 1);
      if (t, n - 1) in tab {
        ListedSmooth(tab, t, c, slots, ids, n - 1);
        SmoothConcat(EMPTY, OrdersBelow(tab, t, n - 1), [Announce(t, tab[(t, n - 1)])], slots, ids);
      } else {
        NoneOlder(tab, t, ids, c, n - 1);
      }
    }
  }

  /** The same for an order the table has. */
  lemma ListedSmooth(tab: Table, t: nat, c: Sides, slots: nat, ids: nat, n: nat)
    requires slots > 0 && OwnSlots(c, slots) && Lists(tab, t, ids, c) && (t, n) in tab
    ensures var u := Announce(t, tab[(t, n)]);
            Smooth(OlderSides(c, n), [u], slots, ids) && Folded(OlderSides(c, n), [u]) == OlderSides(c, n + 1)
  {
    hide OwnSlots, OlderSides, Smooth, Folded, WellFormed, Masked, Find;
    Listed(tab, t, ids, c, n);
    AnnounceSmooth(c, slots, ids, t, n);
  }

  lemma NoneOlder(tab: Table, t: nat, ids: nat, c: Sides, n: nat)
    requires Lists(tab, t, ids, c) && (t, n) !in tab
    ensures OlderSides(c, n + 1) == OlderSides(c, n)
  {
    hide OlderSides, WellFormed, Masked, Find;
    Listed(tab, t, ids, c, n);
    OlderStep(c, n);
  }

  // ----- room in the pools

  /** An order that joins a side starts a level exactly when its price has none. */
  lemma {:induction false} PlaceCount(s: seq<Order>, side: Side, o: Order)
    requires Ordered(s, side) && o.side == side
    ensures LevelCount(Place(s, o)) == LevelCount(s) + if LevelQueue(s, o.price) == [] then 1 else 0
  {
    LevelEmpty(s, o.price);
    if s != [] {
      assert forall i | 0 < i < |s| :: Ahead(side, s[0], s[i]);
      if !Better(side, o.price, s[0].price) {
        LevelEmpty(s[1..], o.price);
        PlaceCount(s[1..], side, o);
        assert |s| > 1 ==> s[1..][0] == s[1] && Ahead(side, s[0], s[1]);
      }
    }
  }

  lemma Prepended(x: Order, s: seq<Order>, side: Side)
    requires Ordered(s, side) && x.side == side && x.qty > 0
    requires forall i | 0 <= i < |s| :: Ahead(side, x, s[i]) && x.oid != s[i].oid
    ensures Ordered([x] + s, side)
  {
    var r := [x] + s;
    forall i, j | 0 <= i < j < |r|
      ensures Ahead(side, r[i], r[j]) && r[i].oid != r[j].oid
    {
      assert i == 0 || Ahead(side, s[i - 1], s[j - 1]);
    }
  }

  lemma HeadAhead(s: seq<Order>, side: Side)
    requires Ordered(s, side) && s != []
    ensures Ordered(s[1..], side) && s[0].side == side && s[0].qty > 0
    ensures forall i | 0 <= i < |s[1..]| :: Ahead(side, s[0], s[1..][i]) && s[0].oid != s[1..][i].oid
  {
    assert forall i | 0 < i < |s| :: Ahead(side, s[0], s[i]);
  }

  lemma {:induction false} OlderOrdered(s: seq<Order>, side: Side, n: nat)
    requires Ordered(s, side)
    ensures Ordered(Older(s, n), side)
  {
    hide Ordered, Ahead;
    if s != [] {
      HeadAhead(s, side);
      OlderOrdered(s[1..], side, n);
      OlderElements(s[1..], n);
      if s[0].oid < n {
        Prepended(s[0], Older(s[1..], n), side);
      }
    }
  }

  /** Holding one more order of the market. */
  lemma HoldsNext(c: Sides, n: nat, levels: nat, orders: nat)
    requires WellFormed(c) && Find(c, n).Some?
    ensures var o := Find(c, n).value;
            Holds(OlderSides(c, n + 1), levels, orders)
            <==> Holds(OlderSides(c, n), levels, orders) && Rests(OlderSides(c, n), o.side, o.price, levels, orders)
  {
    var o := Find(c, n).value;
    OlderStep(c, n);
    OlderOrdered(c.Of(o.side), o.side, n);
    hide Find, WellFormed, Ordered, LevelCount, LevelQueue, Place, Older;
    PlaceCount(OlderSides(c, n).Of(o.side), o.side, o);
  }

  lemma ListedHolds(tab: Table, t: nat, c: Sides, slots: nat, ids: nat, n: nat)
    requires Lists(tab, t, ids, c) && (t, n) in tab
    ensures var o := tab[(t, n)];
            Holds(OlderSides(c, n + 1), slots, ids)
            <==> Holds(OlderSides(c, n), slots, ids) && Rests(OlderSides(c, n), o.side, o.price, slots, ids)
  {
    hide OlderSides, WellFormed, Masked, Find, Holds, Rests;
    Listed(tab, t, ids, c, n);
    HoldsNext(c, n, slots, ids);
  }

  lemma {:induction false} OrdersHeld(tab: Table, t: nat, c: Sides, slots: nat, ids: nat, n: nat)
    requires slots > 0 && ids > 0 && OwnSlots(c, slots) && Lists(tab, t, ids, c)
    ensures Held(EMPTY, OrdersBelow(tab, t, n), slots, ids) <==> Holds(OlderSides(c, n), slots, ids)
  {
    hide Lists, OwnSlots, OlderSides, Smooth, Folded, Held, Holds, Rests;
    if n == 0 {
      NoOrders(tab, t, c, slots, ids);
    } else {
      OrdersHeld(tab, t, c, slots, ids, n - 1);
      if (t, n - 1) in tab {
        var u := Announce(t, tab[(t, n - 1)]);
        OrdersSmooth(tab, t, c, slots, ids, n - 1);
        HeldConcat(EMPTY, OrdersBelow(tab, t, n - 1), [u], slots, ids);
        HeldOne(OlderSides(c, n - 1), u, slots, ids);
        ListedHolds(tab, t, c, slots, ids, n - 1);
      } else {
        NoneOlder(tab, t, ids, c, n - 1);
      }
    }
  }

  /**
   A client whose book for one ticker is still empty gets that ticker's part of a snapshot. It ends
   with the market, linked and valid, exactly if its pools hold the market with a block each to spare.
   */
  method Restart(ids: nat, slots: nat, t: nat, us: seq<Update>, ghost tab: Table, ghost c: Sides)
    returns (ok: bool, client: ClientBook)
    requires slots > 0 && ids > 0 && OwnSlots(c, slots) && Lists(tab, t, ids, c)
    requires us == [Clear(t)] + OrdersBelow(tab, t, ids)
    ensures ok <==> LevelTotal(c) < slots && OrderCount(c) < ids
    ensures ok ==> client.Valid() && client.book.View() == c
  {
    hide LevelBook.Valid, LevelBook.View, LevelBook.Pooled, ClientBook.Kept, Smooth, Held, Folded, OwnSlots, Lists,
         OlderSides, Apply;
    client := new ClientBook(ids, slots);
    assert us[0] == Clear(t) && us[1..] == OrdersBelow(tab, t, ids);
    Cleared(t);
    ok := client.OnMarketUpdate(us[0]);
    OrdersSmooth(tab, t, c, slots, ids, ids);
    OrdersHeld(tab, t, c, slots, ids, ids);
    AllListed(tab, t, ids, c);
    ok := Feed(client, us[1..]);
  }

  lemma Cleared(t: nat)
    ensures WellFormed(EMPTY) && Apply(EMPTY, Clear(t)) == EMPTY
  {
  }

  lemma AllListed(tab: Table, t: nat, ids: nat, c: Sides)
    requires Lists(tab, t, ids, c)
    ensures OlderSides(c, ids) == c
  {
    FoundIds(tab, c, t, ids);
  }
}
