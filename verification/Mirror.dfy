/**
 The two linked books in lockstep: every update the exchange's book sends while it handles a
 request meets the conditions the client's book needs, and feeding them to it one by one makes
 the client's levels and queues the exchange's again.
 */
module Mirrors {
  import opened Types
  import opened Market
  import opened Exchange
  import opened ReachableBook
  import opened Replication
  import opened Levels
  import opened LevelBooks
  import opened PoolRoom
  import opened BestOffer
  import opened MatchingBooks
  import opened ClientBooks

  /** Every update of the stream fits and finds room in the book it meets, ids below `ids`. */
  ghost predicate Smooth(c: Sides, us: seq<Update>, slots: nat, ids: nat)
    requires slots > 0
    decreases us
  {
    us == [] ||
    (Fits(c, us[0]) && Roomy(c, us[0], slots) && (us[0].Add? ==> us[0].oid < ids)
     && Smooth(Apply(c, us[0]), us[1..], slots, ids))
  }

  lemma {:induction false} SmoothConcat(c: Sides, us: seq<Update>, vs: seq<Update>, slots: nat, ids: nat)
    requires slots > 0 && Smooth(c, us, slots, ids) && Smooth(Folded(c, us), vs, slots, ids)
    ensures Smooth(c, us + vs, slots, ids) && Folded(c, us + vs) == Folded(Folded(c, us), vs)
    decreases us
  {
    if us == [] {
      assert us + vs == vs;
    } else {
      assert (us + vs)[1..] == us[1..] + vs;
      SmoothConcat(Apply(c, us[0]), us[1..], vs, slots, ids);
    }
  }

  /** A smooth stream fits, and clears nothing. */
  lemma {:induction false} SmoothFits(c: Sides, us: seq<Update>, slots: nat, ids: nat)
    requires slots > 0 && Smooth(c, us, slots, ids)
    ensures FitsStream(c, us) && Unclearing(us)
    decreases us
  {
    if us != [] {
      SmoothFits(Apply(c, us[0]), us[1..], slots, ids);
      assert forall i | 1 <= i < |us| :: us[i] == us[1..][i - 1];
    }
  }

  predicate Unclearing(us: seq<Update>) {
    forall i | 0 <= i < |us| :: !us[i].Clear?
  }

  /** From kept best `best` and levels `view`, a stream of the engine's updates leads to these. */
  ghost predicate Leads(best: Bbo, view: Sides, us: seq<Update>, best': Bbo, view': Sides) {
    && FitsStream(view, us) && Unclearing(us)
    && best' == Tracked(best, view, us) && view' == Folded(view, us)
  }

  lemma LeadsOn(b0: Bbo, v0: Sides, us: seq<Update>, b1: Bbo, v1: Sides, vs: seq<Update>, b2: Bbo, v2: Sides)
    requires Leads(b0, v0, us, b1, v1) && Leads(b1, v1, vs, b2, v2)
    ensures Leads(b0, v0, us + vs, b2, v2)
  {
    FitsStreamConcat(v0, us, vs);
    TrackedConcat(b0, v0, us, vs);
  }

  lemma LeadsNowhere(best: Bbo, view: Sides)
    ensures Leads(best, view, [], best, view)
  {
  }

  /** What the engine's updates leave of a new client's kept best. */
  lemma LeadsFromNew(us: seq<Update>, best: Bbo, view: Sides, side: Side)
    requires Leads(NO_BBO, EMPTY, us, best, view)
    ensures best == Tracked(NO_BBO, EMPTY, us)
    ensures Right(best, view, side) <==> TouchedSince(true, EMPTY, us, side)
  {
    BestSinceTouched(us, side);
  }

  lemma SmoothOne(c: Sides, u: Update, slots: nat, ids: nat)
    requires slots > 0 && Fits(c, u) && Roomy(c, u, slots) && (u.Add? ==> u.oid < ids)
    ensures Smooth(c, [u], slots, ids) && Folded(c, [u]) == Apply(c, u)
  {
    assert [u][1..] == [];
  }

  lemma MatchSmooth(c: Sides, t: Taker, remains: nat, bound: nat, slots: nat, ids: nat)
    requires slots > 0 && SoundSides(c, bound) && CanMatch(c, t, remains)
    ensures var out := MatchFirst(c, t, remains);
            && Smooth(PublicBook(c), out.updates, slots, ids)
            && Folded(PublicBook(c), out.updates) == PublicBook(out.sides)
  {
    hide SoundSides, PublicBook, SlotFree;
    MatchUpdateReplicates(c, t, remains, bound);
    var us := MatchFirst(c, t, remains).updates;
    assert us == [us[0]] + [us[1]];
    SmoothOne(PublicBook(c), us[0], slots, ids);
    SmoothOne(PublicBook(c), us[1], slots, ids);
    SmoothConcat(PublicBook(c), [us[0]], [us[1]], slots, ids);
  }

  lemma {:induction false} FindMatchSmooth(c: Sides, t: Taker, remains: nat, bound: nat, slots: nat, ids: nat)
    requires slots > 0 && SoundSides(c, bound)
    ensures var out := FindMatch(c, t, remains);
            && Smooth(PublicBook(c), out.updates, slots, ids)
            && Folded(PublicBook(c), out.updates) == PublicBook(out.sides)
    decreases remains, |c.Of(Opposite(t.side))|
  {
    if CanMatch(c, t, remains) {
      var first := MatchFirst(c, t, remains);
      MatchFirstShrinks(c, t, remains);
      hide SoundSides, MatchFirst, Smooth, Folded, PublicBook;
      MatchSmooth(c, t, remains, bound, slots, ids);
      MatchFirstSound(c, t, remains, bound);
      FindMatchSmooth(first.sides, t, first.remains, bound, slots, ids);
      SmoothConcat(PublicBook(c), first.updates, FindMatch(first.sides, t, first.remains).updates, slots, ids);
    }
  }

  /** The public copy has room where the book itself has. */
  lemma PublicRoom(c: Sides, side: Side, price: int, bound: nat, slots: nat)
    requires slots > 0 && SoundSides(c, bound) && SlotFree(c, price, slots)
    requires var s := c.Of(Opposite(side)); s == [] || !Crosses(side, price, s[0].price)
    ensures SlotFree(PublicBook(c), price, slots)
    ensures LevelQueue(PublicBook(c).Of(Opposite(side)), price) == []
  {
    forall d: Side, i | 0 <= i < |PublicBook(c).Of(d)| && PublicBook(c).Of(d)[i].price % slots == price % slots
      ensures PublicBook(c).Of(d)[i].price == price
    {
      assert c.Of(d)[i].price % slots == price % slots;
    }
    SoundOf(c, Opposite(side), bound);
    NoLevelThere(c.Of(Opposite(side)), Opposite(side), bound, price);
    LevelEmpty(c.Of(Opposite(side)), price);
    LevelEmpty(PublicBook(c).Of(Opposite(side)), price);
  }

  lemma RestSmooth(c: Sides, t: Taker, remains: nat, slots: nat, ids: nat)
    requires slots > 0 && SoundSides(c, t.oid) && remains > 0 && !CanMatch(c, t, remains)
    requires SlotFree(c, t.price, slots) && t.oid < ids
    ensures var o := Rest(c, t, remains);
            && Smooth(PublicBook(c), [Announce(t.ticker, o)], slots, ids)
            && Folded(PublicBook(c), [Announce(t.ticker, o)])
               == PublicBook(c.With(t.side, Place(c.Of(t.side), o)))
  {
    hide SoundSides, SlotFree, PublicBook, Place, Newest;
    var o := Rest(c, t, remains);
    RestReplicates(c, o, t.ticker);
    Stops(c, t, remains);
    PublicRoom(c, t.side, t.price, t.oid, slots);
    SmoothOne(PublicBook(c), Announce(t.ticker, o), slots, ids);
  }

  /** One request's updates are smooth for the public book and carry it to the new one. */
  lemma ProcessSmooth(b: Book, r: Request, slots: nat, ids: nat)
    requires slots > 0 && Sound(b) && Admissible(b, r)
    requires r.New? ==>
               Matched(b, r).remains == 0 || (b.nextOid < ids && SlotFree(Matched(b, r).sides, r.price, slots))
    ensures var (b', out) := Process(b, r);
            && Smooth(PublicBook(b.sides), out.updates, slots, ids)
            && Folded(PublicBook(b.sides), out.updates) == PublicBook(b'.sides)
  {
    hide SoundSides, FindMatch, Smooth, Folded, Place, PublicBook, SlotFree, CanMatch, Rest;
    if r.New? {
      var t := Taker(r.owner, r.ticker, b.nextOid, r.side, r.price);
      var m := FindMatch(b.sides, t, r.qty);
      FindMatchSound(b.sides, t, r.qty, b.nextOid);
      FindMatchSmooth(b.sides, t, r.qty, b.nextOid, slots, ids);
      if m.remains > 0 {
        RestSmooth(m.sides, t, m.remains, slots, ids);
        SmoothConcat(PublicBook(b.sides), m.updates, [Announce(r.ticker, Rest(m.sides, t, m.remains))], slots, ids);
      }
    } else {
      CancelSmooth(b, r, slots, ids);
    }
  }

  lemma CancelSmooth(b: Book, r: Request, slots: nat, ids: nat)
    requires slots > 0 && Sound(b) && r.CancelOrder?
    ensures var (b', out) := Process(b, r);
            && Smooth(PublicBook(b.sides), out.updates, slots, ids)
            && Folded(PublicBook(b.sides), out.updates) == PublicBook(b'.sides)
  {
    hide SoundSides, PublicBook;
    if Locate(b.sides, r.owner).Some? {
      var (side, k) := Locate(b.sides, r.owner).value;
      var u := Process(b, r).1.updates[0];
      LocatedResting(b.sides, side, k, b.nextOid);
      CancelReplicates(b.sides, side, k, b.nextOid, u);
      SmoothOne(PublicBook(b.sides), u, slots, ids);
    }
  }

  lemma LocatedResting(c: Sides, side: Side, k: nat, bound: nat)
    requires SoundSides(c, bound) && k < |c.Of(side)|
    ensures Resting(c.Of(side)[k], side, bound)
  {
  }

  // ----- room in the client's pools

  lemma HeldOne(c: Sides, u: Update, levels: nat, orders: nat)
    ensures Held(c, [u], levels, orders) <==> (u.Add? ==> Rests(c, u.side, u.price, levels, orders))
  {
    assert [u][1..] == [];
  }

  /** A client's pools hold what a request sends exactly when pools of that size would hold it at the exchange. */
  lemma ProcessHeld(b: Book, r: Request, levels: nat, orders: nat)
    requires Sound(b) && Admissible(b, r)
    ensures Held(PublicBook(b.sides), Process(b, r).1.updates, levels, orders) <==> RoomFor(b, r, levels, orders)
  {
    hide SoundSides, FindMatch, Held, Folded, Place, PublicBook, CanMatch, Rest, Rests;
    if r.New? {
      var t := Taker(r.owner, r.ticker, b.nextOid, r.side, r.price);
      var m := FindMatch(b.sides, t, r.qty);
      MatchAddsNothing(b.sides, t, r.qty, levels, orders, PublicBook(b.sides));
      if m.remains > 0 {
        var add := Announce(r.ticker, Rest(m.sides, t, m.remains));
        FindMatchSmooth(b.sides, t, r.qty, b.nextOid, 1, 0);
        HeldConcat(PublicBook(b.sides), m.updates, [add], levels, orders);
        RestAnnounced(m.sides, t, m.remains);
        HeldOne(PublicBook(m.sides), add, levels, orders);
        PublicRests(m.sides, r.side, r.price, levels, orders);
      }
    } else {
      var us := Process(b, r).1.updates;
      assert forall i | 0 <= i < |us| :: !us[i].Add?;
      NoAddsHeld(PublicBook(b.sides), us, levels, orders);
    }
  }

  lemma RestAnnounced(c: Sides, t: Taker, remains: nat)
    ensures var u := Announce(t.ticker, Rest(c, t, remains)); u.Add? && u.side == t.side && u.price == t.price
  {
  }

  /** All objects of a book. */
  ghost function Footprint(book: LevelBook): set<object>
    reads book
  {
    {book, book.table, book.pools} + (set n | n in book.bidNodes) + (set n | n in book.askNodes) + book.orders
  }

  lemma InFootprint(book: LevelBook)
    requires book.Valid()
    ensures {book, book.table, book.pools} <= Footprint(book) && book.orders <= Footprint(book)
    ensures forall i | 0 <= i < |book.bidNodes| :: book.bidNodes[i] in Footprint(book)
    ensures forall i | 0 <= i < |book.askNodes| :: book.askNodes[i] in Footprint(book)
    ensures forall i | 0 <= i < book.table.Length && book.table[i] != null :: book.table[i] in Footprint(book)
  {
    book.TableListed();
  }

  lemma InClientFootprint(client: ClientBook)
    requires client.Valid()
    ensures {client.book, client.book.table, client.book.pools} <= Footprint(client.book)
    ensures client.book.orders <= Footprint(client.book)
    ensures forall i | 0 <= i < |client.book.bidNodes| :: client.book.bidNodes[i] in Footprint(client.book)
    ensures forall i | 0 <= i < |client.book.askNodes| :: client.book.askNodes[i] in Footprint(client.book)
    ensures forall i | 0 <= i < client.book.table.Length && client.book.table[i] != null ::
              client.book.table[i] in Footprint(client.book)
  {
    hide LevelBook.Valid, Footprint;
    InFootprint(client.book);
  }

  /** The tables by client and by id are no part of a book's levels. */
  lemma Outside(book: LevelBook, exchange: MatchingBook, client: ClientBook)
    ensures exchange !in Footprint(book) && exchange.clients !in Footprint(book)
    ensures client !in Footprint(book) && client.byId !in Footprint(book)
  {
  }

  /** A book that only gained new nodes stays apart from whatever it was apart from. */
  twostate lemma StillApart(p: (LevelBook, set<object>))
    requires p.0.Grown() && old(Footprint(p.0)) !! p.1
    ensures Footprint(p.0) !! p.1
  {
  }

  twostate lemma FootprintGrown(book: LevelBook)
    requires book.Grown()
    ensures forall o | o in Footprint(book) :: o in old(Footprint(book)) || fresh(o)
  {
  }

  /** Feeds a stream to a client's book; fails at the update for which its process exits. */
  method Feed(client: ClientBook, us: seq<Update>) returns (ok: bool)
    requires client.Valid() && WellFormed(client.book.View())
    requires Smooth(client.book.View(), us, client.book.table.Length, client.byId.Length)
    modifies client, client.byId, Footprint(client.book)
    ensures ok <==> Held(old(client.book.View()), us, client.book.table.Length, client.byId.Length)
    ensures ok ==> client.Valid() && client.book.Grown() && WellFormed(client.book.View())
    ensures ok ==> client.book.View() == Folded(old(client.book.View()), us)
    ensures ok ==> client.Best() == Tracked(old(client.Best()), old(client.book.View()), us)
  {
    hide LevelBook.Valid, LevelBook.View, LevelBook.Pooled, ClientBook.Kept, WellFormed, Roomy, Fits, Apply, Refresh,
         Rests;
    client.book.SlotsLive(0);
    InFootprint(client.book);
    var rest := us;
    while rest != []
      invariant client.Valid() && client.book.Grown() && WellFormed(client.book.View())
      invariant Smooth(client.book.View(), rest, client.book.table.Length, client.byId.Length)
      invariant Folded(client.book.View(), rest) == Folded(old(client.book.View()), us)
      invariant Tracked(client.Best(), client.book.View(), rest)
             == Tracked(old(client.Best()), old(client.book.View()), us)
      invariant Held(client.book.View(), rest, client.book.table.Length, client.byId.Length)
           <==> Held(old(client.book.View()), us, client.book.table.Length, client.byId.Length)
      decreases |rest|
    {
      ApplyWellFormed(client.book.View(), rest[0]);
      NoClear(client.book.View(), rest[0]);
      ok := client.OnMarketUpdate(rest[0]);
      if !ok {
        return;
      }
      rest := rest[1..];
    }
    return true;
  }

  lemma NoClear(c: Sides, u: Update)
    requires Fits(c, u)
    ensures !u.Clear?
  {
  }

  /** The sizes of the tables of both books. */
  datatype Room = Room(clients: nat, orderIds: nat, slots: nat, clientSlots: nat, ids: nat)

  function RoomOf(exchange: MatchingBook, client: ClientBook): Room {
    Room(exchange.clients.Length0, exchange.clients.Length1, exchange.book.table.Length,
         client.book.table.Length, client.byId.Length)
  }

  /**
   What the tables of both books ask of a request. An order that comes to rest has its ids in range,
   and a price whose slot no other price live after matching shares.
   */
  ghost predicate Servable(b: Book, r: Request, room: Room) {
    && room.slots > 0 && room.clientSlots > 0 && Admissible(b, r)
    && (r.CancelOrder? && r.owner.id < room.clients ==> r.owner.oid < room.orderIds)
    && (r.New? ==> Matched(b, r).remains == 0 || RestsIn(b, r, room))
  }

  ghost predicate RestsIn(b: Book, r: Request, room: Room)
    requires r.New? && r.owner.Client? && room.slots > 0 && room.clientSlots > 0
  {
    && b.nextOid < room.ids && r.owner.id < room.clients && r.owner.oid < room.orderIds
    && SlotFree(Matched(b, r).sides, r.price, room.slots) && SlotFree(Matched(b, r).sides, r.price, room.clientSlots)
  }

  ghost predicate AllServable(b: Book, rs: seq<Request>, room: Room)
    decreases rs
  {
    rs == [] || (Servable(b, rs[0], room) && AllServable(Process(b, rs[0]).0, rs[1..], room))
  }

  function ProcessAll(b: Book, rs: seq<Request>): Book
    decreases rs
  {
    if rs == [] then b else ProcessAll(Process(b, rs[0]).0, rs[1..])
  }

  /** The pools of both books have room for a request; else one of the two processes exits. */
  predicate RoomBoth(b: Book, r: Request, room: Room) {
    RoomFor(b, r, room.slots, room.orderIds) && RoomFor(b, r, room.clientSlots, room.ids)
  }

  predicate AllRoom(b: Book, rs: seq<Request>, room: Room)
    decreases rs
  {
    rs == [] || (RoomBoth(b, rs[0], room) && AllRoom(Process(b, rs[0]).0, rs[1..], room))
  }

  /**
   Two slots and two level blocks: the table has a place for the second price, the pool no block to
   spare for its level, and the process exits.
   */
  lemma SecondLevelOverruns()
    ensures var rs := [New(Client(0, 0), 0, Buy, 0, 1), New(Client(0, 1), 0, Buy, 1, 1)];
            AllServable(NEW_BOOK, rs, Room(1, 9, 2, 2, 9)) && !AllRoom(NEW_BOOK, rs, Room(1, 9, 2, 2, 9))
  {
    var first, second := New(Client(0, 0), 0, Buy, 0, 1), New(Client(0, 1), 0, Buy, 1, 1);
    var room := Room(1, 9, 2, 2, 9);
    var o := Order(Client(0, 0), 1, Buy, 0, 1, 1);
    var b := Process(NEW_BOOK, first).0;
    assert b == Book(Sides([o], []), 2);
    assert [first, second][1..] == [second] && [second][1..] == [];
    assert Servable(NEW_BOOK, first, room) && Servable(b, second, room);
    assert !RoomFor(b, second, 2, 9);
  }

  /**
   Two slots, an ask at 0 and a bid at 2 that takes it and rests: the two prices share a slot, but not
   at the same time.
   */
  lemma SharedSlotServed()
    ensures var rs := [New(Client(0, 0), 0, Sell, 0, 1), New(Client(0, 1), 0, Buy, 2, 2)];
            && AllServable(NEW_BOOK, rs, Room(1, 9, 2, 2, 9)) && AllRoom(NEW_BOOK, rs, Room(1, 9, 2, 2, 9))
            && !SlotFree(Process(NEW_BOOK, rs[0]).0.sides, rs[1].price, 2)
  {
    var first, second := New(Client(0, 0), 0, Sell, 0, 1), New(Client(0, 1), 0, Buy, 2, 2);
    var room := Room(1, 9, 2, 2, 9);
    var o := Order(Client(0, 0), 1, Sell, 0, 1, 1);
    var b := Process(NEW_BOOK, first).0;
    assert b == Book(Sides([], [o]), 2);
    assert b.sides.Of(Sell)[0] == o;
    assert Matched(b, second).sides == EMPTY && Matched(b, second).remains == 1;
    assert [first, second][1..] == [second] && [second][1..] == [];
    assert Servable(NEW_BOOK, first, room) && Servable(b, second, room);
    assert RoomBoth(NEW_BOOK, first, room) && RoomBoth(b, second, room);
  }

  /**
   From empty books, whatever the requests: the run gets through exactly when there is room in the
   pools for each, and then the client's levels and queues end as the exchange's. What it keeps as the
   best of a side is right exactly when no ADD has started that side from empty since the last update
   that touched it.
   */
  method RunFresh(room: Room, rs: seq<Request>) returns (ok: bool, exchange: MatchingBook, client: ClientBook)
    requires room.slots > 0 && room.clientSlots > 0 && room.orderIds > 0 && room.ids > 0
    requires AllServable(NEW_BOOK, rs, room)
    ensures ok <==> AllRoom(NEW_BOOK, rs, room)
    ensures ok ==> exchange.Valid() && client.Valid() && exchange.State() == ProcessAll(NEW_BOOK, rs)
    ensures ok ==> client.book.View() == PublicBook(exchange.book.View())
    ensures ok ==> client.Best() == Tracked(NO_BBO, EMPTY, exchange.updates)
    ensures ok ==>
            forall side: Side ::
              Right(client.Best(), client.book.View(), side) <==> TouchedSince(true, EMPTY, exchange.updates, side)
  {
    hide LevelBook.Valid, LevelBook.View, PublicBook, Process, ClientBook.Valid, MatchingBook.Valid, Servable, Sound,
         RoomBoth, Right, Leads;
    exchange := new MatchingBook(room.clients, room.orderIds, room.slots);
    client := new ClientBook(room.ids, room.clientSlots);
    EmptyAgree();
    ok := Lockstep(exchange, client, rs);
    if ok {
      assert exchange.updates[0..] == exchange.updates;
      LeadsFromNew(exchange.updates, client.Best(), client.book.View(), Buy);
      forall side: Side
        ensures Right(client.Best(), client.book.View(), side) <==> TouchedSince(true, EMPTY, exchange.updates, side)
      {
        LeadsFromNew(exchange.updates, client.Best(), client.book.View(), side);
      }
    }
  }

  lemma EmptyAgree()
    ensures Sound(NEW_BOOK) && PublicBook(EMPTY) == EMPTY
  {
  }

  /** Linked books that agree, taken through any run of requests, agree after it. */
  method Lockstep(exchange: MatchingBook, client: ClientBook, rs: seq<Request>) returns (ok: bool)
    requires exchange.Valid() && client.Valid() && Footprint(exchange.book) !! Footprint(client.book)
    requires Sound(exchange.State()) && AllServable(exchange.State(), rs, RoomOf(exchange, client))
    requires client.book.View() == PublicBook(exchange.book.View())
    modifies exchange, exchange.clients, Footprint(exchange.book)
    modifies client, client.byId, Footprint(client.book)
    ensures ok <==> AllRoom(old(exchange.State()), rs, RoomOf(exchange, client))
    ensures ok ==> exchange.Valid() && client.Valid() && Sound(exchange.State())
    ensures ok ==> exchange.State() == ProcessAll(old(exchange.State()), rs)
    ensures ok ==> client.book.View() == PublicBook(exchange.book.View())
    ensures ok ==>
            && old(exchange.updates) <= exchange.updates
            && Leads(old(client.Best()), old(client.book.View()), exchange.updates[|old(exchange.updates)|..],
                     client.Best(), client.book.View())
  {
    hide LevelBook.Valid, LevelBook.View, PublicBook, Process, Footprint, ClientBook.Valid, MatchingBook.Valid,
         Servable, Sound, RoomBoth, Leads;
    var rest := rs;
    ghost var sent: seq<Update> := [];
    LeadsNowhere(client.Best(), client.book.View());
    while rest != []
      invariant exchange.Valid() && client.Valid() && Footprint(exchange.book) !! Footprint(client.book)
      invariant forall o | o in Footprint(exchange.book) :: o in old(Footprint(exchange.book)) || fresh(o)
      invariant forall o | o in Footprint(client.book) :: o in old(Footprint(client.book)) || fresh(o)
      invariant Sound(exchange.State()) && AllServable(exchange.State(), rest, RoomOf(exchange, client))
      invariant client.book.View() == PublicBook(exchange.book.View())
      invariant exchange.updates == old(exchange.updates) + sent
      invariant Leads(old(client.Best()), old(client.book.View()), sent, client.Best(), client.book.View())
      invariant ProcessAll(exchange.State(), rest) == ProcessAll(old(exchange.State()), rs)
      invariant AllRoom(exchange.State(), rest, RoomOf(exchange, client))
           <==> AllRoom(old(exchange.State()), rs, RoomOf(exchange, client))
      decreases |rest|
    {
      ghost var best, view := client.Best(), client.book.View();
      ok := Mirror(exchange, client, rest[0]);
      if !ok {
        return;
      }
      ghost var more := exchange.updates[|old(exchange.updates) + sent|..];
      LeadsOn(old(client.Best()), old(client.book.View()), sent, best, view, more, client.Best(), client.book.View());
      sent := sent + more;
      rest := rest[1..];
    }
    return true;
  }

  /** The exchange handles a request and the client is fed what it sent: they agree again. */
  method Mirror(exchange: MatchingBook, client: ClientBook, r: Request) returns (ok: bool)
    requires exchange.Valid() && client.Valid() && Footprint(exchange.book) !! Footprint(client.book)
    requires Sound(exchange.State()) && client.book.View() == PublicBook(exchange.book.View())
    requires Servable(exchange.State(), r, RoomOf(exchange, client))
    modifies exchange, exchange.clients, Footprint(exchange.book)
    modifies client, client.byId, Footprint(client.book)
    ensures ok <==> RoomBoth(old(exchange.State()), r, RoomOf(exchange, client))
    ensures ok ==> exchange.Valid() && client.Valid() && Footprint(exchange.book) !! Footprint(client.book)
    ensures ok ==> forall o | o in Footprint(exchange.book) :: o in old(Footprint(exchange.book)) || fresh(o)
    ensures ok ==> forall o | o in Footprint(client.book) :: o in old(Footprint(client.book)) || fresh(o)
    ensures ok ==> exchange.State() == Process(old(exchange.State()), r).0 && Sound(exchange.State())
    ensures ok ==> client.book.View() == PublicBook(exchange.book.View())
    ensures ok ==>
            && old(exchange.updates) <= exchange.updates
            && Leads(old(client.Best()), old(client.book.View()), exchange.updates[|old(exchange.updates)|..],
                     client.Best(), client.book.View())
  {
    hide LevelBook.Valid, LevelBook.View, SoundSides, PublicBook, Smooth, Folded, Process, Tracked, Footprint,
         ClientBook.Valid, MatchingBook.Valid, SlotFree, Admissible, WellFormed, Sound, LevelBook.Grown, Servable,
         RoomFor, Held;
    ClientSlots(client);
    ghost var b := exchange.State();
    var sent := |exchange.updates|;
    ServableParts(b, r, RoomOf(exchange, client));
    ProcessSmooth(b, r, client.book.table.Length, client.byId.Length);
    PublicNow(b);
    ProcessHeld(b, r, client.book.table.Length, client.byId.Length);
    ok := ServeApart(exchange, client, r);
    if ok {
      SmoothFits(client.book.View(), exchange.updates[sent..], client.book.table.Length, client.byId.Length);
      ok := FeedApart(exchange, client, exchange.updates[sent..]);
    }
  }

  lemma ServableParts(b: Book, r: Request, room: Room)
    requires Servable(b, r, room)
    ensures room.slots > 0 && room.clientSlots > 0 && Admissible(b, r) && r.owner.Client?
    ensures r.CancelOrder? && r.owner.id < room.clients ==> r.owner.oid < room.orderIds
    ensures r.New? ==>
              Matched(b, r).remains == 0
              || (b.nextOid < room.ids && r.owner.id < room.clients && r.owner.oid < room.orderIds
                  && SlotFree(Matched(b, r).sides, r.price, room.slots)
                  && SlotFree(Matched(b, r).sides, r.price, room.clientSlots))
  {
  }

  lemma ClientSlots(client: ClientBook)
    requires client.Valid()
    ensures client.book.table.Length > 0
  {
    hide LevelBook.Valid;
    client.book.SlotsLive(0);
  }

  /** Serving a request leaves the client's book alone. */
  method ServeApart(exchange: MatchingBook, client: ClientBook, r: Request) returns (ok: bool)
    requires exchange.Valid() && client.Valid() && Footprint(exchange.book) !! Footprint(client.book)
    requires Sound(exchange.State()) && Servable(exchange.State(), r, RoomOf(exchange, client))
    modifies exchange, exchange.clients, Footprint(exchange.book)
    ensures ok <==> RoomFor(old(exchange.State()), r, exchange.book.table.Length, exchange.clients.Length1)
    ensures ok ==> exchange.Valid() && Sound(exchange.State())
    ensures ok ==> forall o | o in Footprint(exchange.book) :: o in old(Footprint(exchange.book)) || fresh(o)
    ensures ok ==>
            var (b, out) := Process(old(exchange.State()), r);
            && exchange.State() == b
            && exchange.responses == old(exchange.responses) + out.responses
            && exchange.updates == old(exchange.updates) + out.updates
    ensures client.Valid() && client.book.View() == old(client.book.View()) && client.Best() == old(client.Best())
    ensures Footprint(client.book) == old(Footprint(client.book))
    ensures ok ==> Footprint(exchange.book) !! Footprint(client.book)
  {
    hide LevelBook.Valid, LevelBook.View, Process, SlotFree, Admissible, Sound, MatchingBook.Valid, Footprint,
         ClientBook.Valid, LevelBook.Grown, RoomFor, Servable;
    InClientFootprint(client);
    Outside(client.book, exchange, client);
    Outside(exchange.book, exchange, client);
    ServableParts(exchange.State(), r, RoomOf(exchange, client));
    ok := Serve(exchange, r);
    if ok {
      FootprintGrown(exchange.book);
      StillApart((exchange.book, Footprint(client.book)));
    }
  }

  /** Feeding a client leaves the exchange's book alone. */
  method FeedApart(exchange: MatchingBook, client: ClientBook, us: seq<Update>) returns (ok: bool)
    requires exchange.Valid() && client.Valid() && Footprint(exchange.book) !! Footprint(client.book)
    requires WellFormed(client.book.View())
    requires client.book.table.Length > 0
    requires Smooth(client.book.View(), us, client.book.table.Length, client.byId.Length)
    modifies client, client.byId, Footprint(client.book)
    ensures exchange.Valid() && exchange.State() == old(exchange.State()) && exchange.updates == old(exchange.updates)
    ensures ok <==> Held(old(client.book.View()), us, client.book.table.Length, client.byId.Length)
    ensures ok ==> client.Valid() && client.book.View() == Folded(old(client.book.View()), us)
    ensures ok ==> client.Best() == Tracked(old(client.Best()), old(client.book.View()), us)
    ensures ok ==> forall o | o in Footprint(client.book) :: o in old(Footprint(client.book)) || fresh(o)
    ensures Footprint(exchange.book) == old(Footprint(exchange.book))
    ensures ok ==> Footprint(exchange.book) !! Footprint(client.book)
  {
    hide LevelBook.Valid, LevelBook.View, Smooth, Folded, Tracked, WellFormed, ClientBook.Valid, Footprint,
         LevelBook.Grown, Held;
    InFootprint(exchange.book);
    Outside(client.book, exchange, client);
    Outside(exchange.book, exchange, client);
    ok := Feed(client, us);
    if ok {
      FootprintGrown(client.book);
      StillApart((client.book, Footprint(exchange.book)));
    }
  }

  lemma PublicNow(b: Book)
    requires Sound(b)
    ensures WellFormed(PublicBook(b.sides))
  {
    PublicWellFormed(b.sides, b.nextOid);
  }

  /** The exchange's dispatch of one request; fails where the process exits for want of a block. */
  method Serve(exchange: MatchingBook, r: Request) returns (ok: bool)
    requires exchange.Valid() && Sound(exchange.State()) && Admissible(exchange.State(), r)
    requires r.New? ==>
               Matched(exchange.State(), r).remains == 0
               || (exchange.HasSlot(r.owner) && exchange.book.table.Length > 0
                   && SlotFree(Matched(exchange.State(), r).sides, r.price, exchange.book.table.Length))
    requires r.CancelOrder? ==> r.owner.id < exchange.clients.Length0 ==> r.owner.oid < exchange.clients.Length1
    modifies exchange, exchange.clients, Footprint(exchange.book)
    ensures ok <==> RoomFor(old(exchange.State()), r, exchange.book.table.Length, exchange.clients.Length1)
    ensures ok ==> exchange.Valid() && exchange.book.Grown() && Sound(exchange.State())
    ensures ok ==>
            var (b, out) := Process(old(exchange.State()), r);
            && exchange.State() == b
            && exchange.responses == old(exchange.responses) + out.responses
            && exchange.updates == old(exchange.updates) + out.updates
  {
    hide LevelBook.Valid, LevelBook.View, LevelBook.Pooled, MatchingBook.Kept, SoundSides, SlotFree, Sound, AddOrder,
         CancelOwned, Rests, FindMatch;
    InFootprint(exchange.book);
    ok := true;
    match r {
      case New(owner, ticker, side, price, qty) =>
        ok := exchange.Add(owner, ticker, side, price, qty);
      case CancelOrder(owner, ticker) => exchange.Cancel(owner, ticker);
    }
  }
}
