/**
 Room in the pools of a book. The process exits when an allocation leaves no free block, so a book
 of `n` level blocks cannot start its `n`-th level. The order pool is never the one to overrun:
 ids are not reused, and the id tables run out first.
 */
module PoolRoom {
  import opened Types
  import opened Market
  import opened Exchange
  import opened ReachableBook
  import opened Replication
  import opened Levels
  import P = Pools

  /** The pools of these sizes have room for what is left of a new order after matching; else the process exits. */
  predicate RoomFor(b: Book, r: Request, levels: nat, orders: nat) {
    r.New? ==>
      var m := Matched(b, r);
      m.remains == 0 || Rests(m.sides, r.side, r.price, levels, orders)
  }

  // ----- the order pool

  /** The ids of a list of orders. */
  function Oids(s: seq<Order>): set<nat> {
    set i | 0 <= i < |s| :: s[i].oid
  }

  lemma {:induction false} OidsCount(s: seq<Order>)
    requires forall i, j | 0 <= i < j < |s| :: s[i].oid != s[j].oid
    ensures |Oids(s)| == |s|
  {
    if s != [] {
      var t := s[..|s| - 1];
      OidsCount(t);
      assert Oids(s) == Oids(t) + {s[|s| - 1].oid};
    }
  }

  lemma FewerThanIds(c: Sides, bound: nat)
    requires SoundSides(c, bound) && bound > 0
    ensures OrderCount(c) < bound
  {
    forall i, j | 0 <= i < j < |c.bids + c.asks|
      ensures (c.bids + c.asks)[i].oid != (c.bids + c.asks)[j].oid
    {
      if j < |c.bids| {
        assert Before(Buy, c.bids[i], c.bids[j]);
      } else if i < |c.bids| {
        assert Strangers(c.bids[i], c.asks[j - |c.bids|]);
      } else {
        assert Before(Sell, c.asks[i - |c.bids|], c.asks[j - |c.bids|]);
      }
    }
    OidsCount(c.bids + c.asks);
    assert Oids(c.bids + c.asks) <= P.Below(bound) - {0} by {
      P.BelowSize(bound);
      assert forall i | 0 <= i < |c.bids| :: Resting(c.bids[i], Buy, bound);
      assert forall i | 0 <= i < |c.asks| :: Resting(c.asks[i], Sell, bound);
    }
    P.BelowSize(bound);
    P.Subset(Oids(c.bids + c.asks), P.Below(bound) - {0});
  }

  /**
   While ids last, a new order is refused a block exactly when something of it is left to rest, at a
   price with no level, and all but one of the level blocks are taken.
   */
  lemma OverrunIff(b: Book, r: Request, levels: nat, orders: nat)
    requires Sound(b) && r.New? && (Matched(b, r).remains == 0 || b.nextOid < orders)
    ensures var m := Matched(b, r);
            RoomFor(b, r, levels, orders) <==>
              m.remains == 0 || LevelQueue(m.sides.Of(r.side), r.price) != [] || LevelTotal(m.sides) + 2 <= levels
  {
    hide SoundSides, FindMatch;
    var t := Taker(r.owner, r.ticker, b.nextOid, r.side, r.price);
    FindMatchSound(b.sides, t, r.qty, b.nextOid);
    FewerThanIds(FindMatch(b.sides, t, r.qty).sides, b.nextOid);
  }

  // ----- the client's pools see the same counts

  lemma {:induction false} PublicCount(s: seq<Order>)
    ensures LevelCount(PublicSide(s)) == LevelCount(s)
  {
    if |s| > 1 {
      assert PublicSide(s)[1..] == PublicSide(s[1..]);
      PublicCount(s[1..]);
    }
  }

  /** The public copy of a book takes as many blocks as the book. */
  lemma PublicRests(c: Sides, side: Side, price: int, levels: nat, orders: nat)
    ensures Rests(PublicBook(c), side, price, levels, orders) <==> Rests(c, side, price, levels, orders)
  {
    PublicCount(c.bids);
    PublicCount(c.asks);
    LevelEmpty(c.Of(side), price);
    LevelEmpty(PublicBook(c).Of(side), price);
  }

  /** Every ADD of a stream finds room in pools of these sizes. */
  predicate Held(c: Sides, us: seq<Update>, levels: nat, orders: nat)
    decreases us
  {
    us == [] ||
    ((us[0].Add? ==> Rests(c, us[0].side, us[0].price, levels, orders))
     && Held(Apply(c, us[0]), us[1..], levels, orders))
  }

  lemma {:induction false} HeldConcat(c: Sides, us: seq<Update>, vs: seq<Update>, levels: nat, orders: nat)
    ensures Held(c, us + vs, levels, orders)
        <==> Held(c, us, levels, orders) && Held(Folded(c, us), vs, levels, orders)
    decreases us
  {
    if us == [] {
      assert us + vs == vs;
    } else {
      assert (us + vs)[1..] == us[1..] + vs;
      HeldConcat(Apply(c, us[0]), us[1..], vs, levels, orders);
    }
  }

  lemma {:induction false} NoAddsHeld(c: Sides, us: seq<Update>, levels: nat, orders: nat)
    requires forall i | 0 <= i < |us| :: !us[i].Add?
    ensures Held(c, us, levels, orders)
    decreases us
  {
    if us != [] {
      NoAddsHeld(Apply(c, us[0]), us[1..], levels, orders);
    }
  }

  lemma {:induction false} MatchAddsNothing(c: Sides, t: Taker, remains: nat, levels: nat, orders: nat, p: Sides)
    ensures Held(p, Exchange.FindMatch(c, t, remains).updates, levels, orders)
    decreases remains, |c.Of(Opposite(t.side))|
  {
    if CanMatch(c, t, remains) {
      var first := MatchFirst(c, t, remains);
      var us := first.updates;
      assert forall i | 0 <= i < |us| :: !us[i].Add?;
      hide Held, MatchFirst;
      NoAddsHeld(p, us, levels, orders);
      MatchAddsNothing(first.sides, t, first.remains, levels, orders, Folded(p, us));
      HeldConcat(p, us, Exchange.FindMatch(first.sides, t, first.remains).updates, levels, orders);
    }
  }
}
