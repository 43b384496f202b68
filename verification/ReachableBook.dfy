/**
 Every book the engine can reach is sound: sorted, uncrossed, uniquely owned, and with ids and
 priorities increasing along each level.
 */
module ReachableBook {
  import opened Types
  import opened Market
  import opened Exchange

  lemma SoundWellFormed(c: Sides, bound: nat)
    requires SoundSides(c, bound)
    ensures WellFormed(c) && Newest(c, bound)
  {
    SoundOrdered(c.bids, Buy, bound);
    SoundOrdered(c.asks, Sell, bound);
    assert forall i | 0 <= i < |c.bids| :: Resting(c.bids[i], Buy, bound);
    assert forall i | 0 <= i < |c.asks| :: Resting(c.asks[i], Sell, bound);
    forall i, j | 0 <= i < |c.bids| && 0 <= j < |c.asks|
      ensures c.bids[i].oid != c.asks[j].oid
    {
      assert Strangers(c.bids[i], c.asks[j]);
    }
  }

  lemma SoundOrdered(s: seq<Order>, side: Side, bound: nat)
    requires SoundSide(s, side, bound)
    ensures Ordered(s, side)
  {
    assert forall i | 0 <= i < |s| :: Resting(s[i], side, bound);
    forall i, j | 0 <= i < j < |s|
      ensures Ahead(side, s[i], s[j]) && s[i].oid != s[j].oid
    {
      assert Before(side, s[i], s[j]);
    }
  }

  lemma FirstResting(c: Sides, side: Side, bound: nat)
    requires SoundSides(c, bound) && c.Of(side) != []
    ensures Resting(c.Of(side)[0], side, bound)
  {
  }

  lemma SoundOf(c: Sides, side: Side, bound: nat)
    requires SoundSides(c, bound)
    ensures SoundSide(c.Of(side), side, bound)
  {
  }

  lemma DisjointSymmetric(s: seq<Order>, t: seq<Order>)
    requires Disjoint(s, t)
    ensures Disjoint(t, s)
  {
    forall i, j | 0 <= i < |t| && 0 <= j < |s|
      ensures Strangers(t[i], s[j])
    {
      assert Strangers(s[j], t[i]);
    }
  }

  /** A sound book with one side replaced by a sound, disjoint, uncrossed one. */
  lemma ReplaceSide(c: Sides, side: Side, s: seq<Order>, bound: nat, bound': nat)
    requires SoundSides(c, bound) && bound <= bound' && SoundSide(s, side, bound')
    requires Disjoint(s, c.Of(Opposite(side))) && Uncrossed(c.With(side, s))
    ensures SoundSides(c.With(side, s), bound')
  {
    if side.Sell? {
      DisjointSymmetric(s, c.bids);
    }
    var t := c.Of(Opposite(side));
    forall i | 0 <= i < |t|
      ensures Resting(t[i], Opposite(side), bound')
    {
      assert Resting(t[i], Opposite(side), bound);
    }
  }

  lemma OppositeDisjoint(c: Sides, side: Side, bound: nat)
    requires SoundSides(c, bound)
    ensures Disjoint(c.Of(side), c.Of(Opposite(side)))
  {
    DisjointSymmetric(c.bids, c.asks);
  }

  // ----- edits of one side

  lemma RemoveSound(c: Sides, side: Side, k: nat, bound: nat)
    requires SoundSides(c, bound) && k < |c.Of(side)|
    ensures SoundSides(c.With(side, c.Of(side)[..k] + c.Of(side)[k + 1..]), bound)
  {
    var s := c.Of(side);
    var r := s[..k] + s[k + 1..];
    assert forall i | 0 <= i < |r| :: r[i] == s[if i < k then i else i + 1];
    OppositeDisjoint(c, side, bound);
    if k == 0 && |s| > 1 {
      assert Before(side, s[0], s[1]);
    }
    ReplaceSide(c, side, r, bound, bound);
  }

  lemma ReduceSound(c: Sides, side: Side, qty: nat, bound: nat)
    requires SoundSides(c, bound) && c.Of(side) != [] && qty > 0
    ensures SoundSides(c.With(side, [c.Of(side)[0].(qty := qty)] + c.Of(side)[1..]), bound)
  {
    var s := c.Of(side);
    var r := [s[0].(qty := qty)] + s[1..];
    assert forall i | 0 <= i < |r| :: r[i] == s[i].(qty := r[i].qty);
    assert forall i | 0 <= i < |s| :: Resting(s[i], side, bound);
    OppositeDisjoint(c, side, bound);
    forall i, j | 0 <= i < j < |r|
      ensures Before(side, r[i], r[j])
    {
      assert Before(side, s[i], s[j]);
    }
    forall i, j | 0 <= i < |r| && 0 <= j < |c.Of(Opposite(side))|
      ensures Strangers(r[i], c.Of(Opposite(side))[j])
    {
      assert Strangers(s[i], c.Of(Opposite(side))[j]);
    }
    ReplaceSide(c, side, r, bound, bound);
  }

  // ----- matching

  lemma MatchFirstSound(c: Sides, t: Taker, remains: nat, bound: nat)
    requires SoundSides(c, bound) && CanMatch(c, t, remains)
    ensures SoundSides(MatchFirst(c, t, remains).sides, bound)
    ensures MatchFirst(c, t, remains).sides.Of(t.side) == c.Of(t.side)
  {
    hide SoundSides;
    var opp := Opposite(t.side);
    var s := c.Of(opp);
    var left := s[0].qty - Min(remains, s[0].qty);
    if left == 0 {
      RemoveSound(c, opp, 0, bound);
      assert s[..0] + s[0 + 1..] == s[1..];
      assert MatchFirst(c, t, remains).sides == c.With(opp, s[..0] + s[0 + 1..]);
    } else {
      ReduceSound(c, opp, left, bound);
      assert MatchFirst(c, t, remains).sides == c.With(opp, [s[0].(qty := left)] + s[1..]);
    }
  }

  lemma MatchFirstOwns(c: Sides, t: Taker, remains: nat, owner: Owner)
    requires CanMatch(c, t, remains) && Owns(MatchFirst(c, t, remains).sides, owner)
    ensures Owns(c, owner)
  {
    var opp, d := Opposite(t.side), MatchFirst(c, t, remains).sides;
    var s, r := c.Of(opp), d.Of(opp);
    var side := if exists i :: 0 <= i < |d.bids| && d.bids[i].owner == owner then Buy else Sell;
    var i :| 0 <= i < |d.Of(side)| && d.Of(side)[i].owner == owner;
    if side == opp {
      assert s[i + |s| - |r|].owner == owner;
    } else {
      assert d.Of(side) == c.Of(side);
    }
  }

  /** Matching stops only when the order is filled or nothing crosses, and keeps the book sound. */
  lemma {:induction false} FindMatchSound(c: Sides, t: Taker, remains: nat, bound: nat)
    requires SoundSides(c, bound)
    ensures var out := FindMatch(c, t, remains);
            && SoundSides(out.sides, bound)
            && out.sides.Of(t.side) == c.Of(t.side)
            && !CanMatch(out.sides, t, out.remains)
            && out.remains <= remains
            && (Owns(out.sides, t.owner) ==> Owns(c, t.owner))
    decreases remains, |c.Of(Opposite(t.side))|
  {
    if CanMatch(c, t, remains) {
      var first := MatchFirst(c, t, remains);
      MatchFirstSound(c, t, remains, bound);
      FindMatchSound(first.sides, t, first.remains, bound);
      if Owns(first.sides, t.owner) {
        MatchFirstOwns(c, t, remains, t.owner);
      }
    }
  }

  // ----- placing what is left

  lemma {:induction false} LevelEmpty(s: seq<Order>, price: int)
    ensures LevelQueue(s, price) == [] <==> forall i | 0 <= i < |s| :: s[i].price != price
  {
    if s != [] {
      LevelEmpty(s[1..], price);
      assert forall i | 1 <= i < |s| :: s[i] == s[1..][i - 1];
    }
  }

  /** The last order of a level has the largest priority of that level. */
  lemma {:induction false} LevelLast(s: seq<Order>, side: Side, bound: nat, price: int, i: nat)
    requires SoundSide(s, side, bound) && i < |s| && s[i].price == price
    ensures var q := LevelQueue(s, price); q != [] && s[i].priority <= q[|q| - 1].priority
  {
    var q := LevelQueue(s[1..], price);
    LevelEmpty(s[1..], price);
    if i > 0 {
      SoundTail(s, side, bound);
      LevelLast(s[1..], side, bound, price, i - 1);
    } else if q != [] {
      var j :| 0 <= j < |s[1..]| && s[1..][j] == q[|q| - 1];
      assert Before(side, s[0], s[j + 1]);
    }
  }

  lemma SoundTail(s: seq<Order>, side: Side, bound: nat)
    requires SoundSide(s, side, bound) && s != []
    ensures SoundSide(s[1..], side, bound)
  {
  }

  /** A side whose orders do not cross `price` has no level there. */
  lemma NoLevelThere(s: seq<Order>, side: Side, bound: nat, price: int)
    requires SoundSide(s, side, bound) && (s == [] || !Crosses(Opposite(side), price, s[0].price))
    ensures LevelQueue(s, price) == []
  {
    LevelEmpty(s, price);
    forall i | 0 <= i < |s|
      ensures s[i].price != price
    {
      assert i == 0 || Before(side, s[0], s[i]);
    }
  }

  /** The side-less table gives the resting order the next priority of its own level: one above the largest, or 1. */
  lemma NextPriorityLast(c: Sides, t: Taker, remains: nat, bound: nat)
    requires SoundSides(c, bound) && remains > 0 && !CanMatch(c, t, remains)
    ensures TableLevel(c, t.price) == LevelQueue(c.Of(t.side), t.price)
    ensures forall i | 0 <= i < |c.Of(t.side)| && c.Of(t.side)[i].price == t.price ::
              c.Of(t.side)[i].priority < NextPriority(c, t.price)
    ensures NextPriority(c, t.price) == 1
            || exists i :: 0 <= i < |c.Of(t.side)| && c.Of(t.side)[i].price == t.price
                           && c.Of(t.side)[i].priority + 1 == NextPriority(c, t.price)
    ensures (forall i | 0 <= i < |c.Of(t.side)| :: c.Of(t.side)[i].price != t.price) ==> NextPriority(c, t.price) == 1
  {
    NoLevelThere(c.Of(Opposite(t.side)), Opposite(t.side), bound, t.price);
    LevelEmpty(c.Of(t.side), t.price);
    forall i | 0 <= i < |c.Of(t.side)| && c.Of(t.side)[i].price == t.price
      ensures c.Of(t.side)[i].priority < NextPriority(c, t.price)
    {
      LevelLast(c.Of(t.side), t.side, bound, t.price, i);
    }
  }

  lemma PlaceSound(s: seq<Order>, o: Order, bound: nat)
    requires SoundSide(s, o.side, bound) && Resting(o, o.side, bound + 1) && o.oid == bound
    requires forall i | 0 <= i < |s| :: Strangers(s[i], o)
    requires forall i | 0 <= i < |s| && s[i].price == o.price :: s[i].priority < o.priority
    ensures SoundSide(Place(s, o), o.side, bound + 1)
  {
    PlaceAt(s, o);
    var k, r := Rank(s, o), Place(s, o);
    forall i | 0 <= i < |r|
      ensures Resting(r[i], o.side, bound + 1)
      ensures r[i] == if i < k then s[i] else if i == k then o else s[i - 1]
    {
      assert i == k || Resting(s[if i < k then i else i - 1], o.side, bound);
    }
    forall i, j | 0 <= i < j < |r|
      ensures Before(o.side, r[i], r[j])
    {
      if j == k {
        assert Strangers(s[i], o) && Resting(s[i], o.side, bound);
      } else if i == k {
        assert Strangers(s[j - 1], o);
        assert j - 1 == k || Before(o.side, s[k], s[j - 1]);
      } else {
        assert Before(o.side, s[if i < k then i else i - 1], s[if j < k then j else j - 1]);
      }
    }
  }

  lemma PlaceDisjoint(s: seq<Order>, t: seq<Order>, o: Order)
    requires Disjoint(s, t) && forall i | 0 <= i < |t| :: Strangers(o, t[i])
    ensures Disjoint(Place(s, o), t)
  {
    PlaceAt(s, o);
    var k, r := Rank(s, o), Place(s, o);
    forall i, j | 0 <= i < |r| && 0 <= j < |t|
      ensures Strangers(r[i], t[j])
    {
      assert r[i] == if i < k then s[i] else if i == k then o else s[i - 1];
    }
  }

  lemma NewcomerStrange(c: Sides, side: Side, o: Order, bound: nat)
    requires SoundSides(c, bound) && o.oid == bound && !Owns(c, o.owner)
    ensures forall i | 0 <= i < |c.Of(side)| :: Strangers(c.Of(side)[i], o) && Strangers(o, c.Of(side)[i])
  {
    forall i | 0 <= i < |c.Of(side)|
      ensures Strangers(c.Of(side)[i], o) && Strangers(o, c.Of(side)[i])
    {
      assert Resting(c.Of(side)[i], side, bound);
    }
  }

  lemma RestSound(c: Sides, t: Taker, remains: nat)
    requires SoundSides(c, t.oid) && remains > 0 && !CanMatch(c, t, remains)
    requires t.owner.Client? && t.oid > 0 && !Owns(c, t.owner)
    ensures SoundSides(c.With(t.side, Place(c.Of(t.side), Rest(c, t, remains))), t.oid + 1)
  {
    var o := Rest(c, t, remains);
    var s, opp := c.Of(t.side), c.Of(Opposite(t.side));
    NewcomerStrange(c, t.side, o, t.oid);
    NewcomerStrange(c, Opposite(t.side), o, t.oid);
    NextPriorityLast(c, t, remains, t.oid);
    PlaceSound(s, o, t.oid);
    OppositeDisjoint(c, t.side, t.oid);
    PlaceDisjoint(s, opp, o);
    PlaceAt(s, o);
    ReplaceSide(c, t.side, Place(s, o), t.oid, t.oid + 1);
  }

  // ----- whole requests

  lemma {:induction false} LaterBound(c: Sides, bound: nat)
    requires SoundSides(c, bound)
    ensures SoundSides(c, bound + 1)
  {
    ReplaceSide(c, Buy, c.bids, bound, bound);
    forall i | 0 <= i < |c.bids|
      ensures Resting(c.bids[i], Buy, bound + 1)
    {
      assert Resting(c.bids[i], Buy, bound);
    }
    forall i | 0 <= i < |c.asks|
      ensures Resting(c.asks[i], Sell, bound + 1)
    {
      assert Resting(c.asks[i], Sell, bound);
    }
  }

  /** In a sound book an owner's order is where `Locate` says. */
  lemma LocateOwned(c: Sides, bound: nat, side: Side, k: nat)
    requires SoundSides(c, bound) && k < |c.Of(side)|
    ensures Locate(c, c.Of(side)[k].owner) == Some((side, k))
  {
    var o := c.Of(side)[k].owner;
    assert forall i | 0 <= i < k :: Before(side, c.Of(side)[i], c.Of(side)[k]);
    assert FindOwner(c.Of(side), o) == k;
    if side.Sell? {
      assert forall i | 0 <= i < |c.bids| :: Strangers(c.bids[i], c.asks[k]);
    }
  }

  lemma ProcessSound(b: Book, r: Request)
    requires Sound(b) && Admissible(b, r)
    ensures Sound(Process(b, r).0)
  {
    if r.New? {
      var t := Taker(r.owner, r.ticker, b.nextOid, r.side, r.price);
      FindMatchSound(b.sides, t, r.qty, b.nextOid);
      var m := FindMatch(b.sides, t, r.qty);
      if m.remains > 0 {
        RestSound(m.sides, t, m.remains);
      } else {
        LaterBound(m.sides, b.nextOid);
      }
    } else if Locate(b.sides, r.owner).Some? {
      var (side, k) := Locate(b.sides, r.owner).value;
      RemoveSound(b.sides, side, k, b.nextOid);
    }
  }
}
