/**
 Price-time priority: matching is the greedy fill of the opposite side in (price, arrival) order.
 `Share` says what each resting order gets, without running the matching loop.
 */
module PriceTime {
  import opened Types
  import opened Market
  import opened Exchange
  import opened ReachableBook

  /** Quantity resting ahead of position `k`. */
  function Total(s: seq<Order>, k: nat): nat
    requires k <= |s|
  {
    if k == 0 then 0 else Total(s, k - 1) + s[k - 1].qty
  }

  /** What position `i` gives to an incoming quantity: all it has, or what those ahead leave over. */
  function Share(s: seq<Order>, t: Taker, qty: nat, i: nat): nat
    requires i < |s|
  {
    if !Crosses(t.side, t.price, s[i].price) || qty <= Total(s, i) then 0
    else Min(qty - Total(s, i), s[i].qty)
  }

  function Shares(s: seq<Order>, t: Taker, qty: nat, k: nat): nat
    requires k <= |s|
  {
    if k == 0 then 0 else Shares(s, t, qty, k - 1) + Share(s, t, qty, k - 1)
  }

  /** What the responses report as executed for one order id. */
  function Executed(rs: seq<Response>, oid: nat): nat {
    if rs == [] then 0
    else (if rs[0].Filled? && rs[0].oid == oid then rs[0].exec else 0) + Executed(rs[1..], oid)
  }

  lemma {:induction false} ExecutedConcat(rs: seq<Response>, qs: seq<Response>, oid: nat)
    ensures Executed(rs + qs, oid) == Executed(rs, oid) + Executed(qs, oid)
  {
    if rs == [] {
      assert rs + qs == qs;
    } else {
      assert (rs + qs)[1..] == rs[1..] + qs;
      ExecutedConcat(rs[1..], qs, oid);
    }
  }

  lemma {:induction false} TotalTail(s: seq<Order>, k: nat)
    requires 0 < k <= |s|
    ensures Total(s, k) == s[0].qty + Total(s[1..], k - 1)
  {
    if k > 1 {
      TotalTail(s, k - 1);
    }
  }

  /** Shares behind a first order that was fully taken. */
  lemma ShareTail(s: seq<Order>, t: Taker, qty: nat, i: nat)
    requires 0 < i < |s| && s[0].qty <= qty
    ensures Share(s, t, qty, i) == Share(s[1..], t, qty - s[0].qty, i - 1)
  {
    TotalTail(s, i);
  }

  /** Nothing is left for those behind an order that is not fully taken, or does not cross. */
  lemma {:induction false} ShareNone(s: seq<Order>, side: Side, bound: nat, t: Taker, qty: nat, i: nat)
    requires SoundSide(s, side, bound) && side == Opposite(t.side) && i < |s|
    requires qty == 0 || !Crosses(t.side, t.price, s[0].price) || (0 < i && qty <= s[0].qty)
    ensures Share(s, t, qty, i) == 0
  {
    if i > 0 {
      TotalTail(s, i);
      assert Before(side, s[0], s[i]);
    }
  }

  lemma MatchFirstExecuted(c: Sides, t: Taker, remains: nat, oid: nat)
    requires CanMatch(c, t, remains) && c.Of(Opposite(t.side))[0].oid != t.oid
    ensures var m := c.Of(Opposite(t.side))[0];
            Executed(MatchFirst(c, t, remains).responses, oid) ==
            if oid == t.oid || oid == m.oid then Min(remains, m.qty) else 0
  {
    var rs := MatchFirst(c, t, remains).responses;
    assert rs == [rs[0]] + [rs[1]];
    ExecutedConcat([rs[0]], [rs[1]], oid);
    assert [rs[0]][1..] == [] && [rs[1]][1..] == [];
  }

  /** An id that neither rests opposite nor takes is never executed. */
  lemma {:induction false} OthersUntraded(c: Sides, t: Taker, qty: nat, oid: nat)
    requires SoundSides(c, t.oid) && oid != t.oid
    requires forall j | 0 <= j < |c.Of(Opposite(t.side))| :: c.Of(Opposite(t.side))[j].oid != oid
    ensures Executed(FindMatch(c, t, qty).responses, oid) == 0
    decreases qty, |c.Of(Opposite(t.side))|
  {
    hide SoundSides;
    if CanMatch(c, t, qty) {
      var first := MatchFirst(c, t, qty);
      FirstResting(c, Opposite(t.side), t.oid);
      MatchFirstSound(c, t, qty, t.oid);
      MatchFirstExecuted(c, t, qty, oid);
      var s, r := c.Of(Opposite(t.side)), first.sides.Of(Opposite(t.side));
      assert forall j | 0 <= j < |r| :: r[j].oid == s[j + |s| - |r|].oid;
      OthersUntraded(first.sides, t, first.remains, oid);
      ExecutedConcat(first.responses, FindMatch(first.sides, t, first.remains).responses, oid);
    }
  }

  lemma FirstShare(c: Sides, t: Taker, qty: nat)
    requires SoundSides(c, t.oid) && CanMatch(c, t, qty)
    ensures var s := c.Of(Opposite(t.side));
            Executed(FindMatch(c, t, qty).responses, s[0].oid) == Share(s, t, qty, 0)
  {
    var opp := Opposite(t.side);
    var s := c.Of(opp);
    var first := MatchFirst(c, t, qty);
    var more := FindMatch(first.sides, t, first.remains);
    assert Resting(s[0], opp, t.oid);
    MatchFirstExecuted(c, t, qty, s[0].oid);
    ExecutedConcat(first.responses, more.responses, s[0].oid);
    if s[0].qty <= qty {
      MatchFirstSound(c, t, qty, t.oid);
      forall j | 0 <= j < |s| - 1
        ensures s[1..][j].oid != s[0].oid
      {
        assert Before(opp, s[0], s[j + 1]);
      }
      OthersUntraded(first.sides, t, first.remains, s[0].oid);
    }
  }

  /** Behind the first order, one match moves every position forward or ends the matching. */
  lemma LaterShare(c: Sides, t: Taker, qty: nat, i: nat)
    requires SoundSides(c, t.oid) && CanMatch(c, t, qty) && 0 < i < |c.Of(Opposite(t.side))|
    ensures var s := c.Of(Opposite(t.side)); var first := MatchFirst(c, t, qty);
            && Executed(FindMatch(c, t, qty).responses, s[i].oid)
               == Executed(FindMatch(first.sides, t, first.remains).responses, s[i].oid)
            && (s[0].qty <= qty ==> Share(s, t, qty, i) == Share(s[1..], t, qty - s[0].qty, i - 1))
            && (s[0].qty > qty ==> Share(s, t, qty, i) == 0)
  {
    var opp := Opposite(t.side);
    var s := c.Of(opp);
    var first := MatchFirst(c, t, qty);
    assert Resting(s[0], opp, t.oid) && Resting(s[i], opp, t.oid) && Before(opp, s[0], s[i]);
    MatchFirstExecuted(c, t, qty, s[i].oid);
    ExecutedConcat(first.responses, FindMatch(first.sides, t, first.remains).responses, s[i].oid);
    if s[0].qty <= qty {
      ShareTail(s, t, qty, i);
    } else {
      ShareNone(s, opp, t.oid, t, qty, i);
    }
  }

  /** Each resting order executes exactly its share. */
  lemma {:induction false} GreedyShare(c: Sides, t: Taker, qty: nat, i: nat)
    requires SoundSides(c, t.oid) && i < |c.Of(Opposite(t.side))|
    ensures Executed(FindMatch(c, t, qty).responses, c.Of(Opposite(t.side))[i].oid)
            == Share(c.Of(Opposite(t.side)), t, qty, i)
    decreases qty, |c.Of(Opposite(t.side))|
  {
    var s := c.Of(Opposite(t.side));
    if !CanMatch(c, t, qty) {
      ShareNone(s, Opposite(t.side), t.oid, t, qty, i);
    } else if i == 0 {
      FirstShare(c, t, qty);
    } else {
      LaterShare(c, t, qty, i);
      var first := MatchFirst(c, t, qty);
      if s[0].qty <= qty {
        MatchFirstSound(c, t, qty, t.oid);
        GreedyShare(first.sides, t, first.remains, i - 1);
      }
    }
  }

  lemma NothingExecuted(oid: nat)
    ensures Executed([], oid) == 0
  {
  }

  /** The incoming order gets the sum of the shares, and what remains is the rest of it. */
  lemma {:induction false} GreedyRemains(c: Sides, t: Taker, qty: nat)
    requires SoundSides(c, t.oid)
    ensures var s := c.Of(Opposite(t.side)); var out := FindMatch(c, t, qty);
            && out.remains + Shares(s, t, qty, |s|) == qty
            && Executed(out.responses, t.oid) == Shares(s, t, qty, |s|)
    decreases qty, |c.Of(Opposite(t.side))|
  {
    hide Executed, Share, Shares, SoundSides, SoundSide;
    var opp := Opposite(t.side);
    var s := c.Of(opp);
    SoundOf(c, opp, t.oid);
    if !CanMatch(c, t, qty) {
      SharesNone(s, opp, t.oid, t, qty, |s|);
      NothingExecuted(t.oid);
    } else {
      var first := MatchFirst(c, t, qty);
      FirstResting(c, opp, t.oid);
      MatchFirstSound(c, t, qty, t.oid);
      MatchFirstExecuted(c, t, qty, t.oid);
      GreedyRemains(first.sides, t, first.remains);
      ExecutedConcat(first.responses, FindMatch(first.sides, t, first.remains).responses, t.oid);
      SharesSplit(s, opp, t.oid, t, qty, |s|);
      if s[0].qty > qty {
        SoundOf(first.sides, opp, t.oid);
        SharesNone(first.sides.Of(opp), opp, t.oid, t, 0, |s|);
      }
    }
  }

  lemma {:induction false} SharesNone(s: seq<Order>, side: Side, bound: nat, t: Taker, qty: nat, k: nat)
    requires SoundSide(s, side, bound) && side == Opposite(t.side) && k <= |s|
    requires s == [] || qty == 0 || !Crosses(t.side, t.price, s[0].price)
    ensures Shares(s, t, qty, k) == 0
  {
    if k > 0 {
      SharesNone(s, side, bound, t, qty, k - 1);
      ShareNone(s, side, bound, t, qty, k - 1);
    }
  }

  /** The shares of a crossing side: the first order's, then those of the rest. */
  lemma {:induction false} SharesSplit(s: seq<Order>, side: Side, bound: nat, t: Taker, qty: nat, k: nat)
    requires SoundSide(s, side, bound) && side == Opposite(t.side) && 0 < k <= |s|
    requires qty > 0 && Crosses(t.side, t.price, s[0].price)
    ensures Shares(s, t, qty, k) ==
            if s[0].qty <= qty then s[0].qty + Shares(s[1..], t, qty - s[0].qty, k - 1) else qty
  {
    if k > 1 {
      SharesSplit(s, side, bound, t, qty, k - 1);
      if s[0].qty <= qty {
        ShareTail(s, t, qty, k - 1);
      } else {
        ShareNone(s, side, bound, t, qty, k - 1);
      }
    }
  }

  /** No order trades before every order ahead of it is completely filled. */
  lemma PriorityRespected(s: seq<Order>, side: Side, bound: nat, t: Taker, qty: nat, i: nat, j: nat)
    requires SoundSide(s, side, bound) && side == Opposite(t.side) && i < j < |s|
    requires Share(s, t, qty, j) > 0
    ensures Share(s, t, qty, i) == s[i].qty
  {
    assert Before(side, s[i], s[j]);
    TotalGrows(s, i + 1, j);
  }

  lemma {:induction false} TotalGrows(s: seq<Order>, i: nat, j: nat)
    requires i <= j <= |s|
    ensures Total(s, i) <= Total(s, j)
  {
    if i < j {
      TotalGrows(s, i, j - 1);
    }
  }

  /** The opposite side afterwards: each order less its share, fully filled ones gone, order kept. */
  function Survivors(s: seq<Order>, t: Taker, qty: nat, k: nat): seq<Order>
    requires k <= |s|
  {
    if k == 0 then []
    else
      var x := Share(s, t, qty, k - 1);
      Survivors(s, t, qty, k - 1) +
      (if x < s[k - 1].qty then [s[k - 1].(qty := s[k - 1].qty - x)] else [])
  }

  lemma {:induction false} SurvivorsTail(s: seq<Order>, t: Taker, qty: nat, k: nat)
    requires 0 < k <= |s| && s[0].qty <= qty && Crosses(t.side, t.price, s[0].price)
    ensures Survivors(s, t, qty, k) == Survivors(s[1..], t, qty - s[0].qty, k - 1)
  {
    if k > 1 {
      SurvivorsTail(s, t, qty, k - 1);
      ShareTail(s, t, qty, k - 1);
    }
  }

  /** Without anything left to fill the side stays as it is. */
  lemma {:induction false} SurvivorsKept(s: seq<Order>, side: Side, bound: nat, t: Taker, qty: nat, k: nat)
    requires SoundSide(s, side, bound) && side == Opposite(t.side) && k <= |s|
    requires s == [] || qty == 0 || !Crosses(t.side, t.price, s[0].price)
    ensures Survivors(s, t, qty, k) == s[..k]
  {
    if k > 0 {
      SurvivorsKept(s, side, bound, t, qty, k - 1);
      ShareNone(s, side, bound, t, qty, k - 1);
      assert Resting(s[k - 1], side, bound);
    }
  }

  lemma {:induction false} SurvivorsPartial(s: seq<Order>, side: Side, bound: nat, t: Taker, qty: nat, k: nat)
    requires SoundSide(s, side, bound) && side == Opposite(t.side) && 0 < k <= |s|
    requires 0 < qty < s[0].qty && Crosses(t.side, t.price, s[0].price)
    ensures Survivors(s, t, qty, k) == [s[0].(qty := s[0].qty - qty)] + s[1..k]
  {
    if k > 1 {
      SurvivorsPartial(s, side, bound, t, qty, k - 1);
      ShareNone(s, side, bound, t, qty, k - 1);
      assert Resting(s[k - 1], side, bound);
    }
  }

  /** The book the matching loop leaves is the one the shares describe. */
  lemma {:induction false} GreedyBook(c: Sides, t: Taker, qty: nat)
    requires SoundSides(c, t.oid)
    ensures var opp := Opposite(t.side); var s := c.Of(opp);
            FindMatch(c, t, qty).sides == c.With(opp, Survivors(s, t, qty, |s|))
    decreases qty, |c.Of(Opposite(t.side))|
  {
    var opp := Opposite(t.side);
    var s := c.Of(opp);
    if !CanMatch(c, t, qty) {
      SurvivorsKept(s, opp, t.oid, t, qty, |s|);
    } else {
      hide SoundSides, SoundSide, Survivors, Share;
      var first := MatchFirst(c, t, qty);
      MatchFirstSound(c, t, qty, t.oid);
      GreedyBook(first.sides, t, first.remains);
      if s[0].qty <= qty {
        SurvivorsTail(s, t, qty, |s|);
      } else {
        SoundOf(c, opp, t.oid);
        SurvivorsPartial(s, opp, t.oid, t, qty, |s|);
        assert !CanMatch(first.sides, t, first.remains);
      }
    }
  }

  /** A report about the book `c`: executed at a resting order's own price, within the taker's limit. */
  ghost predicate AtRestingPrice(c: Sides, t: Taker, r: Response) {
    r.Filled? && Crosses(t.side, t.price, r.price) && r.exec > 0 &&
    exists i :: 0 <= i < |c.Of(Opposite(t.side))| && c.Of(Opposite(t.side))[i].price == r.price
                && (r.oid == t.oid || r.oid == c.Of(Opposite(t.side))[i].oid)
  }

  lemma FirstPrices(c: Sides, t: Taker, qty: nat, r: Response)
    requires CanMatch(c, t, qty) && c.Of(Opposite(t.side))[0].qty > 0 && r in MatchFirst(c, t, qty).responses
    ensures AtRestingPrice(c, t, r)
  {
    assert c.Of(Opposite(t.side))[0].price == r.price;
  }

  lemma PricesKept(c: Sides, t: Taker, qty: nat, r: Response)
    requires CanMatch(c, t, qty) && AtRestingPrice(MatchFirst(c, t, qty).sides, t, r)
    ensures AtRestingPrice(c, t, r)
  {
    var s, p := c.Of(Opposite(t.side)), MatchFirst(c, t, qty).sides.Of(Opposite(t.side));
    var i :| 0 <= i < |p| && p[i].price == r.price && (r.oid == t.oid || r.oid == p[i].oid);
    assert s[i + |s| - |p|].price == r.price;
  }

  /** Every report of a match is at the price of the resting order it consumes. */
  lemma {:induction false} RestingPrices(c: Sides, t: Taker, qty: nat, r: Response)
    requires SoundSides(c, t.oid) && r in FindMatch(c, t, qty).responses
    ensures AtRestingPrice(c, t, r)
    decreases qty, |c.Of(Opposite(t.side))|
  {
    var first := MatchFirst(c, t, qty);
    MatchFirstShorter(c, t, qty);
    hide SoundSides, AtRestingPrice, MatchFirst;
    FirstResting(c, Opposite(t.side), t.oid);
    if r in first.responses {
      FirstPrices(c, t, qty, r);
    } else {
      MatchFirstSound(c, t, qty, t.oid);
      RestingPrices(first.sides, t, first.remains, r);
      PricesKept(c, t, qty, r);
    }
  }

  lemma MatchFirstShorter(c: Sides, t: Taker, qty: nat)
    requires CanMatch(c, t, qty)
    ensures var first := MatchFirst(c, t, qty);
            first.remains < qty
            || (first.remains == qty && |first.sides.Of(Opposite(t.side))| < |c.Of(Opposite(t.side))|)
  {
  }
}
