/**
 What a snapshot is worth: the synthesizer's table is the market at its sequence number, and a
 client that replays a snapshot, whatever it held before, gets that market with identical queues.
 */
module Snapshots {
  import opened Types
  import opened Market
  import opened Synthesizer

  /** The table holds exactly the live orders of these books. */
  ghost predicate Agrees(tab: Table, cs: seq<Sides>) {
    forall t: nat, oid: nat :: Entry(tab, t, oid) == if t < |cs| then Find(cs[t], oid) else None
  }

  /** Every id the stream announces is in the range of the id tables. */
  ghost predicate InRange(us: seq<Update>, ids: nat) {
    forall i | 0 <= i < |us| && us[i].Add? :: us[i].oid < ids
  }

  /** The synthesizer's table after a stream numbered from `last + 1`. */
  function StepAll(tab: Table, last: nat, tickers: nat, ids: nat, us: seq<Update>): Option<Table>
    decreases us
  {
    if us == [] then Some(tab)
    else match Step(tab, last, tickers, ids, last + 1, us[0])
      case None => None
      case Some(next) => StepAll(next, last + 1, tickers, ids, us[1..])
  }

  /** A named order is found, on the named side and at the named price. */
  lemma NamedFound(c: Sides, oid: nat, side: Side, price: int)
    requires WellFormed(c) && Names(c, oid, side, price)
    ensures Find(c, oid).Some?
    ensures var o := Find(c, oid).value; o.oid == oid && o.side == side && o.price == price
  {
    var k :| 0 <= k < |c.Of(side)| && c.Of(side)[k].oid == oid && c.Of(side)[k].price == price;
    FindLive(c, side, k);
  }

  ghost predicate IdsBelow(tab: Table, ids: nat) {
    forall k | k in tab :: k.1 < ids
  }

  // ----- how many orders rest, over all tickers

  function LiveCount(cs: seq<Sides>): nat {
    if cs == [] then 0 else LiveCount(cs[..|cs| - 1]) + OrderCount(cs[|cs| - 1])
  }

  lemma {:induction false} LiveCountUpdate(cs: seq<Sides>, t: nat, c: Sides)
    requires t < |cs|
    ensures LiveCount(cs[t := c]) == LiveCount(cs) - OrderCount(cs[t]) + OrderCount(c)
  {
    var k := |cs| - 1;
    if t < k {
      LiveCountUpdate(cs[..k], t, c);
      assert cs[t := c][..k] == cs[..k][t := c];
    } else {
      assert cs[t := c][..k] == cs[..k];
    }
  }

  lemma ApplyCount(c: Sides, u: Update)
    requires WellFormed(c) && Fits(c, u)
    ensures OrderCount(Apply(c, u)) == OrderCount(c) + if u.Add? then 1 else if u.Cancel? then -1 else 0
  {
    if u.Modify? || u.Cancel? {
      var k :| 0 <= k < |c.Of(u.side)| && c.Of(u.side)[k].oid == u.oid && c.Of(u.side)[k].price == u.price;
      EditAt(c, u.side, k, if u.Modify? then u.qty else 0);
    }
  }

  lemma LiveCountNext(cs: seq<Sides>, u: Update)
    requires AllWellFormed(cs) && FitsAll(cs, u)
    ensures LiveCount(ApplyAll(cs, u)) == LiveCount(cs) + if u.Add? then 1 else if u.Cancel? then -1 else 0
  {
    ApplyCount(cs[u.ticker], u);
    LiveCountUpdate(cs, u.ticker, Apply(cs[u.ticker], u));
  }

  /** The keys of the orders of one side. */
  function KeysOf(t: nat, s: seq<Order>): set<Key> {
    set i | 0 <= i < |s| :: (t, s[i].oid)
  }

  lemma {:induction false} KeysCount(t: nat, s: seq<Order>)
    requires forall i, j | 0 <= i < j < |s| :: s[i].oid != s[j].oid
    ensures |KeysOf(t, s)| == |s|
  {
    if s != [] {
      var r := s[..|s| - 1];
      KeysCount(t, r);
      assert KeysOf(t, s) == KeysOf(t, r) + {(t, s[|s| - 1].oid)};
    }
  }

  function TickerKeys(t: nat, c: Sides): set<Key> {
    KeysOf(t, c.bids) + KeysOf(t, c.asks)
  }

  function AllKeys(cs: seq<Sides>): set<Key> {
    if cs == [] then {}
    else
      var k := |cs| - 1;
      AllKeys(cs[..k]) + TickerKeys(k, cs[k])
  }

  lemma {:induction false} AllKeysCount(cs: seq<Sides>)
    requires AllWellFormed(cs)
    ensures |AllKeys(cs)| == LiveCount(cs)
    ensures forall t: nat, oid: nat :: (t, oid) in AllKeys(cs) <==> t < |cs| && Find(cs[t], oid).Some?
  {
    hide WellFormed, Find, TickerKeys, OrderCount;
    if cs != [] {
      var k := |cs| - 1;
      AllKeysCount(cs[..k]);
      TickerKeysCount(k, cs[k]);
      var before, own := AllKeys(cs[..k]), TickerKeys(k, cs[k]);
      assert before !! own;
      forall t: nat, oid: nat
        ensures (t, oid) in before + own <==> t < |cs| && Find(cs[t], oid).Some?
      {
        assert t < k ==> cs[..k][t] == cs[t];
      }
    }
  }

  lemma TickerKeysCount(t: nat, c: Sides)
    requires WellFormed(c)
    ensures |TickerKeys(t, c)| == OrderCount(c)
    ensures forall k | k in TickerKeys(t, c) :: k.0 == t
    ensures forall s: nat, oid: nat :: (s, oid) in TickerKeys(t, c) <==> s == t && Find(c, oid).Some?
  {
    KeysCount(t, c.bids);
    KeysCount(t, c.asks);
    assert KeysOf(t, c.bids) !! KeysOf(t, c.asks);
    forall side: Side, i | 0 <= i < |c.Of(side)|
      ensures Find(c, c.Of(side)[i].oid).Some?
    {
      FindLive(c, side, i);
    }
    assert c.Of(Buy) == c.bids && c.Of(Sell) == c.asks;
    forall s: nat, oid: nat | s == t && Find(c, oid).Some?
      ensures (s, oid) in TickerKeys(t, c)
    {
      var side := if FindIn(c.bids, oid).Some? then Buy else Sell;
      var i :| 0 <= i < |c.Of(side)| && c.Of(side)[i].oid == oid;
      assert (t, c.Of(side)[i].oid) in KeysOf(t, c.Of(side));
    }
  }

  /** A table of these books has as many entries as orders rest in them. */
  lemma TableCount(tab: Table, cs: seq<Sides>)
    requires AllWellFormed(cs) && Agrees(tab, cs)
    ensures |tab| == LiveCount(cs)
  {
    hide Find, AllKeys, LiveCount, AllWellFormed;
    AllKeysCount(cs);
    forall k: Key
      ensures k in tab.Keys <==> k in AllKeys(cs)
    {
      assert Entry(tab, k.0, k.1) == if k.0 < |cs| then Find(cs[k.0], k.1) else None;
    }
    assert tab.Keys == AllKeys(cs);
  }

  /** At no point of the stream do so many orders rest, over all tickers, as a ticker has ids. */
  ghost predicate NeverFull(cs: seq<Sides>, us: seq<Update>, ids: nat) {
    forall k | 0 < k <= |us| :: LiveCount(Replay(cs, us[..k])) < ids
  }

  lemma NeverFullNext(cs: seq<Sides>, us: seq<Update>, ids: nat)
    requires us != []
    ensures NeverFull(cs, us, ids)
       <==> LiveCount(ApplyAll(cs, us[0])) < ids && NeverFull(ApplyAll(cs, us[0]), us[1..], ids)
  {
    hide LiveCount;
    forall k | 0 < k <= |us|
      ensures Replay(cs, us[..k]) == Replay(ApplyAll(cs, us[0]), us[1..][..k - 1])
    {
      assert us[..k][0] == us[0] && us[..k][1..] == us[1..][..k - 1];
    }
    assert Replay(cs, us[..1]) == ApplyAll(cs, us[0]);
    if NeverFull(cs, us, ids) {
      forall k | 0 < k <= |us[1..]|
        ensures LiveCount(Replay(ApplyAll(cs, us[0]), us[1..][..k])) < ids
      {
        assert Replay(cs, us[..k + 1]) == Replay(ApplyAll(cs, us[0]), us[1..][..k]);
      }
    }
  }

  lemma {:induction false} NeverFullConcat(cs: seq<Sides>, us: seq<Update>, vs: seq<Update>, ids: nat)
    ensures NeverFull(cs, us + vs, ids) <==> NeverFull(cs, us, ids) && NeverFull(Replay(cs, us), vs, ids)
    decreases us
  {
    hide NeverFull, LiveCount;
    if us == [] {
      assert us + vs == vs;
      FullOfNothing(cs, ids);
    } else {
      assert (us + vs)[1..] == us[1..] + vs;
      NeverFullNext(cs, us + vs, ids);
      NeverFullNext(cs, us, ids);
      NeverFullConcat(ApplyAll(cs, us[0]), us[1..], vs, ids);
    }
  }

  /** Where only the last update can be an ADD, only the end counts. */
  lemma {:induction false} FullAtEnd(cs: seq<Sides>, us: seq<Update>, ids: nat)
    requires AllWellFormed(cs) && Legal(cs, us) && LiveCount(cs) < ids
    requires forall i | 0 <= i < |us| - 1 :: !us[i].Add?
    ensures NeverFull(cs, us, ids) <==> LiveCount(Replay(cs, us)) < ids
    decreases us
  {
    hide NeverFull, LiveCount, AllWellFormed, FitsAll, ApplyAll;
    if us == [] {
      FullOfNothing(cs, ids);
    } else {
      NeverFullNext(cs, us, ids);
      NextWellFormed(cs, us[0]);
      LiveCountNext(cs, us[0]);
      if |us| == 1 {
        FullOfNothing(ApplyAll(cs, us[0]), ids);
      } else {
        assert forall i | 0 <= i < |us[1..]| - 1 :: us[1..][i] == us[i + 1];
        FullAtEnd(ApplyAll(cs, us[0]), us[1..], ids);
      }
    }
  }

  /** On an update that fits no ASSERT fires but the pool's, on an ADD that takes its last free block. */
  lemma StepDefined(tab: Table, cs: seq<Sides>, last: nat, ids: nat, u: Update)
    requires AllWellFormed(cs) && Agrees(tab, cs) && FitsAll(cs, u) && IdsBelow(tab, ids)
    requires u.Add? ==> u.oid < ids
    ensures var next := Step(tab, last, |cs|, ids, last + 1, u);
            && (next.Some? <==> (u.Add? ==> |tab| + 2 <= ids))
            && (next.Some? ==> IdsBelow(next.value, ids))
    ensures u.Modify? ==> Find(cs[u.ticker], u.oid).Some? && Find(cs[u.ticker], u.oid).value.price == u.price
  {
    var c := cs[u.ticker];
    if u.Add? {
      assert Entry(tab, u.ticker, u.oid) == Find(c, u.oid) == None;
    } else if u.Modify? || u.Cancel? {
      NamedFound(c, u.oid, u.side, u.price);
      assert Entry(tab, u.ticker, u.oid) == Find(c, u.oid);
    }
  }

  lemma StepAgrees(tab: Table, cs: seq<Sides>, last: nat, ids: nat, u: Update)
    requires AllWellFormed(cs) && Agrees(tab, cs) && FitsAll(cs, u) && IdsBelow(tab, ids)
    requires u.Add? ==> u.oid < ids
    requires Step(tab, last, |cs|, ids, last + 1, u).Some?
    ensures var next := Step(tab, last, |cs|, ids, last + 1, u).value;
            Agrees(next, ApplyAll(cs, u)) && IdsBelow(next, ids)
  {
    StepDefined(tab, cs, last, ids, u);
    var next := Step(tab, last, |cs|, ids, last + 1, u).value;
    forall t: nat, oid: nat
      ensures Entry(next, t, oid) == if t < |cs| then Find(ApplyAll(cs, u)[t], oid) else None
    {
      assert Entry(tab, t, oid) == if t < |cs| then Find(cs[t], oid) else None;
      if t == u.ticker {
        FindApply(cs[t], u, oid);
      }
    }
  }

  /** While fewer orders rest than a ticker has ids, a step is refused exactly when it makes them as many. */
  lemma StepIff(tab: Table, cs: seq<Sides>, last: nat, ids: nat, u: Update)
    requires AllWellFormed(cs) && Agrees(tab, cs) && FitsAll(cs, u) && IdsBelow(tab, ids)
    requires (u.Add? ==> u.oid < ids) && LiveCount(cs) < ids
    ensures Step(tab, last, |cs|, ids, last + 1, u).Some? <==> LiveCount(ApplyAll(cs, u)) < ids
  {
    hide Step, Agrees, AllWellFormed, FitsAll, LiveCount, IdsBelow, ApplyAll;
    StepDefined(tab, cs, last, ids, u);
    TableCount(tab, cs);
    LiveCountNext(cs, u);
  }

  /**
   On a legal stream the only ASSERT that can fail is the pool's, exactly if at some point as many
   orders rest as a ticker has ids; until then the table is the market the stream describes.
   */
  lemma {:induction false} SynthesizerAgrees(tab: Table, cs: seq<Sides>, last: nat, ids: nat, us: seq<Update>)
    requires AllWellFormed(cs) && Legal(cs, us) && Agrees(tab, cs) && InRange(us, ids) && IdsBelow(tab, ids)
    ensures var done := StepAll(tab, last, |cs|, ids, us);
            && (LiveCount(cs) < ids ==> (done.Some? <==> NeverFull(cs, us, ids)))
            && (done.Some? ==> Agrees(done.value, Replay(cs, us)) && IdsBelow(done.value, ids))
    decreases us
  {
    hide Step, Agrees, AllWellFormed, FitsAll, LiveCount, IdsBelow, NeverFull, ApplyAll;
    if us == [] {
      FullOfNothing(cs, ids);
    } else {
      var cs', next := ApplyAll(cs, us[0]), Step(tab, last, |cs|, ids, last + 1, us[0]);
      TailInRange(us, ids);
      NeverFullNext(cs, us, ids);
      if LiveCount(cs) < ids {
        StepIff(tab, cs, last, ids, us[0]);
      }
      if next.Some? {
        StepAgrees(tab, cs, last, ids, us[0]);
        NextWellFormed(cs, us[0]);
        SynthesizerAgrees(next.value, cs', last + 1, ids, us[1..]);
      }
    }
  }

  lemma FullOfNothing(cs: seq<Sides>, ids: nat)
    ensures NeverFull(cs, [], ids)
  {
  }

  lemma TailInRange(us: seq<Update>, ids: nat)
    requires us != [] && InRange(us, ids)
    ensures InRange(us[1..], ids) && (us[0].Add? ==> us[0].oid < ids)
  {
    assert forall i | 0 <= i < |us[1..]| :: us[1..][i] == us[i + 1];
  }

  lemma NextWellFormed(cs: seq<Sides>, u: Update)
    requires AllWellFormed(cs) && FitsAll(cs, u)
    ensures AllWellFormed(ApplyAll(cs, u))
  {
    ApplyWellFormed(cs[u.ticker], u);
  }

  // ----- published books hide their owners

  ghost predicate Masked(s: seq<Order>) {
    forall i | 0 <= i < |s| :: s[i].owner == Hidden
  }

  ghost predicate AllMasked(cs: seq<Sides>) {
    forall t | 0 <= t < |cs| :: Masked(cs[t].bids) && Masked(cs[t].asks)
  }

  lemma {:induction false} MaskedEdits(s: seq<Order>, oid: nat, qty: nat)
    requires Masked(s)
    ensures Masked(SetQty(s, oid, qty)) && Masked(RemoveOid(s, oid))
  {
    if s != [] {
      MaskedEdits(s[1..], oid, qty);
    }
  }

  lemma ApplyMasked(c: Sides, u: Update)
    requires Masked(c.bids) && Masked(c.asks)
    ensures Masked(Apply(c, u).bids) && Masked(Apply(c, u).asks)
  {
    match u {
      case Add(_, _, side, _, _, _) => PlaceAt(c.Of(side), Quote(u));
      case Modify(_, oid, _, _, qty, _) =>
        MaskedEdits(c.bids, oid, qty);
        MaskedEdits(c.asks, oid, qty);
      case Cancel(_, oid, _, _, _, _) =>
        MaskedEdits(c.bids, oid, 0);
        MaskedEdits(c.asks, oid, 0);
      case _ =>
    }
  }

  lemma {:induction false} ReplayMasked(cs: seq<Sides>, us: seq<Update>)
    requires AllMasked(cs)
    ensures AllMasked(Replay(cs, us))
    decreases us
  {
    if us != [] {
      if !us[0].SnapshotStart? && !us[0].SnapshotEnd? && us[0].ticker < |cs| {
        ApplyMasked(cs[us[0].ticker], us[0]);
      }
      ReplayMasked(ApplyAll(cs, us[0]), us[1..]);
    }
  }

  // ----- ascending ids rebuild the queues

  /** The orders with ids below `n`, in place. */
  function Older(s: seq<Order>, n: nat): seq<Order> {
    if s == [] then []
    else if s[0].oid < n then [s[0]] + Older(s[1..], n)
    else Older(s[1..], n)
  }

  lemma {:induction false} OlderElements(s: seq<Order>, n: nat)
    ensures forall i | 0 <= i < |Older(s, n)| :: Older(s, n)[i] in s && Older(s, n)[i].oid < n
  {
    if s != [] {
      OlderElements(s[1..], n);
    }
  }

  lemma {:induction false} OlderSame(s: seq<Order>, n: nat)
    requires forall i | 0 <= i < |s| :: s[i].oid != n
    ensures Older(s, n + 1) == Older(s, n)
  {
    if s != [] {
      OlderSame(s[1..], n);
    }
  }

  lemma {:induction false} OlderAll(s: seq<Order>, n: nat)
    requires forall i | 0 <= i < |s| :: s[i].oid < n
    ensures Older(s, n) == s && Older(s, 0) == []
  {
    if s != [] {
      OlderAll(s[1..], n);
    }
  }

  /** Placing an order among the older ones of its side puts it where it stands in the full queue. */
  lemma {:induction false} OlderPlace(s: seq<Order>, side: Side, k: nat)
    requires Ordered(s, side) && k < |s|
    ensures Older(s, s[k].oid + 1) == Place(Older(s, s[k].oid), s[k])
  {
    var n := s[k].oid;
    if k > 0 {
      OlderPlace(s[1..], side, k - 1);
      assert Ahead(side, s[0], s[k]) && s[0].oid != n && s[k].side == side;
      if s[0].oid < n {
        var older := [s[0]] + Older(s[1..], n);
        assert older[1..] == Older(s[1..], n);
      }
    } else {
      OlderSame(s[1..], n);
      var older := Older(s[1..], n);
      if older != [] {
        OlderElements(s[1..], n);
        var j :| 0 <= j < |s[1..]| && s[1..][j] == older[0];
        assert Ahead(side, s[0], s[j + 1]);
      }
    }
  }

  function OlderSides(c: Sides, n: nat): Sides {
    Sides(Older(c.bids, n), Older(c.asks, n))
  }

  lemma OlderStepAt(c: Sides, side: Side, k: nat)
    requires WellFormed(c) && k < |c.Of(side)|
    ensures var o := c.Of(side)[k]; var older := OlderSides(c, o.oid);
            OlderSides(c, o.oid + 1) == older.With(side, Place(older.Of(side), o))
  {
    var n, t := c.Of(side)[k].oid, c.Of(Opposite(side));
    OlderPlace(c.Of(side), side, k);
    forall j | 0 <= j < |t|
      ensures t[j].oid != n
    {
      assert if side.Buy? then c.bids[k].oid != c.asks[j].oid else c.bids[j].oid != c.asks[k].oid;
    }
    OlderSame(t, n);
  }

  /** One more id: its order, if live, goes to its place; otherwise nothing changes. */
  lemma OlderStep(c: Sides, n: nat)
    requires WellFormed(c)
    ensures Find(c, n).None? ==> OlderSides(c, n + 1) == OlderSides(c, n)
    ensures Find(c, n).Some? ==>
              var o := Find(c, n).value; var older := OlderSides(c, n);
              OlderSides(c, n + 1) == older.With(o.side, Place(older.Of(o.side), o))
  {
    if Find(c, n).None? {
      OlderSame(c.bids, n);
      OlderSame(c.asks, n);
    } else {
      var o := Find(c, n).value;
      var side := if FindIn(c.bids, n).Some? then Buy else Sell;
      var k :| 0 <= k < |c.Of(side)| && c.Of(side)[k] == o;
      OlderStepAt(c, side, k);
    }
  }

  /** The ADD announcing a masked order places that very order. */
  lemma AnnounceRebuilds(bs: seq<Sides>, c: Sides, t: nat, n: nat)
    requires t < |bs| && WellFormed(c) && Masked(c.bids) && Masked(c.asks)
    requires Find(c, n).Some?
    ensures Replay(bs[t := OlderSides(c, n)], [Announce(t, Find(c, n).value)]) == bs[t := OlderSides(c, n + 1)]
  {
    var u := Announce(t, Find(c, n).value);
    OlderStep(c, n);
    ReplayOne(bs[t := OlderSides(c, n)], u);
    assert Quote(u) == Find(c, n).value;
  }

  /** Replaying the ADDs of one ticker into an empty book. */
  lemma {:induction false} OrdersRebuild(bs: seq<Sides>, tab: Table, c: Sides, t: nat, n: nat)
    requires t < |bs| && bs[t] == EMPTY && WellFormed(c) && Masked(c.bids) && Masked(c.asks)
    requires forall oid: nat :: Entry(tab, t, oid) == Find(c, oid)
    ensures Replay(bs, OrdersBelow(tab, t, n)) == bs[t := OlderSides(c, n)]
  {
    hide WellFormed, Masked, Find, Replay, OlderSides;
    if n == 0 {
      NothingOlder(bs, c);
    } else {
      OrdersRebuild(bs, tab, c, t, n - 1);
      assert Entry(tab, t, n - 1) == Find(c, n - 1);
      if (t, n - 1) in tab {
        ReplayConcat(bs, OrdersBelow(tab, t, n - 1), [Announce(t, tab[(t, n - 1)])]);
        AnnounceRebuilds(bs, c, t, n - 1);
      } else {
        OlderStep(c, n - 1);
      }
    }
  }

  lemma NothingOlder(bs: seq<Sides>, c: Sides)
    ensures OlderSides(c, 0) == EMPTY && Replay(bs, []) == bs
  {
    OlderNone(c.bids);
    OlderNone(c.asks);
  }

  lemma {:induction false} OlderNone(s: seq<Order>)
    ensures Older(s, 0) == []
  {
    if s != [] {
      OlderNone(s[1..]);
    }
  }

  lemma ReplayOne(cs: seq<Sides>, u: Update)
    ensures Replay(cs, [u]) == ApplyAll(cs, u)
  {
    assert [u][1..] == [];
  }

  lemma FoundIds(tab: Table, c: Sides, t: nat, ids: nat)
    requires WellFormed(c) && IdsBelow(tab, ids) && forall oid: nat :: Entry(tab, t, oid) == Find(c, oid)
    ensures OlderSides(c, ids) == c
  {
    forall side: Side, i | 0 <= i < |c.Of(side)|
      ensures c.Of(side)[i].oid < ids
    {
      FindLive(c, side, i);
      assert Entry(tab, t, c.Of(side)[i].oid).Some?;
    }
    assert c.Of(Buy) == c.bids && c.Of(Sell) == c.asks;
    OlderAll(c.bids, ids);
    OlderAll(c.asks, ids);
  }

  /** Whatever a client held, replaying a snapshot gives it the synthesizer's market, queue for queue. */
  lemma {:induction false} SnapshotRebuilds(start: seq<Sides>, tab: Table, cs: seq<Sides>, ids: nat, t: nat)
    requires |start| == |cs| && t <= |cs|
    requires Agrees(tab, cs) && AllWellFormed(cs) && AllMasked(cs) && IdsBelow(tab, ids)
    ensures Replay(start, Body(tab, t, ids)) == cs[..t] + start[t..]
  {
    hide Agrees, AllWellFormed, AllMasked, IdsBelow, OrdersBelow, Replay, WellFormed, Masked, Find;
    if t == 0 {
      NothingRebuilt(start, tab, ids);
    } else {
      SnapshotRebuilds(start, tab, cs, ids, t - 1);
      TickerAgrees(tab, cs, t - 1);
      TickerRebuilds(cs[..t - 1] + start[t - 1..], tab, cs[t - 1], ids, t - 1);
      ReplayConcat(start, Body(tab, t - 1, ids), [Clear(t - 1)] + OrdersBelow(tab, t - 1, ids));
      RebuiltPrefix(start, cs, t);
    }
  }

  lemma NothingRebuilt(start: seq<Sides>, tab: Table, ids: nat)
    ensures Replay(start, Body(tab, 0, ids)) == start
  {
  }

  lemma TickerAgrees(tab: Table, cs: seq<Sides>, t: nat)
    requires t < |cs| && Agrees(tab, cs) && AllWellFormed(cs) && AllMasked(cs)
    ensures WellFormed(cs[t]) && Masked(cs[t].bids) && Masked(cs[t].asks)
    ensures forall oid: nat :: Entry(tab, t, oid) == Find(cs[t], oid)
  {
  }

  lemma RebuiltPrefix(start: seq<Sides>, cs: seq<Sides>, t: nat)
    requires |start| == |cs| && 0 < t <= |cs|
    ensures (cs[..t - 1] + start[t - 1..])[t - 1 := cs[t - 1]] == cs[..t] + start[t..]
  {
  }

  lemma TickerRebuilds(bs: seq<Sides>, tab: Table, c: Sides, ids: nat, t: nat)
    requires t < |bs| && WellFormed(c) && Masked(c.bids) && Masked(c.asks) && IdsBelow(tab, ids)
    requires forall oid: nat :: Entry(tab, t, oid) == Find(c, oid)
    ensures Replay(bs, [Clear(t)] + OrdersBelow(tab, t, ids)) == bs[t := c]
  {
    ReplayConcat(bs, [Clear(t)], OrdersBelow(tab, t, ids));
    ReplayOne(bs, Clear(t));
    OrdersRebuild(bs[t := EMPTY], tab, c, t, ids);
    FoundIds(tab, c, t, ids);
  }
}
