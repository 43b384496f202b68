/**
 The best bid and offer a client's book keeps beside its levels. It is recomputed only when the
 update is at or better than a best price that was there before; this module settles when that
 is enough.
 */
module BestOffer {
  import opened Types
  import opened Market
  import opened Levels

  /** A best price and the quantity of all orders at it. */
  datatype Touch = Touch(price: int, qty: nat)

  /** Both sides' best; None stands for the source's invalid price and quantity. */
  datatype Bbo = Bbo(bid: Option<Touch>, ask: Option<Touch>) {
    function Of(side: Side): Option<Touch> {
      if side.Buy? then bid else ask
    }
  }

  const NO_BBO := Bbo(None, None)

  function Total(s: seq<Order>): nat {
    if s == [] then 0 else s[0].qty + Total(s[1..])
  }

  lemma {:induction false} TotalAppend(s: seq<Order>, o: Order)
    ensures Total(s + [o]) == Total(s) + o.qty
  {
    if s == [] {
      assert s + [o] == [o];
    } else {
      assert (s + [o])[1..] == s[1..] + [o];
      TotalAppend(s[1..], o);
    }
  }

  /** What the best of a side should be. */
  function BestOf(s: seq<Order>): Option<Touch> {
    if s == [] then None else Some(Touch(s[0].price, Total(LevelQueue(s, s[0].price))))
  }

  // ----- what the best of a side means

  /** The quantity of all orders of a side at a price, wherever they stand. */
  function QtyAt(s: seq<Order>, price: int): nat {
    if s == [] then 0 else (if s[0].price == price then s[0].qty else 0) + QtyAt(s[1..], price)
  }

  lemma {:induction false} QueueTotal(s: seq<Order>, price: int)
    ensures Total(LevelQueue(s, price)) == QtyAt(s, price)
  {
    if s != [] {
      QueueTotal(s[1..], price);
      if s[0].price == price {
        assert LevelQueue(s, price)[1..] == LevelQueue(s[1..], price);
      }
    }
  }

  /**
   The best of a side is the price of one of its orders, the highest bid or the lowest offer, with the
   quantity of all orders at that price; an empty side has none.
   */
  lemma BestMeans(s: seq<Order>, side: Side)
    requires Ordered(s, side)
    ensures s == [] <==> BestOf(s) == None
    ensures s != [] ==>
              var best := BestOf(s).value;
              && (exists i :: 0 <= i < |s| && s[i].price == best.price)
              && (forall i | 0 <= i < |s| :: if side.Buy? then s[i].price <= best.price else s[i].price >= best.price)
              && best.qty == QtyAt(s, best.price)
  {
    if s != [] {
      QueueTotal(s, s[0].price);
      assert forall i | 0 < i < |s| :: Ahead(side, s[0], s[i]);
    }
  }

  lemma {:induction false} QtyAtConcat(a: seq<Order>, b: seq<Order>, price: int)
    ensures QtyAt(a + b, price) == QtyAt(a, price) + QtyAt(b, price)
  {
    if a == [] {
      assert a + b == b;
    } else {
      assert (a + b)[1..] == a[1..] + b;
      QtyAtConcat(a[1..], b, price);
    }
  }

  lemma QtyAtOne(o: Order, price: int)
    ensures QtyAt([o], price) == if o.price == price then o.qty else 0
  {
    assert [o][1..] == [];
  }

  lemma {:induction false} QtyPlaced(s: seq<Order>, o: Order, price: int)
    ensures QtyAt(Place(s, o), price) == QtyAt(s, price) + if o.price == price then o.qty else 0
  {
    if s != [] && !Better(o.side, o.price, s[0].price) {
      QtyPlaced(s[1..], o, price);
      assert ([s[0]] + Place(s[1..], o))[1..] == Place(s[1..], o);
    } else {
      assert ([o] + s)[1..] == s;
    }
  }

  lemma FirstPlaced(s: seq<Order>, o: Order)
    requires s != []
    ensures Place(s, o)[0] == if Better(o.side, o.price, s[0].price) then o else s[0]
  {
  }

  /** An order at the best price adds its quantity to the best; a better one is the best by itself. */
  lemma BestPlaced(s: seq<Order>, o: Order)
    requires Ordered(s, o.side) && s != [] && !Better(o.side, s[0].price, o.price)
    ensures BestOf(Place(s, o))
         == Some(Touch(o.price, o.qty + if o.price == s[0].price then BestOf(s).value.qty else 0))
  {
    hide Place, QtyAt, LevelQueue, Total, Ordered;
    FirstPlaced(s, o);
    QueueTotal(Place(s, o), o.price);
    QueueTotal(s, s[0].price);
    QtyPlaced(s, o, o.price);
    if o.price != s[0].price {
      NoneAt(s, o.side, o.price);
    }
  }

  lemma {:induction false} NoneAt(s: seq<Order>, side: Side, price: int)
    requires Ordered(s, side) && s != [] && Better(side, price, s[0].price)
    ensures QtyAt(s, price) == 0
  {
    assert forall i | 0 < i < |s| :: Ahead(side, s[0], s[i]);
    QtyOfOthers(s, price);
  }

  lemma {:induction false} QtyOfOthers(s: seq<Order>, price: int)
    requires forall i | 0 <= i < |s| :: s[i].price != price
    ensures QtyAt(s, price) == 0
  {
    if s != [] {
      QtyOfOthers(s[1..], price);
    }
  }

  /** Reducing an order at the best price takes exactly the difference from the best. */
  lemma BestReduced(s: seq<Order>, k: nat, qty: nat)
    requires k < |s| && s[k].price == s[0].price
    ensures var was, now := BestOf(s).value, BestOf(s[k := s[k].(qty := qty)]);
            && s[k].qty <= was.qty
            && now == Some(Touch(was.price, was.qty - s[k].qty + qty))
  {
    hide QtyAt, LevelQueue, Total;
    var o, p := s[k].(qty := qty), s[0].price;
    var r := s[k := o];
    QueueTotal(s, p);
    QueueTotal(r, p);
    assert s == s[..k] + [s[k]] + s[k + 1..] && r == s[..k] + [o] + s[k + 1..];
    QtySplit(s[..k], s[k], s[k + 1..], p);
    QtySplit(s[..k], o, s[k + 1..], p);
  }

  lemma QtySplit(a: seq<Order>, o: Order, b: seq<Order>, price: int)
    ensures QtyAt(a + [o] + b, price) == QtyAt(a, price) + (if o.price == price then o.qty else 0) + QtyAt(b, price)
  {
    QtyAtConcat(a + [o], b, price);
    QtyAtConcat(a, [o], price);
    QtyAtOne(o, price);
  }

  /** Removing one of several orders at the best price takes exactly its quantity from the best. */
  lemma BestRemoved(s: seq<Order>, k: nat)
    requires k < |s| && s[k].price == s[0].price && |s| > 1 && (k == 0 ==> s[1].price == s[0].price)
    ensures var was, now := BestOf(s).value, BestOf(s[..k] + s[k + 1..]);
            s[k].qty <= was.qty && now == Some(Touch(was.price, was.qty - s[k].qty))
  {
    var p, r := s[0].price, s[..k] + s[k + 1..];
    QueueTotal(s, p);
    QueueTotal(r, p);
    assert s == s[..k] + [s[k]] + s[k + 1..];
    QtySplit(s[..k], s[k], s[k + 1..], p);
    QtyAtConcat(s[..k], s[k + 1..], p);
  }

  // ----- the kept best

  /** The flag the source computes before it applies an update. */
  predicate Touches(c: Sides, u: Update, side: Side) {
    && (u.Add? || u.Modify? || u.Cancel?) && u.side == side
    && c.Of(side) != [] && !Better(side, c.Of(side)[0].price, u.price)
  }

  /** The kept best after an update. */
  function Refresh(was: Bbo, c: Sides, u: Update): Bbo {
    Bbo(if Touches(c, u, Buy) then BestOf(Apply(c, u).bids) else was.bid,
        if Touches(c, u, Sell) then BestOf(Apply(c, u).asks) else was.ask)
  }

  // ----- edits away from a price leave its queue alone

  /** Two sides that differ at one position, and not at `price`. */
  lemma QueueElsewhere(a: seq<Order>, x: seq<Order>, y: seq<Order>, b: seq<Order>, price: int)
    requires LevelQueue(x, price) == LevelQueue(y, price)
    ensures LevelQueue(a + x + b, price) == LevelQueue(a + y + b, price)
  {
    QueueConcat(a + x, b, price);
    QueueConcat(a, x, price);
    QueueConcat(a + y, b, price);
    QueueConcat(a, y, price);
  }

  lemma AddElsewhere(s: seq<Order>, o: Order)
    requires s != [] && Better(o.side, s[0].price, o.price)
    ensures BestOf(Place(s, o)) == BestOf(s)
  {
    PlaceAt(s, o);
    var k := Rank(s, o);
    assert s == s[..k] + [] + s[k..];
    assert LevelQueue([o], s[0].price) == [];
    QueueElsewhere(s[..k], [], [o], s[k..], s[0].price);
  }

  lemma ReduceElsewhere(s: seq<Order>, k: nat, qty: nat)
    requires 0 < k < |s| && s[k].price != s[0].price
    ensures BestOf(s[k := s[k].(qty := qty)]) == BestOf(s)
  {
    var o := s[k].(qty := qty);
    assert s == s[..k] + [s[k]] + s[k + 1..];
    assert s[k := o] == s[..k] + [o] + s[k + 1..];
    assert LevelQueue([o], s[0].price) == [] == LevelQueue([s[k]], s[0].price);
    QueueElsewhere(s[..k], [s[k]], [o], s[k + 1..], s[0].price);
  }

  lemma RemoveElsewhere(s: seq<Order>, k: nat)
    requires 0 < k < |s| && s[k].price != s[0].price
    ensures BestOf(s[..k] + s[k + 1..]) == BestOf(s)
  {
    assert s == s[..k] + [s[k]] + s[k + 1..];
    assert s[..k] + s[k + 1..] == s[..k] + [] + s[k + 1..];
    assert LevelQueue([s[k]], s[0].price) == [];
    QueueElsewhere(s[..k], [s[k]], [], s[k + 1..], s[0].price);
  }

  // ----- when the kept best is right

  /** An update that does not touch the best of a side does not change it, but for a first order. */
  lemma Untouched(c: Sides, u: Update, side: Side)
    requires WellFormed(c) && Fits(c, u) && !Touches(c, u, side)
    ensures BestOf(Apply(c, u).Of(side)) == BestOf(c.Of(side)) <==> !(u.Add? && u.side == side && c.Of(side) == [])
  {
    match u {
      case Add(_, _, s, _, _, _) =>
        if s == side && c.Of(side) != [] {
          AddElsewhere(c.Of(side), Quote(u));
        }
      case Modify(_, oid, s, price, qty, _) =>
        var k :| 0 <= k < |c.Of(s)| && c.Of(s)[k].oid == oid && c.Of(s)[k].price == price;
        EditAt(c, s, k, qty);
        if s == side {
          ReduceElsewhere(c.Of(s), k, qty);
        }
      case Cancel(_, oid, s, price, _, _) =>
        var k :| 0 <= k < |c.Of(s)| && c.Of(s)[k].oid == oid && c.Of(s)[k].price == price;
        EditAt(c, s, k, 0);
        if s == side {
          RemoveElsewhere(c.Of(s), k);
        }
      case _ =>
    }
  }

  /** The kept best of a side is the book's. */
  predicate Right(was: Bbo, c: Sides, side: Side) {
    was.Of(side) == BestOf(c.Of(side))
  }

  /** The update neither gives the side its first order nor clears orders of it. */
  predicate Followed(c: Sides, u: Update, side: Side) {
    if u.Clear? then c.Of(side) == [] else !(u.Add? && u.side == side && c.Of(side) == [])
  }

  /**
   Each side by itself, whatever is kept for the other: where the kept best is right, it is right
   after an update exactly when the side follows the update.
   */
  lemma KeptBest(was: Bbo, c: Sides, u: Update, side: Side)
    requires WellFormed(c) && (Fits(c, u) || u.Clear?) && Right(was, c, side)
    ensures Right(Refresh(was, c, u), Apply(c, u), side) <==> Followed(c, u, side)
  {
    if !u.Clear? && !Touches(c, u, side) {
      Untouched(c, u, side);
    }
  }

  // ----- over a stream

  function Tracked(was: Bbo, c: Sides, us: seq<Update>): Bbo
    decreases us
  {
    if us == [] then was else Tracked(Refresh(was, c, us[0]), Apply(c, us[0]), us[1..])
  }

  lemma {:induction false} TrackedConcat(was: Bbo, c: Sides, us: seq<Update>, vs: seq<Update>)
    ensures Tracked(was, c, us + vs) == Tracked(Tracked(was, c, us), Folded(c, us), vs)
    ensures Folded(c, us + vs) == Folded(Folded(c, us), vs)
    decreases us
  {
    if us == [] {
      assert us + vs == vs;
    } else {
      assert (us + vs)[1..] == us[1..] + vs;
      TrackedConcat(Refresh(was, c, us[0]), Apply(c, us[0]), us[1..], vs);
    }
  }

  /** Every update of the stream fits, or clears, the book it meets. */
  ghost predicate FitsStream(c: Sides, us: seq<Update>)
    decreases us
  {
    us == [] || ((Fits(c, us[0]) || us[0].Clear?) && FitsStream(Apply(c, us[0]), us[1..]))
  }

  lemma {:induction false} FitsStreamConcat(c: Sides, us: seq<Update>, vs: seq<Update>)
    ensures FitsStream(c, us + vs) <==> FitsStream(c, us) && FitsStream(Folded(c, us), vs)
    decreases us
  {
    if us == [] {
      assert us + vs == vs;
    } else {
      assert (us + vs)[1..] == us[1..] + vs;
      FitsStreamConcat(Apply(c, us[0]), us[1..], vs);
    }
  }

  /** What is known of a side's kept best from the updates alone: it is right, or it is still `kept` and wrong. */
  datatype Mark = Fresh | Stale(kept: Option<Touch>)

  /**
   A touching update makes the kept best right. Without one, a CLEAR leaves behind what was kept,
   and a first order leaves behind nothing, or what an earlier CLEAR left, unless that happens to be
   the new best. Nothing else changes whether it is right.
   */
  function NextMark(mark: Mark, c: Sides, u: Update, side: Side): Mark {
    var first := u.Add? && u.side == side && c.Of(side) == [];
    if AtTop(c, u, side) then Fresh
    else if !u.Clear? && !first then mark
    else
      var kept := if mark.Stale? then mark.kept else BestOf(c.Of(side));
      var best := if first then Some(Touch(u.price, u.qty)) else None;
      if kept == best then Fresh else Stale(kept)
  }

  function MarkOf(mark: Mark, c: Sides, us: seq<Update>, side: Side): Mark
    decreases us
  {
    if us == [] then mark else MarkOf(NextMark(mark, c, us[0], side), Apply(c, us[0]), us[1..], side)
  }

  predicate Marked(was: Bbo, c: Sides, mark: Mark, side: Side) {
    if mark.Fresh? then Right(was, c, side) else was.Of(side) == mark.kept && !Right(was, c, side)
  }

  lemma NextMarked(was: Bbo, c: Sides, u: Update, mark: Mark, side: Side)
    requires WellFormed(c) && (Fits(c, u) || u.Clear?) && Marked(was, c, mark, side)
    ensures Marked(Refresh(was, c, u), Apply(c, u), NextMark(mark, c, u, side), side)
  {
    TouchesAtTop(c, u, side);
    if u.Add? && u.side == side && c.Of(side) == [] {
      FirstBest(Quote(u));
    } else if !u.Clear? && !Touches(c, u, side) {
      Untouched(c, u, side);
    }
  }

  lemma FirstBest(o: Order)
    ensures BestOf(Place([], o)) == Some(Touch(o.price, o.qty))
  {
    assert Place([], o) == [o];
    assert [o][1..] == [] && LevelQueue([o], o.price) == [o] + LevelQueue([], o.price) == [o];
    assert Total([o]) == o.qty + Total([]) == o.qty;
  }

  lemma {:induction false} StreamMarked(was: Bbo, c: Sides, us: seq<Update>, mark: Mark, side: Side)
    requires WellFormed(c) && FitsStream(c, us) && Marked(was, c, mark, side)
    ensures Marked(Tracked(was, c, us), Folded(c, us), MarkOf(mark, c, us, side), side)
    decreases us
  {
    if us != [] {
      NextMarked(was, c, us[0], mark, side);
      if Fits(c, us[0]) {
        ApplyWellFormed(c, us[0]);
      }
      StreamMarked(Refresh(was, c, us[0]), Apply(c, us[0]), us[1..], NextMark(mark, c, us[0], side), side);
    }
  }

  /**
   From a new book, after any stream, CLEARs included: the kept best of a side is right exactly when
   its mark says so.
   */
  lemma TrackedBest(us: seq<Update>, side: Side)
    requires FitsStream(EMPTY, us)
    ensures Right(Tracked(NO_BBO, EMPTY, us), Folded(EMPTY, us), side) <==> MarkOf(Fresh, EMPTY, us, side) == Fresh
  {
    StreamMarked(NO_BBO, EMPTY, us, Fresh, side);
  }

  /** An ADD, MODIFY or CANCEL on a side that has orders, at a price no order of it is better than. */
  predicate AtTop(c: Sides, u: Update, side: Side) {
    && (u.Add? || u.Modify? || u.Cancel?) && u.side == side && c.Of(side) != []
    && forall i | 0 <= i < |c.Of(side)| ::
         if side.Buy? then c.Of(side)[i].price <= u.price else c.Of(side)[i].price >= u.price
  }

  lemma TouchesAtTop(c: Sides, u: Update, side: Side)
    requires WellFormed(c)
    ensures Touches(c, u, side) <==> AtTop(c, u, side)
  {
    var s := c.Of(side);
    assert forall i | 0 < i < |s| :: Ahead(side, s[0], s[i]);
  }

  /** No ADD has started the side from empty since the last update at the top of it. */
  function TouchedSince(touched: bool, c: Sides, us: seq<Update>, side: Side): bool
    decreases us
  {
    if us == [] then touched
    else
      var first := us[0].Add? && us[0].side == side && c.Of(side) == [];
      TouchedSince(!first && (touched || AtTop(c, us[0], side)), Apply(c, us[0]), us[1..], side)
  }

  /** Without CLEARs the mark is a flag. */
  lemma {:induction false} MarkIsFlag(c: Sides, us: seq<Update>, mark: Mark, side: Side)
    requires WellFormed(c) && FitsStream(c, us) && forall i | 0 <= i < |us| :: !us[i].Clear?
    requires mark == Fresh || mark == Stale(None)
    ensures MarkOf(mark, c, us, side) == Fresh <==> TouchedSince(mark == Fresh, c, us, side)
    decreases us
  {
    if us != [] {
      ApplyWellFormed(c, us[0]);
      TouchesAtTop(c, us[0], side);
      MarkIsFlag(Apply(c, us[0]), us[1..], NextMark(mark, c, us[0], side), side);
    }
  }

  /**
   What the engine's updates make of a new client's kept best: it is right exactly when no ADD has
   started its side from empty since the last update that touched it.
   */
  lemma BestSinceTouched(us: seq<Update>, side: Side)
    requires FitsStream(EMPTY, us) && forall i | 0 <= i < |us| :: !us[i].Clear?
    ensures Right(Tracked(NO_BBO, EMPTY, us), Folded(EMPTY, us), side) <==> TouchedSince(true, EMPTY, us, side)
  {
    TrackedBest(us, side);
    MarkIsFlag(EMPTY, us, Fresh, side);
  }
}
