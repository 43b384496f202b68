/**
 The life of an order as its owner sees it. A ledger follows the responses one by one and
 refuses any message that breaks the protocol; every run of the engine is accepted, and the
 ledger's live orders are exactly the resting orders.
 */
module LifeCycle {
  import opened Types
  import opened Market
  import opened Exchange
  import opened ReachableBook
  import opened Replication

  datatype Life = Life(owner: Owner, side: Side, limit: int, orig: nat, filled: nat, cancelled: bool) {
    predicate Live() {
      !cancelled && filled < orig
    }
  }

  type Key = (nat, nat)  // ticker and order id
  type Ledger = map<Key, Life>

  /**
   One response. ACCEPTED opens an unknown order. FILLED needs a live order of this owner and side,
   a price no worse than its limit, and quantities that add up to the original one. CANCELLED needs
   a live order and returns exactly what was not filled. Nothing is legal after the order's end.
   */
  function Record(l: Ledger, r: Response): Option<Ledger> {
    match r
    case Accepted(owner, t, oid, side, price, remain) =>
      if (t, oid) in l then None else Some(l[(t, oid) := Life(owner, side, price, remain, 0, false)])
    case Filled(owner, t, oid, side, price, exec, remain) =>
      if (t, oid) !in l then None
      else
        var x := l[(t, oid)];
        if x.Live() && x.owner == owner && x.side == side && Crosses(side, x.limit, price)
           && exec > 0 && x.filled + exec + remain == x.orig
        then Some(l[(t, oid) := x.(filled := x.filled + exec)]) else None
    case Cancelled(owner, t, oid, side, price, remain) =>
      if (t, oid) !in l then None
      else
        var x := l[(t, oid)];
        if x.Live() && x.owner == owner && x.side == side && x.limit == price && x.filled + remain == x.orig
        then Some(l[(t, oid) := x.(cancelled := true)]) else None
    case CancelRejected(_, _) => Some(l)
  }

  function RecordAll(l: Ledger, rs: seq<Response>): Option<Ledger>
    decreases rs
  {
    if rs == [] then Some(l)
    else match Record(l, rs[0])
      case None => None
      case Some(l') => RecordAll(l', rs[1..])
  }

  lemma {:induction false} RecordConcat(l: Ledger, rs: seq<Response>, qs: seq<Response>)
    ensures RecordAll(l, rs + qs) ==
            match RecordAll(l, rs) case None => None case Some(m) => RecordAll(m, qs)
    decreases rs
  {
    if rs == [] {
      assert rs + qs == qs;
    } else if Record(l, rs[0]).Some? {
      assert (rs + qs)[1..] == rs[1..] + qs;
      RecordConcat(Record(l, rs[0]).value, rs[1..], qs);
    }
  }

  /** What the owner of a live order may still expect: side, limit and open quantity. */
  datatype Claim = Claim(owner: Owner, side: Side, limit: int, open: nat)

  function LedgerClaim(l: Ledger, key: Key): Option<Claim> {
    if key in l && l[key].Live()
    then Some(Claim(l[key].owner, l[key].side, l[key].limit, l[key].orig - l[key].filled)) else None
  }

  function BookClaim(o: Option<Order>): Option<Claim> {
    match o case None => None case Some(o) => Some(Claim(o.owner, o.side, o.price, o.qty))
  }

  function TakerClaim(t: Taker, remains: nat): Option<Claim> {
    if remains > 0 then Some(Claim(t.owner, t.side, t.price, remains)) else None
  }

  /** The ledger's live orders of a ticker are the resting orders; ids from `bound` on are unused. */
  ghost predicate Tallies(l: Ledger, ticker: nat, c: Sides, bound: nat) {
    && (forall oid: nat :: LedgerClaim(l, (ticker, oid)) == BookClaim(Find(c, oid)))
    && (forall oid: nat {:trigger (ticker, oid) in l} | oid >= bound :: (ticker, oid) !in l)
  }

  /** The same while order `t` is being matched and has `remains` left. */
  ghost predicate TalliesTaking(l: Ledger, c: Sides, t: Taker, remains: nat) {
    && (forall oid: nat :: LedgerClaim(l, (t.ticker, oid)) ==
          if oid == t.oid then TakerClaim(t, remains) else BookClaim(Find(c, oid)))
    && (forall oid: nat {:trigger (t.ticker, oid) in l} | oid > t.oid :: (t.ticker, oid) !in l)
  }

  /** Other tickers' entries are untouched. */
  ghost predicate OnlyTicker(l: Ledger, m: Ledger, ticker: nat) {
    forall k: Key | k.0 != ticker :: (k in l <==> k in m) && (k in l ==> l[k] == m[k])
  }

  /** Unlinking position `k` makes exactly its own id unknown. */
  lemma CancelFind(c: Sides, side: Side, k: nat, bound: nat, oid: nat)
    requires SoundSides(c, bound) && k < |c.Of(side)|
    ensures var s := c.Of(side);
            && Find(c, s[k].oid) == Some(s[k])
            && Find(c.With(side, s[..k] + s[k + 1..]), oid) == if oid == s[k].oid then None else Find(c, oid)
  {
    SoundWellFormed(c, bound);
    FindLive(c, side, k);
    EditAt(c, side, k, 0);
    FindInRemove(c.bids, Buy, c.Of(side)[k].oid, oid);
    FindInRemove(c.asks, Sell, c.Of(side)[k].oid, oid);
  }

  lemma ReduceFind(c: Sides, side: Side, qty: nat, bound: nat, oid: nat)
    requires SoundSides(c, bound) && c.Of(side) != []
    ensures var s := c.Of(side);
            Find(c.With(side, [s[0].(qty := qty)] + s[1..]), oid) ==
            if oid == s[0].oid then Some(s[0].(qty := qty)) else Find(c, oid)
  {
    var s := c.Of(side);
    SoundWellFormed(c, bound);
    FindLive(c, side, 0);
    EditAt(c, side, 0, qty);
    assert s[0 := s[0].(qty := qty)] == [s[0].(qty := qty)] + s[1..];
    FindInSetQty(c.bids, s[0].oid, qty, oid);
    FindInSetQty(c.asks, s[0].oid, qty, oid);
  }

  /** The resting side of one match, by order id. */
  lemma MatchFirstFind(c: Sides, t: Taker, remains: nat, bound: nat, oid: nat)
    requires SoundSides(c, bound) && CanMatch(c, t, remains)
    ensures var m := c.Of(Opposite(t.side))[0]; var left := m.qty - Min(remains, m.qty);
            && Find(c, m.oid) == Some(m)
            && Find(MatchFirst(c, t, remains).sides, oid) ==
               if oid != m.oid then Find(c, oid) else if left == 0 then None else Some(m.(qty := left))
  {
    var opp := Opposite(t.side);
    var s := c.Of(opp);
    hide SoundSides, Find;
    CancelFind(c, opp, 0, bound, oid);
    ReduceFind(c, opp, s[0].qty - Min(remains, s[0].qty), bound, oid);
    assert s[..0] + s[0 + 1..] == s[1..];
  }

  /** A legal fill lowers one claim by what was executed and leaves every other claim alone. */
  lemma RecordFill(l: Ledger, r: Response, x: Claim)
    requires r.Filled? && LedgerClaim(l, (r.ticker, r.oid)) == Some(x)
    requires r.owner == x.owner && r.side == x.side && Crosses(x.side, x.limit, r.price)
    requires r.exec > 0 && r.exec + r.remain == x.open
    ensures var m := Record(l, r);
            && m.Some? && m.value.Keys == l.Keys && OnlyTicker(l, m.value, r.ticker)
            && LedgerClaim(m.value, (r.ticker, r.oid)) == (if r.remain > 0 then Some(x.(open := r.remain)) else None)
            && forall oid: nat | oid != r.oid ::
                 LedgerClaim(m.value, (r.ticker, oid)) == LedgerClaim(l, (r.ticker, oid))
  {
    assert LedgerClaim(l, (r.ticker, r.oid)).Some?;
  }

  lemma RecordAll2(l: Ledger, r: Response, q: Response)
    requires Record(l, r).Some?
    ensures RecordAll(l, [r, q]) == Record(Record(l, r).value, q)
  {
    RecordConcat(l, [r], [q]);
    assert [r] + [q] == [r, q] && [r][1..] == [] && [q][1..] == [];
    assert RecordAll(l, [r]) == Record(l, r);
    var m := Record(l, r).value;
    assert RecordAll(m, [q]) == Record(m, q);
  }

  /** The two reports of one match, read against the ledger. */
  lemma MatchFirstRecords(l: Ledger, c: Sides, t: Taker, remains: nat)
    requires SoundSides(c, t.oid) && CanMatch(c, t, remains) && TalliesTaking(l, c, t, remains)
    ensures var out := MatchFirst(c, t, remains); var n := RecordAll(l, out.responses);
            var m := c.Of(Opposite(t.side))[0]; var left := m.qty - Min(remains, m.qty);
            && n.Some? && n.value.Keys == l.Keys && OnlyTicker(l, n.value, t.ticker) && m.oid < t.oid
            && forall oid: nat :: LedgerClaim(n.value, (t.ticker, oid)) ==
                 if oid == t.oid then TakerClaim(t, out.remains)
                 else if oid == m.oid then BookClaim(if left == 0 then None else Some(m.(qty := left)))
                 else LedgerClaim(l, (t.ticker, oid))
  {
    hide SoundSides, Record, RecordAll, LedgerClaim, Find;
    var rs := MatchFirst(c, t, remains).responses;
    var m := c.Of(Opposite(t.side))[0];
    FirstResting(c, Opposite(t.side), t.oid);
    MatchFirstFind(c, t, remains, t.oid, 0);
    assert LedgerClaim(l, (t.ticker, t.oid)) == TakerClaim(t, remains);
    assert LedgerClaim(l, (t.ticker, m.oid)) == BookClaim(Some(m));
    RecordFill(l, rs[0], TakerClaim(t, remains).value);
    var l1 := Record(l, rs[0]).value;
    RecordFill(l1, rs[1], BookClaim(Some(m)).value);
    RecordAll2(l, rs[0], rs[1]);
    assert rs == [rs[0], rs[1]];
    OnlyTickerTrans(l, l1, Record(l1, rs[1]).value, t.ticker);
  }

  lemma MatchFirstTallies(l: Ledger, c: Sides, t: Taker, remains: nat)
    requires SoundSides(c, t.oid) && CanMatch(c, t, remains) && TalliesTaking(l, c, t, remains)
    ensures var out := MatchFirst(c, t, remains); var m := RecordAll(l, out.responses);
            m.Some? && TalliesTaking(m.value, out.sides, t, out.remains) && OnlyTicker(l, m.value, t.ticker)
  {
    hide SoundSides, MatchFirst, RecordAll, LedgerClaim, Find;
    MatchFirstRecords(l, c, t, remains);
    var out := MatchFirst(c, t, remains);
    var n := RecordAll(l, out.responses).value;
    forall oid: nat
      ensures LedgerClaim(n, (t.ticker, oid)) ==
              if oid == t.oid then TakerClaim(t, out.remains) else BookClaim(Find(out.sides, oid))
    {
      MatchFirstFind(c, t, remains, t.oid, oid);
      assert LedgerClaim(l, (t.ticker, oid))
          == if oid == t.oid then TakerClaim(t, remains) else BookClaim(Find(c, oid));
    }
  }

  lemma OnlyTickerTrans(l: Ledger, m: Ledger, n: Ledger, ticker: nat)
    requires OnlyTicker(l, m, ticker) && OnlyTicker(m, n, ticker)
    ensures OnlyTicker(l, n, ticker)
  {
  }

  lemma {:induction false} FindMatchTallies(l: Ledger, c: Sides, t: Taker, remains: nat)
    requires SoundSides(c, t.oid) && TalliesTaking(l, c, t, remains)
    ensures var out := FindMatch(c, t, remains); var m := RecordAll(l, out.responses);
            m.Some? && TalliesTaking(m.value, out.sides, t, out.remains) && OnlyTicker(l, m.value, t.ticker)
    decreases remains, |c.Of(Opposite(t.side))|
  {
    if CanMatch(c, t, remains) {
      var first := MatchFirst(c, t, remains);
      MatchFirstTallies(l, c, t, remains);
      MatchFirstSound(c, t, remains, t.oid);
      var m := RecordAll(l, first.responses).value;
      hide SoundSides, MatchFirst, RecordAll, TalliesTaking;
      FindMatchTallies(m, first.sides, t, first.remains);
      RecordConcat(l, first.responses, FindMatch(first.sides, t, first.remains).responses);
    }
  }

  /** No live order has the id of the newcomer. */
  lemma NewcomerUnknown(c: Sides, bound: nat)
    requires SoundSides(c, bound)
    ensures Find(c, bound).None? && FindIn(c.bids, bound).None? && FindIn(c.asks, bound).None?
  {
    SoundWellFormed(c, bound);
  }

  lemma RestFind(c: Sides, o: Order, oid: nat)
    requires SoundSides(c, o.oid)
    ensures Find(c.With(o.side, Place(c.Of(o.side), o)), oid) == if oid == o.oid then Some(o) else Find(c, oid)
  {
    NewcomerUnknown(c, o.oid);
    FindInPlace(c.Of(o.side), o, oid);
  }

  lemma RestTallies(l: Ledger, c: Sides, t: Taker, remains: nat)
    requires SoundSides(c, t.oid) && remains > 0 && TalliesTaking(l, c, t, remains)
    ensures Tallies(l, t.ticker, c.With(t.side, Place(c.Of(t.side), Rest(c, t, remains))), t.oid + 1)
  {
    var o := Rest(c, t, remains);
    var d := c.With(t.side, Place(c.Of(t.side), o));
    forall oid: nat
      ensures LedgerClaim(l, (t.ticker, oid)) == BookClaim(Find(d, oid))
    {
      RestFind(c, o, oid);
      assert LedgerClaim(l, (t.ticker, oid))
          == if oid == t.oid then TakerClaim(t, remains) else BookClaim(Find(c, oid));
    }
  }

  lemma AddTallies(l: Ledger, b: Book, r: Request)
    requires r.New? && Sound(b) && Tallies(l, r.ticker, b.sides, b.nextOid)
    ensures var (b', out) := Process(b, r); var m := RecordAll(l, out.responses);
            m.Some? && Tallies(m.value, r.ticker, b'.sides, b'.nextOid) && OnlyTicker(l, m.value, r.ticker)
  {
    var t := Taker(r.owner, r.ticker, b.nextOid, r.side, r.price);
    var accepted := Accepted(r.owner, r.ticker, t.oid, r.side, r.price, r.qty);
    var l1 := Record(l, accepted).value;
    NewcomerUnknown(b.sides, b.nextOid);
    assert forall oid: nat :: oid != t.oid ==> LedgerClaim(l1, (t.ticker, oid)) == LedgerClaim(l, (t.ticker, oid));
    FindMatchTallies(l1, b.sides, t, r.qty);
    FindMatchSound(b.sides, t, r.qty, b.nextOid);
    var m := FindMatch(b.sides, t, r.qty);
    var rs := [accepted] + m.responses;
    assert rs[1..] == m.responses;
    var l2 := RecordAll(l1, m.responses).value;
    if m.remains > 0 {
      RestTallies(l2, m.sides, t, m.remains);
    } else {
      NewcomerUnknown(m.sides, b.nextOid);
    }
  }

  lemma RecordCancel(l: Ledger, r: Response, x: Claim)
    requires r.Cancelled? && LedgerClaim(l, (r.ticker, r.oid)) == Some(x)
    requires r.owner == x.owner && r.side == x.side && x.limit == r.price && r.remain == x.open
    ensures var m := RecordAll(l, [r]);
            && m.Some? && m.value.Keys == l.Keys && OnlyTicker(l, m.value, r.ticker)
            && LedgerClaim(m.value, (r.ticker, r.oid)) == None
            && forall oid: nat | oid != r.oid ::
                 LedgerClaim(m.value, (r.ticker, oid)) == LedgerClaim(l, (r.ticker, oid))
  {
    assert [r][1..] == [];
  }

  lemma CancelTallies(l: Ledger, b: Book, r: Request)
    requires r.CancelOrder? && Sound(b) && Tallies(l, r.ticker, b.sides, b.nextOid)
    ensures var (b', out) := Process(b, r); var m := RecordAll(l, out.responses);
            m.Some? && Tallies(m.value, r.ticker, b'.sides, b'.nextOid) && OnlyTicker(l, m.value, r.ticker)
  {
    hide SoundSides, RecordAll, Find;
    var rs := Process(b, r).1.responses;
    if Locate(b.sides, r.owner).Some? {
      var (side, k) := Locate(b.sides, r.owner).value;
      var o := b.sides.Of(side)[k];
      assert Resting(o, side, b.nextOid) by { SoundOf(b.sides, side, b.nextOid); }
      CancelFind(b.sides, side, k, b.nextOid, 0);
      assert LedgerClaim(l, (r.ticker, o.oid)) == BookClaim(Some(o));
      RecordCancel(l, rs[0], BookClaim(Some(o)).value);
      assert rs == [rs[0]];
      forall oid: nat
        ensures LedgerClaim(RecordAll(l, rs).value, (r.ticker, oid)) == BookClaim(Find(Process(b, r).0.sides, oid))
      {
        CancelFind(b.sides, side, k, b.nextOid, oid);
        assert LedgerClaim(l, (r.ticker, oid)) == BookClaim(Find(b.sides, oid));
      }
    } else {
      RejectRecorded(l, rs[0]);
      assert rs == [rs[0]];
    }
  }

  lemma RejectRecorded(l: Ledger, r: Response)
    requires r.CancelRejected?
    ensures RecordAll(l, [r]) == Some(l)
  {
    assert [r][1..] == [];
  }

  ghost predicate TalliesAll(l: Ledger, books: seq<Book>) {
    forall t | 0 <= t < |books| :: Tallies(l, t, books[t].sides, books[t].nextOid)
  }

  lemma OtherTicker(l: Ledger, m: Ledger, ticker: nat, t: nat, c: Sides, bound: nat)
    requires OnlyTicker(l, m, ticker) && t != ticker && Tallies(l, t, c, bound)
    ensures Tallies(m, t, c, bound)
  {
    forall oid: nat
      ensures LedgerClaim(m, (t, oid)) == BookClaim(Find(c, oid))
    {
      assert LedgerClaim(l, (t, oid)) == BookClaim(Find(c, oid));
      assert (t, oid).0 != ticker;
    }
    forall oid: nat | oid >= bound
      ensures (t, oid) !in m
    {
      assert (t, oid).0 != ticker && (t, oid) !in l;
    }
  }

  /** Every run's responses obey the protocol, and what they leave open is exactly what rests. */
  lemma {:induction false} RunConserves(tickers: nat, requests: seq<Request>)
    requires Proper(tickers, requests)
    ensures var run := RunOf(tickers, requests); var l := RecordAll(map[], run.responses);
            l.Some? && TalliesAll(l.value, run.books)
    decreases requests
  {
    if requests != [] {
      var prior, last := requests[..|requests| - 1], requests[|requests| - 1];
      RunConserves(tickers, prior);
      RunSound(tickers, prior);
      var before, run := RunOf(tickers, prior), RunOf(tickers, requests);
      var l := RecordAll(map[], before.responses).value;
      var b := before.books[last.ticker];
      if last.New? {
        AddTallies(l, b, last);
      } else {
        CancelTallies(l, b, last);
      }
      var rs := Process(b, last).1.responses;
      RecordConcat(map[], before.responses, rs);
      var m := RecordAll(l, rs).value;
      forall t | 0 <= t < tickers
        ensures Tallies(m, t, run.books[t].sides, run.books[t].nextOid)
      {
        if t != last.ticker {
          OtherTicker(l, m, last.ticker, t, before.books[t].sides, before.books[t].nextOid);
        }
      }
    }
  }

  // ----- volumes

  function Volume(rs: seq<Response>, side: Side): nat {
    if rs == [] then 0
    else (if rs[0].Filled? && rs[0].side == side then rs[0].exec else 0) + Volume(rs[1..], side)
  }

  function Traded(us: seq<Update>): nat {
    if us == [] then 0 else (if us[0].Trade? then us[0].qty else 0) + Traded(us[1..])
  }

  lemma {:induction false} VolumeConcat(rs: seq<Response>, qs: seq<Response>, side: Side)
    ensures Volume(rs + qs, side) == Volume(rs, side) + Volume(qs, side)
  {
    if rs == [] {
      assert rs + qs == qs;
    } else {
      assert (rs + qs)[1..] == rs[1..] + qs;
      VolumeConcat(rs[1..], qs, side);
    }
  }

  lemma {:induction false} TradedConcat(us: seq<Update>, vs: seq<Update>)
    ensures Traded(us + vs) == Traded(us) + Traded(vs)
  {
    if us == [] {
      assert us + vs == vs;
    } else {
      assert (us + vs)[1..] == us[1..] + vs;
      TradedConcat(us[1..], vs);
    }
  }

  /** Both sides of a match report the traded volume. */
  ghost predicate Balanced(out: Outcome) {
    Volume(out.responses, Buy) == Volume(out.responses, Sell) == Traded(out.updates)
  }

  lemma MatchFirstBalanced(c: Sides, t: Taker, remains: nat)
    requires CanMatch(c, t, remains) && c.Of(Opposite(t.side))[0].side == Opposite(t.side)
    ensures var first := MatchFirst(c, t, remains);
            Balanced(first) && Traded(first.updates) == remains - first.remains
  {
    var first := MatchFirst(c, t, remains);
    var rs, us := first.responses, first.updates;
    assert rs == [rs[0]] + [rs[1]] && us == [us[0]] + [us[1]];
    VolumeConcat([rs[0]], [rs[1]], Buy);
    VolumeConcat([rs[0]], [rs[1]], Sell);
    TradedConcat([us[0]], [us[1]]);
    assert [rs[0]][1..] == [] && [rs[1]][1..] == [] && [us[0]][1..] == [] && [us[1]][1..] == [];
  }

  lemma {:induction false} FindMatchBalanced(c: Sides, t: Taker, remains: nat, bound: nat)
    requires SoundSides(c, bound)
    ensures Balanced(FindMatch(c, t, remains))
    ensures Traded(FindMatch(c, t, remains).updates) == remains - FindMatch(c, t, remains).remains
    decreases remains, |c.Of(Opposite(t.side))|
  {
    if CanMatch(c, t, remains) {
      var first := MatchFirst(c, t, remains);
      hide SoundSides, MatchFirst, Volume, Traded;
      var rs, us := first.responses, first.updates;
      FirstResting(c, Opposite(t.side), bound);
      MatchFirstBalanced(c, t, remains);
      MatchFirstSound(c, t, remains, bound);
      FindMatchBalanced(first.sides, t, first.remains, bound);
      var more := FindMatch(first.sides, t, first.remains);
      VolumeConcat(rs, more.responses, Buy);
      VolumeConcat(rs, more.responses, Sell);
      TradedConcat(us, more.updates);
    }
  }

  lemma Unfilled(r: Response, rs: seq<Response>, side: Side)
    requires !r.Filled?
    ensures Volume([r] + rs, side) == Volume(rs, side)
  {
    assert ([r] + rs)[1..] == rs;
  }

  lemma Untraded(us: seq<Update>, u: Update)
    requires !u.Trade?
    ensures Traded(us + [u]) == Traded(us)
  {
    TradedConcat(us, [u]);
    assert [u][1..] == [];
  }

  lemma AddBalanced(b: Book, r: Request)
    requires Sound(b) && r.New?
    ensures Balanced(Process(b, r).1)
  {
    var t := Taker(r.owner, r.ticker, b.nextOid, r.side, r.price);
    var m := FindMatch(b.sides, t, r.qty);
    FindMatchBalanced(b.sides, t, r.qty, b.nextOid);
    var accepted := Accepted(r.owner, r.ticker, t.oid, r.side, r.price, r.qty);
    Unfilled(accepted, m.responses, Buy);
    Unfilled(accepted, m.responses, Sell);
    if m.remains > 0 {
      var o := Rest(m.sides, t, m.remains);
      Untraded(m.updates, Announce(r.ticker, o));
    }
  }

  lemma ProcessBalanced(b: Book, r: Request)
    requires Sound(b)
    ensures Balanced(Process(b, r).1)
  {
    var out := Process(b, r).1;
    if r.New? {
      AddBalanced(b, r);
    } else {
      assert out.responses[1..] == [];
      assert out.updates == [] || out.updates[1..] == [];
    }
  }

  /** Over any run the bought, sold and published trade volumes are equal. */
  lemma {:induction false} RunBalanced(tickers: nat, requests: seq<Request>)
    requires Proper(tickers, requests)
    ensures var run := RunOf(tickers, requests);
            Volume(run.responses, Buy) == Volume(run.responses, Sell) == Traded(run.updates)
    decreases requests
  {
    if requests != [] {
      var prior, last := requests[..|requests| - 1], requests[|requests| - 1];
      var before := RunOf(tickers, prior);
      RunBalanced(tickers, prior);
      RunSound(tickers, prior);
      ProcessBalanced(before.books[last.ticker], last);
      var out := Process(before.books[last.ticker], last).1;
      VolumeConcat(before.responses, out.responses, Buy);
      VolumeConcat(before.responses, out.responses, Sell);
      TradedConcat(before.updates, out.updates);
    }
  }
}
