/**
 Replication: a client that applies the engine's updates in order holds exactly the engine's book.
 */
module Replication {
  import opened Types
  import opened Market
  import opened Exchange
  import opened ReachableBook

  /** An order as the market sees it. */
  function Public(o: Order): Order {
    o.(owner := Hidden)
  }

  function PublicSide(s: seq<Order>): (r: seq<Order>)
    ensures |r| == |s| && forall i | 0 <= i < |s| :: r[i] == Public(s[i])
  {
    seq(|s|, i requires 0 <= i < |s| => Public(s[i]))
  }

  /** The engine's book with the owners hidden: what every client should hold. */
  function PublicBook(c: Sides): Sides {
    Sides(PublicSide(c.bids), PublicSide(c.asks))
  }

  lemma {:induction false} PublicPlace(s: seq<Order>, o: Order)
    ensures PublicSide(Place(s, o)) == Place(PublicSide(s), Public(o))
  {
    if s != [] && !Better(o.side, o.price, s[0].price) {
      PublicPlace(s[1..], o);
      assert PublicSide(s)[1..] == PublicSide(s[1..]);
      assert PublicSide([s[0]] + Place(s[1..], o)) == [Public(s[0])] + PublicSide(Place(s[1..], o));
    }
  }

  lemma PublicWellFormed(c: Sides, bound: nat)
    requires SoundSides(c, bound)
    ensures WellFormed(PublicBook(c)) && Newest(PublicBook(c), bound)
  {
    SoundWellFormed(c, bound);
    var p := PublicBook(c);
    forall i, j | 0 <= i < j < |p.bids|
      ensures Ahead(Buy, p.bids[i], p.bids[j])
    {
      assert Ahead(Buy, c.bids[i], c.bids[j]);
    }
    forall i, j | 0 <= i < j < |p.asks|
      ensures Ahead(Sell, p.asks[i], p.asks[j])
    {
      assert Ahead(Sell, c.asks[i], c.asks[j]);
    }
  }

  /** The client's copy after position `k` of one side is edited in the engine. */
  lemma PublicEdits(c: Sides, side: Side, k: nat, qty: nat)
    requires k < |c.Of(side)|
    ensures var s := c.Of(side); var p := PublicBook(c);
            && PublicBook(c.With(side, s[k := s[k].(qty := qty)]))
               == p.With(side, p.Of(side)[k := p.Of(side)[k].(qty := qty)])
            && PublicBook(c.With(side, s[..k] + s[k + 1..]))
               == p.With(side, p.Of(side)[..k] + p.Of(side)[k + 1..])
  {
    var s, p := c.Of(side), PublicBook(c);
    assert PublicSide(s[..k] + s[k + 1..]) == p.Of(side)[..k] + p.Of(side)[k + 1..];
    assert PublicSide(s[k := s[k].(qty := qty)]) == p.Of(side)[k := p.Of(side)[k].(qty := qty)];
  }

  /** Cancelling position `k` of a sound book replicates. */
  lemma CancelReplicates(c: Sides, side: Side, k: nat, bound: nat, u: Update)
    requires SoundSides(c, bound) && k < |c.Of(side)|
    requires u.Cancel? && u.oid == c.Of(side)[k].oid && u.side == side && u.price == c.Of(side)[k].price
    ensures Fits(PublicBook(c), u)
    ensures Apply(PublicBook(c), u) == PublicBook(c.With(side, c.Of(side)[..k] + c.Of(side)[k + 1..]))
  {
    var p := PublicBook(c);
    PublicWellFormed(c, bound);
    EditAt(p, side, k, 0);
    PublicEdits(c, side, k, 0);
    assert p.Of(side)[k].oid == u.oid;
  }

  lemma ModifyReplicates(c: Sides, side: Side, k: nat, bound: nat, u: Update)
    requires SoundSides(c, bound) && k < |c.Of(side)|
    requires u.Modify? && u.oid == c.Of(side)[k].oid && u.side == side && u.price == c.Of(side)[k].price
    requires u.qty > 0
    ensures Fits(PublicBook(c), u)
    ensures Apply(PublicBook(c), u)
            == PublicBook(c.With(side, c.Of(side)[k := c.Of(side)[k].(qty := u.qty)]))
  {
    var p := PublicBook(c);
    PublicWellFormed(c, bound);
    EditAt(p, side, k, u.qty);
    PublicEdits(c, side, k, u.qty);
    assert p.Of(side)[k].oid == u.oid;
  }

  lemma Replay1(cs: seq<Sides>, u: Update)
    ensures Replay(cs, [u]) == ApplyAll(cs, u)
    ensures FitsAll(cs, u) ==> Legal(cs, [u])
  {
    assert [u][1..] == [];
  }

  lemma Replay2(cs: seq<Sides>, u: Update, v: Update)
    ensures Replay(cs, [u, v]) == ApplyAll(ApplyAll(cs, u), v)
    ensures FitsAll(cs, u) && FitsAll(ApplyAll(cs, u), v) ==> Legal(cs, [u, v])
  {
    assert [u, v] == [u] + [v];
    ReplayConcat(cs, [u], [v]);
    Replay1(cs, u);
    Replay1(ApplyAll(cs, u), v);
  }

  /** The trade report changes nothing; the CANCEL or MODIFY after it replicates the match. */
  lemma MatchUpdateReplicates(c: Sides, t: Taker, remains: nat, bound: nat)
    requires SoundSides(c, bound) && CanMatch(c, t, remains)
    ensures var out := MatchFirst(c, t, remains);
            && |out.updates| == 2 && out.updates[0].Trade? && out.updates[1].ticker == out.updates[0].ticker == t.ticker
            && (out.updates[1].Cancel? || out.updates[1].Modify?) && Fits(PublicBook(c), out.updates[1])
            && Apply(PublicBook(c), out.updates[1]) == PublicBook(out.sides)
  {
    hide SoundSides, PublicBook, Apply, Fits, Names;
    var out := MatchFirst(c, t, remains);
    var opp := Opposite(t.side);
    var s := c.Of(opp);
    FirstResting(c, opp, bound);
    var u := out.updates[1];
    if u.Cancel? {
      assert s[..0] + s[0 + 1..] == s[1..];
      CancelReplicates(c, opp, 0, bound, u);
    } else {
      assert s[0 := s[0].(qty := u.qty)] == [s[0].(qty := u.qty)] + s[1..];
      ModifyReplicates(c, opp, 0, bound, u);
    }
  }

  /** After each single match the client's copy is again the engine's book. */
  lemma MatchReplicates(cs: seq<Sides>, c: Sides, t: Taker, remains: nat, bound: nat)
    requires t.ticker < |cs| && cs[t.ticker] == PublicBook(c)
    requires SoundSides(c, bound) && CanMatch(c, t, remains)
    ensures var out := MatchFirst(c, t, remains);
            && Legal(cs, out.updates)
            && Replay(cs, out.updates) == cs[t.ticker := PublicBook(out.sides)]
  {
    hide SoundSides, PublicBook, Fits, MatchFirst, Legal, Replay, Apply;
    MatchUpdateReplicates(c, t, remains, bound);
    ReplayPair(cs, MatchFirst(c, t, remains).updates);
  }

  /** A trade report and an update of one ticker change that ticker's book by the update. */
  lemma ReplayPair(cs: seq<Sides>, us: seq<Update>)
    requires |us| == 2 && us[0].Trade? && (us[1].Cancel? || us[1].Modify?)
    requires us[0].ticker == us[1].ticker < |cs| && Fits(cs[us[1].ticker], us[1])
    ensures Legal(cs, us) && Replay(cs, us) == cs[us[1].ticker := Apply(cs[us[1].ticker], us[1])]
  {
    hide Legal, Replay, Apply;
    Replay2(cs, us[0], us[1]);
    assert us == [us[0], us[1]];
    SameBook(cs, us[0]);
  }

  lemma SameBook(cs: seq<Sides>, u: Update)
    requires u.Trade? && u.ticker < |cs|
    ensures ApplyAll(cs, u) == cs && FitsAll(cs, u)
  {
  }

  lemma {:induction false} FindMatchReplicates(cs: seq<Sides>, c: Sides, t: Taker, remains: nat, bound: nat)
    requires t.ticker < |cs| && cs[t.ticker] == PublicBook(c) && SoundSides(c, bound)
    ensures var out := FindMatch(c, t, remains);
            && Legal(cs, out.updates)
            && Replay(cs, out.updates) == cs[t.ticker := PublicBook(out.sides)]
    decreases remains, |c.Of(Opposite(t.side))|
  {
    if CanMatch(c, t, remains) {
      var first := MatchFirst(c, t, remains);
      hide SoundSides, MatchFirst, Legal, Replay, PublicBook;
      MatchReplicates(cs, c, t, remains, bound);
      MatchFirstSound(c, t, remains, bound);
      var cs' := cs[t.ticker := PublicBook(first.sides)];
      FindMatchReplicates(cs', first.sides, t, first.remains, bound);
      ReplayConcat(cs, first.updates, FindMatch(first.sides, t, first.remains).updates);
    }
  }

  /** The ADD for what is left of an order replicates. */
  lemma RestReplicates(c: Sides, o: Order, ticker: nat)
    requires SoundSides(c, o.oid) && o.qty > 0
    ensures var u := Announce(ticker, o);
            && Fits(PublicBook(c), u)
            && Apply(PublicBook(c), u) == PublicBook(c.With(o.side, Place(c.Of(o.side), o)))
  {
    PublicWellFormed(c, o.oid);
    PublicPlace(c.Of(o.side), o);
  }

  /** One request: its updates fit the clients' books and carry them to the engine's new book. */
  lemma ProcessReplicates(cs: seq<Sides>, b: Book, r: Request)
    requires r.ticker < |cs| && cs[r.ticker] == PublicBook(b.sides) && Sound(b) && Admissible(b, r)
    ensures var (b', out) := Process(b, r);
            Legal(cs, out.updates) && Replay(cs, out.updates) == cs[r.ticker := PublicBook(b'.sides)]
  {
    if r.New? {
      AddReplicates(cs, b, r);
    } else if Locate(b.sides, r.owner).Some? {
      var (side, k) := Locate(b.sides, r.owner).value;
      var u := Process(b, r).1.updates[0];
      assert Resting(b.sides.Of(side)[k], side, b.nextOid);
      CancelReplicates(b.sides, side, k, b.nextOid, u);
      Replay1(cs, u);
    }
  }

  lemma AddReplicates(cs: seq<Sides>, b: Book, r: Request)
    requires r.New? && r.ticker < |cs| && cs[r.ticker] == PublicBook(b.sides) && Sound(b)
    ensures var (b', out) := Process(b, r);
            Legal(cs, out.updates) && Replay(cs, out.updates) == cs[r.ticker := PublicBook(b'.sides)]
  {
    hide SoundSides, FindMatch, Legal, Replay, Place, PublicBook;
    var t := Taker(r.owner, r.ticker, b.nextOid, r.side, r.price);
    FindMatchSound(b.sides, t, r.qty, b.nextOid);
    FindMatchReplicates(cs, b.sides, t, r.qty, b.nextOid);
    var m := FindMatch(b.sides, t, r.qty);
    if m.remains > 0 {
      var o := Rest(m.sides, t, m.remains);
      var u := Announce(r.ticker, o);
      RestReplicates(m.sides, o, r.ticker);
      var cs' := cs[r.ticker := PublicBook(m.sides)];
      Replay1(cs', u);
      ReplayConcat(cs, m.updates, [u]);
    }
  }

  // ----- whole runs of an engine with one book per ticker

  datatype Run = Run(books: seq<Book>, responses: seq<Response>, updates: seq<Update>)

  function Advance(run: Run, r: Request): (n: Run)
    ensures |n.books| == |run.books|
  {
    if r.ticker >= |run.books| then run
    else
      var (b, out) := Process(run.books[r.ticker], r);
      Run(run.books[r.ticker := b], run.responses + out.responses, run.updates + out.updates)
  }

  /** The engine after these requests, from empty books. */
  function RunOf(tickers: nat, requests: seq<Request>): (run: Run)
    ensures |run.books| == tickers
    decreases requests
  {
    if requests == [] then Run(seq(tickers, _ => NEW_BOOK), [], [])
    else Advance(RunOf(tickers, requests[..|requests| - 1]), requests[|requests| - 1])
  }

  /** Every request names a ticker of the engine and was admissible when it arrived. */
  ghost predicate Proper(tickers: nat, requests: seq<Request>)
    decreases requests
  {
    requests == [] ||
    var prior, last := requests[..|requests| - 1], requests[|requests| - 1];
    && Proper(tickers, prior)
    && last.ticker < tickers
    && Admissible(RunOf(tickers, prior).books[last.ticker], last)
  }

  function PublicBooks(books: seq<Book>): (r: seq<Sides>)
    ensures |r| == |books| && forall t | 0 <= t < |books| :: r[t] == PublicBook(books[t].sides)
  {
    seq(|books|, t requires 0 <= t < |books| => PublicBook(books[t].sides))
  }

  lemma {:induction false} RunSound(tickers: nat, requests: seq<Request>)
    requires Proper(tickers, requests)
    ensures forall t | 0 <= t < tickers :: Sound(RunOf(tickers, requests).books[t])
    decreases requests
  {
    if requests != [] {
      var prior, last := requests[..|requests| - 1], requests[|requests| - 1];
      RunSound(tickers, prior);
      ProcessSound(RunOf(tickers, prior).books[last.ticker], last);
    }
  }

  /** After any run of requests, fresh clients that applied every update hold the engine's books. */
  lemma {:induction false} RunReplicates(tickers: nat, requests: seq<Request>)
    requires Proper(tickers, requests)
    ensures Legal(Fresh(tickers), RunOf(tickers, requests).updates)
    ensures Replay(Fresh(tickers), RunOf(tickers, requests).updates) == PublicBooks(RunOf(tickers, requests).books)
    decreases requests
  {
    if requests == [] {
      assert Fresh(tickers) == PublicBooks(RunOf(tickers, requests).books);
    } else {
      var prior, last := requests[..|requests| - 1], requests[|requests| - 1];
      RunReplicates(tickers, prior);
      RunSound(tickers, prior);
      var before := RunOf(tickers, prior);
      AdvanceReplicates(before, last);
      ReplayConcat(Fresh(tickers), before.updates, Process(before.books[last.ticker], last).1.updates);
    }
  }

  lemma AdvanceReplicates(before: Run, r: Request)
    requires r.ticker < |before.books| && Sound(before.books[r.ticker]) && Admissible(before.books[r.ticker], r)
    ensures var us := Process(before.books[r.ticker], r).1.updates;
            && Legal(PublicBooks(before.books), us)
            && Replay(PublicBooks(before.books), us) == PublicBooks(Advance(before, r).books)
  {
    var (b, out) := Process(before.books[r.ticker], r);
    ProcessReplicates(PublicBooks(before.books), before.books[r.ticker], r);
    assert PublicBooks(before.books)[r.ticker := PublicBook(b.sides)] == PublicBooks(Advance(before, r).books);
  }
}
