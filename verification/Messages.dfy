/**
 What one request makes the engine say and do, message by message, without running the matching
 loop: how many resting orders trade, both reports and both updates of each, what is announced,
 and the book afterwards.
 */
module Messages {
  import opened Types
  import opened Market
  import opened Exchange
  import opened ReachableBook
  import opened Replication
  import opened PriceTime

  // ----- the matching loop

  /** A resting price is acceptable to an incoming order of this side and limit. */
  predicate Within(side: Side, limit: int, price: int) {
    match side
    case Buy => price <= limit
    case Sell => price >= limit
  }

  /** The first `k` orders trade: each is within the limit and something is left for it, and for no other. */
  ghost predicate Trades(s: seq<Order>, t: Taker, qty: nat, k: nat) {
    && k <= |s|
    && (forall i | 0 <= i < k :: Within(t.side, t.price, s[i].price) && Total(s, i) < qty)
    && (k < |s| ==> !Within(t.side, t.price, s[k].price) || Total(s, k) >= qty)
  }

  /** What trades with order `i`. */
  function Exec(s: seq<Order>, qty: nat, i: nat): nat
    requires i < |s| && Total(s, i) <= qty
  {
    if qty - Total(s, i) < s[i].qty then qty - Total(s, i) else s[i].qty
  }

  /** The reports of the trade with order `i`: the incoming order's, then the resting order's. */
  ghost predicate Reported(s: seq<Order>, t: Taker, qty: nat, rs: seq<Response>, i: nat)
    requires i < |s| && Total(s, i) <= qty && 2 * i + 1 < |rs|
  {
    var o, exec := s[i], Exec(s, qty, i);
    && rs[2 * i] == Filled(t.owner, t.ticker, t.oid, t.side, o.price, exec, qty - Total(s, i) - exec)
    && rs[2 * i + 1] == Filled(o.owner, t.ticker, o.oid, o.side, o.price, exec, o.qty - exec)
  }

  /** The updates of the trade with order `i`: the trade, then the resting order's end or what is left of it. */
  ghost predicate Published(s: seq<Order>, t: Taker, qty: nat, us: seq<Update>, i: nat)
    requires i < |s| && Total(s, i) <= qty && 2 * i + 1 < |us|
  {
    var o, exec := s[i], Exec(s, qty, i);
    && us[2 * i] == Trade(t.ticker, t.side, o.price, exec)
    && us[2 * i + 1] == if exec == o.qty then Update.Cancel(t.ticker, o.oid, o.side, o.price, o.qty, PRIORITY_INVALID)
                        else Modify(t.ticker, o.oid, o.side, o.price, o.qty - exec, o.priority)
  }

  /** What the opposite side keeps: the orders that did not trade, and what is left of the last that did. */
  function Kept(s: seq<Order>, qty: nat, k: nat): seq<Order>
    requires k <= |s|
  {
    if k > 0 && Total(s, k) > qty then [s[k - 1].(qty := Total(s, k) - qty)] + s[k..] else s[k..]
  }

  /** The whole outcome of matching, with `k` orders traded. */
  ghost predicate MatchSays(c: Sides, t: Taker, qty: nat, out: Outcome, k: nat) {
    var s := c.Of(Opposite(t.side));
    && Trades(s, t, qty, k)
    && |out.responses| == |out.updates| == 2 * k
    && (forall i | 0 <= i < k :: Reported(s, t, qty, out.responses, i) && Published(s, t, qty, out.updates, i))
    && out.remains == (if Total(s, k) > qty then 0 else qty - Total(s, k))
    && out.sides == c.With(Opposite(t.side), Kept(s, qty, k))
  }

  /** The first order of a side, taken completely or not, reports as position 0. */
  lemma FirstMessages(c: Sides, t: Taker, qty: nat)
    requires CanMatch(c, t, qty)
    ensures var s, first := c.Of(Opposite(t.side)), MatchFirst(c, t, qty);
            && Total(s, 0) == 0 && Total(s, 1) == s[0].qty
            && |first.responses| == |first.updates| == 2
            && Reported(s, t, qty, first.responses, 0) && Published(s, t, qty, first.updates, 0)
            && first.remains == (if s[0].qty > qty then 0 else qty - s[0].qty)
            && first.sides == c.With(Opposite(t.side), Kept(s, qty, 1))
  {
    var s := c.Of(Opposite(t.side));
    assert Total(s, 1) == s[0].qty + Total(s, 0);
  }

  /** Behind a first order that was taken completely, every position moves up by one. */
  lemma LaterMessages(s: seq<Order>, t: Taker, qty: nat, rs: seq<Response>, us: seq<Update>,
                      rs': seq<Response>, us': seq<Update>, i: nat)
    requires 0 < i < |s| && s[0].qty <= qty && Total(s, i) <= qty && Total(s[1..], i - 1) <= qty - s[0].qty
    requires |rs| == |us| == 2 && 2 * i - 1 < |rs'| && 2 * i - 1 < |us'|
    requires Reported(s[1..], t, qty - s[0].qty, rs', i - 1) && Published(s[1..], t, qty - s[0].qty, us', i - 1)
    ensures Reported(s, t, qty, rs + rs', i) && Published(s, t, qty, us + us', i)
  {
    TotalTail(s, i);
    assert (rs + rs')[2 * i] == rs'[2 * (i - 1)] && (rs + rs')[2 * i + 1] == rs'[2 * (i - 1) + 1];
    assert (us + us')[2 * i] == us'[2 * (i - 1)] && (us + us')[2 * i + 1] == us'[2 * (i - 1) + 1];
  }

  /** Totals behind a first order. */
  lemma TotalsTail(s: seq<Order>)
    requires s != []
    ensures forall i | 0 < i <= |s| :: Total(s, i) == s[0].qty + Total(s[1..], i - 1)
  {
    forall i | 0 < i <= |s|
      ensures Total(s, i) == s[0].qty + Total(s[1..], i - 1)
    {
      TotalTail(s, i);
    }
  }

  lemma TradesTail(s: seq<Order>, t: Taker, qty: nat, n: nat)
    requires s != [] && 0 < qty && s[0].qty <= qty && Within(t.side, t.price, s[0].price)
    requires Trades(s[1..], t, qty - s[0].qty, n)
    ensures Trades(s, t, qty, n + 1)
  {
    hide Within, Total;
    NoTotal(s);
    TotalsTail(s);
    forall i | 0 <= i < n + 1
      ensures Within(t.side, t.price, s[i].price) && Total(s, i) < qty
    {
      if i > 0 {
        assert s[i] == s[1..][i - 1];
      }
    }
  }

  lemma KeptTail(s: seq<Order>, qty: nat, n: nat)
    requires n < |s| && s[0].qty <= qty
    ensures Total(s, n + 1) == s[0].qty + Total(s[1..], n)
    ensures Kept(s, qty, n + 1) == Kept(s[1..], qty - s[0].qty, n)
  {
    hide Total;
    NoTotal(s[1..]);
    TotalsTail(s);
  }

  lemma NoTotal(s: seq<Order>)
    ensures Total(s, 0) == 0
  {
  }

  /** A first order that was taken completely, and then what the rest of the matching says. */
  lemma FullMessages(c: Sides, t: Taker, qty: nat, more: Outcome, n: nat)
    requires CanMatch(c, t, qty) && c.Of(Opposite(t.side))[0].qty <= qty
    requires var first := MatchFirst(c, t, qty); MatchSays(first.sides, t, first.remains, more, n)
    ensures var first := MatchFirst(c, t, qty);
            MatchSays(c, t, qty, Outcome(more.sides, more.remains, first.responses + more.responses,
                                         first.updates + more.updates), n + 1)
  {
    hide Published, Reported, MatchFirst, Total, Trades, Kept;
    var s, first := c.Of(Opposite(t.side)), MatchFirst(c, t, qty);
    FirstMessages(c, t, qty);
    FirstKept(s, qty);
    TradesTail(s, t, qty, n);
    TradesBelow(s, t, qty, n + 1);
    KeptTail(s, qty, n);
    TradesBelow(s[1..], t, qty - s[0].qty, n);
    forall i | 0 <= i < n + 1
      ensures Reported(s, t, qty, first.responses + more.responses, i)
      ensures Published(s, t, qty, first.updates + more.updates, i)
    {
      if i == 0 {
        FirstOf(s, t, qty, first, more);
      } else {
        LaterMessages(s, t, qty, first.responses, first.updates, more.responses, more.updates, i);
      }
    }
  }

  ghost predicate TradesWithin(s: seq<Order>, t: Taker, qty: nat, k: nat) {
    k <= |s| && forall i | 0 <= i < k :: Total(s, i) <= qty
  }

  lemma TradesBelow(s: seq<Order>, t: Taker, qty: nat, k: nat)
    requires Trades(s, t, qty, k)
    ensures TradesWithin(s, t, qty, k)
  {
  }

  lemma FirstKept(s: seq<Order>, qty: nat)
    requires s != [] && s[0].qty <= qty
    ensures Kept(s, qty, 1) == s[1..]
  {
    assert Total(s, 1) == s[0].qty + Total(s, 0);
  }

  lemma FirstOf(s: seq<Order>, t: Taker, qty: nat, first: Outcome, more: Outcome)
    requires s != [] && |first.responses| == |first.updates| == 2
    requires Reported(s, t, qty, first.responses, 0) && Published(s, t, qty, first.updates, 0)
    ensures Reported(s, t, qty, first.responses + more.responses, 0)
    ensures Published(s, t, qty, first.updates + more.updates, 0)
  {
  }

  /** A first order that takes all there is. */
  lemma LastMessages(c: Sides, t: Taker, qty: nat)
    requires CanMatch(c, t, qty) && c.Of(Opposite(t.side))[0].qty > qty
    ensures MatchSays(c, t, qty, FindMatch(c, t, qty), 1)
  {
    hide Published, Reported, MatchFirst;
    var s, first := c.Of(Opposite(t.side)), MatchFirst(c, t, qty);
    FirstMessages(c, t, qty);
    assert FindMatch(first.sides, t, 0) == Outcome(first.sides, 0, [], []);
    assert first.responses + [] == first.responses && first.updates + [] == first.updates;
  }

  /** Every message and the book that matching leaves, whatever the sides hold. */
  lemma {:induction false} MatchMessages(c: Sides, t: Taker, qty: nat) returns (k: nat)
    ensures MatchSays(c, t, qty, FindMatch(c, t, qty), k)
    decreases qty, |c.Of(Opposite(t.side))|
  {
    if !CanMatch(c, t, qty) {
      k := 0;
    } else if c.Of(Opposite(t.side))[0].qty > qty {
      k := 1;
      LastMessages(c, t, qty);
    } else {
      hide MatchSays;
      var first := MatchFirst(c, t, qty);
      k := MatchMessages(first.sides, t, first.remains);
      FullMessages(c, t, qty, FindMatch(first.sides, t, first.remains), k);
      k := k + 1;
    }
  }

  // ----- a new order

  /** A resting price is as good as another for the orders of its side. */
  predicate AsGood(side: Side, price: int, other: int) {
    match side
    case Buy => price >= other
    case Sell => price <= other
  }

  /** `o` is placed behind the orders of a price as good as its own, ahead of the worse ones. */
  ghost predicate Queued(s: seq<Order>, o: Order, r: seq<Order>) {
    exists j ::
      && 0 <= j <= |s| && r == s[..j] + [o] + s[j..]
      && (forall i | 0 <= i < j :: AsGood(o.side, s[i].price, o.price))
      && (forall i | j <= i < |s| :: !AsGood(o.side, s[i].price, o.price))
  }

  /** One more than every priority at a price, and no more than that; 1 where nothing rests. */
  ghost predicate NextIn(s: seq<Order>, price: int, priority: nat) {
    && (forall i | 0 <= i < |s| && s[i].price == price :: s[i].priority < priority)
    && (priority == 1 || exists i :: 0 <= i < |s| && s[i].price == price && s[i].priority + 1 == priority)
    && ((forall i | 0 <= i < |s| :: s[i].price != price) ==> priority == 1)
  }

  /**
   All of a new order: it is accepted under the next id, then `k` trades are reported and published as `m` has
   them, and what is left rests under the next priority of its price and is announced.
   */
  ghost predicate NewSays(b: Book, r: Request, b': Book, out: Outcome, k: nat, m: Outcome, priority: nat)
    requires r.New?
  {
    var s := b.sides.Of(r.side);
    && MatchSays(b.sides, Taker(r.owner, r.ticker, b.nextOid, r.side, r.price), r.qty, m, k)
    && out.responses == [Accepted(r.owner, r.ticker, b.nextOid, r.side, r.price, r.qty)] + m.responses
    && b'.nextOid == b.nextOid + 1
    && b'.sides.Of(Opposite(r.side)) == m.sides.Of(Opposite(r.side))
    && if m.remains == 0 then out.updates == m.updates && b'.sides.Of(r.side) == s
       else
         && out.updates == m.updates + [Add(r.ticker, b.nextOid, r.side, r.price, m.remains, priority)]
         && NextIn(s, r.price, priority)
         && Queued(s, Order(r.owner, b.nextOid, r.side, r.price, m.remains, priority), b'.sides.Of(r.side))
  }

  lemma PlaceQueues(s: seq<Order>, o: Order, bound: nat)
    requires SoundSide(s, o.side, bound)
    ensures Queued(s, o, Place(s, o))
  {
    PlaceAt(s, o);
    var j := Rank(s, o);
    forall i | j <= i < |s|
      ensures Better(o.side, o.price, s[i].price)
    {
      assert i == j || Before(o.side, s[j], s[i]);
    }
    assert Place(s, o) == s[..j] + [o] + s[j..];
  }

  lemma RestQueues(c: Sides, t: Taker, remains: nat)
    requires SoundSides(c, t.oid) && remains > 0 && !CanMatch(c, t, remains)
    ensures NextIn(c.Of(t.side), t.price, NextPriority(c, t.price))
    ensures Queued(c.Of(t.side), Rest(c, t, remains), Place(c.Of(t.side), Rest(c, t, remains)))
  {
    NextPriorityLast(c, t, remains, t.oid);
    SoundOf(c, t.side, t.oid);
    PlaceQueues(c.Of(t.side), Rest(c, t, remains), t.oid);
  }

  /** Every message of a new order, and the book afterwards. */
  lemma NewMessages(b: Book, r: Request) returns (k: nat, m: Outcome, priority: nat)
    requires Sound(b) && r.New?
    ensures var (b', out) := Process(b, r); NewSays(b, r, b', out, k, m, priority)
  {
    hide FindMatch, MatchSays, Queued, NextIn, SoundSides, CanMatch, NextPriority, Place;
    var t := Taker(r.owner, r.ticker, b.nextOid, r.side, r.price);
    FindMatchSound(b.sides, t, r.qty, b.nextOid);
    k := MatchMessages(b.sides, t, r.qty);
    m := FindMatch(b.sides, t, r.qty);
    priority := NextPriority(m.sides, t.price);
    if m.remains > 0 {
      RestQueues(m.sides, t, m.remains);
    }
  }

  // ----- a cancel

  /** The owner's live order leaves, is confirmed with what was left of it, and is published with quantity 0. */
  ghost predicate CancelSays(b: Book, r: Request, b': Book, out: Outcome, side: Side, k: nat)
    requires r.CancelOrder? && k < |b.sides.Of(side)|
  {
    var s := b.sides.Of(side);
    && s[k].owner == r.owner
    && out.responses == [Cancelled(r.owner, r.ticker, s[k].oid, side, s[k].price, s[k].qty)]
    && out.updates == [Update.Cancel(r.ticker, s[k].oid, side, s[k].price, 0, s[k].priority)]
    && b' == Book(b.sides.With(side, s[..k] + s[k + 1..]), b.nextOid)
  }

  /** The request is rejected and nothing is published. */
  predicate RejectSays(b: Book, r: Request, b': Book, out: Outcome)
    requires r.CancelOrder?
  {
    b' == b && out.responses == [CancelRejected(r.owner, r.ticker)] && out.updates == []
  }

  lemma CancelMessages(b: Book, r: Request, side: Side, k: nat)
    requires Sound(b) && r.CancelOrder? && k < |b.sides.Of(side)| && b.sides.Of(side)[k].owner == r.owner
    ensures var (b', out) := Process(b, r); CancelSays(b, r, b', out, side, k)
  {
    LocateOwned(b.sides, b.nextOid, side, k);
    assert Resting(b.sides.Of(side)[k], side, b.nextOid);
  }

  // ----- every request of every run

  /** What the engine says and does on a request, in each of the three cases. */
  ghost predicate Says(b: Book, r: Request, b': Book, out: Outcome) {
    if r.New? then exists k, m, priority :: NewSays(b, r, b', out, k, m, priority)
    else if Owns(b.sides, r.owner) then
      exists side, k :: 0 <= k < |b.sides.Of(side)| && CancelSays(b, r, b', out, side, k)
    else RejectSays(b, r, b', out)
  }

  lemma ProcessMessages(b: Book, r: Request)
    requires Sound(b)
    ensures var (b', out) := Process(b, r); Says(b, r, b', out)
  {
    hide NewSays, CancelSays;
    var (b', out) := Process(b, r);
    if r.New? {
      var k, m, priority := NewMessages(b, r);
      assert NewSays(b, r, b', out, k, m, priority);
    } else if Owns(b.sides, r.owner) {
      var (side, k) := Locate(b.sides, r.owner).value;
      CancelMessages(b, r, side, k);
      assert CancelSays(b, r, b', out, side, k);
    }
  }

  /** How many new orders were asked for on a ticker. */
  function News(requests: seq<Request>, ticker: nat): nat {
    if requests == [] then 0
    else
      var last := requests[|requests| - 1];
      News(requests[..|requests| - 1], ticker) + if last.New? && last.ticker == ticker then 1 else 0
  }

  /** Ids are given out one by one: the next is one more than the new orders of the ticker so far. */
  lemma {:induction false} NextIsCounted(tickers: nat, requests: seq<Request>, ticker: nat)
    requires ticker < tickers
    ensures RunOf(tickers, requests).books[ticker].nextOid == 1 + News(requests, ticker)
    decreases requests
  {
    hide FindMatch;
    if requests != [] {
      NextIsCounted(tickers, requests[..|requests| - 1], ticker);
    }
  }

  /** The messages that the last request of a run added to the run's. */
  ghost predicate Adds(before: Run, r: Request, after: Run, out: Outcome)
    requires r.ticker < |before.books| == |after.books|
  {
    && after.responses == before.responses + out.responses && after.updates == before.updates + out.updates
    && after.books == before.books[r.ticker := after.books[r.ticker]]
    && Says(before.books[r.ticker], r, after.books[r.ticker], out)
  }

  /**
   In every run, every request adds exactly the messages described above to the run's, under the id that counts
   the ticker's new orders, and changes the book of its ticker as described and no other.
   */
  lemma RunMessages(tickers: nat, requests: seq<Request>) returns (out: Outcome)
    requires Proper(tickers, requests) && requests != []
    ensures var n, r := |requests| - 1, requests[|requests| - 1];
            var before := RunOf(tickers, requests[..n]);
            && before.books[r.ticker].nextOid == 1 + News(requests[..n], r.ticker)
            && Adds(before, r, RunOf(tickers, requests), out)
  {
    hide Says, Sound, Process;
    var n, r := |requests| - 1, requests[|requests| - 1];
    var before := RunOf(tickers, requests[..n]);
    RunSound(tickers, requests[..n]);
    NextIsCounted(tickers, requests[..n], r.ticker);
    ProcessMessages(before.books[r.ticker], r);
    out := Process(before.books[r.ticker], r).1;
  }

  /** In every run every bid is below every ask, and each side stands by price and then by age. */
  lemma RunSorted(tickers: nat, requests: seq<Request>, ticker: nat, side: Side, i: nat, j: nat)
    requires Proper(tickers, requests) && ticker < tickers
    ensures var c := RunOf(tickers, requests).books[ticker].sides; var s := c.Of(side);
            && (i < |s| ==> s[i].side == side && s[i].qty > 0 && s[i].owner.Client?)
            && (i < j < |s| ==>
                  && AsGood(side, s[i].price, s[j].price)
                  && (s[i].price == s[j].price ==> s[i].oid < s[j].oid && s[i].priority < s[j].priority)
                  && s[i].oid != s[j].oid && s[i].owner != s[j].owner)
            && (i < |c.bids| && j < |c.asks| ==>
                  && c.bids[i].price < c.asks[j].price
                  && c.bids[i].oid != c.asks[j].oid && c.bids[i].owner != c.asks[j].owner)
  {
    RunSound(tickers, requests);
    var b := RunOf(tickers, requests).books[ticker];
    hide RunOf, Proper;
    var c, bound := b.sides, b.nextOid;
    var s := c.Of(side);
    SoundOf(c, side, bound);
    if i < |s| {
      assert Resting(s[i], side, bound);
    }
    if i < j < |s| {
      assert Before(side, s[i], s[j]);
    }
    if i < |c.bids| && j < |c.asks| {
      assert Strangers(c.bids[i], c.asks[j]);
      assert i == 0 || Before(Buy, c.bids[0], c.bids[i]);
      assert j == 0 || Before(Sell, c.asks[0], c.asks[j]);
    }
  }

  // ----- where a resting order comes from

  /** `o` is `p`, or what is left of it. */
  predicate LeftOf(o: Order, p: Order) {
    o == p.(qty := o.qty) && o.qty <= p.qty
  }

  /** An order that a NEW request asked for, or what is left of it. */
  predicate AskedBy(o: Order, r: Request, oid: nat) {
    r.New? && o.owner == r.owner && o.oid == oid && o.side == r.side && o.price == r.price && o.qty <= r.qty
  }

  /** The order was on this side before, or is the one asked for. */
  ghost predicate Descends(o: Order, side: Side, b: Book, r: Request) {
    || (exists j :: 0 <= j < |b.sides.Of(side)| && LeftOf(o, b.sides.Of(side)[j]))
    || (AskedBy(o, r, b.nextOid) && side == r.side)
  }

  lemma StillThere(o: Order, side: Side, b: Book, r: Request, j: nat)
    requires j < |b.sides.Of(side)| && LeftOf(o, b.sides.Of(side)[j])
    ensures Descends(o, side, b, r)
  {
  }

  lemma KeptAt(s: seq<Order>, qty: nat, k: nat, i: nat) returns (j: nat)
    requires k <= |s| && i < |Kept(s, qty, k)| && (k > 0 ==> Total(s, k - 1) <= qty)
    ensures j < |s| && LeftOf(Kept(s, qty, k)[i], s[j])
  {
    var cut := k > 0 && Total(s, k) > qty;
    j := if cut then i + k - 1 else i + k;
    if cut && i == 0 {
      assert Total(s, k) == Total(s, k - 1) + s[k - 1].qty;
    }
  }

  /** The opposite side after a new order holds only what it held before, or what is left of it. */
  lemma OppositeDescends(b: Book, r: Request, m: Outcome, k: nat, i: nat)
    requires r.New? && MatchSays(b.sides, Taker(r.owner, r.ticker, b.nextOid, r.side, r.price), r.qty, m, k)
    requires i < |m.sides.Of(Opposite(r.side))|
    ensures Descends(m.sides.Of(Opposite(r.side))[i], Opposite(r.side), b, r)
  {
    hide Reported, Published, Total, Kept, Descends;
    var s := b.sides.Of(Opposite(r.side));
    assert m.sides.Of(Opposite(r.side)) == Kept(s, r.qty, k);
    TradesBelow(s, Taker(r.owner, r.ticker, b.nextOid, r.side, r.price), r.qty, k);
    var j := KeptAt(s, r.qty, k, i);
    StillThere(m.sides.Of(Opposite(r.side))[i], Opposite(r.side), b, r, j);
  }

  /** The own side holds what it held before and what is left of the new order. */
  lemma OwnDescends(b: Book, r: Request, left: Order, c: seq<Order>, i: nat)
    requires r.New? && AskedBy(left, r, b.nextOid) && Queued(b.sides.Of(r.side), left, c) && i < |c|
    ensures Descends(c[i], r.side, b, r)
  {
    var s := b.sides.Of(r.side);
    var j :| 0 <= j <= |s| && c == s[..j] + [left] + s[j..];
    if i != j {
      StillThere(c[i], r.side, b, r, if i < j then i else i - 1);
    }
  }

  lemma RemainsFewer(b: Book, r: Request, m: Outcome, k: nat)
    requires r.New? && MatchSays(b.sides, Taker(r.owner, r.ticker, b.nextOid, r.side, r.price), r.qty, m, k)
    ensures m.remains <= r.qty
  {
  }

  lemma NewDescends(b: Book, r: Request, side: Side, i: nat)
    requires Sound(b) && r.New? && i < |Process(b, r).0.sides.Of(side)|
    ensures Descends(Process(b, r).0.sides.Of(side)[i], side, b, r)
  {
    hide Process, Sound, Descends, MatchSays, Queued, NextIn;
    var b' := Process(b, r).0;
    var k, m, priority := NewMessages(b, r);
    RemainsFewer(b, r, m, k);
    if side == Opposite(r.side) {
      OppositeDescends(b, r, m, k, i);
    } else if m.remains == 0 {
      StillThere(b'.sides.Of(side)[i], side, b, r, i);
    } else {
      var left := Order(r.owner, b.nextOid, r.side, r.price, m.remains, priority);
      OwnDescends(b, r, left, b'.sides.Of(side), i);
    }
  }

  lemma CancelDescends(b: Book, r: Request, side: Side, i: nat)
    requires r.CancelOrder? && i < |CancelOwned(b, r).0.sides.Of(side)|
    ensures Descends(CancelOwned(b, r).0.sides.Of(side)[i], side, b, r)
  {
    hide Descends, FindOwner;
    var c := CancelOwned(b, r).0.sides;
    match Locate(b.sides, r.owner)
    case None => StillThere(c.Of(side)[i], side, b, r, i);
    case Some((d, k)) =>
      var s := b.sides.Of(d);
      assert c == b.sides.With(d, s[..k] + s[k + 1..]);
      StillThere(c.Of(side)[i], side, b, r, if d == side && i >= k then i + 1 else i);
  }

  /** The order was asked for by a request of the run, under the id that counts the ticker's new orders. */
  ghost predicate IsAsked(o: Order, requests: seq<Request>, ticker: nat) {
    exists n :: 0 <= n < |requests| && requests[n].ticker == ticker
                && AskedBy(o, requests[n], 1 + News(requests[..n], ticker))
  }

  lemma StillAsked(o: Order, was: Order, requests: seq<Request>, ticker: nat)
    requires requests != [] && LeftOf(o, was) && IsAsked(was, requests[..|requests| - 1], ticker)
    ensures IsAsked(o, requests, ticker)
  {
    var prior := requests[..|requests| - 1];
    var n :| 0 <= n < |prior| && prior[n].ticker == ticker && AskedBy(was, prior[n], 1 + News(prior[..n], ticker));
    assert prior[..n] == requests[..n] && AskedBy(o, requests[n], 1 + News(requests[..n], ticker));
  }

  /** In every run each resting order has the owner, side and price of a request of the run, and no more quantity. */
  lemma {:induction false} RestingIsAsked(tickers: nat, requests: seq<Request>, ticker: nat, side: Side, i: nat)
    requires Proper(tickers, requests) && ticker < tickers
    requires i < |RunOf(tickers, requests).books[ticker].sides.Of(side)|
    ensures IsAsked(RunOf(tickers, requests).books[ticker].sides.Of(side)[i], requests, ticker)
    decreases requests
  {
    hide Process, Sound, IsAsked;
    if requests != [] {
      var n, r := |requests| - 1, requests[|requests| - 1];
      var b := RunOf(tickers, requests[..n]).books[ticker];
      var o := RunOf(tickers, requests).books[ticker].sides.Of(side)[i];
      if r.ticker != ticker {
        RestingIsAsked(tickers, requests[..n], ticker, side, i);
        StillAsked(o, o, requests, ticker);
      } else {
        RunSound(tickers, requests[..n]);
        NextIsCounted(tickers, requests[..n], ticker);
        if r.New? {
          NewDescends(b, r, side, i);
        } else {
          ProcessCancels(b, r);
          CancelDescends(b, r, side, i);
        }
        if AskedBy(o, r, b.nextOid) {
          LastAsked(o, requests, ticker);
        } else {
          var j :| 0 <= j < |b.sides.Of(side)| && LeftOf(o, b.sides.Of(side)[j]);
          RestingIsAsked(tickers, requests[..n], ticker, side, j);
          StillAsked(o, b.sides.Of(side)[j], requests, ticker);
        }
      }
    }
  }

  lemma ProcessCancels(b: Book, r: Request)
    requires r.CancelOrder?
    ensures Process(b, r) == CancelOwned(b, r)
  {
  }

  lemma LastAsked(o: Order, requests: seq<Request>, ticker: nat)
    requires requests != [] && requests[|requests| - 1].ticker == ticker
    requires AskedBy(o, requests[|requests| - 1], 1 + News(requests[..|requests| - 1], ticker))
    ensures IsAsked(o, requests, ticker)
  {
  }
}
