/**
 From the matching engine to a client behind a lossy feed: whenever the consumer is not recovering
 and its sequence number stands at the end of a request, what it forwarded rebuilds exactly the
 engine's books after that request.
 */
module EndToEnd {
  import opened Types
  import opened Market
  import opened Exchange
  import opened Replication
  import opened Snapshots
  import opened Recovery
  import opened GuardedRecovery
  import opened PoolRoom

  // ----- ids the engine announces

  ghost predicate NoAdds(us: seq<Update>) {
    forall i | 0 <= i < |us| :: !us[i].Add?
  }

  lemma {:induction false} FindMatchNoAdds(c: Sides, t: Taker, remains: nat)
    ensures NoAdds(FindMatch(c, t, remains).updates)
    decreases remains, |c.Of(Opposite(t.side))|
  {
    if CanMatch(c, t, remains) {
      var first := MatchFirst(c, t, remains);
      FindMatchNoAdds(first.sides, t, first.remains);
    }
  }

  /** Every announced id was handed out by its ticker's counter. */
  ghost predicate Issued(books: seq<Book>, us: seq<Update>) {
    forall i | 0 <= i < |us| && us[i].Add? :: us[i].ticker < |books| && us[i].oid < books[us[i].ticker].nextOid
  }

  lemma ProcessIssues(b: Book, r: Request)
    ensures var (b', out) := Process(b, r);
            && b.nextOid <= b'.nextOid
            && forall i | 0 <= i < |out.updates| && out.updates[i].Add? ::
                 out.updates[i].ticker == r.ticker && out.updates[i].oid < b'.nextOid
  {
    if r.New? {
      FindMatchNoAdds(b.sides, Taker(r.owner, r.ticker, b.nextOid, r.side, r.price), r.qty);
    }
  }

  lemma {:induction false} RunIssues(tickers: nat, requests: seq<Request>)
    ensures Issued(RunOf(tickers, requests).books, RunOf(tickers, requests).updates)
    decreases requests
  {
    if requests != [] {
      var prior, last := requests[..|requests| - 1], requests[|requests| - 1];
      RunIssues(tickers, prior);
      var before := RunOf(tickers, prior);
      if last.ticker < tickers {
        ProcessIssues(before.books[last.ticker], last);
      }
    }
  }

  // ----- room in the synthesizer's pool

  /** Orders resting after the first `k` requests, over all tickers. */
  function RestingAfter(tickers: nat, requests: seq<Request>, k: nat): nat
    requires k <= |requests|
  {
    LiveCount(PublicBooks(RunOf(tickers, requests[..k]).books))
  }

  /** After no request of the run do as many orders rest, over all tickers, as one ticker has ids. */
  ghost predicate PoolLasts(tickers: nat, requests: seq<Request>, ids: nat) {
    forall k | 0 <= k <= |requests| :: RestingAfter(tickers, requests, k) < ids
  }

  lemma PoolLastsNext(tickers: nat, requests: seq<Request>, ids: nat)
    requires requests != []
    ensures PoolLasts(tickers, requests, ids)
       <==> PoolLasts(tickers, requests[..|requests| - 1], ids) && RestingAfter(tickers, requests, |requests|) < ids
  {
    hide RunOf, LiveCount, PublicBooks;
    var prior := requests[..|requests| - 1];
    forall k | 0 <= k <= |prior|
      ensures RestingAfter(tickers, prior, k) == RestingAfter(tickers, requests, k)
    {
      assert prior[..k] == requests[..k];
    }
  }

  /** Of the updates of one request only the last can be an ADD. */
  lemma AddsLast(b: Book, r: Request)
    ensures var us := Process(b, r).1.updates; forall i | 0 <= i < |us| - 1 :: !us[i].Add?
  {
    if r.New? {
      FindMatchNoAdds(b.sides, Taker(r.owner, r.ticker, b.nextOid, r.side, r.price), r.qty);
    }
  }

  lemma {:induction false} NewBooks(tickers: nat)
    ensures PublicBooks(RunOf(tickers, []).books) == Fresh(tickers)
  {
    assert PublicSide([]) == [];
  }

  lemma PublicNowWellFormed(tickers: nat, requests: seq<Request>)
    requires Proper(tickers, requests)
    ensures AllWellFormed(PublicBooks(RunOf(tickers, requests).books))
  {
    hide PublicBook, WellFormed, RunOf, Proper, SoundSides;
    RunSound(tickers, requests);
    var run := RunOf(tickers, requests);
    forall t | 0 <= t < tickers
      ensures WellFormed(PublicBook(run.books[t].sides))
    {
      PublicWellFormed(run.books[t].sides, run.books[t].nextOid);
    }
  }

  /** In the middle of a request no more orders rest than before it, so only the ends of requests count. */
  lemma {:induction false} FullAfterRequests(tickers: nat, requests: seq<Request>, ids: nat)
    requires Proper(tickers, requests) && ids > 0
    ensures NeverFull(Fresh(tickers), RunOf(tickers, requests).updates, ids) <==> PoolLasts(tickers, requests, ids)
    decreases requests
  {
    hide RunOf, NeverFull, PoolLasts, LiveCount, PublicBooks, Admissible;
    if requests == [] {
      FullAtFirst(tickers, ids);
    } else {
      var prior, last := requests[..|requests| - 1], requests[|requests| - 1];
      FullAfterRequests(tickers, prior, ids);
      PoolLastsNext(tickers, requests, ids);
      PoolLastsNow(tickers, prior, ids);
      FullAfterOne(tickers, prior, last, ids);
      assert prior + [last] == requests == requests[..|requests|];
    }
  }

  lemma FullAtFirst(tickers: nat, ids: nat)
    requires ids > 0
    ensures NeverFull(Fresh(tickers), RunOf(tickers, []).updates, ids) && PoolLasts(tickers, [], ids)
  {
    NewBooks(tickers);
    FreshCount(tickers);
    FullOfNothing(Fresh(tickers), ids);
  }

  lemma PoolLastsNow(tickers: nat, requests: seq<Request>, ids: nat)
    ensures PoolLasts(tickers, requests, ids) ==> LiveCount(PublicBooks(RunOf(tickers, requests).books)) < ids
  {
    hide RunOf, LiveCount, PublicBooks;
    assert requests[..|requests|] == requests;
    if PoolLasts(tickers, requests, ids) {
      assert RestingAfter(tickers, requests, |requests|) < ids;
    }
  }

  lemma FullAfterOne(tickers: nat, prior: seq<Request>, last: Request, ids: nat)
    requires Proper(tickers, prior) && last.ticker < tickers
    requires Admissible(RunOf(tickers, prior).books[last.ticker], last)
    ensures var now := RunOf(tickers, prior + [last]);
            LiveCount(PublicBooks(RunOf(tickers, prior).books)) < ids ==>
              (NeverFull(Fresh(tickers), now.updates, ids) <==>
                 NeverFull(Fresh(tickers), RunOf(tickers, prior).updates, ids)
                 && LiveCount(PublicBooks(now.books)) < ids)
    ensures NeverFull(Fresh(tickers), RunOf(tickers, prior + [last]).updates, ids) ==>
              NeverFull(Fresh(tickers), RunOf(tickers, prior).updates, ids)
  {
    assert (prior + [last])[..|prior|] == prior;
    var before := RunOf(tickers, prior);
    assert RunOf(tickers, prior + [last]) == Advance(before, last);
    var us := Process(before.books[last.ticker], last).1.updates;
    hide RunOf, NeverFull, LiveCount, PublicBooks, Legal, Replay, Process, Sound, Admissible;
    RunSound(tickers, prior);
    RunReplicates(tickers, prior);
    PublicNowWellFormed(tickers, prior);
    AdvanceReplicates(before, last);
    AddsLast(before.books[last.ticker], last);
    NeverFullConcat(Fresh(tickers), before.updates, us, ids);
    if LiveCount(PublicBooks(before.books)) < ids {
      FullAtEnd(PublicBooks(before.books), us, ids);
    }
  }

  // ----- the feed of a run

  /** The published stream of a run, where `ids` bounds the id tables. */
  function FeedOf(tickers: nat, requests: seq<Request>, ids: nat): Feed {
    Feed(RunOf(tickers, requests).updates, tickers, ids)
  }

  ghost predicate IdsFit(tickers: nat, requests: seq<Request>, ids: nat) {
    forall t | 0 <= t < tickers :: RunOf(tickers, requests).books[t].nextOid <= ids
  }

  /** Every run of the engine publishes a feed that fits every client that follows it. */
  lemma RunFeeds(tickers: nat, requests: seq<Request>, ids: nat)
    requires Proper(tickers, requests) && IdsFit(tickers, requests, ids)
    ensures ValidFeed(FeedOf(tickers, requests, ids))
  {
    RunReplicates(tickers, requests);
    RunIssues(tickers, requests);
  }

  /**
   The synthesizer gets through the feed exactly if after no request, over all tickers, as many
   orders rest as one ticker has ids.
   */
  lemma SynthesizerLasts(tickers: nat, requests: seq<Request>, ids: nat)
    requires Proper(tickers, requests) && IdsFit(tickers, requests, ids) && ids > 0
    ensures var f := FeedOf(tickers, requests, ids);
            Taken(f, |f.stream|) <==> PoolLasts(tickers, requests, ids)
  {
    hide RunOf, Proper, NeverFull, PoolLasts, Taken, ValidFeed, TableAt, MarketAt;
    var f := FeedOf(tickers, requests, ids);
    RunFeeds(tickers, requests, ids);
    MarketFacts(f, |f.stream|);
    FullAfterRequests(tickers, requests, ids);
    assert f.stream[..|f.stream|] == f.stream;
  }

  /** A run goes on where its first `k` requests left it. */
  lemma {:induction false} RunPrefix(tickers: nat, requests: seq<Request>, k: nat)
    requires k <= |requests| && Proper(tickers, requests)
    ensures Proper(tickers, requests[..k])
    ensures RunOf(tickers, requests[..k]).updates <= RunOf(tickers, requests).updates
    decreases requests
  {
    if k == |requests| {
      assert requests[..k] == requests;
    } else {
      var prior := requests[..|requests| - 1];
      RunPrefix(tickers, prior, k);
      assert prior[..k] == requests[..k];
    }
  }

  /** The market after the updates of the first `k` requests is the engine's, queue for queue. */
  lemma MarketIsBook(tickers: nat, requests: seq<Request>, ids: nat, k: nat)
    requires k <= |requests| && Proper(tickers, requests)
    ensures var n := |RunOf(tickers, requests[..k]).updates|; var f := FeedOf(tickers, requests, ids);
            n <= |f.stream| && MarketAt(f, n) == PublicBooks(RunOf(tickers, requests[..k]).books)
  {
    RunPrefix(tickers, requests, k);
    RunReplicates(tickers, requests[..k]);
    var us := RunOf(tickers, requests[..k]).updates;
    assert RunOf(tickers, requests).updates[..|us|] == us;
  }

  // ----- a run that ends in the synthesizer

  const FIRST := New(Client(0, 0), 0, Buy, 10, 1)
  const SECOND := New(Client(0, 1), 0, Buy, 9, 1)
  const THIRD := New(Client(0, 0), 1, Buy, 10, 1)

  const BID := Order(Client(0, 0), 1, Buy, 10, 1, 1)
  const LOWER := Order(Client(0, 1), 2, Buy, 9, 1, 1)

  lemma FirstTwo()
    ensures RunOf(2, [FIRST]).books == [Book(Sides([BID], []), 2), NEW_BOOK]
    ensures RunOf(2, [FIRST, SECOND]).books == [Book(Sides([BID, LOWER], []), 3), NEW_BOOK]
    ensures Proper(2, [FIRST, SECOND])
  {
    assert RunOf(2, []).books == [NEW_BOOK, NEW_BOOK];
    assert [FIRST][..0] == [] && [FIRST, SECOND][..1] == [FIRST];
    assert Place([], BID) == [BID];
    assert Process(NEW_BOOK, FIRST).0 == Book(Sides([BID], []), 2);
    var b := Book(Sides([BID], []), 2);
    assert Place([BID], LOWER) == [BID] + Place([], LOWER) == [BID, LOWER];
    assert Process(b, SECOND).0 == Book(Sides([BID, LOWER], []), 3);
    assert [FIRST][..|[FIRST]| - 1] == [] && Proper(2, []);
    assert Proper(2, [FIRST]);
  }

  /**
   Two tickers with ids below 3: after one order on the second ticker and two on the first, every book
   has room, and the synthesizer's pool, shared by the tickers, is overrun.
   */
  lemma SharedPoolOverruns()
    ensures var requests := [FIRST, SECOND, THIRD]; var f := FeedOf(2, requests, 3);
            && Proper(2, requests) && IdsFit(2, requests, 3)
            && (forall i | 0 <= i < 3 ::
                  RoomFor(RunOf(2, requests[..i]).books[requests[i].ticker], requests[i], 3, 3))
            && !PoolLasts(2, requests, 3) && !Taken(f, |f.stream|)
  {
    var requests := [FIRST, SECOND, THIRD];
    assert requests[..0] == [] && requests[..1] == [FIRST] && requests[..2] == [FIRST, SECOND];
    assert requests[..3] == requests;
    FirstTwo();
    assert RunOf(2, []).books == [NEW_BOOK, NEW_BOOK];
    assert Process(NEW_BOOK, THIRD).0 == Book(Sides([BID], []), 2);
    var books := RunOf(2, requests).books;
    assert books == [Book(Sides([BID, LOWER], []), 3), Book(Sides([BID], []), 2)];
    ThreeRest(books);
    assert RestingAfter(2, requests, 3) == 3;
    SynthesizerLasts(2, requests, 3);
  }

  lemma ThreeRest(books: seq<Book>)
    requires |books| == 2 && OrderCount(books[0].sides) == 2 && OrderCount(books[1].sides) == 1
    ensures LiveCount(PublicBooks(books)) == 3
  {
    var cs := PublicBooks(books);
    assert cs[..1][..0] == [] && LiveCount(cs[..1]) == OrderCount(cs[0]);
  }

  /**
   The synthesizer gets through the updates of the first `k` requests exactly if its pool lasts as
   long, and its table then holds exactly the resting orders.
   */
  lemma TableIsBook(tickers: nat, requests: seq<Request>, ids: nat, k: nat)
    requires k <= |requests| && Proper(tickers, requests) && IdsFit(tickers, requests, ids) && ids > 0
    ensures var n := |RunOf(tickers, requests[..k]).updates|; var f := FeedOf(tickers, requests, ids);
            && n <= |f.stream|
            && (Taken(f, n) <==> PoolLasts(tickers, requests[..k], ids))
            && (Taken(f, n) ==> Agrees(TableAt(f, n), PublicBooks(RunOf(tickers, requests[..k]).books)))
  {
    hide RunOf, Proper, Replay, PublicBooks, Agrees, ValidFeed, TableAt, Taken, PoolLasts, NeverFull;
    RunFeeds(tickers, requests, ids);
    MarketIsBook(tickers, requests, ids, k);
    RunPrefix(tickers, requests, k);
    var f := FeedOf(tickers, requests, ids);
    MarketFacts(f, |RunOf(tickers, requests[..k]).updates|);
    FullAfterRequests(tickers, requests[..k], ids);
    assert f.stream[..|RunOf(tickers, requests[..k]).updates|] == RunOf(tickers, requests[..k]).updates;
  }

  /** The end-to-end theorem. */
  lemma ClientHoldsBook(tickers: nat, requests: seq<Request>, ids: nat, batches: seq<Batch>, k: nat)
    requires Proper(tickers, requests) && IdsFit(tickers, requests, ids) && k <= |requests|
    requires AllowedAll(FeedOf(tickers, requests, ids), batches) || OrderedAll(FeedOf(tickers, requests, ids), batches)
    requires var st := ConsumeAll(batches);
             !st.recovering && st.next == |RunOf(tickers, requests[..k]).updates| + 1
    ensures Replay(Fresh(tickers), ConsumeAll(batches).out) == PublicBooks(RunOf(tickers, requests[..k]).books)
  {
    hide RunOf, Proper, Replay, ConsumeAll, AllowedAll, OrderedAll, PublicBooks, ValidFeed, MarketAt;
    RunFeeds(tickers, requests, ids);
    if AllowedAll(FeedOf(tickers, requests, ids), batches) {
      RunSafe(FeedOf(tickers, requests, ids), batches);
    } else {
      var epochs := GuardedRunSafe(FeedOf(tickers, requests, ids), batches);
    }
    MarketIsBook(tickers, requests, ids, k);
  }
}
