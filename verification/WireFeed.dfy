/**
 The engine's feed through the queue and the publisher. With the engine writing its updates while
 the publisher reads, in any interleaving of their steps: the wire carries the beginning of the feed,
 numbered, and the synthesizer's table is that of the beginning it was given.
 */
module WireFeeds {
  import opened Types
  import opened Exchange
  import opened Replication
  import opened Synthesizer
  import opened Snapshots
  import opened Recovery
  import opened EndToEnd
  import Q = SpscQueue
  import Pub = Publisher

  /** The synthesizer's table after messages as they are numbered; None where its process exits. */
  function StepNumbered(tab: Table, last: nat, tickers: nat, ids: nat, ms: Pub.Numbered): Option<Table>
    decreases ms
  {
    if ms == [] then Some(tab)
    else match Step(tab, last, tickers, ids, ms[0].0, ms[0].1)
      case None => None
      case Some(next) => StepNumbered(next, ms[0].0, tickers, ids, ms[1..])
  }

  // ----- what the synthesizer makes of any messages at all

  /** The order a key stands for after these messages: added, changed since, and not cancelled. */
  function LastOf(ms: Pub.Numbered, k: Key): Option<Order> {
    if ms == [] then None
    else
      var before := LastOf(ms[..|ms| - 1], k);
      match ms[|ms| - 1].1
      case Add(t, oid, side, price, qty, priority) =>
        if (t, oid) == k then Some(Order(Hidden, oid, side, price, qty, priority)) else before
      case Modify(t, oid, _, price, qty, _) =>
        if (t, oid) == k && before.Some? then Some(before.value.(price := price, qty := qty)) else before
      case Cancel(t, oid, _, _, _, _) => if (t, oid) == k then None else before
      case _ => before
  }

  /** Orders added less orders cancelled. */
  function Left(ms: Pub.Numbered): int {
    if ms == [] then 0
    else
      var u := ms[|ms| - 1].1;
      Left(ms[..|ms| - 1]) + if u.Add? then 1 else if u.Cancel? then -1 else 0
  }

  /**
   A message the synthesizer can take after the others: it carries the next number and a ticker, and adds an order
   that is not there while two more than those there fit, or changes one that is there on the same side.
   */
  predicate CanTake(ms: Pub.Numbered, m: (nat, Update), tickers: nat, ids: nat) {
    && m.0 == |ms| + 1 && !m.1.SnapshotStart? && !m.1.SnapshotEnd? && m.1.ticker < tickers
    && match m.1
       case Add(t, oid, _, _, _, _) => oid < ids && LastOf(ms, (t, oid)) == None && Left(ms) + 2 <= ids
       case Modify(t, oid, side, _, _, _) =>
         oid < ids && LastOf(ms, (t, oid)).Some? && LastOf(ms, (t, oid)).value.side == side
       case Cancel(t, oid, side, _, _, _) =>
         oid < ids && LastOf(ms, (t, oid)).Some? && LastOf(ms, (t, oid)).value.side == side
       case _ => true
  }

  lemma {:induction false} StepLast(tab: Table, last: nat, tickers: nat, ids: nat, ms: Pub.Numbered, m: (nat, Update))
    ensures StepNumbered(tab, last, tickers, ids, ms + [m])
         == match StepNumbered(tab, last, tickers, ids, ms)
              case None => None
              case Some(after) => Step(after, if ms == [] then last else ms[|ms| - 1].0, tickers, ids, m.0, m.1)
    decreases ms
  {
    if ms == [] {
      assert [m][1..] == [] && ms + [m] == [m];
    } else {
      assert (ms + [m])[1..] == ms[1..] + [m];
      match Step(tab, last, tickers, ids, ms[0].0, ms[0].1) {
        case None =>
        case Some(next) => StepLast(next, ms[0].0, tickers, ids, ms[1..], m);
      }
    }
  }

  /** The table of taken messages: each key's order as last added and changed, and as many as are left. */
  ghost predicate Follows(tab: Table, ms: Pub.Numbered) {
    && (forall k: Key :: Entry(tab, k.0, k.1) == LastOf(ms, k))
    && (forall k: Key | k in tab :: tab[k].oid == k.1)
    && |tab| == Left(ms)
  }

  /** Every message could be taken when it came. */
  predicate AllTaken(ms: Pub.Numbered, tickers: nat, ids: nat) {
    forall i | 0 <= i < |ms| :: CanTake(ms[..i], ms[i], tickers, ids)
  }

  /** One message after taken ones: taken exactly as described, and the table follows. */
  lemma TakeNext(tab: Table, tickers: nat, ids: nat, ms: Pub.Numbered, m: (nat, Update))
    requires Follows(tab, ms)
    ensures var r := Step(tab, |ms|, tickers, ids, m.0, m.1);
            (r.Some? <==> CanTake(ms, m, tickers, ids)) && (r.Some? ==> Follows(r.value, ms + [m]))
  {
    assert (ms + [m])[..|ms|] == ms;
    if m.1.Add? || m.1.Modify? || m.1.Cancel? {
      var k := (m.1.ticker, m.1.oid);
      assert Entry(tab, k.0, k.1) == LastOf(ms, k);
      var r := Step(tab, |ms|, tickers, ids, m.0, m.1);
      if r.Some? {
        forall j: Key
          ensures Entry(r.value, j.0, j.1) == LastOf(ms + [m], j)
        {
          assert Entry(tab, j.0, j.1) == LastOf(ms, j);
        }
      }
    }
  }

  /**
   Over any numbered messages whatever, the synthesizer gets through exactly when each could be taken when it came;
   its table then holds each order as last added and changed, and nothing cancelled.
   */
  lemma {:induction false} TakesIff(tickers: nat, ids: nat, ms: Pub.Numbered)
    ensures StepNumbered(map[], 0, tickers, ids, ms).Some? <==> AllTaken(ms, tickers, ids)
    ensures AllTaken(ms, tickers, ids) ==> Follows(StepNumbered(map[], 0, tickers, ids, ms).value, ms)
    decreases ms
  {
    hide CanTake, Follows, Step, StepNumbered, AllTaken;
    if ms == [] {
      EmptyFollows(tickers, ids);
    } else {
      var before, m := ms[..|ms| - 1], ms[|ms| - 1];
      TakesIff(tickers, ids, before);
      assert before + [m] == ms;
      StepLast(map[], 0, tickers, ids, before, m);
      TakenLast(before, m, tickers, ids);
      if AllTaken(before, tickers, ids) {
        LastNumber(before, tickers, ids);
        TakeNext(StepNumbered(map[], 0, tickers, ids, before).value, tickers, ids, before, m);
      }
    }
  }

  lemma EmptyFollows(tickers: nat, ids: nat)
    ensures Follows(map[], []) && AllTaken([], tickers, ids)
    ensures StepNumbered(map[], 0, tickers, ids, []) == Some(map[])
  {
  }

  lemma TakenLast(ms: Pub.Numbered, m: (nat, Update), tickers: nat, ids: nat)
    ensures AllTaken(ms + [m], tickers, ids) <==> AllTaken(ms, tickers, ids) && CanTake(ms, m, tickers, ids)
  {
    hide CanTake;
    var all := ms + [m];
    assert all[..|ms|] == ms && all[|ms|] == m;
    assert forall i | 0 <= i < |ms| :: all[..i] == ms[..i] && all[i] == ms[i];
    if AllTaken(all, tickers, ids) {
      forall i | 0 <= i < |ms|
        ensures CanTake(ms[..i], ms[i], tickers, ids)
      {
        assert CanTake(all[..i], all[i], tickers, ids);
      }
      assert CanTake(all[..|ms|], all[|ms|], tickers, ids);
    }
  }

  lemma LastNumber(ms: Pub.Numbered, tickers: nat, ids: nat)
    requires AllTaken(ms, tickers, ids)
    ensures ms != [] ==> ms[|ms| - 1].0 == |ms|
  {
    assert ms != [] ==> CanTake(ms[..|ms| - 1], ms[|ms| - 1], tickers, ids);
  }

  // ----- numbers from the publisher

  /** Numbers that go on from the last one seen are what the synthesizer expects. */
  lemma {:induction false} StepFrom(tab: Table, last: nat, tickers: nat, ids: nat, us: seq<Update>)
    ensures StepNumbered(tab, last, tickers, ids, Pub.From(us, last + 1)) == StepAll(tab, last, tickers, ids, us)
    decreases us
  {
    if us != [] {
      assert Pub.From(us, last + 1)[1..] == Pub.From(us[1..], last + 2);
      match Step(tab, last, tickers, ids, last + 1, us[0]) {
        case None =>
        case Some(next) => StepFrom(next, last + 1, tickers, ids, us[1..]);
      }
    }
  }

  /**
   For every run of the engine and every interleaving in which it writes the run's updates, in order,
   with a block kept spare: what is on the wire is published, and is the beginning of the feed; the
   synthesizer stands where the feed's table stands after what it was given, or has exited there.
   */
  lemma WireIsFeed(tickers: nat, requests: seq<Request>, ids: nat,
                   blocks: seq<Update>, actions: seq<Q.Action<Update>>, spare: nat)
    requires blocks != [] && spare >= 1
    requires Q.RunFrom(Q.Start(blocks), actions, spare).written <= RunOf(tickers, requests).updates
    ensures var f := FeedOf(tickers, requests, ids); var s := Q.RunFrom(Q.Start(blocks), actions, spare);
            var wire, given := Pub.From(s.first, 1), Pub.From(s.late, 1);
            && wire <= Pub.From(f.stream, 1) && given <= wire
            && (forall i | 0 <= i < |wire| :: Published(f, false, 0, wire[i].0, wire[i].1))
            && StepNumbered(map[], 0, tickers, ids, given)
               == if Taken(f, |given|) then Some(TableAt(f, |given|)) else None
  {
    hide Q.RunFrom, RunOf, StepAll, StepNumbered;
    var f, s := FeedOf(tickers, requests, ids), Q.RunFrom(Q.Start(blocks), actions, spare);
    Q.EveryRun(blocks, actions, spare);
    Pub.FromPrefix(s.first, f.stream, 1);
    Pub.FromPrefix(s.late, s.first, 1);
    assert s.late == f.stream[..|s.late|];
    StepFrom(map[], 0, tickers, ids, s.late);
  }
}
