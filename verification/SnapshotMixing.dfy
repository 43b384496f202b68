/**
 Why recovery needs its snapshots in turn: the consumer never compares the update named by a
 snapshot's first frame with the one named by its last, so the head of one snapshot and the tail of
 a later one can pass for a whole.
 */
module SnapshotMixing {
  import opened Types
  import opened Market
  import opened Synthesizer
  import opened Snapshots
  import opened Consumer
  import opened Recovery
  import opened GuardedRecovery

  const A: Update := Update.Add(0, 1, Buy, 10, 5, 1)
  const B: Update := Update.Add(0, 2, Buy, 9, 5, 1)
  const C: Update := Update.Cancel(0, 1, Buy, 10, 0, 1)

  /** Two orders arrive, then the first is cancelled. */
  const F: Feed := Feed([A, B, C], 1, 3)

  const BOTH: Table := map[(0, 1) := Quote(A), (0, 2) := Quote(B)]
  const LATER: Table := map[(0, 2) := Quote(B)]

  lemma FeedSteps()
    ensures ApplyAll(Fresh(1), A) == [Sides([Quote(A)], [])] && FitsAll(Fresh(1), A)
    ensures var c := [Sides([Quote(A)], [])]; FitsAll(c, B) && ApplyAll(c, B) == [Sides([Quote(A), Quote(B)], [])]
    ensures var c := [Sides([Quote(A), Quote(B)], [])]; FitsAll(c, C) && ApplyAll(c, C) == [Sides([Quote(B)], [])]
  {
    assert Fresh(1)[0] == EMPTY;
    assert Place([], Quote(A)) == [Quote(A)];
    assert Apply(EMPTY, A) == Sides([Quote(A)], []);
    assert [Quote(A)][1..] == [];
    assert Place([Quote(A)], Quote(B)) == [Quote(A)] + Place([], Quote(B)) == [Quote(A), Quote(B)];
    var c := Sides([Quote(A), Quote(B)], []);
    assert c.Of(Buy)[0].oid == 1 && c.Of(Buy)[0].price == 10;
    assert RemoveOid(c.bids, 1) == c.bids[1..] == [Quote(B)];
  }

  lemma FeedLegal()
    ensures ValidFeed(F)
    ensures MarketAt(F, 3) == [Sides([Quote(B)], [])]
  {
    hide ApplyAll, FitsAll, Fresh;
    FeedSteps();
    var us := F.stream;
    assert us[0] == A && us[1..] == [B, C] && [B, C][1..] == [C] && [C][1..] == [];
    assert us[..3] == us;
    var c1, c2, c3 := [Sides([Quote(A)], [])], [Sides([Quote(A), Quote(B)], [])], [Sides([Quote(B)], [])];
    assert Replay(c3, []) == c3 && Legal(c3, []);
    assert Replay(c2, [C]) == c3 && Legal(c2, [C]);
    assert Replay(c1, [B, C]) == c3 && Legal(c1, [B, C]);
  }

  lemma Tables()
    ensures Taken(F, 2) && TableAt(F, 2) == BOTH
    ensures Taken(F, 3) && TableAt(F, 3) == LATER
  {
    var us := F.stream;
    var t0: Table := map[];
    var t1: Table := map[(0, 1) := Quote(A)];
    assert Step(t0, 0, 1, 3, 1, A) == Some(t1);
    assert Step(t1, 1, 1, 3, 2, B) == Some(BOTH);
    assert Step(BOTH, 2, 1, 3, 3, C) == Some(LATER) by {
      assert BOTH - {(0, 1)} == LATER;
    }
    assert us[..2] == [A, B] && [A, B][1..] == [B] && [B][1..] == [];
    assert us[..3] == [A, B, C] && [A, B, C][1..] == [B, C] && [B, C][1..] == [C] && [C][1..] == [];
    assert StepAll(BOTH, 2, 1, 3, []) == Some(BOTH) && StepAll(t1, 1, 1, 3, [B]) == Some(BOTH);
    assert StepAll(LATER, 3, 1, 3, []) == Some(LATER) && StepAll(BOTH, 2, 1, 3, [C]) == Some(LATER);
    assert StepAll(t1, 1, 1, 3, [B, C]) == Some(LATER);
  }

  /** The two snapshots the head and the tail are from. */
  lemma TwoSnapshots()
    ensures Taken(F, 2) && SnapshotAt(F, 2) == [SnapshotStart(2), Clear(0), A, B, SnapshotEnd(2)]
    ensures Taken(F, 3) && SnapshotAt(F, 3) == [SnapshotStart(3), Clear(0), B, SnapshotEnd(3)]
  {
    Tables();
    assert OrdersBelow(BOTH, 0, 0) == [] == OrdersBelow(BOTH, 0, 1);
    assert OrdersBelow(BOTH, 0, 2) == [A];
    assert OrdersBelow(BOTH, 0, 3) == [A, B];
    assert OrdersBelow(LATER, 0, 0) == [] == OrdersBelow(LATER, 0, 1) == OrdersBelow(LATER, 0, 2);
    assert OrdersBelow(LATER, 0, 3) == [B];
    assert Body(BOTH, 0, 3) == [] == Body(LATER, 0, 3);
    assert Body(BOTH, 1, 3) == [Clear(0)] + [A, B] && Body(LATER, 1, 3) == [Clear(0)] + [B];
  }

  /** Update 1 is lost; then come the head of the snapshot after 2 and the tail of the one after 3. */
  const BATCHES: seq<Batch> :=
    [Batch(false, [Delivery(0, 2, B)]),
     Batch(true, [Delivery(2, 0, SnapshotStart(2)), Delivery(2, 1, Clear(0)), Delivery(2, 2, A),
                  Delivery(3, 3, SnapshotEnd(3))])]

  /** Every message is published, one by one. */
  ghost predicate AllPublished(f: Feed, batches: seq<Batch>) {
    forall i, j | 0 <= i < |batches| && 0 <= j < |batches[i].items| ::
      var d := batches[i].items[j]; Published(f, batches[i].isSnapshot, d.epoch, d.n, d.u)
  }

  lemma MixedDelivered()
    ensures ConsumeAll(BATCHES) == State(false, 4, map[], map[], [Clear(0), A])
  {
    var s0 := STARTED;
    var s1 := State(true, 1, map[2 := B], map[], []);
    assert Receive(s0, false, 2, B) == s1;
    var s2 := s1.(snapshot := map[0 := SnapshotStart(2)]);
    Waits(s2, 0);
    assert Receive(s1, true, 0, SnapshotStart(2)) == s2;
    var s3 := s1.(snapshot := map[0 := SnapshotStart(2), 1 := Clear(0)]);
    Waits(s3, 1);
    assert Receive(s2, true, 1, Clear(0)) == s3;
    var s4 := s1.(snapshot := map[0 := SnapshotStart(2), 1 := Clear(0), 2 := A]);
    Waits(s4, 2);
    assert Receive(s3, true, 2, A) == s4;
    var s5 := s1.(snapshot := map[0 := SnapshotStart(2), 1 := Clear(0), 2 := A, 3 := SnapshotEnd(3)]);
    Resumes(s5, 3);
    var s6 := State(false, 4, map[], map[], [Clear(0), A]);
    assert Resume(s5, 4, 4) == s6 by {
      assert Content(s5.snapshot, 0, 0) == [] == Content(s5.snapshot, 0, 1);
      assert Content(s5.snapshot, 0, 2) == [Clear(0)];
      assert Content(s5.snapshot, 0, 3) == [Clear(0), A] == Content(s5.snapshot, 0, 4);
    }
    assert Receive(s4, true, 3, SnapshotEnd(3)) == s6;
    hide Receive;
    Folded(s0, s1, s2, s3, s4, s6);
  }

  lemma Folded(s0: State, s1: State, s2: State, s3: State, s4: State, s6: State)
    requires s0 == STARTED && Receive(s0, false, 2, B) == s1 && s1.recovering
    requires Receive(s1, true, 0, SnapshotStart(2)) == s2 && Receive(s2, true, 1, Clear(0)) == s3
    requires Receive(s3, true, 2, A) == s4 && Receive(s4, true, 3, SnapshotEnd(3)) == s6
    ensures ConsumeAll(BATCHES) == s6
  {
    hide Receive;
    var p := Payload(BATCHES[0].items);
    assert p == [(2, B)] && p[1..] == [];
    assert ReceiveAll(s0, false, p) == s1;
    var q: seq<(nat, Update)> := Payload(BATCHES[1].items);
    var q1: seq<(nat, Update)> := [(1, Clear(0)), (2, A), (3, SnapshotEnd(3))];
    var q2: seq<(nat, Update)> := [(2, A), (3, SnapshotEnd(3))];
    var q3: seq<(nat, Update)> := [(3, SnapshotEnd(3))];
    assert q[0] == (0, SnapshotStart(2)) && q[1..] == q1 && q1[1..] == q2 && q2[1..] == q3 && q3[1..] == [];
    assert ReceiveAll(s6, true, []) == s6 && ReceiveAll(s4, true, q3) == s6;
    assert ReceiveAll(s3, true, q2) == s6 && ReceiveAll(s2, true, q1) == s6;
    assert ReceiveAll(s1, true, q) == s6;
    assert BATCHES[..1][..0] == [] && BATCHES[..1][0] == BATCHES[0];
    assert ConsumeAll(BATCHES[..1]) == s1;
  }

  /**
   Out of turn, recovery is unsafe: every message is one the exchange published, yet the consumer
   leaves recovery with a cancelled order in its book and without one that is live.
   */
  lemma MixedUnsafe()
    ensures ValidFeed(F) && AllPublished(F, BATCHES) && !AllowedAll(F, BATCHES) && !OrderedAll(F, BATCHES)
    ensures !ConsumeAll(BATCHES).recovering && !InSync(F, ConsumeAll(BATCHES))
  {
    FeedLegal();
    TwoSnapshots();
    MixedDelivered();
    assert AllPublished(F, BATCHES) by {
      hide SnapshotAt;
    }
    var out := [Clear(0), A];
    FeedSteps();
    assert out[1..] == [A] && [A][1..] == [];
    assert ApplyAll(Fresh(1), Clear(0)) == Fresh(1);
    var c1 := [Sides([Quote(A)], [])];
    assert Replay(c1, []) == c1 && Replay(Fresh(1), [A]) == c1;
    assert Replay(Fresh(1), out) == c1;
    if AllowedAll(F, BATCHES) {
      RunSafe(F, BATCHES);
    }
    if OrderedAll(F, BATCHES) {
      var epochs := GuardedRunSafe(F, BATCHES);
    }
  }
}
