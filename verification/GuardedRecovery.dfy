/**
 Recovery with the comparison the consumer leaves out. Snapshots follow each other in the stream,
 and any messages of theirs may be lost, first ones included; the buffer may then hold the head of
 one and the tail of a later one. Whether it does shows when its last frame names another update
 than its first.
 */
module GuardedRecovery {
  import opened Types
  import opened Consumer
  import opened Recovery

  /**
   Message `k` of the buffer is message `k` of the snapshot taken after `epochs[k]`, and later messages
   are of no older snapshots.
   */
  ghost predicate Layered(f: Feed, b: Buffer, epochs: seq<nat>) {
    && (forall k: nat :: k in b <==> k < |epochs|)
    && (forall k | 0 <= k < |epochs| ::
          Taken(f, epochs[k]) && k < |SnapshotAt(f, epochs[k])| && b[k] == SnapshotAt(f, epochs[k])[k])
    && (forall i, j | 0 <= i < j < |epochs| :: epochs[i] <= epochs[j])
  }

  /** The frames of a layered buffer name the snapshots they are from. */
  lemma FramesName(f: Feed, b: Buffer, epochs: seq<nat>, k: nat)
    requires Layered(f, b, epochs) && k < |epochs|
    ensures b[k].SnapshotStart? <==> k == 0
    ensures k == 0 ==> b[k].last == epochs[k]
    ensures b[k].SnapshotEnd? ==> k + 1 == |SnapshotAt(f, epochs[k])| && b[k].last == epochs[k]
  {
    hide SnapshotAt;
    SnapshotShape(f, epochs[k]);
  }

  /** A buffer that begins and ends with frames is one snapshot exactly when both frames name the same update. */
  lemma GuardIff(f: Feed, b: Buffer, epochs: seq<nat>)
    requires Layered(f, b, epochs) && epochs != [] && b[|epochs| - 1].SnapshotEnd?
    ensures b[0].SnapshotStart?
    ensures FromSomeSnapshot(f, b) <==> b[0].last == b[|epochs| - 1].last
  {
    hide SnapshotAt;
    var top := |epochs| - 1;
    FramesName(f, b, epochs, 0);
    FramesName(f, b, epochs, top);
    if b[0].last == b[top].last {
      assert forall k | 0 <= k <= top :: epochs[k] == epochs[0];
      assert FromSnapshot(f, b, epochs[0]);
    }
    if n: nat :| Taken(f, n) && FromSnapshot(f, b, n) {
      SnapshotShape(f, n);
      assert 0 in b && top in b;
    }
  }

  lemma LayeredUnbroken(f: Feed, b: Buffer, epochs: seq<nat>)
    requires Layered(f, b, epochs) && epochs != []
    ensures b != map[] && 0 in b && |epochs| - 1 in b && Unbroken(b)
    ensures var keys := Ascending(b.Keys); keys != [] && keys[0] == 0 && keys[|keys| - 1] == |epochs| - 1
  {
    hide SnapshotAt, Ascending, Unbroken;
    assert forall k: nat :: k in b <==> k <= |epochs| - 1;
    FullUnbroken(b, |epochs| - 1);
    Ends(b, |epochs| - 1);
  }

  /** What the missing comparison would ask of a snapshot's last frame when it closes the buffer. */
  predicate FramesMatch(b: Buffer, n: nat, u: Update) {
    u.SnapshotEnd? && n > 0 && n - 1 in b && n !in b && 0 in b ==> b[0] == SnapshotStart(u.last)
  }

  /** Snapshot messages are of no older snapshots than seen before, and the frames of what is buffered match. */
  ghost predicate InOrder(st: State, seen: nat, isSnapshot: bool, epoch: nat, n: nat, u: Update) {
    isSnapshot ==> seen <= epoch && FramesMatch(if st.recovering then st.snapshot else map[], n, u)
  }

  /** A state of recovery before its check. */
  ghost predicate Stored(f: Feed, st: State, epochs: seq<nat>, seen: nat) {
    && FromStream(f, st.incrementals) && Layered(f, st.snapshot, epochs)
    && (epochs != [] ==> epochs[|epochs| - 1] <= seen)
  }

  /** A layered buffer that has not been closed; outside recovery, none, and in sync. */
  ghost predicate Guarded(f: Feed, st: State, epochs: seq<nat>, seen: nat) {
    && Stored(f, st, epochs, seen)
    && (epochs != [] ==> !st.snapshot[|epochs| - 1].SnapshotEnd?)
    && (!st.recovering ==> epochs == [] && InSync(f, st) && Forwarded(f, st.out, st.next))
  }

  /** The check on a layered buffer: recovery ends only if it is one snapshot. */
  lemma CheckGuarded(f: Feed, st: State, epochs: seq<nat>, seen: nat) returns (after: seq<nat>)
    requires ValidFeed(f) && st.recovering && Stored(f, st, epochs, seen)
    requires epochs != [] && st.snapshot[|epochs| - 1].SnapshotEnd? ==>
               0 in st.snapshot && st.snapshot[0] == SnapshotStart(st.snapshot[|epochs| - 1].last)
    ensures Guarded(f, Check(st), after, seen)
    ensures Check(st).recovering ==> Check(st).out == st.out
  {
    hide SnapshotAt, Taken, Resume, Ascending, InSync, Forwarded;
    if epochs == [] {
      assert forall k: nat :: k !in st.snapshot;
      assert st.snapshot == map[];
      after := [];
    } else {
      LayeredUnbroken(f, st.snapshot, epochs);
      FramesName(f, st.snapshot, epochs, 0);
      AscendingEnumerates(st.snapshot);
      if st.snapshot[|epochs| - 1].SnapshotEnd? {
        GuardIff(f, st.snapshot, epochs);
        CheckSafe(f, st);
        after := [];
        ResumeForgets(st, |epochs|, st.snapshot[|epochs| - 1].last + 1);
      } else {
        after := epochs;
      }
    }
  }

  lemma ResumeForgets(st: State, size: nat, from: nat)
    ensures Resume(st, size, from).snapshot == map[]
  {
  }

  /** A buffer without a first frame, or with a hole, is thrown away. */
  lemma CheckDiscards(st: State)
    requires st.snapshot != map[]
    requires 0 in st.snapshot ==> !Unbroken(st.snapshot)
    requires forall k | k in st.snapshot && k > 0 :: !st.snapshot[k].SnapshotStart?
    ensures Check(st) == st.(snapshot := map[])
  {
    hide Resume, Ascending, Unbroken;
    AscendingEnumerates(st.snapshot);
    var keys := Ascending(st.snapshot.Keys);
    assert keys[0] in st.snapshot;
  }

  /** Message `n` stored out of its place leaves a hole, or no first frame. */
  lemma HoleLeft(f: Feed, b: Buffer, epochs: seq<nat>, epoch: nat, n: nat, u: Update)
    requires Layered(f, b, epochs) && n > 0 && n != |epochs|
    requires Taken(f, epoch) && n < |SnapshotAt(f, epoch)| && u == SnapshotAt(f, epoch)[n]
    ensures var c: Buffer := (if n in b then map[] else b)[n := u];
            && c != map[] && (0 in c ==> !Unbroken(c))
            && forall k | k in c && k > 0 :: !c[k].SnapshotStart?
  {
    hide SnapshotAt;
    var c: Buffer := (if n in b then map[] else b)[n := u];
    assert n in c;
    SnapshotShape(f, epoch);
    forall k | k in c && k > 0
      ensures !c[k].SnapshotStart?
    {
      if k != n {
        FramesName(f, b, epochs, k);
      }
    }
    assert n - 1 !in c;
    assert !Preceded(c, n);
  }

  lemma EmptyLayers(f: Feed, b: Buffer, epochs: seq<nat>)
    requires Layered(f, b, epochs)
    ensures forall k: nat :: k in b <==> k < |epochs|
    ensures Layered(f, map[], [])
  {
  }

  /** The next message of a layered buffer, from the same snapshot or a later one. */
  lemma NextLayer(f: Feed, b: Buffer, epochs: seq<nat>, epoch: nat, u: Update)
    requires Layered(f, b, epochs) && (epochs != [] ==> epochs[|epochs| - 1] <= epoch)
    requires Taken(f, epoch) && |epochs| < |SnapshotAt(f, epoch)| && u == SnapshotAt(f, epoch)[|epochs|]
    ensures Layered(f, b[|epochs| := u], epochs + [epoch])
    ensures u.SnapshotEnd? ==> epochs != []
  {
    hide SnapshotAt;
    var next := epochs + [epoch];
    assert forall i | 0 <= i < |epochs| :: next[i] == epochs[i] && epochs[i] <= epochs[|epochs| - 1];
    FramesName(f, b[|epochs| := u], next, |epochs|);
  }

  lemma FirstLayer(f: Feed, epoch: nat, u: Update)
    requires Taken(f, epoch) && 0 < |SnapshotAt(f, epoch)| && u == SnapshotAt(f, epoch)[0]
    ensures Layered(f, map[0 := u], [epoch]) && !u.SnapshotEnd?
  {
    hide SnapshotAt;
    FramesName(f, map[0 := u], [epoch], 0);
  }

  /** Storing one published message. */
  lemma EnqueueGuarded(f: Feed, st: State, epochs: seq<nat>, seen: nat, isSnapshot: bool, epoch: nat, n: nat, u: Update)
    returns (after: seq<nat>)
    requires ValidFeed(f) && Guarded(f, st, epochs, seen) && st.recovering
    requires Published(f, isSnapshot, epoch, n, u) && InOrder(st, seen, isSnapshot, epoch, n, u)
    ensures Guarded(f, Enqueue(st, isSnapshot, n, u), after, if isSnapshot then epoch else seen)
    ensures Enqueue(st, isSnapshot, n, u).recovering ==> Enqueue(st, isSnapshot, n, u).out == st.out
  {
    hide SnapshotAt, Check, InSync, Forwarded, Layered;
    EmptyLayers(f, st.snapshot, epochs);
    if !isSnapshot {
      after := CheckGuarded(f, st.(incrementals := st.incrementals[n := u]), epochs, seen);
    } else {
      var b: Buffer := (if n in st.snapshot then map[] else st.snapshot)[n := u];
      if n == |epochs| {
        NextLayer(f, st.snapshot, epochs, epoch, u);
        after := CheckGuarded(f, st.(snapshot := b), epochs + [epoch], epoch);
      } else if n == 0 {
        FirstLayer(f, epoch, u);
        after := CheckGuarded(f, st.(snapshot := b), [epoch], epoch);
      } else {
        after := [];
        HoleLeft(f, st.snapshot, epochs, epoch, n, u);
        CheckDiscards(st.(snapshot := b));
      }
    }
  }

  /** One received message, in any state. */
  lemma ReceiveGuarded(f: Feed, st: State, epochs: seq<nat>, seen: nat, isSnapshot: bool, epoch: nat, n: nat, u: Update)
    returns (after: seq<nat>)
    requires ValidFeed(f) && Guarded(f, st, epochs, seen)
    requires Published(f, isSnapshot, epoch, n, u) && InOrder(st, seen, isSnapshot, epoch, n, u)
    ensures Guarded(f, Receive(st, isSnapshot, n, u), after, if isSnapshot then epoch else seen)
    ensures Receive(st, isSnapshot, n, u).recovering ==> Receive(st, isSnapshot, n, u).out == st.out
  {
    hide Enqueue, SnapshotAt, InSync, Forwarded;
    if st.recovering {
      after := EnqueueGuarded(f, st, epochs, seen, isSnapshot, epoch, n, u);
    } else if n != st.next {
      after := EnqueueGuarded(f, State(true, st.next, map[], map[], st.out), [], seen, isSnapshot, epoch, n, u);
    } else {
      after := epochs;
      if !isSnapshot {
        InSyncBounds(f, st);
        ForwardInSync(f, st, u);
      }
    }
  }

  lemma InSyncBounds(f: Feed, st: State)
    requires InSync(f, st)
    ensures 1 <= st.next <= |f.stream| + 1
  {
  }

  // ----- whole runs of batches

  /** The newest snapshot seen after some deliveries. */
  function SeenAfter(seen: nat, isSnapshot: bool, items: seq<Delivery>): nat {
    if !isSnapshot || items == [] then seen else items[|items| - 1].epoch
  }

  ghost predicate Ordered(f: Feed, st: State, seen: nat, isSnapshot: bool, items: seq<Delivery>)
    decreases items
  {
    items == [] ||
    var d := items[0];
    && Published(f, isSnapshot, d.epoch, d.n, d.u)
    && InOrder(st, seen, isSnapshot, d.epoch, d.n, d.u)
    && Ordered(f, Receive(st, isSnapshot, d.n, d.u), if isSnapshot then d.epoch else seen, isSnapshot, items[1..])
  }

  lemma {:induction false} BatchGuarded(f: Feed, st: State, epochs: seq<nat>, seen: nat,
                                        isSnapshot: bool, items: seq<Delivery>)
    returns (after: seq<nat>)
    requires ValidFeed(f) && Guarded(f, st, epochs, seen) && Ordered(f, st, seen, isSnapshot, items)
    ensures Guarded(f, ReceiveAll(st, isSnapshot, Payload(items)), after, SeenAfter(seen, isSnapshot, items))
    decreases items
  {
    hide Receive, Guarded, Published, InOrder;
    if items == [] {
      after := epochs;
    } else {
      var d := items[0];
      after := ReceiveGuarded(f, st, epochs, seen, isSnapshot, d.epoch, d.n, d.u);
      assert Payload(items)[1..] == Payload(items[1..]);
      after := BatchGuarded(f, Receive(st, isSnapshot, d.n, d.u), after, if isSnapshot then d.epoch else seen,
                            isSnapshot, items[1..]);
    }
  }

  function SeenBy(batches: seq<Batch>): nat
    decreases batches
  {
    if batches == [] then 0
    else
      var prior, last := batches[..|batches| - 1], batches[|batches| - 1];
      if Dropped(ConsumeAll(prior), last) then SeenBy(prior)
      else SeenAfter(SeenBy(prior), last.isSnapshot, last.items)
  }

  /** Every message handled is published; snapshot messages are of no older snapshots than before, and frames match. */
  ghost predicate OrderedAll(f: Feed, batches: seq<Batch>)
    decreases batches
  {
    batches == [] ||
    var prior, last := batches[..|batches| - 1], batches[|batches| - 1];
    && OrderedAll(f, prior)
    && (Dropped(ConsumeAll(prior), last) || Ordered(f, ConsumeAll(prior), SeenBy(prior), last.isSnapshot, last.items))
  }

  /**
   Any messages may be lost, first frames of snapshots included. As long as frames that close a
   buffer match, a consumer that is not recovering has forwarded the market.
   */
  lemma {:induction false} GuardedRunSafe(f: Feed, batches: seq<Batch>) returns (epochs: seq<nat>)
    requires ValidFeed(f) && OrderedAll(f, batches)
    ensures Guarded(f, ConsumeAll(batches), epochs, SeenBy(batches))
    ensures var st := ConsumeAll(batches);
            !st.recovering ==> InSync(f, st) && Forwarded(f, st.out, st.next)
    decreases batches
  {
    if batches == [] {
      assert f.stream[..0] == [];
      NothingForwarded(f);
      epochs := [];
    } else {
      var prior, last := batches[..|batches| - 1], batches[|batches| - 1];
      epochs := GuardedRunSafe(f, prior);
      if !Dropped(ConsumeAll(prior), last) {
        epochs := BatchGuarded(f, ConsumeAll(prior), epochs, SeenBy(prior), last.isSnapshot, last.items);
      }
    }
  }
}
