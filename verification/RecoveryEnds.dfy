/**
 That recovery ends. A consumer that loses nothing of one snapshot, from its first frame to its
 last, leaves recovery with the last frame, unless an incremental update is missing among those
 buffered; then it drops the snapshot and waits for another.
 */
module RecoveryEnds {
  import opened Types
  import opened Synthesizer
  import opened Consumer
  import opened Recovery

  /** A message received: of the snapshot stream or of the incremental one. */
  datatype Arrival = Arrival(isSnapshot: bool, n: nat, u: Update)

  function Arrive(st: State, ms: seq<Arrival>): State
    decreases ms
  {
    if ms == [] then st
    else
      var last := ms[|ms| - 1];
      Receive(Arrive(st, ms[..|ms| - 1]), last.isSnapshot, last.n, last.u)
  }

  function SnapshotCount(ms: seq<Arrival>): (c: nat)
    ensures c <= |ms|
  {
    if ms == [] then 0
    else SnapshotCount(ms[..|ms| - 1]) + if ms[|ms| - 1].isSnapshot then 1 else 0
  }

  /** The incrementals buffered when these have come too. */
  function Buffered(b: Buffer, ms: seq<Arrival>): Buffer {
    if ms == [] then b
    else
      var last := ms[|ms| - 1];
      if last.isSnapshot then Buffered(b, ms[..|ms| - 1]) else Buffered(b, ms[..|ms| - 1])[last.n := last.u]
  }

  /**
   The snapshot messages are those of the snapshot taken after `n`, each in its turn; incrementals
   come as they like.
   */
  ghost predicate InSequence(f: Feed, n: nat, ms: seq<Arrival>)
    requires Taken(f, n)
  {
    forall i {:trigger ms[i]} | 0 <= i < |ms| && ms[i].isSnapshot ::
      var k := SnapshotCount(ms[..i]);
      k < |SnapshotAt(f, n)| && ms[i].n == k && ms[i].u == SnapshotAt(f, n)[k]
  }

  lemma EarlierInSequence(f: Feed, n: nat, ms: seq<Arrival>)
    requires Taken(f, n) && InSequence(f, n, ms) && ms != []
    ensures InSequence(f, n, ms[..|ms| - 1])
  {
    var ks := ms[..|ms| - 1];
    assert forall i | 0 <= i < |ks| :: ks[i] == ms[i] && ks[..i] == ms[..i];
  }

  /** The first `k` messages of a snapshot, buffered. */
  function Head(s: seq<Update>, k: nat): (b: Buffer)
    requires k <= |s|
  {
    map i: nat | i < k :: s[i]
  }

  /** Short of the last frame, the snapshot fills up and nothing else happens. */
  lemma {:induction false} Fills(f: Feed, st: State, n: nat, ms: seq<Arrival>)
    requires Taken(f, n) && st.recovering && (st.snapshot != map[] ==> 0 in st.snapshot)
    requires ms != [] && ms[0].isSnapshot && InSequence(f, n, ms)
    requires SnapshotCount(ms) < |SnapshotAt(f, n)|
    ensures SnapshotCount(ms) > 0
    ensures Arrive(st, ms)
         == st.(incrementals := Buffered(st.incrementals, ms), snapshot := Head(SnapshotAt(f, n), SnapshotCount(ms)))
    decreases |ms|
  {
    hide Check, SnapshotAt;
    var last, before := ms[|ms| - 1], ms[..|ms| - 1];
    EarlierInSequence(f, n, ms);
    if before == [] {
      assert ms[..0] == [];
      assert Buffered(st.incrementals, ms) == st.incrementals;
    } else {
      Fills(f, st, n, before);
    }
    HeadWaits(f, n, st.(incrementals := Buffered(st.incrementals, ms)), SnapshotCount(ms));
    assert last.isSnapshot ==>
        (if last.n in Arrive(st, before).snapshot then map[] else Arrive(st, before).snapshot)[last.n := last.u]
        == Head(SnapshotAt(f, n), SnapshotCount(ms));
  }

  lemma HeadWaits(f: Feed, n: nat, st: State, k: nat)
    requires Taken(f, n) && 0 < k < |SnapshotAt(f, n)|
    ensures var b := Head(SnapshotAt(f, n), k); Check(st.(snapshot := b)) == st.(snapshot := b)
  {
    hide Check, SnapshotAt;
    SnapshotShape(f, n);
    Waits(st.(snapshot := Head(SnapshotAt(f, n), k)), k - 1);
  }

  /**
   When the last frame has come, recovery is over exactly if nothing buffered lies beyond the first
   missing update after `n`; the consumer goes on from that one.
   */
  lemma {:induction false} EndsRecovery(f: Feed, st: State, n: nat, ms: seq<Arrival>)
    requires Taken(f, n) && st.recovering && Safe(f, st)
    requires ms != [] && ms[0].isSnapshot && ms[|ms| - 1].isSnapshot && InSequence(f, n, ms)
    requires SnapshotCount(ms) == |SnapshotAt(f, n)|
    ensures var b := Buffered(st.incrementals, ms); var now := Arrive(st, ms);
            && now.next == Gap(b, n + 1) && now.snapshot == map[]
            && (!now.recovering <==> !Beyond(b, now.next))
            && (now.recovering ==> now.incrementals == b && now.out == st.out)
            && (!now.recovering ==>
                  now.out == st.out + Body(TableAt(f, n), f.tickers, f.ids) + Content(b, n + 1, now.next))
  {
    hide Receive, SnapshotAt, Gap, Content, Beyond, Safe, InSync;
    SafeStart(f, st);
    var last, before := ms[|ms| - 1], ms[..|ms| - 1];
    EarlierInSequence(f, n, ms);
    SnapshotShape(f, n);
    SingleNotWhole(f, n, ms);
    Fills(f, st, n, before);
    LastFrame(f, st.(incrementals := Buffered(st.incrementals, ms)), n);
  }

  lemma {:induction false} SingleNotWhole(f: Feed, n: nat, ms: seq<Arrival>)
    requires Taken(f, n) && ms != [] && SnapshotCount(ms) == |SnapshotAt(f, n)|
    ensures |ms| > 1
  {
    hide SnapshotAt;
    SnapshotShape(f, n);
  }

  /** What the last frame does to a snapshot buffer that lacks only it. */
  lemma LastFrame(f: Feed, st: State, n: nat)
    requires Taken(f, n) && st.recovering
    ensures |SnapshotAt(f, n)| > 1
    ensures var s := SnapshotAt(f, n); var b := st.incrementals;
            var now := Receive(st.(snapshot := Head(s, |s| - 1)), true, |s| - 1, s[|s| - 1]);
            && now.next == Gap(b, n + 1) && now.snapshot == map[]
            && (!now.recovering <==> !Beyond(b, now.next))
            && (now.recovering ==> now.incrementals == b && now.out == st.out)
            && (!now.recovering ==>
                  now.out == st.out + Body(TableAt(f, n), f.tickers, f.ids) + Content(b, n + 1, now.next))
  {
    hide Check, SnapshotAt, Gap, Content, Beyond;
    SnapshotShape(f, n);
    var s := SnapshotAt(f, n);
    assert Head(s, |s| - 1)[|s| - 1 := s[|s| - 1]] == Head(s, |s|);
    Resumes(st.(snapshot := Head(s, |s|)), |s| - 1);
    SnapshotContent(f, Head(s, |s|), n);
  }

  lemma SafeStart(f: Feed, st: State)
    requires Safe(f, st)
    ensures st.snapshot != map[] ==> 0 in st.snapshot
  {
  }

  /** What the synthesizer sends, as it arrives. */
  function Sent(us: seq<(nat, Update)>): (ms: seq<Arrival>)
    ensures |ms| == |us| && forall i | 0 <= i < |ms| :: ms[i] == Arrival(true, us[i].0, us[i].1)
  {
    seq(|us|, i requires 0 <= i < |us| => Arrival(true, us[i].0, us[i].1))
  }

  lemma {:induction false} SentCount(ms: seq<Arrival>)
    requires forall i | 0 <= i < |ms| :: ms[i].isSnapshot
    ensures SnapshotCount(ms) == |ms| && forall b: Buffer :: Buffered(b, ms) == b
    decreases |ms|
  {
    if ms != [] {
      SentCount(ms[..|ms| - 1]);
    }
  }

  /**
   One snapshot as the synthesizer numbers and sends it, delivered whole, ends recovery exactly if nothing buffered
   lies beyond the first missing update; the client then has the snapshot's orders and the updates after it.
   */
  lemma SnapshotEndsRecovery(f: Feed, st: State, n: nat)
    requires Taken(f, n) && st.recovering && Safe(f, st)
    ensures var now := Arrive(st, Sent(Numbered(Snapshot(TableAt(f, n), n, f.tickers, f.ids))));
            var b := st.incrementals;
            && now.next == Gap(b, n + 1) && now.snapshot == map[]
            && (!now.recovering <==> !Beyond(b, now.next))
            && (!now.recovering ==>
                  now.out == st.out + Body(TableAt(f, n), f.tickers, f.ids) + Content(b, n + 1, now.next))
  {
    hide Arrive, Buffered, TableAt, Gap, Content, Beyond, Safe, Snapshot;
    var s := SnapshotAt(f, n);
    var ms := Sent(Numbered(s));
    SnapshotShape(f, n);
    SentCount(ms);
    forall i | 0 <= i < |ms|
      ensures SnapshotCount(ms[..i]) == i
    {
      SentCount(ms[..i]);
    }
    assert InSequence(f, n, ms);
    EndsRecovery(f, st, n, ms);
  }

  // ----- the check, whatever is buffered

  /** The snapshot buffer is numbered 0 to `m` without holes and begins with a first frame. */
  ghost predicate Begun(b: Buffer, m: nat) {
    (forall k: nat :: k in b <==> k <= m) && b[0].SnapshotStart?
  }

  /** It also ends with a last frame, and no incremental update is missing after the one that frame names. */
  ghost predicate Complete(st: State, m: nat) {
    && Begun(st.snapshot, m) && st.snapshot[m].SnapshotEnd?
    && !Beyond(st.incrementals, Gap(st.incrementals, st.snapshot[m].last + 1))
  }

  /**
   Of any buffers, sent by whomever: the check ends recovery exactly if they are complete, and it keeps
   a snapshot exactly if that has begun and lacks its last frame.
   */
  lemma CheckEnds(st: State)
    requires st.recovering
    ensures !Check(st).recovering <==> exists m: nat :: Complete(st, m)
    ensures Check(st).recovering ==>
              Check(st).snapshot
              == if exists m: nat :: Begun(st.snapshot, m) && !st.snapshot[m].SnapshotEnd? then st.snapshot else map[]
  {
    hide Resume, Ascending, Gap, Content, Beyond, Unbroken;
    if st.snapshot == map[] {
      assert 0 !in st.snapshot;
    } else {
      AscendingEnumerates(st.snapshot);
      var keys := Ascending(st.snapshot.Keys);
      var m := keys[|keys| - 1];
      if Unbroken(st.snapshot) {
        FullTo(st.snapshot, m);
        Ends(st.snapshot, m);
        ResumeKeeps(st, m + 1, st.snapshot[m]);
        OnlyTo(st.snapshot, m);
        assert !Check(st).recovering <==> Complete(st, m);
      } else {
        NeverBegun(st.snapshot);
      }
    }
  }

  lemma FullTo(b: Buffer, m: nat)
    requires Unbroken(b) && Enumerates(Ascending(b.Keys), b) && Ascending(b.Keys) != []
    requires m == Ascending(b.Keys)[|Ascending(b.Keys)| - 1]
    ensures forall k: nat :: k in b <==> k <= m
  {
    hide Ascending, Unbroken;
    forall k: nat
      ensures k in b <==> k <= m
    {
      if k <= m {
        UnbrokenTo(b, m, k);
      }
      if k in b {
        assert Listed(Ascending(b.Keys), k);
      }
    }
  }

  lemma OnlyTo(b: Buffer, m: nat)
    requires forall k: nat :: k in b <==> k <= m
    ensures forall n: nat :: Begun(b, n) ==> n == m
  {
    forall n: nat | Begun(b, n)
      ensures n == m
    {
      assert n in b && m in b && n + 1 !in b && m + 1 !in b;
    }
  }

  lemma NeverBegun(b: Buffer)
    requires !Unbroken(b)
    ensures forall n: nat :: !Begun(b, n)
  {
    hide Unbroken;
    forall n: nat
      ensures !Begun(b, n)
    {
      if Begun(b, n) {
        FullUnbroken(b, n);
      }
    }
  }

  lemma ResumeKeeps(st: State, size: nat, end: Update)
    requires st.recovering
    ensures end.SnapshotEnd? ==>
              var next := Resume(st, size, end.last + 1);
              && next.snapshot == map[]
              && (next.recovering <==> Beyond(st.incrementals, Gap(st.incrementals, end.last + 1)))
  {
  }

  // ----- when recovery begins, and what it collects

  /** Out of recovery, it begins exactly with a message that is not the next one, from either stream. */
  lemma BeginsIff(st: State, m: Arrival)
    requires !st.recovering
    ensures var now := Receive(st, m.isSnapshot, m.n, m.u);
            && (now.recovering <==> m.n != st.next)
            && (now.recovering ==>
                  now.incrementals == Buffered(map[], [m]) && now.out == st.out && now.next == st.next)
  {
    hide Check, Complete;
    assert [m][..0] == [];
    if m.n != st.next {
      var queued := State(true, st.next, if m.isSnapshot then map[] else map[m.n := m.u],
                          if m.isSnapshot then map[m.n := m.u] else map[], st.out);
      assert Receive(st, m.isSnapshot, m.n, m.u) == Check(queued);
      CheckEnds(queued);
      OneIsNotComplete(queued, m.n);
      CheckKeeps(queued);
      CheckOfOne(queued, m.n);
    }
  }

  lemma BegunHas(b: Buffer, m: nat)
    requires Begun(b, m)
    ensures 0 in b && m in b
  {
  }

  lemma OneIsNotComplete(st: State, n: nat)
    requires forall k | k in st.snapshot :: k == n
    ensures forall m: nat :: !Complete(st, m)
  {
    hide Gap, Beyond;
    forall m: nat
      ensures !Complete(st, m)
    {
      if Begun(st.snapshot, m) {
        BegunHas(st.snapshot, m);
      }
    }
  }

  /** While recovery goes on the check changes neither the buffered incrementals nor what is forwarded. */
  lemma CheckKeeps(st: State)
    requires st.recovering
    ensures Check(st).recovering ==> Check(st).incrementals == st.incrementals && Check(st).out == st.out
  {
    hide Ascending, Gap, Content, Beyond, Unbroken;
    if st.snapshot != map[] {
      AscendingEnumerates(st.snapshot);
    }
  }

  lemma CheckOfOne(st: State, n: nat)
    requires st.recovering && forall k | k in st.snapshot :: k == n
    ensures Check(st).next == st.next
  {
    hide Resume, Gap, Content, Beyond, Ascending;
    if st.snapshot != map[] {
      AscendingEnumerates(st.snapshot);
      var keys := Ascending(st.snapshot.Keys);
      assert keys[0] == keys[|keys| - 1];
    }
  }

  /**
   As long as recovery lasts, every incremental update that came since it began is buffered under its number, the
   first one with it, and nothing is forwarded.
   */
  lemma {:induction false} IncrementalsKept(st: State, ms: seq<Arrival>)
    requires !st.recovering && ms != [] && ms[0].n != st.next
    requires forall i | 0 < i <= |ms| :: Arrive(st, ms[..i]).recovering
    ensures Arrive(st, ms).incrementals == Buffered(map[], ms) && Arrive(st, ms).out == st.out
    decreases |ms|
  {
    hide Check;
    var before, last := ms[..|ms| - 1], ms[|ms| - 1];
    assert ms[..|ms|] == ms && Arrive(st, ms).recovering;
    if before == [] {
      assert ms == [last];
      BeginsIff(st, last);
    } else {
      assert forall i | 0 < i <= |before| :: before[..i] == ms[..i];
      IncrementalsKept(st, before);
      var was := Arrive(st, before);
      assert before[..|before|] == before && was.recovering;
      var queued :=
        if last.isSnapshot then
          was.(snapshot := (if last.n in was.snapshot then map[] else was.snapshot)[last.n := last.u])
        else was.(incrementals := was.incrementals[last.n := last.u]);
      CheckKeeps(queued);
    }
  }
}
