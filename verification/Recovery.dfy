/**
 Recovery safety. Whatever incremental messages are lost, repeated or reordered, and however many
 snapshots it takes, a consumer outside recovery has forwarded a stream whose replay is the
 published market up to its sequence number, queue for queue.
 */
module Recovery {
  import opened Types
  import opened Market
  import opened Synthesizer
  import opened Snapshots
  import opened Consumer

  /** What the exchange publishes: `stream[n - 1]` is incremental update number `n`. */
  datatype Feed = Feed(stream: seq<Update>, tickers: nat, ids: nat)

  ghost predicate ValidFeed(f: Feed) {
    Legal(Fresh(f.tickers), f.stream) && InRange(f.stream, f.ids)
  }

  /** The market after the first `n` updates. */
  function MarketAt(f: Feed, n: nat): (r: seq<Sides>)
    requires n <= |f.stream|
    ensures |r| == f.tickers
  {
    Replay(Fresh(f.tickers), f.stream[..n])
  }

  /** The synthesizer gets through the first `n` updates, so it can take a snapshot then. */
  predicate Taken(f: Feed, n: nat) {
    n <= |f.stream| && StepAll(map[], 0, f.tickers, f.ids, f.stream[..n]).Some?
  }

  /** The synthesizer's table after the first `n` updates. */
  function TableAt(f: Feed, n: nat): Table
    requires Taken(f, n)
  {
    StepAll(map[], 0, f.tickers, f.ids, f.stream[..n]).value
  }

  /** The snapshot taken after update `n`. */
  function SnapshotAt(f: Feed, n: nat): seq<Update>
    requires Taken(f, n)
  {
    Snapshot(TableAt(f, n), n, f.tickers, f.ids)
  }

  lemma FreshAgrees(tickers: nat)
    ensures Agrees(map[], Fresh(tickers)) && AllWellFormed(Fresh(tickers)) && AllMasked(Fresh(tickers))
  {
  }

  lemma {:induction false} FreshCount(tickers: nat)
    ensures LiveCount(Fresh(tickers)) == 0
  {
    if tickers > 0 {
      assert Fresh(tickers)[..tickers - 1] == Fresh(tickers - 1);
      FreshCount(tickers - 1);
    }
  }

  lemma MarketFacts(f: Feed, n: nat)
    requires ValidFeed(f) && n <= |f.stream|
    ensures Taken(f, n) ==> Agrees(TableAt(f, n), MarketAt(f, n)) && IdsBelow(TableAt(f, n), f.ids)
    ensures f.ids > 0 ==> (Taken(f, n) <==> NeverFull(Fresh(f.tickers), f.stream[..n], f.ids))
    ensures AllWellFormed(MarketAt(f, n)) && AllMasked(MarketAt(f, n))
  {
    assert f.stream == f.stream[..n] + f.stream[n..];
    ReplayConcat(Fresh(f.tickers), f.stream[..n], f.stream[n..]);
    FreshAgrees(f.tickers);
    assert InRange(f.stream[..n], f.ids) by {
      assert forall i | 0 <= i < n :: f.stream[..n][i] == f.stream[i];
    }
    FreshCount(f.tickers);
    SynthesizerAgrees(map[], Fresh(f.tickers), 0, f.ids, f.stream[..n]);
    ReplayWellFormed(Fresh(f.tickers), f.stream[..n]);
    ReplayMasked(Fresh(f.tickers), f.stream[..n]);
  }

  /**
   The synthesizer gets as far as update `n` exactly if up to there, over all tickers, fewer orders
   rested at any time than a ticker has ids.
   */
  lemma TakenIff(f: Feed, n: nat)
    requires ValidFeed(f) && n <= |f.stream| && f.ids > 0
    ensures Taken(f, n) <==> forall k | 0 <= k <= n :: LiveCount(MarketAt(f, k)) < f.ids
  {
    hide LiveCount, Taken;
    MarketFacts(f, n);
    FreshCount(f.tickers);
    assert f.stream[..0] == [];
    var start, us := Fresh(f.tickers), f.stream[..n];
    assert forall k | 0 <= k <= n :: MarketAt(f, k) == Replay(start, us[..k]) by {
      assert forall k | 0 <= k <= n :: us[..k] == f.stream[..k];
    }
    if forall k | 0 <= k <= n :: LiveCount(MarketAt(f, k)) < f.ids {
      assert forall k | 0 < k <= n :: LiveCount(MarketAt(f, k)) == LiveCount(Replay(start, us[..k]));
    }
    if NeverFull(start, us, f.ids) {
      assert forall k | 0 < k <= n :: LiveCount(MarketAt(f, k)) == LiveCount(Replay(start, us[..k]));
    }
  }

  // ----- what the buffers may hold

  /** Buffered incrementals are published ones. */
  ghost predicate FromStream(f: Feed, b: Buffer) {
    forall k | k in b :: 1 <= k <= |f.stream| && b[k] == f.stream[k - 1]
  }

  /** Buffered snapshot messages are all of the snapshot taken after update `n`. */
  ghost predicate FromSnapshot(f: Feed, b: Buffer, n: nat)
    requires Taken(f, n)
  {
    forall k | k in b :: k < |SnapshotAt(f, n)| && b[k] == SnapshotAt(f, n)[k]
  }

  ghost predicate FromSomeSnapshot(f: Feed, b: Buffer) {
    exists n: nat :: Taken(f, n) && FromSnapshot(f, b, n)
  }

  /** Outside recovery, what was forwarded replays to the market before update `next`. */
  ghost predicate InSync(f: Feed, st: State) {
    1 <= st.next <= |f.stream| + 1 && Replay(Fresh(f.tickers), st.out) == MarketAt(f, st.next - 1)
  }

  /**
   What was forwarded ends in the published updates, every one of them, from some number on up to
   `next`: from the first, with nothing before it, or from where the body of a snapshot left off.
   */
  ghost predicate Forwarded(f: Feed, out: seq<Update>, next: nat) {
    exists k: nat, p :: ForwardedFrom(f, out, next, k, p)
  }

  ghost predicate ForwardedFrom(f: Feed, out: seq<Update>, next: nat, k: nat, p: seq<Update>) {
    && k < next <= |f.stream| + 1 && out == p + f.stream[k..next - 1]
    && ((k == 0 && p == []) || (Taken(f, k) && EndsIn(p, Body(TableAt(f, k), f.tickers, f.ids))))
  }

  predicate EndsIn(p: seq<Update>, body: seq<Update>) {
    |body| <= |p| && p[|p| - |body|..] == body
  }

  ghost predicate Safe(f: Feed, st: State) {
    && FromStream(f, st.incrementals)
    && (st.snapshot != map[] ==> 0 in st.snapshot && FromSomeSnapshot(f, st.snapshot))
    && (!st.recovering ==> st.snapshot == map[] && InSync(f, st) && Forwarded(f, st.out, st.next))
  }

  // ----- the body of a snapshot and the incrementals after it

  ghost predicate Unframed(us: seq<Update>) {
    forall i | 0 <= i < |us| :: !IsFrame(us[i])
  }

  lemma {:induction false} BodyUnframed(tab: Table, t: nat, ids: nat)
    ensures Unframed(Body(tab, t, ids))
  {
    if t > 0 {
      BodyUnframed(tab, t - 1, ids);
      OrdersUnframed(tab, t - 1, ids);
    }
  }

  lemma {:induction false} OrdersUnframed(tab: Table, t: nat, n: nat)
    ensures Unframed(OrdersBelow(tab, t, n))
  {
    if n > 0 {
      OrdersUnframed(tab, t, n - 1);
    }
  }

  lemma {:induction false} LegalUnframed(cs: seq<Sides>, us: seq<Update>)
    requires Legal(cs, us)
    ensures Unframed(us)
    decreases us
  {
    if us != [] {
      LegalUnframed(ApplyAll(cs, us[0]), us[1..]);
      assert forall i | 1 <= i < |us| :: us[i] == us[1..][i - 1];
    }
  }

  lemma UnframedAt(us: seq<Update>, i: nat)
    requires Unframed(us) && i < |us|
    ensures !IsFrame(us[i])
  {
  }

  lemma Extended(us: seq<Update>, i: nat, j: nat)
    requires i <= j < |us|
    ensures us[i..j + 1] == us[i..j] + [us[j]]
  {
  }

  /** Buffered messages numbered without holes are read back as they were sent. */
  lemma {:induction false} ContentIs(b: Buffer, us: seq<Update>, base: nat, lo: nat, hi: nat)
    requires base <= lo <= hi <= base + |us| && Unframed(us)
    requires forall k | lo <= k < hi :: k in b && b[k] == us[k - base]
    ensures Content(b, lo, hi) == us[lo - base..hi - base]
  {
    hide Unframed, IsFrame;
    if lo < hi {
      var last := hi - 1;
      ContentIs(b, us, base, lo, last);
      UnframedAt(us, last - base);
      assert last in b && b[last] == us[last - base];
      Extended(us, lo - base, last - base);
    }
  }

  lemma SnapshotShape(f: Feed, n: nat)
    requires Taken(f, n)
    ensures var s := SnapshotAt(f, n); var body := Body(TableAt(f, n), f.tickers, f.ids);
            && |s| == |body| + 2 && Unframed(body)
            && s[0] == SnapshotStart(n) && s[|s| - 1] == SnapshotEnd(n)
            && (forall k | 1 <= k < |s| - 1 :: s[k] == body[k - 1] && !IsFrame(s[k]))
  {
    BodyUnframed(TableAt(f, n), f.tickers, f.ids);
  }

  /** A whole buffered snapshot is its body, the frames dropped. */
  lemma SnapshotContent(f: Feed, b: Buffer, n: nat)
    requires Taken(f, n) && FromSnapshot(f, b, n)
    requires forall k | 0 <= k < |SnapshotAt(f, n)| :: k in b
    ensures Content(b, 0, |SnapshotAt(f, n)|) == Body(TableAt(f, n), f.tickers, f.ids)
  {
    var s, body := SnapshotAt(f, n), Body(TableAt(f, n), f.tickers, f.ids);
    SnapshotShape(f, n);
    FramedContent(b, s, body);
  }

  lemma FramedContent(b: Buffer, s: seq<Update>, body: seq<Update>)
    requires |s| == |body| + 2 && Unframed(body) && IsFrame(s[0]) && IsFrame(s[|s| - 1])
    requires forall k | 1 <= k < |s| - 1 :: s[k] == body[k - 1]
    requires forall k | 0 <= k < |s| :: k in b && b[k] == s[k]
    ensures Content(b, 0, |s|) == body
  {
    var m := |s| - 1;
    ContentIs(b, body, 1, 1, m);
    assert body[0..m - 1] == body;
    assert b[m] == s[m] && b[0] == s[0];
    ContentSkip(b, m);
  }

  lemma {:induction false} ContentSkip(b: Buffer, hi: nat)
    requires 0 in b && IsFrame(b[0]) && hi >= 1
    ensures Content(b, 0, hi) == Content(b, 1, hi)
  {
    if hi > 1 {
      ContentSkip(b, hi - 1);
    }
  }

  /** Without holes from zero up to the largest key. */
  lemma {:induction false} UnbrokenTo(b: Buffer, k: nat, j: nat)
    requires Unbroken(b) && k in b && j <= k
    ensures j in b
  {
    if j < k {
      assert Preceded(b, k);
      UnbrokenTo(b, k - 1, j);
    }
  }

  // ----- resuming

  /** The incrementals read out are the published ones after `n`. */
  lemma IncrementalContent(f: Feed, b: Buffer, n: nat)
    requires ValidFeed(f) && n <= |f.stream| && FromStream(f, b)
    ensures var g := Gap(b, n + 1);
            n + 1 <= g <= |f.stream| + 1 && Content(b, n + 1, g) == f.stream[n..g - 1]
  {
    hide Legal, Fresh, Content, Gap;
    var g := Gap(b, n + 1);
    if g > n + 1 {
      assert g - 1 in b;
    }
    LegalUnframed(Fresh(f.tickers), f.stream);
    ContentIs(b, f.stream, 1, n + 1, g);
  }

  /** Replaying in two parts. */
  lemma ReplayParts(cs: seq<Sides>, us: seq<Update>, vs: seq<Update>)
    ensures Replay(cs, us + vs) == Replay(Replay(cs, us), vs)
  {
    ReplayConcat(cs, us, vs);
  }

  /** Replaying the snapshot taken after `n` gives the market after `n`, wherever one starts. */
  lemma SnapshotResets(f: Feed, start: seq<Sides>, n: nat)
    requires ValidFeed(f) && Taken(f, n) && |start| == f.tickers
    ensures Replay(start, Body(TableAt(f, n), f.tickers, f.ids)) == MarketAt(f, n)
  {
    MarketFacts(f, n);
    SnapshotRebuilds(start, TableAt(f, n), MarketAt(f, n), f.ids, f.tickers);
  }

  /** The market moves on with the stream. */
  lemma MarketLater(f: Feed, n: nat, m: nat)
    requires n <= m <= |f.stream|
    ensures Replay(MarketAt(f, n), f.stream[n..m]) == MarketAt(f, m)
  {
    ReplayParts(Fresh(f.tickers), f.stream[..n], f.stream[n..m]);
    assert f.stream[..n] + f.stream[n..m] == f.stream[..m];
  }

  /** A snapshot taken after `n` and the updates up to `m` carry any client to the market after `m`. */
  lemma CatchUp(f: Feed, out: seq<Update>, n: nat, m: nat)
    requires ValidFeed(f) && Taken(f, n) && n <= m <= |f.stream|
    ensures Replay(Fresh(f.tickers), out + Body(TableAt(f, n), f.tickers, f.ids) + f.stream[n..m]) == MarketAt(f, m)
  {
    var body := Body(TableAt(f, n), f.tickers, f.ids);
    ReplayParts(Fresh(f.tickers), out + body, f.stream[n..m]);
    ReplayParts(Fresh(f.tickers), out, body);
    SnapshotResets(f, Replay(Fresh(f.tickers), out), n);
    MarketLater(f, n, m);
  }

  /** Resuming from a complete snapshot taken after `n` puts the consumer in sync. */
  lemma ResumeInSync(f: Feed, st: State, n: nat)
    requires ValidFeed(f) && Taken(f, n) && FromStream(f, st.incrementals)
    requires FromSnapshot(f, st.snapshot, n)
    requires forall k | 0 <= k < |SnapshotAt(f, n)| :: k in st.snapshot
    requires !Beyond(st.incrementals, Gap(st.incrementals, n + 1))
    ensures var next := Resume(st, |SnapshotAt(f, n)|, n + 1);
            InSync(f, next) && Forwarded(f, next.out, next.next)
  {
    hide Gap, Content, Replay, Legal, SnapshotAt, TableAt, Forwarded;
    SnapshotContent(f, st.snapshot, n);
    IncrementalContent(f, st.incrementals, n);
    CatchUp(f, st.out, n, Gap(st.incrementals, n + 1) - 1);
    ForwardedOn(f, st.out, n, Gap(st.incrementals, n + 1));
  }

  /** A snapshot's body and what follows it. */
  lemma ForwardedOn(f: Feed, out: seq<Update>, n: nat, next: nat)
    requires Taken(f, n) && n < next <= |f.stream| + 1
    ensures Forwarded(f, out + Body(TableAt(f, n), f.tickers, f.ids) + f.stream[n..next - 1], next)
  {
    hide Taken, TableAt;
    var body := Body(TableAt(f, n), f.tickers, f.ids);
    assert EndsIn(out + body, body);
    assert ForwardedFrom(f, out + body + f.stream[n..next - 1], next, n, out + body);
  }

  lemma ForwardedNext(f: Feed, out: seq<Update>, next: nat)
    requires Forwarded(f, out, next) && next <= |f.stream|
    ensures Forwarded(f, out + [f.stream[next - 1]], next + 1)
  {
    hide Taken, TableAt;
    var k: nat, p :| ForwardedFrom(f, out, next, k, p);
    assert f.stream[k..next] == f.stream[k..next - 1] + [f.stream[next - 1]];
    assert ForwardedFrom(f, out + [f.stream[next - 1]], next + 1, k, p);
  }

  /** Finding the end frame in an unbroken buffer means the whole snapshot is there. */
  lemma WholeSnapshot(f: Feed, b: Buffer, n: nat, top: nat)
    requires Taken(f, n) && FromSnapshot(f, b, n) && Unbroken(b)
    requires top in b && b[top].SnapshotEnd?
    ensures top + 1 == |SnapshotAt(f, n)| && b[top].last == n
    ensures forall k | 0 <= k <= top :: k in b
  {
    SnapshotShape(f, n);
    forall k | 0 <= k <= top
      ensures k in b
    {
      UnbrokenTo(b, top, k);
    }
  }

  lemma ResumeSafe(f: Feed, st: State, top: nat)
    requires ValidFeed(f) && st.recovering && FromStream(f, st.incrementals) && FromSomeSnapshot(f, st.snapshot)
    requires Unbroken(st.snapshot) && top in st.snapshot && st.snapshot[top].SnapshotEnd?
    ensures var next := Resume(st, top + 1, st.snapshot[top].last + 1);
            Safe(f, next) && (next.recovering ==> next.out == st.out)
  {
    hide Gap, Content, Replay, Legal, SnapshotAt;
    var n: nat :| Taken(f, n) && FromSnapshot(f, st.snapshot, n);
    WholeSnapshot(f, st.snapshot, n, top);
    if !Beyond(st.incrementals, Gap(st.incrementals, n + 1)) {
      ResumeInSync(f, st, n);
    }
  }

  /** The check keeps the consumer safe, and forwards nothing unless it ends recovery. */
  lemma CheckSafe(f: Feed, st: State)
    requires ValidFeed(f) && st.recovering && FromStream(f, st.incrementals)
    requires st.snapshot != map[] ==> FromSomeSnapshot(f, st.snapshot)
    ensures Safe(f, Check(st))
    ensures Check(st).recovering ==> Check(st).out == st.out
  {
    hide Gap, Content, Replay, Legal, Resume, Ascending;
    if st.snapshot != map[] {
      var keys := Ascending(st.snapshot.Keys);
      AscendingEnumerates(st.snapshot);
      var top := keys[|keys| - 1];
      if Unbroken(st.snapshot) {
        UnbrokenTo(st.snapshot, top, 0);
        if st.snapshot[top].SnapshotEnd? {
          ResumeSafe(f, st, top);
        }
      }
    }
  }

  // ----- received messages

  /** A published message: incremental number `n`, or message `n` of the snapshot taken after `epoch`. */
  ghost predicate Published(f: Feed, isSnapshot: bool, epoch: nat, n: nat, u: Update) {
    if isSnapshot then Taken(f, epoch) && n < |SnapshotAt(f, epoch)| && u == SnapshotAt(f, epoch)[n]
    else 1 <= n <= |f.stream| && u == f.stream[n - 1]
  }

  /**
   The environment's promise for a snapshot message: it is a SNAPSHOT_START (number 0), or what is
   buffered is from the same snapshot. It holds if snapshot messages arrive in order and no
   SNAPSHOT_START is lost while part of an older snapshot is buffered.
   */
  ghost predicate InTurn(f: Feed, st: State, isSnapshot: bool, epoch: nat, n: nat)
    requires isSnapshot ==> Taken(f, epoch)
  {
    isSnapshot && st.recovering ==> n == 0 || FromSnapshot(f, st.snapshot, epoch)
  }

  /** Storing one published message keeps the buffers to one snapshot and the stream. */
  lemma EnqueueSafe(f: Feed, st: State, isSnapshot: bool, epoch: nat, n: nat, u: Update)
    requires ValidFeed(f) && Safe(f, st) && st.recovering
    requires Published(f, isSnapshot, epoch, n, u) && InTurn(f, st, isSnapshot, epoch, n)
    ensures Safe(f, Enqueue(st, isSnapshot, n, u))
    ensures Enqueue(st, isSnapshot, n, u).recovering ==> Enqueue(st, isSnapshot, n, u).out == st.out
  {
    if isSnapshot {
      var b: Buffer := (if n in st.snapshot then map[] else st.snapshot)[n := u];
      assert FromSnapshot(f, b, epoch);
      CheckSafe(f, st.(snapshot := b));
    } else {
      CheckSafe(f, st.(incrementals := st.incrementals[n := u]));
    }
  }

  /** One received message, in any state: safety is kept and nothing is forwarded while recovering. */
  lemma ReceiveSafe(f: Feed, st: State, isSnapshot: bool, epoch: nat, n: nat, u: Update)
    requires ValidFeed(f) && Safe(f, st)
    requires Published(f, isSnapshot, epoch, n, u) && InTurn(f, st, isSnapshot, epoch, n)
    ensures Safe(f, Receive(st, isSnapshot, n, u))
    ensures Receive(st, isSnapshot, n, u).recovering ==> Receive(st, isSnapshot, n, u).out == st.out
  {
    if st.recovering {
      EnqueueSafe(f, st, isSnapshot, epoch, n, u);
    } else if n != st.next {
      EnqueueSafe(f, State(true, st.next, map[], map[], st.out), isSnapshot, epoch, n, u);
    } else if !isSnapshot {
      ForwardInSync(f, st, u);
    }
  }

  /** Forwarding the expected update keeps the consumer in sync. */
  lemma ForwardInSync(f: Feed, st: State, u: Update)
    requires InSync(f, st) && Forwarded(f, st.out, st.next)
    requires 1 <= st.next <= |f.stream| && u == f.stream[st.next - 1]
    ensures InSync(f, st.(next := st.next + 1, out := st.out + [u]))
    ensures Forwarded(f, st.out + [u], st.next + 1)
  {
    hide InSync, Forwarded;
    InSyncNext(f, st, u);
    ForwardedNext(f, st.out, st.next);
  }

  lemma InSyncNext(f: Feed, st: State, u: Update)
    requires InSync(f, st) && st.next <= |f.stream| && u == f.stream[st.next - 1]
    ensures InSync(f, st.(next := st.next + 1, out := st.out + [u]))
  {
    hide Replay;
    var start, before := Fresh(f.tickers), f.stream[..st.next - 1];
    ReplayConcat(start, st.out, [u]);
    ReplayConcat(start, before, [u]);
    assert before + [u] == f.stream[..st.next];
  }

  // ----- whole runs of batches

  /** A message as delivered, with the snapshot it was taken from. */
  datatype Delivery = Delivery(epoch: nat, n: nat, u: Update)

  datatype Batch = Batch(isSnapshot: bool, items: seq<Delivery>)

  function Payload(items: seq<Delivery>): (r: seq<(nat, Update)>)
    ensures |r| == |items|
  {
    seq(|items|, i requires 0 <= i < |items| => (items[i].n, items[i].u))
  }

  function Consume(st: State, b: Batch): State {
    Callback(st, b.isSnapshot, Payload(b.items))
  }

  /** A snapshot batch outside recovery is thrown away unread. */
  predicate Dropped(st: State, b: Batch) {
    b.isSnapshot && !st.recovering
  }

  /** Every message of a batch is published and in turn when it is handled. */
  ghost predicate Allowed(f: Feed, st: State, isSnapshot: bool, items: seq<Delivery>)
    decreases items
  {
    items == [] ||
    var d := items[0];
    && Published(f, isSnapshot, d.epoch, d.n, d.u)
    && InTurn(f, st, isSnapshot, d.epoch, d.n)
    && Allowed(f, Receive(st, isSnapshot, d.n, d.u), isSnapshot, items[1..])
  }

  lemma {:induction false} BatchSafe(f: Feed, st: State, isSnapshot: bool, items: seq<Delivery>)
    requires ValidFeed(f) && Safe(f, st) && Allowed(f, st, isSnapshot, items)
    ensures Safe(f, ReceiveAll(st, isSnapshot, Payload(items)))
    decreases items
  {
    if items != [] {
      var d := items[0];
      ReceiveSafe(f, st, isSnapshot, d.epoch, d.n, d.u);
      assert Payload(items)[1..] == Payload(items[1..]);
      BatchSafe(f, Receive(st, isSnapshot, d.n, d.u), isSnapshot, items[1..]);
    }
  }

  const STARTED := State(false, 1, map[], map[], [])

  function ConsumeAll(batches: seq<Batch>): State
    decreases batches
  {
    if batches == [] then STARTED
    else Consume(ConsumeAll(batches[..|batches| - 1]), batches[|batches| - 1])
  }

  ghost predicate AllowedAll(f: Feed, batches: seq<Batch>)
    decreases batches
  {
    batches == [] ||
    var prior, last := batches[..|batches| - 1], batches[|batches| - 1];
    && AllowedAll(f, prior)
    && (Dropped(ConsumeAll(prior), last) || Allowed(f, ConsumeAll(prior), last.isSnapshot, last.items))
  }

  lemma NothingForwarded(f: Feed)
    ensures Forwarded(f, [], 1)
  {
    assert ForwardedFrom(f, [], 1, 0, []);
  }

  /** The first updates as they arrive when nothing is lost. */
  function Arrivals(f: Feed, n: nat): (r: seq<(nat, Update)>)
    requires n <= |f.stream|
    ensures |r| == n
  {
    seq(n, i requires 0 <= i < n => (i + 1, f.stream[i]))
  }

  /** A consumer that has forwarded the first `n` updates and is not recovering. */
  function Following(f: Feed, n: nat): State
    requires n <= |f.stream|
  {
    State(false, n + 1, map[], map[], f.stream[..n])
  }

  lemma {:induction false} ArrivalsForwarded(f: Feed, m: nat, n: nat)
    requires m <= n <= |f.stream|
    ensures ReceiveAll(Following(f, m), false, Arrivals(f, n)[m..]) == Following(f, n)
    decreases n
  {
    if m < n {
      ArrivalsForwarded(f, m, n - 1);
      var before, last := Arrivals(f, n - 1)[m..], (n, f.stream[n - 1]);
      assert Arrivals(f, n)[m..] == before + [last];
      ReceiveAllAppend(Following(f, m), false, before, last);
      assert f.stream[..n] == f.stream[..n - 1] + [f.stream[n - 1]];
    }
  }

  /** The incremental messages of all batches, one after the other. */
  function Incrementals(batches: seq<Batch>): seq<(nat, Update)> {
    if batches == [] then []
    else
      var before, last := Incrementals(batches[..|batches| - 1]), batches[|batches| - 1];
      if last.isSnapshot then before else before + Payload(last.items)
  }

  /**
   Nothing lost, and anything at all on the snapshot stream: the consumer never recovers, and has forwarded each
   update once, in order, as it was sent.
   */
  lemma {:induction false} NothingLost(f: Feed, batches: seq<Batch>, n: nat)
    requires n <= |f.stream| && Incrementals(batches) == Arrivals(f, n)
    ensures ConsumeAll(batches) == State(false, n + 1, map[], map[], f.stream[..n])
    decreases batches
  {
    if batches != [] {
      var prior, last := batches[..|batches| - 1], batches[|batches| - 1];
      var m := |Incrementals(prior)|;
      assert Incrementals(prior) == Arrivals(f, n)[..m] == Arrivals(f, m);
      NothingLost(f, prior, m);
      if !last.isSnapshot {
        assert Payload(last.items) == Arrivals(f, n)[m..];
        ArrivalsForwarded(f, m, n);
      }
    }
  }

  /** In every state of every allowed run the consumer is safe. */
  lemma {:induction false} RunSafe(f: Feed, batches: seq<Batch>)
    requires ValidFeed(f) && AllowedAll(f, batches)
    ensures Safe(f, ConsumeAll(batches))
    decreases batches
  {
    if batches == [] {
      assert f.stream[..0] == [];
      NothingForwarded(f);
    } else {
      hide Safe;
      var prior, last := batches[..|batches| - 1], batches[|batches| - 1];
      RunSafe(f, prior);
      if !Dropped(ConsumeAll(prior), last) {
        BatchSafe(f, ConsumeAll(prior), last.isSnapshot, last.items);
      }
    }
  }
}
