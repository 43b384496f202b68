/**
 The client's market data consumer: it forwards incremental updates in sequence and, after a
 loss, waits for a complete snapshot and enough buffered incrementals to start again.

 `State` and the functions over it say what each method of the class does.
 */
module Consumer {
  import opened Types

  type Buffer = map<nat, Update>  // by sequence number

  datatype State = State(recovering: bool, next: nat, incrementals: Buffer, snapshot: Buffer, out: seq<Update>)

  // ----- ordered iteration

  lemma {:induction false} LargestExists(s: set<nat>)
    requires s != {}
    ensures exists m :: m in s && forall k | k in s :: k <= m
  {
    var x :| x in s;
    if s != {x} {
      LargestExists(s - {x});
      var m :| m in s - {x} && forall k | k in s - {x} :: k <= m;
      var top := if x > m then x else m;
      assert forall k | k in s :: k == x || k in s - {x};
      assert top in s && forall k | k in s :: k <= top;
    }
  }

  function Largest(s: set<nat>): (m: nat)
    requires s != {}
    ensures m in s && forall k | k in s :: k <= m
  {
    LargestExists(s);
    var m :| m in s && forall k | k in s :: k <= m;
    m
  }

  /** The keys of an ordered map in iteration order. */
  function Ascending(s: set<nat>): (r: seq<nat>)
    ensures forall i | 0 <= i < |r| :: r[i] in s
    ensures forall k {:trigger Listed(r, k)} | k in s :: Listed(r, k)
    ensures forall i, j | 0 <= i < j < |r| :: r[i] < r[j]
  {
    if s == {} then []
    else
      var m := Largest(s);
      var rest := Ascending(s - {m});
      assert forall k | k in s :: k == m || Listed(rest, k);
      rest + [m]
  }

  predicate Listed(keys: seq<nat>, k: nat) {
    k in keys
  }

  /** The keys of a buffer, in iteration order. */
  ghost predicate Enumerates(keys: seq<nat>, b: Buffer) {
    && (forall i | 0 <= i < |keys| :: keys[i] in b)
    && (forall k {:trigger Listed(keys, k)} | k in b :: Listed(keys, k))
    && (forall i, j | 0 <= i < j < |keys| :: keys[i] < keys[j])
  }

  lemma AscendingEnumerates(b: Buffer)
    ensures Enumerates(Ascending(b.Keys), b)
    ensures b != map[] ==> Ascending(b.Keys) != []
  {
    if b != map[] {
      var k :| k in b;
      assert Listed(Ascending(b.Keys), k);
    }
  }

  // ----- what recovery reads out of the buffers

  predicate IsFrame(u: Update) {
    u.SnapshotStart? || u.SnapshotEnd?
  }

  /** The buffered updates numbered `lo` up to `hi`, without snapshot frames. */
  function Content(b: Buffer, lo: nat, hi: nat): seq<Update> {
    if hi <= lo then []
    else if hi - 1 in b && !IsFrame(b[hi - 1]) then Content(b, lo, hi - 1) + [b[hi - 1]]
    else Content(b, lo, hi - 1)
  }

  /** The first number from `from` on that is not buffered. */
  function Gap(b: Buffer, from: nat): (g: nat)
    ensures g >= from && g !in b
    ensures forall k | from <= k < g :: k in b
    decreases AtLeast(b, from)
  {
    if from !in b then from
    else
      assert from in AtLeast(b, from) && from !in AtLeast(b, from + 1);
      assert AtLeast(b, from + 1) <= AtLeast(b, from);
      Gap(b, from + 1)
  }

  function AtLeast(b: Buffer, from: nat): set<nat> {
    set k | k in b && k >= from
  }

  /** Numbered without holes from zero. */
  predicate Unbroken(b: Buffer) {
    forall k {:trigger Preceded(b, k)} | k in b :: Preceded(b, k)
  }

  predicate Preceded(b: Buffer, k: nat) {
    k == 0 || k - 1 in b
  }

  lemma FullUnbroken(b: Buffer, m: nat)
    requires forall k: nat :: k in b <==> k <= m
    ensures b != map[] && 0 in b && m in b && Unbroken(b)
  {
    assert 0 in b;
    forall k | k in b
      ensures Preceded(b, k)
    {
      assert k <= m;
    }
  }

  /** First and last of the keys of a buffer that is full up to `m`. */
  lemma Ends(b: Buffer, m: nat)
    requires forall k: nat :: k in b <==> k <= m
    ensures var keys := Ascending(b.Keys); keys != [] && keys[0] == 0 && keys[|keys| - 1] == m
  {
    hide Ascending;
    AscendingEnumerates(b);
    assert 0 in b && m in b;
    var keys := Ascending(b.Keys);
    assert Listed(keys, 0) && Listed(keys, m);
  }

  /** Something numbered beyond `g` is buffered. */
  predicate Beyond(b: Buffer, g: nat) {
    exists k :: k in b && k > g
  }

  /** With a complete snapshot of `size` messages: go on from `from`, unless incrementals are missing. */
  function Resume(st: State, size: nat, from: nat): State {
    var g := Gap(st.incrementals, from);
    if Beyond(st.incrementals, g) then st.(snapshot := map[], next := g)
    else State(false, g, map[], map[],
               st.out + Content(st.snapshot, 0, size) + Content(st.incrementals, from, g))
  }

  /** Whether recovery can finish now, and what it then forwards. */
  function Check(st: State): State {
    if st.snapshot == map[] then st
    else
      var keys := Ascending(st.snapshot.Keys);
      AscendingEnumerates(st.snapshot);
      var end := st.snapshot[keys[|keys| - 1]];
      if !st.snapshot[keys[0]].SnapshotStart? || !Unbroken(st.snapshot) then st.(snapshot := map[])
      else if !end.SnapshotEnd? then st
      else
        Resume(st, keys[|keys| - 1] + 1, end.last + 1)
  }

  /** A full buffer whose last message is no end frame waits. */
  lemma Waits(st: State, m: nat)
    requires forall k: nat :: k in st.snapshot <==> k <= m
    requires st.snapshot[0].SnapshotStart? && !st.snapshot[m].SnapshotEnd?
    ensures Check(st) == st
  {
    hide Resume, Ascending, Gap, Content;
    FullUnbroken(st.snapshot, m);
    Ends(st.snapshot, m);
    AscendingEnumerates(st.snapshot);
  }

  /** With an end frame it resumes, if it can. */
  lemma Resumes(st: State, m: nat)
    requires forall k: nat :: k in st.snapshot <==> k <= m
    requires st.snapshot[0].SnapshotStart? && st.snapshot[m].SnapshotEnd?
    ensures Check(st) == Resume(st, m + 1, st.snapshot[m].last + 1)
  {
    hide Resume, Ascending, Gap, Content;
    FullUnbroken(st.snapshot, m);
    Ends(st.snapshot, m);
    AscendingEnumerates(st.snapshot);
  }

  function Enqueue(st: State, isSnapshot: bool, n: nat, u: Update): State {
    Check(if isSnapshot then st.(snapshot := (if n in st.snapshot then map[] else st.snapshot)[n := u])
          else st.(incrementals := st.incrementals[n := u]))
  }

  /** One received message. */
  function Receive(st: State, isSnapshot: bool, n: nat, u: Update): State {
    if st.recovering then Enqueue(st, isSnapshot, n, u)
    else if n != st.next then Enqueue(State(true, st.next, map[], map[], st.out), isSnapshot, n, u)
    else if isSnapshot then st
    else st.(next := st.next + 1, out := st.out + [u])
  }

  function ReceiveAll(st: State, isSnapshot: bool, batch: seq<(nat, Update)>): State
    decreases batch
  {
    if batch == [] then st
    else ReceiveAll(Receive(st, isSnapshot, batch[0].0, batch[0].1), isSnapshot, batch[1..])
  }

  /** One batch of messages from a socket; snapshots are dropped outside recovery. */
  function Callback(st: State, isSnapshot: bool, batch: seq<(nat, Update)>): State {
    if isSnapshot && !st.recovering then st else ReceiveAll(st, isSnapshot, batch)
  }

  lemma {:induction false} ReceiveAllAppend(st: State, isSnapshot: bool, batch: seq<(nat, Update)>, x: (nat, Update))
    ensures ReceiveAll(st, isSnapshot, batch + [x]) == Receive(ReceiveAll(st, isSnapshot, batch), isSnapshot, x.0, x.1)
    decreases batch
  {
    if batch == [] {
      assert [x][1..] == [];
    } else {
      assert (batch + [x])[1..] == batch[1..] + [x];
      ReceiveAllAppend(Receive(st, isSnapshot, batch[0].0, batch[0].1), isSnapshot, batch[1..], x);
    }
  }

  class MarketDataConsumer {
    var recovering: bool
    var next: nat
    var incrementals: Buffer
    var snapshot: Buffer
    var out: seq<Update>  // the queue to the trading engine, as written

    ghost function View(): State
      reads this
    {
      State(recovering, next, incrementals, snapshot, out)
    }

    constructor ()
      ensures View() == State(false, 1, map[], map[], [])
    {
      recovering, next, incrementals, snapshot, out := false, 1, map[], map[], [];
    }

    method RxCallback(isSnapshot: bool, batch: seq<(nat, Update)>)
      modifies this
      ensures View() == Callback(old(View()), isSnapshot, batch)
    {
      if isSnapshot && !recovering {
        return;
      }
      for i := 0 to |batch|
        invariant View() == ReceiveAll(old(View()), isSnapshot, batch[..i])
      {
        var (n, u) := batch[i];
        ReceiveAllAppend(old(View()), isSnapshot, batch[..i], batch[i]);
        assert batch[..i + 1] == batch[..i] + [batch[i]];
        var already := recovering;
        recovering := already || n != next;
        if recovering {
          if !already {
            SnapshotSyncStart();
          }
          QueueUpdate(isSnapshot, n, u);
        } else if !isSnapshot {
          next := next + 1;
          out := out + [u];
        }
      }
      assert batch[..|batch|] == batch;
    }

    method QueueUpdate(isSnapshot: bool, n: nat, u: Update)
      modifies this
      ensures View() == Enqueue(old(View()), isSnapshot, n, u)
    {
      if isSnapshot {
        if n in snapshot {
          snapshot := map[];
        }
        snapshot := snapshot[n := u];
      } else {
        incrementals := incrementals[n := u];
      }
      SnapshotSyncCheck();
    }

    method SnapshotSyncStart()
      modifies this
      ensures View() == old(View()).(incrementals := map[], snapshot := map[])
    {
      snapshot := map[];
      incrementals := map[];
    }

    method SnapshotSyncCheck()
      modifies this
      ensures View() == Check(old(View()))
    {
      hide Ascending, Content, Gap, Resume, Enumerates;
      var b: Buffer := snapshot;
      if b == map[] {
        return;
      }
      var keys := Ascending(b.Keys);
      AscendingEnumerates(b);
      if !b[keys[0]].SnapshotStart? {
        snapshot := map[];
        return;
      }
      var updates, complete := ScanSnapshot(b, keys);
      if !complete {
        snapshot := map[];
        return;
      }
      var end := b[keys[|keys| - 1]];
      if !end.SnapshotEnd? {
        return;
      }
      TryResume(updates, keys[|keys| - 1] + 1, end.last + 1);
    }

    /** The end of the check: a complete snapshot is there, the incrementals may not be. */
    method TryResume(updates: seq<Update>, ghost size: nat, from: nat)
      requires updates == Content(snapshot, 0, size)
      modifies this
      ensures View() == Resume(old(View()), size, from)
    {
      hide Ascending, Content, Gap;
      var more, intact;
      AscendingEnumerates(incrementals);
      next, more, intact := ScanIncrementals(incrementals, Ascending(incrementals.Keys), from);
      if !intact {
        snapshot := map[];
        return;
      }
      out := out + updates + more;
      snapshot, incrementals, recovering := map[], map[], false;
    }
  }

  /** Reads the snapshot buffer in order until its numbering breaks. */
  method ScanSnapshot(b: Buffer, keys: seq<nat>) returns (updates: seq<Update>, complete: bool)
    requires Enumerates(keys, b) && keys != []
    ensures complete <==> Unbroken(b)
    ensures complete ==> updates == Content(b, 0, keys[|keys| - 1] + 1)
  {
    hide Unbroken;
    updates := [];
    var expected := 0;
    for i := 0 to |keys|
      invariant expected == i && updates == Content(b, 0, i)
      invariant forall j | 0 <= j < i :: keys[j] == j
    {
      if keys[i] != expected {
        HoleBreaks(b, keys, i);
        return updates, false;
      }
      if !IsFrame(b[keys[i]]) {
        updates := updates + [b[keys[i]]];
      }
      expected := expected + 1;
    }
    complete := true;
    CountedUnbroken(b, keys);
  }

  lemma HoleBreaks(b: Buffer, keys: seq<nat>, i: nat)
    requires Enumerates(keys, b) && i < |keys| && (forall j | 0 <= j < i :: keys[j] == j) && keys[i] != i
    ensures !Unbroken(b)
  {
    HoleBefore(keys, i);
    assert !Listed(keys, keys[i] - 1) && !Preceded(b, keys[i]);
  }

  lemma CountedUnbroken(b: Buffer, keys: seq<nat>)
    requires Enumerates(keys, b) && forall j | 0 <= j < |keys| :: keys[j] == j
    ensures Unbroken(b)
  {
    forall k | k in b
      ensures Preceded(b, k)
    {
      assert Listed(keys, k);
      var i :| 0 <= i < |keys| && keys[i] == k;
      assert i == 0 || keys[i - 1] in b;
    }
  }

  /** Reads the incremental buffer from `from` on until its numbering breaks. */
  method ScanIncrementals(b: Buffer, keys: seq<nat>, from: nat)
    returns (next: nat, updates: seq<Update>, intact: bool)
    requires Enumerates(keys, b)
    ensures next == Gap(b, from) && updates == Content(b, from, next)
    ensures intact <==> !Beyond(b, next)
  {
    next, updates, intact := from, [], true;
    for i := 0 to |keys|
      invariant from <= next && updates == Content(b, from, next)
      invariant forall j | 0 <= j < i :: keys[j] < next
      invariant forall k | from <= k < next :: k in b
    {
      if keys[i] < next {
        continue;
      }
      if keys[i] != next {
        assert !Listed(keys, next);
        GapIs(b, from, next);
        return next, updates, false;
      }
      if !IsFrame(b[keys[i]]) {
        updates := updates + [b[keys[i]]];
      }
      next := next + 1;
    }
    assert !Listed(keys, next);
    GapIs(b, from, next);
    forall k | k in b
      ensures k <= next
    {
      assert Listed(keys, k);
    }
  }

  /** In ascending keys 0, 1, ..., i-1, k with k > i the number before k is missing. */
  lemma HoleBefore(keys: seq<nat>, i: nat)
    requires i < |keys| && (forall a, b | 0 <= a < b < |keys| :: keys[a] < keys[b])
    requires (forall j | 0 <= j < i :: keys[j] == j) && keys[i] != i
    ensures keys[i] > i && keys[i] - 1 !in keys
  {
    assert i == 0 || keys[i - 1] < keys[i];
  }

  lemma GapIs(b: Buffer, from: nat, g: nat)
    requires from <= g && g !in b && forall k | from <= k < g :: k in b
    ensures Gap(b, from) == g
  {
  }
}
