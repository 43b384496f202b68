/**
 The lock-free queue between two threads of the exchange, as the separate atomic steps each thread
 takes, in every interleaving.

 The queue itself checks nothing on the writing side; the writer here begins a write only while
 `nBlocks + spare < capacity`. The theorems say for which `spare` the queue is one: the reader gets
 what was written, in order, exactly when `spare >= 0`, and a reader that looks at its slot once
 more after releasing it, as the market data publisher does, sees the same value exactly when
 `spare >= 1`.
 */
module SpscQueue {

  /** The shared memory of a queue. */
  datatype Ring<T> = Ring(blocks: seq<T>, iWrite: nat, iRead: nat, nBlocks: nat)

  datatype Writer<T> = WIdle | Ready | Filled(x: T) | Moved(x: T)

  datatype Reader<T> = RIdle | Holding(p: nat) | Copied(p: nat, v: T) | Advanced(p: nat, v: T) | Released(p: nat, v: T)

  /** Both threads, and what each has written, first read and read again. */
  datatype State<T> =
    State(ring: Ring<T>, w: Writer<T>, r: Reader<T>, written: seq<T>, first: seq<T>, late: seq<T>, failed: bool)

  /** One atomic step of one thread. */
  datatype Action<T> =
    | Begin            // writer: finds room
    | Write(x: T)      // writer: fills the slot
    | MoveWrite        // writer: advances the write index
    | Publish          // writer: counts the block
    | Take             // reader: finds a block and its slot
    | Copy             // reader: reads the slot
    | MoveRead         // reader: advances the read index
    | Release          // reader: asserts there was a block and uncounts it
    | LateRead         // reader: reads the slot again

  function WriteSlot<T>(q: Ring<T>, x: T): Ring<T>
    requires q.iWrite < |q.blocks|
  {
    q.(blocks := q.blocks[q.iWrite := x])
  }

  function NextWrite<T>(q: Ring<T>): Ring<T>
    requires |q.blocks| > 0
  {
    q.(iWrite := (q.iWrite + 1) % |q.blocks|)
  }

  function NextRead<T>(q: Ring<T>): Ring<T>
    requires |q.blocks| > 0
  {
    q.(iRead := (q.iRead + 1) % |q.blocks|)
  }

  predicate Shaped<T>(q: Ring<T>) {
    q.iWrite < |q.blocks| && q.iRead < |q.blocks|
  }

  /** The steps a thread can take; any other action leaves the state as it is. */
  function Step<T>(s: State<T>, a: Action<T>, spare: int): (next: State<T>)
    requires Shaped(s.ring)
    ensures Shaped(next.ring) && |next.ring.blocks| == |s.ring.blocks|
  {
    var q := s.ring;
    match a
    case Begin => if s.w.WIdle? && q.nBlocks + spare < |q.blocks| then s.(w := Ready) else s
    case Write(x) => if s.w.Ready? then s.(ring := WriteSlot(q, x), w := Filled(x)) else s
    case MoveWrite => if s.w.Filled? then s.(ring := NextWrite(q), w := Moved(s.w.x)) else s
    case Publish =>
      if s.w.Moved? then s.(ring := q.(nBlocks := q.nBlocks + 1), w := WIdle, written := s.written + [s.w.x]) else s
    case Take => if s.r.RIdle? && q.nBlocks > 0 then s.(r := Holding(q.iRead)) else s
    case Copy =>
      if s.r.Holding? && s.r.p < |q.blocks|
      then s.(r := Copied(s.r.p, q.blocks[s.r.p]), first := s.first + [q.blocks[s.r.p]]) else s
    case MoveRead => if s.r.Copied? then s.(ring := NextRead(q), r := Advanced(s.r.p, s.r.v)) else s
    case Release =>
      if !s.r.Advanced? then s
      else if q.nBlocks == 0 then s.(failed := true)
      else s.(ring := q.(nBlocks := q.nBlocks - 1), r := Released(s.r.p, s.r.v))
    case LateRead =>
      if s.r.Released? && s.r.p < |q.blocks| then s.(r := RIdle, late := s.late + [q.blocks[s.r.p]]) else s
  }

  function Start<T>(blocks: seq<T>): State<T> {
    State(Ring(blocks, 0, 0, 0), WIdle, RIdle, [], [], [], false)
  }

  /** The state after some interleaving. */
  function RunFrom<T>(s: State<T>, actions: seq<Action<T>>, spare: int): (end: State<T>)
    requires Shaped(s.ring)
    ensures Shaped(end.ring) && |end.ring.blocks| == |s.ring.blocks|
    decreases actions
  {
    if actions == [] then s else RunFrom(Step(s, actions[0], spare), actions[1..], spare)
  }

  // ----- the invariant

  /** The slot of the `k`th value, counting from the start. */
  function SlotOf(k: nat, n: nat): (i: nat)
    requires n > 0
    ensures i < n
  {
    if k < n then k else SlotOf(k - n, n)
  }

  lemma {:induction false} NextSlot(k: nat, n: nat)
    requires n > 0
    ensures (SlotOf(k, n) + 1) % n == SlotOf(k + 1, n)
  {
    if k >= n {
      NextSlot(k - n, n);
    } else if k + 1 < n {
      assert (k + 1) % n == k + 1;
    }
  }

  lemma {:induction false} OtherSlot(a: nat, b: nat, n: nat)
    requires a < b < a + n
    ensures SlotOf(a, n) != SlotOf(b, n)
  {
    if a >= n {
      OtherSlot(a - n, b - n, n);
    }
  }

  /** How many values the reader has released. */
  function Done<T>(s: State<T>): int {
    if s.r.Copied? || s.r.Advanced? then |s.first| - 1 else |s.first|
  }

  /** Indices and count follow what was written and released; the writer keeps its distance. */
  ghost predicate Counted<T>(s: State<T>, spare: nat) {
    var q, n, put, done := s.ring, |s.ring.blocks|, |s.written|, Done(s);
    && n > 0 && 0 <= done <= put && q.nBlocks == put - done && !s.failed
    && q.iWrite == SlotOf(if s.w.Moved? then put + 1 else put, n)
    && q.iRead == SlotOf(if s.r.Advanced? then done + 1 else done, n)
    && (if s.w.WIdle? then q.nBlocks == 0 || q.nBlocks + spare <= n else q.nBlocks + spare < n)
  }

  /** The slots between the indices hold what was written and not yet released. */
  ghost predicate Held<T>(s: State<T>)
    requires |s.ring.blocks| > 0
  {
    var b, n, put, done := s.ring.blocks, |s.ring.blocks|, |s.written|, Done(s);
    && (forall k | done <= k < put && 0 <= k :: b[SlotOf(k, n)] == s.written[k])
    && (s.w.Filled? || s.w.Moved? ==> b[SlotOf(put, n)] == s.w.x)
  }

  /** The reader's slot, and what it has read. */
  ghost predicate Reads<T>(s: State<T>)
    requires |s.ring.blocks| > 0
  {
    var b, n, put, done := s.ring.blocks, |s.ring.blocks|, |s.written|, Done(s);
    && 0 <= done && s.first <= s.written
    && (s.r.Holding? || s.r.Copied? || s.r.Advanced? ==> s.r.p == SlotOf(done, n) && done < put)
    && (s.r.Released? ==> done > 0 && s.r.p == SlotOf(done - 1, n))
    && (s.r.Copied? || s.r.Advanced? || s.r.Released? ==> s.first != [] && s.r.v == s.first[|s.first| - 1])
    && |s.late| == if s.r.Released? then done - 1 else done
  }

  /** What was released stays in its slot until it is read again. */
  ghost predicate Lasting<T>(s: State<T>)
    requires |s.ring.blocks| > 0
  {
    && s.late <= s.first
    && (s.r.Released? ==> s.r.p < |s.ring.blocks| && |s.first| > 0 && s.ring.blocks[s.r.p] == s.first[|s.first| - 1])
  }

  ghost predicate Inv<T>(s: State<T>, spare: nat) {
    Counted(s, spare) && Held(s) && Reads(s) && (spare > 0 ==> Lasting(s))
  }

  lemma WriteInv<T>(s: State<T>, x: T, spare: nat)
    requires Inv(s, spare)
    ensures Inv(Step(s, Write(x), spare), spare)
  {
    hide SlotOf;
    if s.w.Ready? {
      var n, put, done := |s.ring.blocks|, |s.written|, Done(s);
      forall k | 0 <= k && done - (if spare > 0 then 1 else 0) <= k < put
        ensures SlotOf(k, n) != SlotOf(put, n)
      {
        OtherSlot(k, put, n);
      }
    }
  }

  lemma WriterInv<T>(s: State<T>, a: Action<T>, spare: nat)
    requires Inv(s, spare) && (a.Begin? || a.MoveWrite? || a.Publish?)
    ensures Inv(Step(s, a, spare), spare)
  {
    hide SlotOf;
    NextSlot(|s.written|, |s.ring.blocks|);
  }

  lemma ReaderInv<T>(s: State<T>, a: Action<T>, spare: nat)
    requires Inv(s, spare) && !(a.Begin? || a.Write? || a.MoveWrite? || a.Publish?)
    ensures Inv(Step(s, a, spare), spare)
  {
    hide SlotOf;
    NextSlot(Done(s), |s.ring.blocks|);
  }

  lemma StepInv<T>(s: State<T>, a: Action<T>, spare: nat)
    requires Inv(s, spare)
    ensures Inv(Step(s, a, spare), spare)
  {
    hide Inv, Step;
    if a.Write? {
      WriteInv(s, a.x, spare);
    } else if a.Begin? || a.MoveWrite? || a.Publish? {
      WriterInv(s, a, spare);
    } else {
      ReaderInv(s, a, spare);
    }
  }

  lemma {:induction false} RunInv<T>(s: State<T>, actions: seq<Action<T>>, spare: nat)
    requires Inv(s, spare)
    ensures Inv(RunFrom(s, actions, spare), spare)
    decreases actions
  {
    if actions != [] {
      StepInv(s, actions[0], spare);
      RunInv(Step(s, actions[0], spare), actions[1..], spare);
    }
  }

  /**
   With a guard, in every interleaving: the reader has read exactly a prefix of what was written,
   its assertion has not failed, and with a spare block its second reads repeat the first.
   */
  lemma EveryRun<T>(blocks: seq<T>, actions: seq<Action<T>>, spare: nat)
    requires blocks != []
    ensures var s := RunFrom(Start(blocks), actions, spare);
            && s.first <= s.written && !s.failed && |s.written| - |s.first| <= |blocks|
            && (spare > 0 ==> s.late <= s.first)
  {
    RunInv(Start(blocks), actions, spare);
  }

  // ----- what goes wrong without the guard, or without the spare block

  lemma {:induction false} RunConcat<T>(s: State<T>, a: seq<Action<T>>, b: seq<Action<T>>, spare: int)
    requires Shaped(s.ring)
    ensures RunFrom(s, a + b, spare) == RunFrom(RunFrom(s, a, spare), b, spare)
    decreases a
  {
    if a == [] {
      assert a + b == b;
    } else {
      assert (a + b)[1..] == a[1..] + b;
      RunConcat(Step(s, a[0], spare), a[1..], b, spare);
    }
  }

  function WriteOne<T>(x: T): seq<Action<T>> {
    [Begin, Write(x), MoveWrite, Publish]
  }

  lemma RunOne<T>(s: State<T>, a: Action<T>, spare: int)
    requires Shaped(s.ring)
    ensures RunFrom(s, [a], spare) == Step(s, a, spare)
  {
    assert [a][1..] == [];
  }

  lemma RunTwo<T>(s: State<T>, a: Action<T>, b: Action<T>, spare: int)
    requires Shaped(s.ring)
    ensures RunFrom(s, [a, b], spare) == Step(Step(s, a, spare), b, spare)
  {
    RunOne(s, a, spare);
    RunOne(Step(s, a, spare), b, spare);
    RunConcat(s, [a], [b], spare);
    assert [a] + [b] == [a, b];
  }

  /** The reader's first read of the oldest block. */
  lemma OneCopied<T>(s: State<T>, spare: int)
    requires Shaped(s.ring) && s.r.RIdle? && s.ring.nBlocks > 0
    ensures var v := s.ring.blocks[s.ring.iRead];
            RunFrom(s, [Take, Copy], spare) == s.(r := Copied(s.ring.iRead, v), first := s.first + [v])
  {
    RunTwo(s, Take, Copy, spare);
  }

  /** The reader releases the block it has read. */
  lemma OneReleased<T>(s: State<T>, spare: int)
    requires Shaped(s.ring) && s.r.Copied? && s.ring.nBlocks > 0
    ensures RunFrom(s, [MoveRead, Release], spare)
         == s.(ring := NextRead(s.ring).(nBlocks := s.ring.nBlocks - 1), r := Released(s.r.p, s.r.v))
  {
    RunTwo(s, MoveRead, Release, spare);
  }

  lemma OneWritten<T>(s: State<T>, x: T, spare: int)
    requires Shaped(s.ring) && s.w.WIdle? && s.ring.nBlocks + spare < |s.ring.blocks|
    ensures RunFrom(s, WriteOne(x), spare)
         == s.(ring := NextWrite(WriteSlot(s.ring, x)).(nBlocks := s.ring.nBlocks + 1), written := s.written + [x])
  {
    assert WriteOne(x) == [Begin, Write(x)] + [MoveWrite, Publish];
    RunConcat(s, [Begin, Write(x)], [MoveWrite, Publish], spare);
    RunTwo(s, Begin, Write(x), spare);
    RunTwo(s.(ring := WriteSlot(s.ring, x), w := Filled(x)), MoveWrite, Publish, spare);
  }

  function Repeat<T>(x: T, k: nat): (r: seq<T>)
    ensures |r| == k && forall i | 0 <= i < k :: r[i] == x
  {
    seq(k, _ => x)
  }

  /** A queue filled with `k` copies of `x`. */
  function FilledWith<T>(blocks: seq<T>, x: T, k: nat): State<T>
    requires 0 < |blocks| && k <= |blocks|
  {
    State(Ring(Repeat(x, k) + blocks[k..], if k == |blocks| then 0 else k, 0, k),
          WIdle, RIdle, Repeat(x, k), [], [], false)
  }

  lemma FilledNext<T>(blocks: seq<T>, x: T, k: nat)
    requires k < |blocks|
    ensures var s := FilledWith(blocks, x, k);
            s.(ring := NextWrite(WriteSlot(s.ring, x)).(nBlocks := k + 1), written := s.written + [x])
            == FilledWith(blocks, x, k + 1)
  {
    var s := FilledWith(blocks, x, k);
    assert s.ring.blocks[k := x] == Repeat(x, k + 1) + blocks[k + 1..];
    assert Repeat(x, k) + [x] == Repeat(x, k + 1);
    if k + 1 < |blocks| {
      assert (k + 1) % |blocks| == k + 1;
    }
  }

  lemma {:induction false} Fill<T>(blocks: seq<T>, x: T, k: nat, spare: int) returns (actions: seq<Action<T>>)
    requires 0 < |blocks| && k <= |blocks| && spare <= 0
    ensures RunFrom(Start(blocks), actions, spare) == FilledWith(blocks, x, k)
  {
    if k == 0 {
      actions := [];
      assert Repeat(x, 0) + blocks[0..] == blocks;
    } else {
      var before := Fill(blocks, x, k - 1, spare);
      hide RunFrom, WriteOne;
      actions := before + WriteOne(x);
      RunConcat(Start(blocks), before, WriteOne(x), spare);
      OneWritten(FilledWith(blocks, x, k - 1), x, spare);
      FilledNext(blocks, x, k - 1);
    }
  }

  /** A full queue that is written once more: the reader's first value is the last one written. */
  lemma Overrun<T>(blocks: seq<T>, x: T, y: T, spare: int) returns (actions: seq<Action<T>>)
    requires blocks != [] && x != y && spare < 0
    ensures !(RunFrom(Start(blocks), actions, spare).first <= RunFrom(Start(blocks), actions, spare).written)
  {
    hide RunFrom, WriteOne;
    var fill := Fill(blocks, x, |blocks|, spare);
    var s := FilledWith(blocks, x, |blocks|);
    OneWritten(s, y, spare);
    var s' := RunFrom(s, WriteOne(y), spare);
    OneCopied(s', spare);
    RunConcat(s, WriteOne(y), [Take, Copy], spare);
    actions := fill + (WriteOne(y) + [Take, Copy]);
    RunConcat(Start(blocks), fill, WriteOne(y) + [Take, Copy], spare);
    var end := RunFrom(Start(blocks), actions, spare);
    assert end.first[0] == y && end.written[0] == x;
  }

  /** A full queue of `x` whose first block was read and released. */
  function OneGone<T>(x: T, n: nat): State<T>
    requires n > 0
  {
    State(Ring(Repeat(x, n), 0, 1 % n, n - 1), WIdle, Released(0, x), Repeat(x, n), [x], [], false)
  }

  lemma ReadOne<T>(blocks: seq<T>, x: T)
    requires blocks != []
    ensures RunFrom(FilledWith(blocks, x, |blocks|), [Take, Copy] + [MoveRead, Release], 0) == OneGone(x, |blocks|)
  {
    hide RunFrom;
    var s := FilledWith(blocks, x, |blocks|);
    assert Repeat(x, |blocks|) + blocks[|blocks|..] == Repeat(x, |blocks|);
    OneCopied(s, 0);
    RunConcat(s, [Take, Copy], [MoveRead, Release], 0);
    var mid := s.(r := Copied(0, x), first := [x]);
    assert s.first + [x] == [x];
    assert RunFrom(s, [Take, Copy], 0) == mid;
    OneReleased(mid, 0);
    assert NextRead(mid.ring).(nBlocks := |blocks| - 1) == OneGone(x, |blocks|).ring;
  }

  lemma WriteAndLook<T>(x: T, y: T, n: nat)
    requires n > 0
    ensures var end := RunFrom(OneGone(x, n), WriteOne(y) + [LateRead], 0); end.late == [y] && end.first == [x]
  {
    hide RunFrom, WriteOne;
    var s := OneGone(x, n);
    OneWritten(s, y, 0);
    RunConcat(s, WriteOne(y), [LateRead], 0);
    RunOne(RunFrom(s, WriteOne(y), 0), LateRead, 0);
  }

  /** A slot that is released, rewritten and read again: the second read differs from the first. */
  lemma Rewritten<T>(blocks: seq<T>, x: T, y: T) returns (actions: seq<Action<T>>)
    requires blocks != [] && x != y
    ensures !(RunFrom(Start(blocks), actions, 0).late <= RunFrom(Start(blocks), actions, 0).first)
  {
    hide RunFrom, WriteOne, FilledWith, OneGone;
    var fill := Fill(blocks, x, |blocks|, 0);
    var read, look := [Take, Copy] + [MoveRead, Release], WriteOne(y) + [LateRead];
    ReadOne(blocks, x);
    WriteAndLook(x, y, |blocks|);
    actions := fill + (read + look);
    RunConcat(Start(blocks), fill, read + look, 0);
    StartFilled(blocks, x);
    RunConcat(FilledWith(blocks, x, |blocks|), read, look, 0);
    assert [y][0] != [x][0];
  }

  lemma StartFilled<T>(blocks: seq<T>, x: T)
    requires blocks != []
    ensures Shaped(Start(blocks).ring) && Shaped(FilledWith(blocks, x, |blocks|).ring)
    ensures Shaped(OneGone(x, |blocks|).ring)
  {
  }

  /** The reader gets what was written, in order, in every interleaving exactly when writes are guarded. */
  lemma OrderedIffGuarded<T>(blocks: seq<T>, x: T, y: T, spare: int)
    requires blocks != [] && x != y
    ensures spare >= 0 <==>
              forall actions ::
                RunFrom(Start(blocks), actions, spare).first <= RunFrom(Start(blocks), actions, spare).written
  {
    if spare >= 0 {
      forall actions: seq<Action<T>>
        ensures RunFrom(Start(blocks), actions, spare).first <= RunFrom(Start(blocks), actions, spare).written
      {
        EveryRun(blocks, actions, spare);
      }
    } else {
      var actions := Overrun(blocks, x, y, spare);
    }
  }

  /** With guarded writes, reading a released slot again is safe exactly when a block is kept spare. */
  lemma LateReadIffSpare<T>(blocks: seq<T>, x: T, y: T, spare: nat)
    requires blocks != [] && x != y
    ensures spare >= 1 <==>
              forall actions ::
                RunFrom(Start(blocks), actions, spare).late <= RunFrom(Start(blocks), actions, spare).first
  {
    if spare >= 1 {
      forall actions: seq<Action<T>>
        ensures RunFrom(Start(blocks), actions, spare).late <= RunFrom(Start(blocks), actions, spare).first
      {
        EveryRun(blocks, actions, spare);
      }
    } else {
      var actions := Rewritten(blocks, x, y);
    }
  }

  // ----- the queue's own fields, one method per atomic step

  /**
   The queue as the source stores it. `at` is where the two threads stand; any interleaving of the
   methods is allowed, each thread calling its own in the order its `requires` fix.
   */
  class LfQueue<T> {
    const blocks: array<T>
    const spare: nat
    var iWrite: nat
    var iRead: nat
    var nBlocks: nat
    ghost var at: State<T>

    ghost predicate Valid()
      reads this, blocks
    {
      Inv(at, spare) && at.ring == Ring(blocks[..], iWrite, iRead, nBlocks)
    }

    constructor (capacity: nat, spare: nat, blank: T)
      requires capacity > 0
      ensures Valid() && at == Start(blocks[..]) && blocks.Length == capacity && this.spare == spare
      ensures fresh(blocks)
    {
      blocks := new T[capacity](_ => blank);
      this.spare := spare;
      iWrite, iRead, nBlocks := 0, 0, 0;
      new;
      at := Start(blocks[..]);
    }

    /** Whether the writer may begin. */
    method HasRoom() returns (room: bool)
      requires Valid() && at.w.WIdle?
      modifies this`at
      ensures Valid() && at == Step(old(at), Begin, spare) && room == at.w.Ready?
    {
      StepInv(at, Begin, spare);
      room := nBlocks + spare < blocks.Length;
      at := Step(at, Begin, spare);
    }

    /** Fills the next block to write. */
    method WriteNext(x: T)
      requires Valid() && at.w.Ready?
      modifies this`at, blocks
      ensures Valid() && at == Step(old(at), Write(x), spare)
    {
      StepInv(at, Write(x), spare);
      at := Step(at, Write(x), spare);
      blocks[iWrite] := x;
    }

    /** First half of incrementing the write index. */
    method AdvanceWrite()
      requires Valid() && at.w.Filled?
      modifies this`at, this`iWrite
      ensures Valid() && at == Step(old(at), MoveWrite, spare)
    {
      StepInv(at, MoveWrite, spare);
      at := Step(at, MoveWrite, spare);
      iWrite := (iWrite + 1) % blocks.Length;
    }

    /** Second half: from here on the block can be read. */
    method CountUp()
      requires Valid() && at.w.Moved?
      modifies this`at, this`nBlocks
      ensures Valid() && at == Step(old(at), Publish, spare)
      ensures at.written == old(at.written) + [old(at.w.x)]
    {
      StepInv(at, Publish, spare);
      at := Step(at, Publish, spare);
      nBlocks := nBlocks + 1;
    }

    /** The next block to read, if there is one. */
    method NextToRead() returns (some: bool, p: nat)
      requires Valid() && at.r.RIdle?
      modifies this`at
      ensures Valid() && at == Step(old(at), Take, spare)
      ensures at.written == old(at.written) && at.first == old(at.first) && at.first <= at.written
      ensures some <==> |at.first| < |at.written|
      ensures at.r == if some then Holding(p) else RIdle
    {
      StepInv(at, Take, spare);
      some, p := nBlocks > 0, iRead;
      at := Step(at, Take, spare);
    }

    /** Reads a block: it is the oldest value not yet read. */
    method ReadAt(p: nat) returns (v: T)
      requires Valid() && at.r == Holding(p)
      modifies this`at
      ensures Valid() && at == Step(old(at), Copy, spare)
      ensures at.r == Copied(p, v) && at.written == old(at.written) && at.first == old(at.first) + [v]
      ensures |old(at.first)| < |at.written| && v == at.written[|old(at.first)|]
    {
      StepInv(at, Copy, spare);
      v := blocks[p];
      at := Step(at, Copy, spare);
    }

    /** First half of incrementing the read index. */
    method AdvanceRead()
      requires Valid() && at.r.Copied?
      modifies this`at, this`iRead
      ensures Valid() && at == Step(old(at), MoveRead, spare)
      ensures at == old(at).(ring := at.ring, r := Advanced(old(at.r.p), old(at.r.v)))
    {
      StepInv(at, MoveRead, spare);
      at := Step(at, MoveRead, spare);
      iRead := (iRead + 1) % blocks.Length;
    }

    /** Second half; the source asserts that there was a block. */
    method CountDown()
      requires Valid() && at.r.Advanced?
      modifies this`at, this`nBlocks
      ensures Valid() && at == Step(old(at), Release, spare)
      ensures at == old(at).(ring := at.ring, r := Released(old(at.r.p), old(at.r.v)))
    {
      StepInv(at, Release, spare);
      assert nBlocks != 0;
      at := Step(at, Release, spare);
      nBlocks := nBlocks - 1;
    }

    /** Reads a block again after it was released; with a spare block it still holds its value. */
    method ReadAgain(p: nat) returns (v: T)
      requires Valid() && at.r.Released? && at.r.p == p
      modifies this`at
      ensures Valid() && at == Step(old(at), LateRead, spare)
      ensures at == old(at).(r := RIdle, late := old(at.late) + [v])
      ensures spare > 0 ==> v == old(at.r.v)
    {
      StepInv(at, LateRead, spare);
      v := blocks[p];
      at := Step(at, LateRead, spare);
    }
  }
}
