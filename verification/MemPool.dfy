/**
 The memory pool: a fixed array of blocks with a flag each and the index of the next free one,
 found by a circular search after every allocation. The process exits when the search comes back
 to where it started, so one block always stays unused.
 */
module Pools {
  import opened Types

  /** Flags and next index. */
  datatype Pool = Pool(free: seq<bool>, next: nat)

  /** Position `d` after `i` in a circle of `n`. */
  function Around(i: nat, d: nat, n: nat): (k: nat)
    requires i < n && d <= n
    ensures k < n
  {
    if i + d < n then i + d else i + d - n
  }

  /** The first free position from `d` steps after `i` on, short of a full circle. */
  function Search(free: seq<bool>, i: nat, d: nat): (r: Option<nat>)
    requires i < |free| && d <= |free|
    ensures r.Some? ==> r.value < |free| && free[r.value]
    decreases |free| - d
  {
    if d == |free| then None
    else if free[Around(i, d, |free|)] then Some(Around(i, d, |free|))
    else Search(free, i, d + 1)
  }

  lemma {:induction false} SearchMisses(free: seq<bool>, i: nat, d: nat)
    requires i < |free| && d <= |free|
    ensures Search(free, i, d).None? <==> forall e | d <= e < |free| :: !free[Around(i, e, |free|)]
    decreases |free| - d
  {
    if d < |free| {
      SearchMisses(free, i, d + 1);
    }
  }

  predicate Valid(p: Pool) {
    p.next < |p.free| && p.free[p.next]
  }

  function Fresh(n: nat): Pool {
    Pool(seq(n, _ => true), 0)
  }

  /** Takes the next block; None where the process exits with a pool overrun. */
  function Alloc(p: Pool): (r: Option<Pool>)
    requires Valid(p)
    ensures r.Some? ==> Valid(r.value) && r.value.free == p.free[p.next := false]
  {
    var free := p.free[p.next := false];
    match Search(free, p.next, 1)
    case None => None
    case Some(k) => Some(Pool(free, k))
  }

  function Free(p: Pool, i: nat): Pool
    requires i < |p.free|
  {
    p.(free := p.free[i := true])
  }

  ghost function Live(p: Pool): set<nat> {
    set i | 0 <= i < |p.free| && !p.free[i]
  }

  /** An allocation succeeds exactly when a second block is free, and takes one that was not live. */
  lemma AllocIff(p: Pool)
    requires Valid(p)
    ensures Alloc(p).Some? <==> exists j :: 0 <= j < |p.free| && j != p.next && p.free[j]
    ensures p.next !in Live(p) && (Alloc(p).Some? ==> Live(Alloc(p).value) == Live(p) + {p.next})
  {
    var n, free := |p.free|, p.free[p.next := false];
    SearchMisses(free, p.next, 1);
    if j :| 0 <= j < n && j != p.next && p.free[j] {
      var e := if j > p.next then j - p.next else j + n - p.next;
      assert Around(p.next, e, n) == j && free[j];
    }
  }

  /** In numbers: all but one block can be live. */
  lemma Capacity(p: Pool)
    requires Valid(p)
    ensures Alloc(p).Some? <==> |Live(p)| + 2 <= |p.free|
  {
    hide Alloc, Below;
    AllocIff(p);
    BelowSize(|p.free|);
    var rest := Below(|p.free|) - Live(p);
    assert Below(|p.free|) == Live(p) + rest;
    assert p.next in rest;
    if j :| 0 <= j < |p.free| && j != p.next && p.free[j] {
      assert {j, p.next} <= rest;
      Subset({j, p.next}, rest);
    } else {
      assert rest == {p.next};
    }
  }

  /** The search finds the nearest free position, if it finds one. */
  lemma {:induction false} SearchNearest(free: seq<bool>, i: nat, d: nat) returns (e: nat)
    requires i < |free| && d <= |free| && Search(free, i, d).Some?
    ensures d <= e < |free| && Search(free, i, d).value == Around(i, e, |free|) && free[Around(i, e, |free|)]
    ensures forall k | d <= k < e :: !free[Around(i, k, |free|)]
    decreases |free| - d
  {
    e := d;
    if !free[Around(i, d, |free|)] {
      e := SearchNearest(free, i, d + 1);
    }
  }

  /** How many steps round a circle of `n` lead from `i` to `k`. */
  function Steps(i: nat, k: nat, n: nat): nat
    requires i < n && k < n
  {
    if k < i then k + n - i else k - i
  }

  lemma StepsAround(i: nat, k: nat, n: nat)
    requires i < n && k < n
    ensures Steps(i, k, n) < n && Around(i, Steps(i, k, n), n) == k
  {
  }

  lemma AroundSteps(i: nat, d: nat, n: nat)
    requires i < n && d < n
    ensures Steps(i, Around(i, d, n), n) == d
  {
    StepsAround(i, Around(i, d, n), n);
  }

  /**
   A successful allocation takes the next block, leaves every other flag alone, and names as next another free
   block: the nearest one round the circle.
   */
  lemma NextIsNearest(p: Pool, k: nat)
    requires Valid(p) && Alloc(p).Some?
    ensures var q, n := Alloc(p).value, |p.free|;
            && q.free == p.free[p.next := false]
            && q.next < n && p.free[q.next] && q.next != p.next
            && (k < n && k != p.next && p.free[k] ==> Steps(p.next, q.next, n) <= Steps(p.next, k, n))
  {
    var n := |p.free|;
    var e := SearchNearest(p.free[p.next := false], p.next, 1);
    AroundSteps(p.next, e, n);
    if k < n && k != p.next {
      StepsAround(p.next, k, n);
    }
  }

  lemma Subset(a: set<nat>, b: set<nat>)
    requires a <= b
    ensures |a| <= |b|
  {
    assert b == a + (b - a);
  }

  function Below(n: nat): (s: set<nat>) {
    if n == 0 then {} else Below(n - 1) + {n - 1}
  }

  lemma {:induction false} BelowSize(n: nat)
    ensures |Below(n)| == n && forall i: nat :: i in Below(n) <==> i < n
  {
    if n > 0 {
      BelowSize(n - 1);
    }
  }

  // ----- runs of allocations and frees

  datatype Op = Take | Give(i: nat)

  /** A run: the pool, and the blocks handed out and not given back; None once the process exited. */
  function Run(n: nat, ops: seq<Op>): (r: Option<(Pool, set<nat>)>)
    requires n > 0
    ensures r.Some? ==> Valid(r.value.0) && |r.value.0.free| == n
    decreases ops
  {
    if ops == [] then Some((Fresh(n), {}))
    else
      match Run(n, ops[..|ops| - 1])
      case None => None
      case Some((p, out)) =>
        match ops[|ops| - 1]
        case Take => if Alloc(p).None? then None else Some((Alloc(p).value, out + {p.next}))
        case Give(i) => if i >= n || p.free[i] then None else Some((Free(p, i), out - {i}))
  }

  lemma FreeLive(p: Pool, i: nat)
    requires i < |p.free|
    ensures Live(Free(p, i)) == Live(p) - {i}
  {
  }

  lemma {:induction false} RunLive(n: nat, ops: seq<Op>)
    requires n > 0 && Run(n, ops).Some?
    ensures Live(Run(n, ops).value.0) == Run(n, ops).value.1
    decreases ops
  {
    hide Alloc, Live;
    if ops == [] {
      NoneLive(n);
    } else {
      var before, op := ops[..|ops| - 1], ops[|ops| - 1];
      RunLive(n, before);
      var p := Run(n, before).value.0;
      AllocIff(p);
      if op.Give? {
        FreeLive(p, op.i);
      }
    }
  }

  lemma NoneLive(n: nat)
    ensures Live(Fresh(n)) == {}
  {
  }

  /**
   In every run the pool's used blocks are the ones handed out and not given back, and a Take
   hands out a block that is not among them and fails only when all but one are.
   */
  lemma RunExact(n: nat, ops: seq<Op>)
    requires n > 0 && Run(n, ops).Some?
    ensures var (p, out) := Run(n, ops).value;
            && Live(p) == out && p.next !in out
            && (Run(n, ops + [Take]).Some? <==> |out| + 2 <= n)
  {
    hide Alloc, Live;
    var p := Run(n, ops).value.0;
    RunLive(n, ops);
    AllocIff(p);
    Capacity(p);
    assert (ops + [Take])[..|ops|] == ops;
  }

  // ----- what a pool houses

  /** The live blocks are exactly those of `nodes`, one each. */
  ghost predicate Housed<T>(p: Pool, nodes: set<T>, block: T -> nat) {
    && Valid(p) && |Live(p)| == |nodes|
    && (forall n | n in nodes :: block(n) in Live(p))
    && (forall m, n | m in nodes && n in nodes && m != n :: block(m) != block(n))
  }

  lemma HousedTaken<T>(p: Pool, nodes: set<T>, block: T -> nat, n: T)
    requires Housed(p, nodes, block) && Alloc(p).Some? && n !in nodes && block(n) == p.next
    ensures Housed(Alloc(p).value, nodes + {n}, block)
  {
    hide Alloc, Live;
    AllocIff(p);
    AllocValid(p);
  }

  lemma AllocSize(p: Pool)
    requires Valid(p) && Alloc(p).Some?
    ensures |Alloc(p).value.free| == |p.free|
  {
  }

  lemma AllocValid(p: Pool)
    requires Valid(p) && Alloc(p).Some?
    ensures Valid(Alloc(p).value)
  {
  }

  lemma HousedGiven<T>(p: Pool, nodes: set<T>, block: T -> nat, n: T)
    requires Housed(p, nodes, block) && n in nodes
    ensures block(n) < |p.free| && !p.free[block(n)]
    ensures Housed(Free(p, block(n)), nodes - {n}, block)
  {
    LiveAt(p, block(n));
    hide Live;
    FreeLive(p, block(n));
  }

  lemma LiveAt(p: Pool, i: nat)
    ensures i in Live(p) <==> i < |p.free| && !p.free[i]
  {
  }

  /** A pool has room for one more exactly while two blocks are free. */
  lemma HousedRoom<T>(p: Pool, nodes: set<T>, block: T -> nat)
    requires Housed(p, nodes, block)
    ensures Alloc(p).Some? <==> |nodes| + 2 <= |p.free|
  {
    Capacity(p);
  }

  // ----- the pool in place

  class MemPool<T> {
    const objects: array<T>
    const isFree: array<bool>
    var iNextFree: nat

    ghost function View(): Pool
      reads this, isFree
    {
      Pool(isFree[..], iNextFree)
    }

    ghost predicate Ok()
      reads this, isFree
    {
      Valid(View()) && objects.Length == isFree.Length && objects as object != isFree
    }

    constructor (n: nat, blank: T)
      requires n > 0
      ensures Ok() && View() == Fresh(n)
    {
      objects := new T[n](_ => blank);
      isFree := new bool[n](_ => true);
      iNextFree := 0;
      new;
      assert isFree[..] == Fresh(n).free;
    }

    /** Constructs an object in the next free block; None where the process exits. */
    method Allocate(x: T) returns (block: Option<nat>)
      requires Ok()
      modifies this, isFree, objects
      ensures block.Some? <==> Alloc(old(View())).Some?
      ensures block.Some? ==> Ok() && View() == Alloc(old(View())).value && block.value == old(iNextFree)
      ensures block.Some? ==> objects[..] == old(objects[..])[block.value := x]
    {
      var i := iNextFree;
      objects[i] := x;
      isFree[i] := false;
      assert isFree[..] == old(isFree[..])[i := false];
      var found := UpdateNextFreeIndex();
      block := if found then Some(i) else None;
    }

    /** Searches from the next index on, round to where it began. */
    method UpdateNextFreeIndex() returns (found: bool)
      requires iNextFree < isFree.Length && !isFree[iNextFree]
      modifies this
      ensures match Search(isFree[..], old(iNextFree), 1) {
                case None => !found
                case Some(k) => found && iNextFree == k
              }
    {
      var i := iNextFree;
      ghost var d := 0;
      ghost var n, free := isFree.Length, isFree[..];
      while !isFree[iNextFree]
        invariant d < n && iNextFree == Around(i, d, n)
        invariant d == 0 ==> !free[i]
        invariant d > 0 ==> Search(free, i, 1) == Search(free, i, d)
        decreases n - d
      {
        d := d + 1;
        iNextFree := iNextFree + 1;
        if iNextFree == isFree.Length {
          iNextFree := 0;
        }
        if i == iNextFree {
          return false;
        }
      }
      return true;
    }

    /** Gives a block back; false where the process exits on a foreign or free block. */
    method Deallocate(block: int) returns (ok: bool)
      requires Ok()
      modifies isFree
      ensures Ok() && (ok <==> 0 <= block < isFree.Length && !old(isFree[..])[block])
      ensures View() == if ok then Free(old(View()), block) else old(View())
    {
      ok := 0 <= block < isFree.Length && !isFree[block];
      if ok {
        isFree[block] := true;
        assert isFree[..] == old(isFree[..])[block := true];
      }
    }
  }
}
