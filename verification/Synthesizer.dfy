/**
 The snapshot synthesizer: it folds the numbered updates into a table of live orders and
 publishes that table as a snapshot, ticker by ticker in ascending order id.
 */
module Synthesizer {
  import opened Types
  import opened Market
  import P = Pools

  type Key = (nat, nat)  // ticker and order id
  type Table = map<Key, Order>

  /**
   What one numbered update does to the table; `None` where an ASSERT or a range check stops the
   process. The stored orders of all tickers are blocks of one pool, as many as a single ticker has ids.
   */
  function Step(tab: Table, last: nat, tickers: nat, ids: nat, n: nat, u: Update): Option<Table> {
    if u.SnapshotStart? || u.SnapshotEnd? || u.ticker >= tickers || n != last + 1 then None
    else
      match u
      case Add(t, oid, _, _, _, _) =>
        if oid >= ids || (t, oid) in tab || |tab| + 2 > ids then None else Some(tab[(t, oid) := Quote(u)])
      case Modify(t, oid, side, price, qty, _) =>
        if oid >= ids || (t, oid) !in tab || !Matches(tab[(t, oid)], oid, side) then None
        else Some(tab[(t, oid) := tab[(t, oid)].(qty := qty, price := price)])
      case Cancel(t, oid, side, _, _, _) =>
        if oid >= ids || (t, oid) !in tab || !Matches(tab[(t, oid)], oid, side) then None
        else Some(tab - {(t, oid)})
      case _ => Some(tab)
  }

  /** The stored order is the one the update is about. */
  predicate Matches(stored: Order, oid: nat, side: Side) {
    stored.oid == oid && stored.side == side
  }

  /** ADDs for the stored orders of one ticker with ids below `n`, ascending. */
  function OrdersBelow(tab: Table, t: nat, n: nat): seq<Update> {
    if n == 0 then []
    else if (t, n - 1) in tab then OrdersBelow(tab, t, n - 1) + [Announce(t, tab[(t, n - 1)])]
    else OrdersBelow(tab, t, n - 1)
  }

  /** The snapshot of the first `t` tickers, without its frame. */
  function Body(tab: Table, t: nat, ids: nat): seq<Update> {
    if t == 0 then []
    else Body(tab, t - 1, ids) + ([Clear(t - 1)] + OrdersBelow(tab, t - 1, ids))
  }

  function Snapshot(tab: Table, last: nat, tickers: nat, ids: nat): seq<Update> {
    [SnapshotStart(last)] + Body(tab, tickers, ids) + [SnapshotEnd(last)]
  }

  /** Messages with the position each has in its stream. */
  function Numbered(us: seq<Update>): (r: seq<(nat, Update)>)
    ensures |r| == |us| && forall i | 0 <= i < |us| :: r[i] == (i, us[i])
  {
    seq(|us|, i requires 0 <= i < |us| => (i, us[i]))
  }

  lemma NumberedAppend(us: seq<Update>, u: Update)
    ensures Numbered(us + [u]) == Numbered(us) + [(|us|, u)]
  {
  }

  function Entry(tab: Table, t: nat, oid: nat): Option<Order> {
    if (t, oid) in tab then Some(tab[(t, oid)]) else None
  }

  /** A stored order and its block. */
  datatype Slot = Slot(order: Order, block: nat)

  /** The stored orders' blocks, by ticker and order id. */
  type Blocks = map<Key, nat>

  datatype Cell = Cell(key: Key, block: nat)

  function BlockOf(cell: Cell): nat {
    cell.block
  }

  ghost function Cells(b: Blocks): set<Cell> {
    set k | k in b :: Cell(k, b[k])
  }

  lemma CellTaken(b: Blocks, k: Key, block: nat)
    requires k !in b
    ensures Cells(b[k := block]) == Cells(b) + {Cell(k, block)} && Cell(k, block) !in Cells(b)
  {
    var c := b[k := block];
    assert forall j | j in b :: j in c && c[j] == b[j];
    assert k in c && Cell(k, c[k]) in Cells(c);
  }

  lemma CellGiven(b: Blocks, k: Key)
    requires k in b
    ensures Cells(b - {k}) == Cells(b) - {Cell(k, b[k])} && Cell(k, b[k]) in Cells(b)
  {
    var c := b - {k};
    assert forall j | j in c :: j in b && c[j] == b[j];
    assert forall j | j in b && j != k :: j in c;
  }

  /** What the array holds for a key. */
  ghost function SlotOf(stored: Table, blocks: Blocks, k: Key): Option<Slot>
    requires blocks.Keys == stored.Keys
  {
    if k in stored then Some(Slot(stored[k], blocks[k])) else None
  }

  lemma Overwritten(stored: Table, blocks: Blocks, k: Key, o: Order)
    requires k in stored && k in blocks
    ensures |stored[k := o]| == |stored| && blocks[k := blocks[k]] == blocks
  {
  }

  class SnapshotSynthesizer {
    const orders: array2<Option<Slot>>
    var last: nat
    var pool: P.Pool
    ghost var stored: Table  // the orders in the array, by ticker and order id
    ghost var blocks: Blocks

    ghost predicate Valid()
      reads this`pool, this`stored, this`blocks, orders
    {
      Shows() && Pooled() && |Cells(blocks)| == |stored|
    }

    /** The array holds the stored orders and their blocks, and nothing else. */
    ghost predicate Shows()
      reads this`stored, this`blocks, orders
    {
      && blocks.Keys == stored.Keys
      && (forall t, oid | 0 <= t < orders.Length0 && 0 <= oid < orders.Length1 ::
            orders[t, oid] == SlotOf(stored, blocks, (t, oid)))
      && (forall k | k in stored :: k.0 < orders.Length0 && k.1 < orders.Length1)
    }

    /** The pool has as many blocks as a ticker has ids; those in use are the stored orders', one each. */
    ghost predicate Pooled()
      reads this`pool, this`blocks
    {
      |pool.free| == orders.Length1 && P.Housed(pool, Cells(blocks), BlockOf)
    }

    constructor (tickers: nat, ids: nat)
      requires ids > 0
      ensures Valid() && fresh(orders) && last == 0 && stored == map[]
      ensures orders.Length0 == tickers && orders.Length1 == ids
    {
      orders := new Option<Slot>[tickers, ids]((_, _) => None);
      last := 0;
      pool := P.Fresh(ids);
      stored, blocks := map[], map[];
      P.NoneLive(ids);
    }

    lemma Held(t: nat, oid: nat)
      requires Valid() && t < orders.Length0 && oid < orders.Length1
      ensures blocks.Keys == stored.Keys && (orders[t, oid].Some? <==> (t, oid) in stored)
      ensures orders[t, oid].Some? ==> orders[t, oid].value == Slot(stored[(t, oid)], blocks[(t, oid)])
    {
    }

    lemma SameKeys()
      requires Shows()
      ensures blocks.Keys == stored.Keys
    {
    }

    /** Writes an entry of the array. */
    method Enter(t: nat, oid: nat, slot: Slot)
      requires Shows() && t < orders.Length0 && oid < orders.Length1
      modifies this`stored, this`blocks, orders
      ensures Shows()
      ensures stored == old(stored)[(t, oid) := slot.order] && blocks == old(blocks)[(t, oid) := slot.block]
    {
      orders[t, oid] := Some(slot);
      stored, blocks := stored[(t, oid) := slot.order], blocks[(t, oid) := slot.block];
      forall i, j | 0 <= i < orders.Length0 && 0 <= j < orders.Length1
        ensures orders[i, j] == SlotOf(stored, blocks, (i, j))
      {
        assert (i == t && j == oid) || (i, j) != (t, oid);
      }
    }

    /** Empties an entry of the array. */
    method Erase(t: nat, oid: nat)
      requires Shows() && t < orders.Length0 && oid < orders.Length1
      modifies this`stored, this`blocks, orders
      ensures Shows() && stored == old(stored) - {(t, oid)} && blocks == old(blocks) - {(t, oid)}
    {
      orders[t, oid] := None;
      stored, blocks := stored - {(t, oid)}, blocks - {(t, oid)};
      forall i, j | 0 <= i < orders.Length0 && 0 <= j < orders.Length1
        ensures orders[i, j] == SlotOf(stored, blocks, (i, j))
      {
        assert (i == t && j == oid) || (i, j) != (t, oid);
      }
    }

    /** Allocates a block for an order to be stored; None where the pool overruns. */
    method TakeBlock(ghost k: Key) returns (block: Option<nat>)
      requires Pooled() && k !in blocks
      modifies this`pool
      ensures block.Some? <==> |Cells(blocks)| + 2 <= orders.Length1
      ensures block.Some? ==>
              && |pool.free| == orders.Length1 && |Cells(blocks[k := block.value])| == |Cells(blocks)| + 1
              && P.Housed(pool, Cells(blocks[k := block.value]), BlockOf)
    {
      PoolValid();
      hide P.Housed, P.Alloc, Cells;
      P.HousedRoom(pool, Cells(blocks), BlockOf);
      match P.Alloc(pool) {
        case None =>
          return None;
        case Some(p) =>
          block := Some(pool.next);
          CellTaken(blocks, k, pool.next);
          P.HousedTaken(pool, Cells(blocks), BlockOf, Cell(k, pool.next));
          P.AllocSize(pool);
          pool := p;
      }
    }

    lemma PoolValid()
      requires Pooled()
      ensures P.Valid(pool)
    {
    }

    /** Stores an order at an empty place; false where the pool overruns. */
    method Store(t: nat, oid: nat, o: Order) returns (ok: bool)
      requires Valid() && t < orders.Length0 && oid < orders.Length1 && (t, oid) !in stored
      modifies this`pool, this`stored, this`blocks, orders
      ensures ok <==> |old(stored)| + 2 <= orders.Length1
      ensures ok ==> Valid() && stored == old(stored)[(t, oid) := o]
    {
      hide P.Housed, P.Alloc, Cells, Shows;
      SameKeys();
      var block := TakeBlock((t, oid));
      if block.None? {
        return false;
      }
      Enter(t, oid, Slot(o, block.value));
      return true;
    }

    /** Gives the block of a stored order back, which the pool accepts. */
    method GiveBlock(block: nat, ghost k: Key)
      requires Pooled() && k in blocks && blocks[k] == block
      modifies this`pool
      ensures |pool.free| == orders.Length1 && |Cells(blocks - {k})| == |Cells(blocks)| - 1
      ensures P.Housed(pool, Cells(blocks - {k}), BlockOf)
    {
      hide P.Housed, Cells;
      CellGiven(blocks, k);
      P.HousedGiven(pool, Cells(blocks), BlockOf, Cell(k, block));
      pool := P.Free(pool, block);
    }

    /** Takes a stored order out. */
    method Remove(t: nat, oid: nat)
      requires Valid() && t < orders.Length0 && oid < orders.Length1 && (t, oid) in stored
      modifies this`pool, this`stored, this`blocks, orders
      ensures Valid() && stored == old(stored) - {(t, oid)}
    {
      hide Shows, P.Housed, Cells;
      Held(t, oid);
      GiveBlock(orders[t, oid].value.block, (t, oid));
      Erase(t, oid);
    }

    /** Changes a stored order in place. */
    method Change(t: nat, oid: nat, qty: nat, price: int)
      requires Valid() && t < orders.Length0 && oid < orders.Length1 && (t, oid) in stored
      modifies this`stored, this`blocks, orders
      ensures Valid() && stored == old(stored)[(t, oid) := old(stored)[(t, oid)].(qty := qty, price := price)]
    {
      hide Shows, Pooled, Cells;
      Held(t, oid);
      Overwritten(stored, blocks, (t, oid), stored[(t, oid)].(qty := qty, price := price));
      var slot := orders[t, oid].value;
      Enter(t, oid, slot.(order := slot.order.(qty := qty, price := price)));
    }

    /** Folds one update in; `false` is the failed ASSERT or range check that ends the process. */
    method AddToSnapshot(n: nat, u: Update) returns (ok: bool)
      requires Valid()
      modifies this, orders
      ensures var next := old(Step(stored, last, orders.Length0, orders.Length1, n, u));
              ok == next.Some? && (ok ==> Valid() && stored == next.value && last == n)
    {
      hide Valid, Matches;
      if u.SnapshotStart? || u.SnapshotEnd? || u.ticker >= orders.Length0 {
        return false;
      }
      if (u.Add? || u.Modify? || u.Cancel?) && u.oid < orders.Length1 {
        Held(u.ticker, u.oid);
      }
      match u {
        case Add(t, oid, _, _, _, _) =>
          if oid >= orders.Length1 || orders[t, oid].Some? {
            return false;
          }
          ok := Store(t, oid, Quote(u));
          if !ok {
            return;
          }
        case Modify(t, oid, side, price, qty, _) =>
          if oid >= orders.Length1 || orders[t, oid].None? || !Matches(orders[t, oid].value.order, oid, side) {
            return false;
          }
          Change(t, oid, qty, price);
        case Cancel(t, oid, side, _, _, _) =>
          if oid >= orders.Length1 || orders[t, oid].None? || !Matches(orders[t, oid].value.order, oid, side) {
            return false;
          }
          Remove(t, oid);
        case _ =>
      }
      if n != last + 1 {
        return false;
      }
      last := n;
      return true;
    }

    /** The messages of one snapshot, numbered from zero. */
    method PublishSnapshot() returns (sent: seq<(nat, Update)>)
      requires Valid()
      ensures sent == Numbered(Snapshot(stored, last, orders.Length0, orders.Length1))
    {
      hide Valid;
      ghost var us := [SnapshotStart(last)];
      var size := 0;
      sent := [(size, SnapshotStart(last))];
      size := size + 1;
      for t := 0 to orders.Length0
        invariant size == |sent| && sent == Numbered(us)
        invariant us == [SnapshotStart(last)] + Body(stored, t, orders.Length1)
      {
        sent := sent + [(size, Clear(t))];
        size := size + 1;
        NumberedAppend(us, Clear(t));
        us := us + [Clear(t)];
        ghost var begun := us;
        for oid := 0 to orders.Length1
          invariant size == |sent| && sent == Numbered(us)
          invariant us == begun + OrdersBelow(stored, t, oid)
        {
          var slot := orders[t, oid];
          Held(t, oid);
          if slot.Some? {
            var u := Announce(t, slot.value.order);
            sent := sent + [(size, u)];
            size := size + 1;
            NumberedAppend(us, u);
            us := us + [u];
          }
        }
      }
      sent := sent + [(size, SnapshotEnd(last))];
      NumberedAppend(us, SnapshotEnd(last));
    }
  }
}
