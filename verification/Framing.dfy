/**
 Cutting a TCP stream into fixed-size records. The receive buffer holds the bytes that have not
 made a whole record yet; each receive appends to it, takes the whole records out and moves the
 rest to the front.
 */
module Framing {
  import opened Codec

  /** All of one size. */
  predicate Whole(records: seq<seq<byte>>, size: nat) {
    forall i | 0 <= i < |records| :: |records[i]| == size
  }

  /** The whole records at the front of `s`. */
  function Records(s: seq<byte>, size: nat): (r: seq<seq<byte>>)
    requires size > 0
    ensures Whole(r, size)
  {
    if |s| < size then [] else [s[..size]] + Records(s[size..], size)
  }

  /** What is left after them: less than a record. */
  function Residue(s: seq<byte>, size: nat): (r: seq<byte>)
    requires size > 0
    ensures |r| < size && |r| <= |s|
  {
    if |s| < size then s else Residue(s[size..], size)
  }

  lemma {:induction false} Later(a: seq<byte>, b: seq<byte>, size: nat)
    requires size > 0
    ensures Records(a + b, size) == Records(a, size) + Records(Residue(a, size) + b, size)
    ensures Residue(a + b, size) == Residue(Residue(a, size) + b, size)
  {
    if |a| >= size {
      assert (a + b)[..size] == a[..size];
      assert (a + b)[size..] == a[size..] + b;
      Later(a[size..], b, size);
    }
  }

  /** A loop has taken the records in `done` and stands at `i`. */
  ghost predicate Cutting(s: seq<byte>, size: nat, done: seq<seq<byte>>, i: nat)
    requires size > 0
  {
    && i <= |s| && Whole(done, size)
    && Records(s, size) == done + Records(s[i..], size) && Residue(s, size) == Residue(s[i..], size)
  }

  lemma CuttingStarts(s: seq<byte>, size: nat)
    requires size > 0
    ensures Cutting(s, size, [], 0)
  {
    assert s[0..] == s;
  }

  lemma CuttingNext(s: seq<byte>, size: nat, done: seq<seq<byte>>, i: nat)
    requires size > 0 && Cutting(s, size, done, i) && i + size <= |s|
    ensures Cutting(s, size, done + [s[i..i + size]], i + size)
    ensures |done| < |Records(s, size)| && Records(s, size)[|done|] == s[i..i + size]
    ensures Whole(done + [s[i..i + size]], size)
  {
    assert s[i..][..size] == s[i..i + size] && s[i..][size..] == s[i + size..];
  }

  lemma CuttingEnds(s: seq<byte>, size: nat, done: seq<seq<byte>>, i: nat)
    requires size > 0 && Cutting(s, size, done, i) && |s| < i + size
    ensures i <= |s| && done == Records(s, size) && s[i..] == Residue(s, size)
  {
    assert done + [] == done;
  }

  function Stream(chunks: seq<seq<byte>>): seq<byte> {
    if chunks == [] then [] else chunks[0] + Stream(chunks[1..])
  }

  lemma {:induction false} StreamConcat(a: seq<seq<byte>>, b: seq<seq<byte>>)
    ensures Stream(a + b) == Stream(a) + Stream(b)
  {
    if a == [] {
      assert a + b == b;
    } else {
      assert (a + b)[1..] == a[1..] + b;
      StreamConcat(a[1..], b);
    }
  }

  lemma StreamCons(x: seq<byte>, rest: seq<seq<byte>>)
    ensures Stream([x] + rest) == x + Stream(rest)
  {
    assert ([x] + rest)[1..] == rest;
  }

  lemma Short(s: seq<byte>, size: nat)
    requires |s| < size
    ensures Records(s, size) == [] && Residue(s, size) == s && Stream([]) == []
  {
  }

  lemma Cut(s: seq<byte>, size: nat)
    requires 0 < size <= |s|
    ensures Records(s, size) == [s[..size]] + Records(s[size..], size) && Residue(s, size) == Residue(s[size..], size)
  {
  }

  /** Records and residue are the stream, cut up. */
  lemma {:induction false} Rejoined(s: seq<byte>, size: nat)
    requires size > 0
    ensures Stream(Records(s, size)) + Residue(s, size) == s
  {
    hide Records, Residue, Stream;
    if |s| < size {
      Short(s, size);
    } else {
      var x, rest := s[..size], s[size..];
      Cut(s, size);
      Rejoined(rest, size);
      StreamCons(x, Records(rest, size));
      assert x + Stream(Records(rest, size)) + Residue(rest, size) == x + rest;
      assert s == x + rest;
    }
  }

  /** Whole records, sent one after the other, are the records received. */
  lemma {:induction false} RecordsOf(records: seq<seq<byte>>, rest: seq<byte>, size: nat)
    requires size > 0 && |rest| < size && Whole(records, size)
    ensures Records(Stream(records) + rest, size) == records && Residue(Stream(records) + rest, size) == rest
  {
    if records == [] {
      assert Stream(records) + rest == rest;
    } else {
      var s := Stream(records) + rest;
      assert s[..size] == records[0];
      assert s[size..] == Stream(records[1..]) + rest;
      RecordsOf(records[1..], rest, size);
    }
  }

  /** The records taken out, and the buffer left, after receiving some chunks one by one. */
  function Received(chunks: seq<seq<byte>>, size: nat): (r: (seq<seq<byte>>, seq<byte>))
    requires size > 0
    ensures Whole(r.0, size)
  {
    if chunks == [] then ([], [])
    else
      var (taken, buffer) := Received(chunks[..|chunks| - 1], size);
      var now := buffer + chunks[|chunks| - 1];
      (taken + Records(now, size), Residue(now, size))
  }

  /** However a stream is cut into receives, the records are the stream's, and the buffer is short. */
  lemma {:induction false} ChunkingInvariant(chunks: seq<seq<byte>>, size: nat)
    requires size > 0
    ensures Received(chunks, size) == (Records(Stream(chunks), size), Residue(Stream(chunks), size))
    ensures |Received(chunks, size).1| < size
  {
    if chunks != [] {
      var before, last := chunks[..|chunks| - 1], chunks[|chunks| - 1];
      ChunkingInvariant(before, size);
      StreamConcat(before, [last]);
      assert chunks == before + [last];
      assert Stream([last]) == last + Stream([last][1..]) == last;
      Later(Stream(before), last, size);
    }
  }

  class TcpSocket {
    const rx: array<byte>
    var iRxNext: nat   // bytes in the receive buffer
    var tx: seq<byte>  // bytes handed over for sending, in order

    predicate Valid()
      reads this
    {
      iRxNext <= rx.Length
    }

    function Buffer(): seq<byte>
      reads this, rx
      requires Valid()
    {
      rx[..iRxNext]
    }

    constructor (size: nat)
      ensures Valid() && Buffer() == [] && tx == [] && rx.Length == size && fresh(rx)
    {
      rx := new byte[size](_ => 0);
      iRxNext, tx := 0, [];
    }

    /** Hands bytes over for sending. */
    method LoadTx(data: seq<byte>)
      modifies this`tx
      ensures tx == old(tx) + data
    {
      tx := tx + data;
    }

    /** The kernel appends received bytes to the buffer. */
    method Receive(data: seq<byte>)
      requires Valid() && iRxNext + |data| <= rx.Length
      modifies this`iRxNext, rx
      ensures Valid() && Buffer() == old(Buffer()) + data
    {
      for i := 0 to |data|
        invariant rx[..iRxNext] == old(rx[..iRxNext])
        invariant rx[iRxNext..iRxNext + i] == data[..i]
        modifies rx
      {
        rx[iRxNext + i] := data[i];
      }
      assert rx[..iRxNext + |data|] == rx[..iRxNext] + rx[iRxNext..iRxNext + |data|];
      iRxNext := iRxNext + |data|;
    }

    /**
     Moves the bytes from `i` on to the front. The source copies between them as if they were
     apart, which they are: less than a record is left, and at least a record was taken.
     */
    method Shift(i: nat, size: nat)
      requires Valid() && 0 < size <= i <= iRxNext < i + size
      modifies this`iRxNext, rx
      ensures Valid() && Buffer() == old(Buffer())[i..]
    {
      var n := iRxNext - i;
      assert n <= i;
      for k := 0 to n
        invariant rx[..k] == old(rx[i..i + k])
        invariant forall j | k <= j < rx.Length :: rx[j] == old(rx[j])
        modifies rx
      {
        rx[k] := rx[i + k];
      }
      iRxNext := n;
    }
  }
}
