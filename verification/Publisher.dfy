/**
 The market data publisher: it takes the engine's updates from a queue, numbers them, and sends
 each both on the wire and, read from the queue a second time, to the snapshot synthesizer.
 */
module Publisher {
  import opened Types
  import opened SpscQueue

  type Numbered = seq<(nat, Update)>

  /** Updates with consecutive numbers from `n` on. */
  function From(us: seq<Update>, n: nat): (r: Numbered)
    ensures |r| == |us| && forall i | 0 <= i < |us| :: r[i] == (n + i, us[i])
  {
    seq(|us|, i requires 0 <= i < |us| => (n + i, us[i]))
  }

  lemma FromAppend(us: seq<Update>, n: nat, u: Update)
    ensures From(us + [u], n) == From(us, n) + [(n + |us|, u)]
  {
  }

  lemma FromPrefix(us: seq<Update>, vs: seq<Update>, n: nat)
    ensures From(us, n) <= From(vs, n) <==> us <= vs
  {
    if From(us, n) <= From(vs, n) {
      assert forall i | 0 <= i < |us| :: From(us, n)[i] == From(vs, n)[i];
    }
  }

  /**
   With the engine and the publisher interleaved in any way: what the synthesizer is given is a
   prefix of what is on the wire, for every interleaving, exactly when the queue keeps a spare block.
   */
  lemma SynthesizerFollowsWire(blocks: seq<Update>, x: Update, y: Update, spare: nat)
    requires blocks != [] && x != y
    ensures spare >= 1 <==>
              forall actions ::
                From(RunFrom(Start(blocks), actions, spare).late, 1)
                <= From(RunFrom(Start(blocks), actions, spare).first, 1)
  {
    hide RunFrom, From;
    if spare >= 1 {
      forall actions: seq<Action<Update>>
        ensures From(RunFrom(Start(blocks), actions, spare).late, 1)
             <= From(RunFrom(Start(blocks), actions, spare).first, 1)
      {
        EveryRun(blocks, actions, spare);
        FromPrefix(RunFrom(Start(blocks), actions, spare).late, RunFrom(Start(blocks), actions, spare).first, 1);
      }
    } else {
      var actions := Rewritten(blocks, x, y);
      FromPrefix(RunFrom(Start(blocks), actions, spare).late, RunFrom(Start(blocks), actions, spare).first, 1);
    }
  }

  class MarketDataPublisher {
    var nSeqNext: nat
    var wire: Numbered
    var toSynthesizer: Numbered

    constructor ()
      ensures nSeqNext == 1 && wire == toSynthesizer == []
    {
      nSeqNext, wire, toSynthesizer := 1, [], [];
    }

    /** Sends the update at the head of the queue. */
    method SendNext(queue: LfQueue<Update>, p: nat)
      requires queue.Valid() && queue.at.r == Holding(p) && queue.spare > 0
      modifies this, queue`at, queue`iRead, queue`nBlocks
      ensures queue.Valid() && queue.at.r.RIdle? && queue.at.written == old(queue.at.written)
      ensures |old(queue.at.first)| < |queue.at.written|
      ensures var u := queue.at.written[|old(queue.at.first)|];
              && queue.at.first == old(queue.at.first) + [u]
              && wire == old(wire) + [(old(nSeqNext), u)]
              && toSynthesizer == old(toSynthesizer) + [(old(nSeqNext), u)]
      ensures nSeqNext == old(nSeqNext) + 1
    {
      hide Inv, Step;
      var u := queue.ReadAt(p);
      wire := wire + [(nSeqNext, u)];
      queue.AdvanceRead();
      queue.CountDown();
      var again := queue.ReadAgain(p);
      toSynthesizer := toSynthesizer + [(nSeqNext, again)];
      nSeqNext := nSeqNext + 1;
    }

    /** Takes everything from the queue while the engine pauses. */
    method Drain(queue: LfQueue<Update>)
      requires queue.Valid() && queue.at.r.RIdle? && queue.spare > 0
      modifies this, queue`at, queue`iRead, queue`nBlocks
      ensures queue.Valid() && queue.at.r.RIdle?
      ensures queue.at.written == old(queue.at.written) && queue.at.first == queue.at.written
      ensures |old(queue.at.first)| <= |queue.at.written|
      ensures var us := queue.at.written[|old(queue.at.first)|..];
              && wire == old(wire) + From(us, old(nSeqNext))
              && toSynthesizer == old(toSynthesizer) + From(us, old(nSeqNext))
              && nSeqNext == old(nSeqNext) + |us|
    {
      hide Inv, Step;
      ghost var written, k := queue.at.written, |queue.at.first|;
      var some, p := queue.NextToRead();
      while some
        invariant queue.Valid() && queue.at.written == written && queue.at.first <= written
        invariant k <= |queue.at.first|
        invariant some <==> |queue.at.first| < |written|
        invariant queue.at.r == if some then Holding(p) else RIdle
        invariant wire == old(wire) + From(queue.at.first[k..], old(nSeqNext))
        invariant toSynthesizer == old(toSynthesizer) + From(queue.at.first[k..], old(nSeqNext))
        invariant nSeqNext == old(nSeqNext) + |queue.at.first[k..]|
        decreases |written| - |queue.at.first|
      {
        ghost var us := queue.at.first[k..];
        SendNext(queue, p);
        ghost var u := queue.at.first[|queue.at.first| - 1];
        FromAppend(us, old(nSeqNext), u);
        assert queue.at.first[k..] == us + [u];
        some, p := queue.NextToRead();
      }
    }
  }
}
