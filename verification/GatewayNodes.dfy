/** The two ends of the order gateway as the source stores them, proved against `Gateway`. */
module GatewayNodes {
  import opened Types
  import C = Codec
  import opened Framing
  import opened Gateway

  /** Requests on the wire as events of one socket. */
  function Events(s: TcpSocket, records: seq<seq<C.byte>>): (r: seq<(TcpSocket, C.Request)>)
    requires Whole(records, 38)
    ensures |r| == |records|
  {
    From(s, Decoded(records))
  }

  lemma EventsNone(s: TcpSocket, clients: nat)
    ensures Events(s, []) == [] && Named(Events(s, []), clients)
  {
  }

  lemma EventsAppend(s: TcpSocket, records: seq<seq<C.byte>>, record: seq<C.byte>)
    requires |record| == 38 && Whole(records, 38)
    ensures C.Width(C.REQUEST_WIDTHS) == 38 && Whole(records + [record], 38)
    ensures Events(s, records + [record]) == Events(s, records) + [(s, C.DecodeRequest(record))]
  {
    hide C.DecodeRequest, C.Width, C.RequestFits;
    C.RequestWidth();
  }

  /** Passing on one more event. */
  lemma HandleNext(g: Gate<TcpSocket>, events: seq<(TcpSocket, C.Request)>, e: (TcpSocket, C.Request))
    requires |g.sockets| == |g.next| && Named(events, |g.next|) && e.1.client < |g.next|
    ensures Named(events + [e], |g.next|)
    ensures HandleAll(g, events + [e]) == Handle(HandleAll(g, events), e.0, e.1)
  {
    assert (events + [e])[..|events|] == events;
  }

  class OrderGatewayServer {
    const sockets: array<TcpSocket?>
    const rxNext: array<nat>
    const txNext: array<nat>
    var forwarded: seq<(TcpSocket, C.Request)>

    ghost predicate Valid()
      reads this
    {
      sockets.Length == rxNext.Length == txNext.Length && rxNext != txNext
    }

    function Known(): (r: seq<Option<TcpSocket>>)
      reads sockets
      ensures |r| == sockets.Length
      ensures forall c | 0 <= c < |r| :: r[c] == if sockets[c] == null then None else Some(sockets[c])
    {
      seq(sockets.Length, c requires 0 <= c < sockets.Length reads sockets =>
        if sockets[c] == null then None else Some(sockets[c]))
    }

    ghost function State(): Gate<TcpSocket>
      reads this, sockets, rxNext
    {
      Gate(Known(), rxNext[..], forwarded)
    }

    constructor (clients: nat)
      ensures Valid() && State() == NewGate(clients) && fresh(sockets) && fresh(rxNext) && fresh(txNext)
      ensures forall c | 0 <= c < txNext.Length :: txNext[c] == 1
    {
      sockets := new TcpSocket?[clients](_ => null);
      rxNext := new nat[clients](_ => 1);
      txNext := new nat[clients](_ => 1);
      forwarded := [];
      new;
      assert Known() == NewGate<TcpSocket>(clients).sockets;
    }

    /** One request of the receive buffer. */
    method HandleRequest(socket: TcpSocket, r: C.Request)
      requires Valid() && r.client < sockets.Length
      modifies this, sockets, rxNext
      ensures Valid() && State() == Handle(old(State()), socket, r)
    {
      ghost var was := State();
      if sockets[r.client] == null {
        sockets[r.client] := socket;
      }
      assert Known() == if was.sockets[r.client].None? then was.sockets[r.client := Some(socket)] else was.sockets;
      if sockets[r.client] == socket && r.n == rxNext[r.client] {
        rxNext[r.client] := rxNext[r.client] + 1;
        forwarded := forwarded + [(socket, r)];
      }
      assert rxNext[..] == Handle(was, socket, r).next;
    }

    /** The record at `i`, after those in `done` were handled from state `was`. */
    method HandleRecord(socket: TcpSocket, i: nat, ghost b: seq<C.byte>, ghost done: seq<seq<C.byte>>,
                        ghost was: Gate<TcpSocket>)
      requires Valid() && socket.Valid() && socket.Buffer() == b && i + 38 <= |b|
      requires Cutting(b, 38, done, i) && Whole(done, 38)
      requires |was.sockets| == |was.next| == sockets.Length
      requires Named(Events(socket, Records(b, 38)), sockets.Length)
      requires Named(Events(socket, done), sockets.Length) && State() == HandleAll(was, Events(socket, done))
      modifies this, sockets, rxNext
      ensures Valid() && socket.Buffer() == b
      ensures var next := done + [b[i..i + 38]];
              && Cutting(b, 38, next, i + 38) && Whole(next, 38)
              && Named(Events(socket, next), sockets.Length) && State() == HandleAll(was, Events(socket, next))
    {
      hide Events, Handle, HandleAll, Records, Residue, Cutting, Whole, Named, Known;
      var record := socket.rx[i..i + 38];
      assert record == b[i..i + 38];
      CuttingNext(b, 38, done, i);
      EventsAppend(socket, done, record);
      NamedAt(socket, b, |done|, sockets.Length);
      HandleNext(was, Events(socket, done), (socket, C.DecodeRequest(record)));
      HandleRequest(socket, C.DecodeRequest(record));
    }

    /** Bytes have arrived: handle the whole requests and keep the rest. */
    method RxCallback(socket: TcpSocket)
      requires Valid() && socket.Valid()
      requires Named(Events(socket, Records(socket.Buffer(), 38)), sockets.Length)
      modifies this, sockets, rxNext, socket`iRxNext, socket.rx
      ensures Valid() && socket.Valid()
      ensures socket.Buffer() == Residue(old(socket.Buffer()), 38)
      ensures State() == HandleAll(old(State()), Events(socket, Records(old(socket.Buffer()), 38)))
    {
      hide Events, Handle, HandleAll, Records, Residue, Cutting, Whole, Named, Known;
      ghost var b := socket.Buffer();
      ghost var done: seq<seq<C.byte>> := [];
      HandleNone(State(), socket);
      CuttingStarts(b, 38);
      if socket.iRxNext >= 38 {
        var i := 0;
        while i + 38 <= socket.iRxNext
          invariant Valid() && socket.Valid() && socket.Buffer() == b && (i == 0 || i >= 38)
          invariant Cutting(b, 38, done, i) && Whole(done, 38) && Named(Events(socket, done), sockets.Length)
          invariant State() == HandleAll(old(State()), Events(socket, done))
        {
          HandleRecord(socket, i, b, done, old(State()));
          done := done + [b[i..i + 38]];
          i := i + 38;
        }
        CuttingEnds(b, 38, done, i);
        socket.Shift(i, 38);
      } else {
        CuttingEnds(b, 38, done, 0);
      }
    }

    lemma HandleNone(g: Gate<TcpSocket>, s: TcpSocket)
      requires |g.sockets| == |g.next|
      ensures Whole([], 38) && Named(Events(s, []), |g.next|) && HandleAll(g, Events(s, [])) == g
    {
      EventsNone(s, |g.next|);
    }

    lemma NamedAt(s: TcpSocket, b: seq<C.byte>, k: nat, clients: nat)
      requires k < |Records(b, 38)| && Named(Events(s, Records(b, 38)), clients)
      ensures C.Width(C.REQUEST_WIDTHS) == 38 && C.DecodeRequest(Records(b, 38)[k]).client < clients
    {
      C.RequestWidth();
      assert Events(s, Records(b, 38))[k].1 == C.DecodeRequest(Records(b, 38)[k]);
    }

    // ----- responses

    ghost function Sockets(): set<TcpSocket>
      reads sockets
    {
      set c | 0 <= c < sockets.Length && sockets[c] != null :: sockets[c]
    }

    /** Every client the responses are for has sent something before. */
    ghost predicate Reachable(rs: seq<C.Response>)
      reads sockets
    {
      forall i | 0 <= i < |rs| :: rs[i].client < sockets.Length && sockets[rs[i].client] != null
    }

    /** What goes out on one socket for these responses, with these numbers next. */
    ghost function Outgoing(next: seq<nat>, rs: seq<C.Response>, s: TcpSocket): seq<C.Response>
      requires |next| == sockets.Length && Addressed(rs, |next|)
      reads sockets
    {
      Routed(Stamp(next, rs).1, Known(), s)
    }

    lemma OutgoingAppend(next: seq<nat>, rs: seq<C.Response>, r: C.Response, s: TcpSocket)
      requires |next| == sockets.Length && Addressed(rs, |next|)
      requires r.client < |next| && ResponsesFit(Stamp(next, rs).1)
      requires C.ResponseFits(r.(n := Stamp(next, rs).0[r.client])) && ResponsesFit(Outgoing(next, rs, s))
      ensures Addressed(rs + [r], |next|) && ResponsesFit(Outgoing(next, rs + [r], s))
      ensures Wire(Outgoing(next, rs + [r], s))
           == Wire(Outgoing(next, rs, s))
              + if sockets[r.client] == s then C.EncodeResponse(r.(n := Stamp(next, rs).0[r.client])) else []
    {
      hide Stamp, Routed, Wire, C.ResponseFits, C.EncodeResponse;
      var stamped := r.(n := Stamp(next, rs).0[r.client]);
      StampAppend(next, rs, r);
      RoutedAppend(Stamp(next, rs).1, stamped, Known(), s);
      WireAppend(Outgoing(next, rs, s), stamped);
    }

    /** Numbers each response for its client and hands it to that client's socket. */
    method SendResponses(rs: seq<C.Response>)
      requires Valid() && Reachable(rs) && Addressed(rs, sockets.Length)
      requires ResponsesFit(Stamp(txNext[..], rs).1)
      modifies txNext, Sockets()`tx
      ensures txNext[..] == Stamp(old(txNext[..]), rs).0
      ensures forall s | s in Sockets() ::
                var out := Outgoing(old(txNext[..]), rs, s);
                ResponsesFit(out) && s.tx == old(s.tx) + Wire(out)
    {
      hide Stamp, Routed, Wire, C.ResponseFits, C.EncodeResponse;
      ghost var next := txNext[..];
      assert rs[..0] == [];
      NothingOut(next);
      for i := 0 to |rs|
        invariant txNext[..] == Stamp(next, rs[..i]).0
        invariant forall s | s in Sockets() ::
                    var out := Outgoing(next, rs[..i], s);
                    ResponsesFit(out) && s.tx == old(s.tx) + Wire(out)
      {
        var r := rs[i];
        var socket := sockets[r.client];
        assert rs[..i + 1] == rs[..i] + [r];
        PrefixFits(next, rs, i);
        StampAppend(next, rs[..i], r);
        socket.LoadTx(C.EncodeResponse(r.(n := txNext[r.client])));
        txNext[r.client] := txNext[r.client] + 1;
        forall s | s in Sockets()
          ensures var out := Outgoing(next, rs[..i + 1], s); ResponsesFit(out) && s.tx == old(s.tx) + Wire(out)
        {
          OutgoingAppend(next, rs[..i], r, s);
        }
      }
      assert rs[..|rs|] == rs;
    }

    lemma NothingOut(next: seq<nat>)
      requires |next| == sockets.Length
      ensures Stamp(next, []).0 == next
      ensures forall s | s in Sockets() :: ResponsesFit(Outgoing(next, [], s)) && Wire(Outgoing(next, [], s)) == []
    {
    }

    /** The stamped responses begin with the stamped beginning. */
    lemma {:induction false} StampPrefix(next: seq<nat>, rs: seq<C.Response>, i: nat)
      requires Addressed(rs, |next|) && i < |rs|
      ensures Addressed(rs[..i], |next|)
      ensures Stamp(next, rs[..i]).1 == Stamp(next, rs).1[..i]
      ensures Stamp(next, rs).1[i] == rs[i].(n := Stamp(next, rs[..i]).0[rs[i].client])
      decreases |rs|
    {
      hide Stamp;
      var before, last := rs[..|rs| - 1], rs[|rs| - 1];
      assert rs == before + [last];
      StampAppend(next, before, last);
      if i < |before| {
        StampPrefix(next, before, i);
        assert before[..i] == rs[..i];
      } else {
        assert rs[..i] == before;
      }
    }

    lemma PrefixFits(next: seq<nat>, rs: seq<C.Response>, i: nat)
      requires Addressed(rs, |next|) && i < |rs| && ResponsesFit(Stamp(next, rs).1)
      ensures Addressed(rs[..i], |next|) && ResponsesFit(Stamp(next, rs[..i]).1)
      ensures C.ResponseFits(rs[i].(n := Stamp(next, rs[..i]).0[rs[i].client]))
    {
      hide Stamp, C.ResponseFits, ResponsesFit;
      StampPrefix(next, rs, i);
      SliceFits(Stamp(next, rs).1, i);
    }

    lemma SliceFits(rs: seq<C.Response>, i: nat)
      requires ResponsesFit(rs) && i < |rs|
      ensures ResponsesFit(rs[..i]) && C.ResponseFits(rs[i])
    {
      hide C.ResponseFits;
    }
  }

  class OrderGatewayClient {
    const client: nat
    const socket: TcpSocket
    var nextRequest: nat
    var nextExpected: nat
    var accepted: seq<C.Response>  // passed to the trading engine

    ghost function View(): Inbox
      reads this
    {
      Inbox(client, nextExpected, accepted)
    }

    constructor (client: nat, socket: TcpSocket)
      ensures this.client == client && this.socket == socket
      ensures nextRequest == 1 && View() == Inbox(client, 1, [])
    {
      this.client, this.socket := client, socket;
      nextRequest, nextExpected, accepted := 1, 1, [];
    }

    /** Numbers requests and hands them to the socket. */
    method SendRequests(rs: seq<C.Request>)
      requires AllFit(NumberedFrom(rs, nextRequest))
      modifies this`nextRequest, socket`tx
      ensures nextRequest == old(nextRequest) + |rs|
      ensures socket.tx == old(socket.tx) + Stream(Encoded(NumberedFrom(rs, old(nextRequest))))
    {
      hide Stream, Encoded, AllFit, NumberedFrom, C.EncodeRequest, C.RequestFits;
      ghost var n := nextRequest;
      NoRequests(n);
      assert rs[..0] == [];
      for i := 0 to |rs|
        invariant nextRequest == n + i && AllFit(NumberedFrom(rs[..i], n))
        invariant socket.tx == old(socket.tx) + Stream(Encoded(NumberedFrom(rs[..i], n)))
      {
        NextRequest(rs, n, i);
        socket.LoadTx(C.EncodeRequest(rs[i].(n := nextRequest)));
        nextRequest := nextRequest + 1;
      }
      assert rs[..|rs|] == rs;
    }

    lemma NoRequests(n: nat)
      ensures AllFit(NumberedFrom([], n)) && Stream(Encoded(NumberedFrom([], n))) == []
    {
    }

    lemma NextRequest(rs: seq<C.Request>, n: nat, i: nat)
      requires AllFit(NumberedFrom(rs, n)) && i < |rs|
      ensures AllFit(NumberedFrom(rs[..i], n)) && AllFit(NumberedFrom(rs[..i + 1], n))
      ensures C.RequestFits(rs[i].(n := n + i))
      ensures Stream(Encoded(NumberedFrom(rs[..i + 1], n)))
           == Stream(Encoded(NumberedFrom(rs[..i], n))) + C.EncodeRequest(rs[i].(n := n + i))
    {
      hide Stream, C.RequestFits, C.EncodeRequest;
      var all, one := NumberedFrom(rs, n), rs[i].(n := n + i);
      assert forall k | 0 <= k < |rs| :: C.RequestFits(all[k]);
      assert all[i] == one;
      assert NumberedFrom(rs[..i], n) == all[..i] && NumberedFrom(rs[..i + 1], n) == all[..i] + [one];
      assert Encoded(NumberedFrom(rs[..i + 1], n)) == Encoded(NumberedFrom(rs[..i], n)) + [C.EncodeRequest(one)];
      StreamConcat(Encoded(NumberedFrom(rs[..i], n)), [C.EncodeRequest(one)]);
      StreamCons(C.EncodeRequest(one), []);
      WireNone();
      assert [C.EncodeRequest(one)] + [] == [C.EncodeRequest(one)];
    }

    /** One response of the receive buffer. */
    method HandleResponse(r: C.Response)
      modifies this`nextExpected, this`accepted
      ensures View() == Accept(old(View()), r)
    {
      if r.client == client && r.n == nextExpected {
        nextExpected := nextExpected + 1;
        accepted := accepted + [r];
      }
    }

    /** Bytes have arrived: accept the whole responses and keep the rest. */
    method RxCallback()
      requires socket.Valid()
      modifies this`nextExpected, this`accepted, socket`iRxNext, socket.rx
      ensures socket.Valid() && socket.Buffer() == Residue(old(socket.Buffer()), 50)
      ensures View() == AcceptAll(old(View()), DecodedResponses(Records(old(socket.Buffer()), 50)))
    {
      hide Accept, AcceptAll, DecodedResponses, Records, Residue, Cutting, Whole, C.DecodeResponse, C.Width;
      C.ResponseWidth();
      ghost var b := socket.Buffer();
      ghost var done: seq<seq<C.byte>> := [];
      AcceptNone(View());
      CuttingStarts(b, 50);
      if socket.iRxNext >= 50 {
        var i := 0;
        while i + 50 <= socket.iRxNext
          invariant socket.Valid() && socket.Buffer() == b && (i == 0 || i >= 50)
          invariant Cutting(b, 50, done, i) && Whole(done, 50)
          invariant View() == AcceptAll(old(View()), DecodedResponses(done))
        {
          var record := socket.rx[i..i + 50];
          assert record == b[i..i + 50];
          CuttingNext(b, 50, done, i);
          DecodedAppend(done, record);
          AcceptNext(old(View()), DecodedResponses(done), C.DecodeResponse(record));
          HandleResponse(C.DecodeResponse(record));
          done := done + [record];
          i := i + 50;
        }
        CuttingEnds(b, 50, done, i);
        socket.Shift(i, 50);
      } else {
        CuttingEnds(b, 50, done, 0);
      }
    }

    lemma AcceptNone(i: Inbox)
      ensures Whole([], 50) && AcceptAll(i, DecodedResponses([])) == i
    {
    }

    lemma AcceptNext(i: Inbox, rs: seq<C.Response>, r: C.Response)
      ensures AcceptAll(i, rs + [r]) == Accept(AcceptAll(i, rs), r)
    {
      assert (rs + [r])[..|rs|] == rs;
    }
  }
}
