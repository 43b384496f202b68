/**
 The order gateway's protocol above TCP: how the server accepts requests by client, socket and
 sequence number, how it numbers responses per client, and how a client accepts them.
 */
module Gateway {
  import opened Types
  import C = Codec
  import opened Framing

  // ----- requests, as the server accepts them

  /** The socket each client is known by, the number expected next from it, and what was passed on. */
  datatype Gate<!S(==)> = Gate(sockets: seq<Option<S>>, next: seq<nat>, forwarded: seq<(S, C.Request)>)

  function NewGate<S>(clients: nat): Gate<S> {
    Gate(seq(clients, _ => None), seq(clients, _ => 1), [])
  }

  predicate Sized<S>(g: Gate<S>, clients: nat) {
    |g.sockets| == |g.next| == clients
  }

  /** One request arriving on a socket. */
  function Handle<S(==)>(g: Gate<S>, s: S, r: C.Request): (h: Gate<S>)
    requires |g.sockets| == |g.next| && r.client < |g.next|
    ensures Sized(h, |g.next|)
  {
    var known := if g.sockets[r.client].None? then g.sockets[r.client := Some(s)] else g.sockets;
    if known[r.client] != Some(s) || r.n != g.next[r.client] then g.(sockets := known)
    else Gate(known, g.next[r.client := r.n + 1], g.forwarded + [(s, r)])
  }

  predicate Named<S>(events: seq<(S, C.Request)>, clients: nat) {
    forall i | 0 <= i < |events| :: events[i].1.client < clients
  }

  function HandleAll<S(==)>(g: Gate<S>, events: seq<(S, C.Request)>): (h: Gate<S>)
    requires |g.sockets| == |g.next| && Named(events, |g.next|)
    ensures Sized(h, |g.next|)
    decreases events
  {
    if events == [] then g
    else
      var last := events[|events| - 1];
      Handle(HandleAll(g, events[..|events| - 1]), last.0, last.1)
  }

  /** The events about one client. */
  function Own<S>(events: seq<(S, C.Request)>, client: nat): seq<(S, C.Request)> {
    if events == [] then []
    else
      var before, last := Own(events[..|events| - 1], client), events[|events| - 1];
      if last.1.client == client then before + [last] else before
  }

  lemma OwnAppend<S>(events: seq<(S, C.Request)>, e: (S, C.Request), client: nat)
    ensures Own(events + [e], client) == if e.1.client == client then Own(events, client) + [e] else Own(events, client)
  {
    assert (events + [e])[..|events|] == events;
  }

  /** All from one socket, numbered from 1 without a gap. */
  predicate InOrder<S(==)>(events: seq<(S, C.Request)>) {
    forall i | 0 <= i < |events| :: events[i].0 == events[0].0 && events[i].1.n == i + 1
  }

  /** What one client has: its socket, its number, and what was passed on for it. */
  ghost predicate Tracked<S>(g: Gate<S>, client: nat)
    requires |g.sockets| == |g.next| && client < |g.next|
  {
    var f := Own(g.forwarded, client);
    && InOrder(f) && g.next[client] == |f| + 1
    && (f != [] ==> g.sockets[client] == Some(f[0].0))
  }

  lemma HandleTracked<S>(g: Gate<S>, s: S, r: C.Request, client: nat)
    requires |g.sockets| == |g.next| && r.client < |g.next| && client < |g.next| && Tracked(g, client)
    ensures Tracked(Handle(g, s, r), client)
  {
    OwnAppend(g.forwarded, (s, r), client);
  }

  /**
   In every run, whatever arrives on whatever socket: what is passed on for a client came from one
   socket and is numbered from 1 without a gap or a repetition.
   */
  lemma {:induction false} OnceInOrder<S>(clients: nat, events: seq<(S, C.Request)>, client: nat)
    requires Named(events, clients) && client < clients
    ensures Tracked(HandleAll(NewGate(clients), events), client)
    ensures InOrder(Own(HandleAll(NewGate(clients), events).forwarded, client))
    decreases events
  {
    if events != [] {
      var before, last := events[..|events| - 1], events[|events| - 1];
      OnceInOrder(clients, before, client);
      HandleTracked(HandleAll(NewGate(clients), before), last.0, last.1, client);
    }
  }

  lemma {:induction false} Unheard<S>(clients: nat, events: seq<(S, C.Request)>, client: nat)
    requires Named(events, clients) && client < clients && Own(events, client) == []
    ensures var g := HandleAll(NewGate(clients), events); g.sockets[client] == None && Own(g.forwarded, client) == []
    decreases events
  {
    if events != [] {
      var before, last := events[..|events| - 1], events[|events| - 1];
      Unheard(clients, before, client);
      OwnAppend(HandleAll(NewGate(clients), before).forwarded, last, client);
    }
  }

  /** Requests of a client that arrive in order are all passed on, whatever other clients send. */
  lemma {:induction false} InOrderAccepted<S>(clients: nat, events: seq<(S, C.Request)>, client: nat)
    requires Named(events, clients) && client < clients && InOrder(Own(events, client))
    ensures Own(HandleAll(NewGate(clients), events).forwarded, client) == Own(events, client)
    decreases events
  {
    if events != [] {
      var before, last := events[..|events| - 1], events[|events| - 1];
      var own := Own(before, client);
      assert own == Own(events, client)[..|own|];
      assert InOrder(own) by {
        assert forall i | 0 <= i < |own| :: own[i] == Own(events, client)[i];
      }
      InOrderAccepted(clients, before, client);
      OnceInOrder(clients, before, client);
      if own == [] {
        Unheard(clients, before, client);
      }
      var g := HandleAll(NewGate(clients), before);
      OwnAppend(g.forwarded, last, client);
      if last.1.client == client {
        assert Own(events, client)[|own|] == last && last.1.n == |own| + 1;
        assert own != [] ==> Own(events, client)[0] == own[0];
      }
    }
  }

  /** All of a client's requests are passed on exactly when they arrive on one socket, in order. */
  lemma AcceptedIffInOrder<S>(clients: nat, events: seq<(S, C.Request)>, client: nat)
    requires Named(events, clients) && client < clients
    ensures Own(HandleAll(NewGate(clients), events).forwarded, client) == Own(events, client)
       <==> InOrder(Own(events, client))
  {
    OnceInOrder(clients, events, client);
    if InOrder(Own(events, client)) {
      InOrderAccepted(clients, events, client);
    }
  }

  /** A client is known by the socket of its first request, whatever that request's number. */
  lemma {:induction false} KnownByFirst<S>(clients: nat, events: seq<(S, C.Request)>, client: nat)
    requires Named(events, clients) && client < clients
    ensures HandleAll(NewGate(clients), events).sockets[client]
         == if Own(events, client) == [] then None else Some(Own(events, client)[0].0)
    decreases events
  {
    if events != [] {
      KnownByFirst(clients, events[..|events| - 1], client);
    }
  }

  /**
   Whatever arrived before, one more request is passed on exactly when it comes on the socket of its client's first
   request and its number is one more than the number of requests passed on for its client.
   */
  lemma PassedOnIff<S>(clients: nat, events: seq<(S, C.Request)>, e: (S, C.Request))
    requires Named(events, clients) && e.1.client < clients
    ensures Named(events + [e], clients) && Own(events + [e], e.1.client) != []
    ensures var f, client := HandleAll(NewGate(clients), events).forwarded, e.1.client;
            HandleAll(NewGate(clients), events + [e]).forwarded ==
            if Own(events + [e], client)[0].0 == e.0 && e.1.n == |Own(f, client)| + 1 then f + [e] else f
  {
    assert (events + [e])[..|events|] == events;
    KnownByFirst(clients, events, e.1.client);
    KnownByFirst(clients, events + [e], e.1.client);
    OnceInOrder(clients, events, e.1.client);
  }

  // ----- a client's stream of requests

  /** Requests numbered in the order they are sent. */
  function NumberedFrom(rs: seq<C.Request>, n: nat): (r: seq<C.Request>)
    ensures |r| == |rs| && forall i | 0 <= i < |r| :: r[i] == rs[i].(n := n + i)
  {
    seq(|rs|, i requires 0 <= i < |rs| => rs[i].(n := n + i))
  }

  ghost predicate AllFit(rs: seq<C.Request>) {
    forall i | 0 <= i < |rs| :: C.RequestFits(rs[i])
  }

  function Encoded(rs: seq<C.Request>): (r: seq<seq<C.byte>>)
    requires AllFit(rs)
    ensures |r| == |rs| && Whole(r, 38)
  {
    RequestSize(rs);
    seq(|rs|, i requires 0 <= i < |rs| => C.EncodeRequest(rs[i]))
  }

  lemma RequestSize(rs: seq<C.Request>)
    requires AllFit(rs)
    ensures forall i | 0 <= i < |rs| :: |C.EncodeRequest(rs[i])| == 38
  {
    forall i | 0 <= i < |rs|
      ensures |C.EncodeRequest(rs[i])| == 38
    {
      C.RequestRoundTrip(rs[i], []);
    }
  }

  function Decoded(records: seq<seq<C.byte>>): (r: seq<C.Request>)
    requires Whole(records, 38)
    ensures |r| == |records|
  {
    C.RequestWidth();
    seq(|records|, i requires 0 <= i < |records| => C.DecodeRequest(records[i]))
  }

  lemma DecodedEncoded(rs: seq<C.Request>)
    requires AllFit(rs)
    ensures Decoded(Encoded(rs)) == rs
  {
    hide C.EncodeRequest, C.DecodeRequest, C.RequestFits, C.Width;
    C.RequestWidth();
    forall i | 0 <= i < |rs|
      ensures Decoded(Encoded(rs))[i] == rs[i]
    {
      C.RequestRoundTrip(rs[i], []);
    }
  }

  function From<S>(s: S, rs: seq<C.Request>): (r: seq<(S, C.Request)>)
    ensures |r| == |rs| && forall i | 0 <= i < |r| :: r[i] == (s, rs[i])
  {
    seq(|rs|, i requires 0 <= i < |rs| => (s, rs[i]))
  }

  /** Received in any pieces, the encoded requests decode to themselves, and a part is left over. */
  lemma StreamDecoded(rs: seq<C.Request>, chunks: seq<seq<C.byte>>, part: seq<C.byte>)
    requires AllFit(rs) && Stream(chunks) == Stream(Encoded(rs)) + part && |part| < 38
    ensures Received(chunks, 38).1 == part && Decoded(Received(chunks, 38).0) == rs
  {
    hide Decoded, Encoded, Received, Records, Residue, Stream, AllFit;
    ChunkingInvariant(chunks, 38);
    RecordsOf(Encoded(rs), part, 38);
    DecodedEncoded(rs);
  }

  /**
   A client numbers its requests and sends them on its socket; the network cuts the bytes anywhere
   and has delivered those of `sent` and a part of the next record; other clients' requests arrive
   in between. The server has then passed on exactly the requests of `sent`, once each, in order.
   */
  lemma RequestsArrive<S>(clients: nat, client: nat, s: S, sent: seq<C.Request>, chunks: seq<seq<C.byte>>,
                          part: seq<C.byte>, events: seq<(S, C.Request)>)
    requires client < clients && Named(events, clients) && AllFit(NumberedFrom(sent, 1))
    requires Stream(chunks) == Stream(Encoded(NumberedFrom(sent, 1))) + part && |part| < 38
    requires Own(events, client) == From(s, Decoded(Received(chunks, 38).0))
    ensures Own(HandleAll(NewGate(clients), events).forwarded, client) == From(s, NumberedFrom(sent, 1))
    ensures Received(chunks, 38).1 == part
  {
    hide Decoded, Encoded, Received, Stream, AllFit, HandleAll, Own;
    StreamDecoded(NumberedFrom(sent, 1), chunks, part);
    InOrderAccepted(clients, events, client);
  }

  // ----- responses

  function OfClient(rs: seq<C.Response>, client: nat): seq<C.Response> {
    if rs == [] then []
    else
      var before, last := OfClient(rs[..|rs| - 1], client), rs[|rs| - 1];
      if last.client == client then before + [last] else before
  }

  lemma OfClientAppend(rs: seq<C.Response>, r: C.Response, client: nat)
    ensures OfClient(rs + [r], client)
         == if r.client == client then OfClient(rs, client) + [r] else OfClient(rs, client)
  {
    assert (rs + [r])[..|rs|] == rs;
  }

  /** Responses numbered per client, in the order the engine sends them. */
  function NumberAll(rs: seq<C.Response>): (r: seq<C.Response>)
    ensures |r| == |rs|
  {
    if rs == [] then []
    else
      var before, last := rs[..|rs| - 1], rs[|rs| - 1];
      NumberAll(before) + [last.(n := |OfClient(before, last.client)| + 1)]
  }

  /** The same responses, numbered from 1. */
  predicate Renumbered(numbered: seq<C.Response>, rs: seq<C.Response>) {
    |numbered| == |rs| && forall i | 0 <= i < |rs| :: numbered[i] == rs[i].(n := i + 1)
  }

  lemma {:induction false} NumberAllPerClient(rs: seq<C.Response>, client: nat)
    ensures Renumbered(OfClient(NumberAll(rs), client), OfClient(rs, client))
  {
    if rs != [] {
      var before, last := rs[..|rs| - 1], rs[|rs| - 1];
      NumberAllPerClient(before, client);
      OfClientAppend(NumberAll(before), last.(n := |OfClient(before, last.client)| + 1), client);
    }
  }

  /** A client's side: the number it expects and what it has passed to its trading engine. */
  datatype Inbox = Inbox(client: nat, next: nat, accepted: seq<C.Response>)

  function Accept(i: Inbox, r: C.Response): Inbox {
    if r.client != i.client || r.n != i.next then i
    else i.(next := i.next + 1, accepted := i.accepted + [r])
  }

  function AcceptAll(i: Inbox, rs: seq<C.Response>): Inbox
    decreases rs
  {
    if rs == [] then i else Accept(AcceptAll(i, rs[..|rs| - 1]), rs[|rs| - 1])
  }

  lemma {:induction false} AcceptAllNumbered(client: nat, rs: seq<C.Response>)
    requires forall i | 0 <= i < |OfClient(rs, client)| :: OfClient(rs, client)[i].n == i + 1
    ensures AcceptAll(Inbox(client, 1, []), rs) == Inbox(client, |OfClient(rs, client)| + 1, OfClient(rs, client))
    decreases rs
  {
    if rs != [] {
      var before, last := rs[..|rs| - 1], rs[|rs| - 1];
      var own, all := OfClient(before, client), OfClient(rs, client);
      assert forall i | 0 <= i < |own| :: own[i] == all[i];
      AcceptAllNumbered(client, before);
      if last.client == client {
        assert all[|own|] == last;
      }
    }
  }

  /**
   On any stream that carries all of a client's numbered responses in order, mixed with any other
   clients', the client accepts exactly its own, once each, in order.
   */
  lemma ResponsesArrive(client: nat, rs: seq<C.Response>, stream: seq<C.Response>)
    requires OfClient(stream, client) == OfClient(NumberAll(rs), client)
    ensures Renumbered(AcceptAll(Inbox(client, 1, []), stream).accepted, OfClient(rs, client))
  {
    NumberAllPerClient(rs, client);
    AcceptAllNumbered(client, stream);
  }

  /**
   Whatever arrived before, one more response is accepted exactly when it is for this client and its number is one
   more than the number of responses accepted.
   */
  lemma {:induction false} AcceptedNext(client: nat, stream: seq<C.Response>, r: C.Response)
    ensures var a := AcceptAll(Inbox(client, 1, []), stream).accepted;
            AcceptAll(Inbox(client, 1, []), stream + [r]).accepted
            == if r.client == client && r.n == |a| + 1 then a + [r] else a
    decreases stream
  {
    assert (stream + [r])[..|stream|] == stream;
    NextAfterAccepted(client, stream);
  }

  lemma {:induction false} NextAfterAccepted(client: nat, stream: seq<C.Response>)
    ensures var i := AcceptAll(Inbox(client, 1, []), stream); i.client == client && i.next == |i.accepted| + 1
    decreases stream
  {
    if stream != [] {
      NextAfterAccepted(client, stream[..|stream| - 1]);
    }
  }

  /** Whatever arrives, what is accepted is for this client and numbered from 1 without a gap or a repetition. */
  lemma {:induction false} AcceptedNumbered(client: nat, stream: seq<C.Response>)
    ensures var a := AcceptAll(Inbox(client, 1, []), stream).accepted;
            forall i | 0 <= i < |a| :: a[i].client == client && a[i].n == i + 1
    decreases stream
  {
    if stream != [] {
      AcceptedNumbered(client, stream[..|stream| - 1]);
      NextAfterAccepted(client, stream[..|stream| - 1]);
    }
  }

  /** All of a client's responses are accepted exactly when they are numbered from 1 in order. */
  lemma AllAcceptedIff(client: nat, stream: seq<C.Response>)
    ensures AcceptAll(Inbox(client, 1, []), stream).accepted == OfClient(stream, client)
       <==> forall i | 0 <= i < |OfClient(stream, client)| :: OfClient(stream, client)[i].n == i + 1
  {
    hide AcceptAll, OfClient;
    AcceptedNumbered(client, stream);
    if forall i | 0 <= i < |OfClient(stream, client)| :: OfClient(stream, client)[i].n == i + 1 {
      AcceptAllNumbered(client, stream);
    }
  }

  // ----- responses on the wire

  /** Every response is for a client of the exchange. */
  predicate Addressed(rs: seq<C.Response>, clients: nat) {
    forall i | 0 <= i < |rs| :: rs[i].client < clients
  }

  /** Responses stamped with per-client numbers that go on from `next`, and the numbers after them. */
  function Stamp(next: seq<nat>, rs: seq<C.Response>): (r: (seq<nat>, seq<C.Response>))
    requires Addressed(rs, |next|)
    ensures |r.0| == |next| && |r.1| == |rs| && Addressed(r.1, |next|)
    decreases rs
  {
    if rs == [] then (next, [])
    else
      var p, last := Stamp(next, rs[..|rs| - 1]), rs[|rs| - 1];
      (p.0[last.client := p.0[last.client] + 1], p.1 + [last.(n := p.0[last.client])])
  }

  lemma StampAppend(next: seq<nat>, rs: seq<C.Response>, r: C.Response)
    requires r.client < |next| && Addressed(rs, |next|)
    ensures Addressed(rs + [r], |next|)
    ensures var p, q := Stamp(next, rs), Stamp(next, rs + [r]);
            && q.0 == p.0[r.client := p.0[r.client] + 1]
            && q.1 == p.1 + [r.(n := p.0[r.client])]
  {
    var all := rs + [r];
    assert all[..|all| - 1] == rs && all[|all| - 1] == r;
  }

  /** Starting from 1 everywhere, stamping is numbering each client's responses from 1. */
  lemma {:induction false} StampNumbers(clients: nat, rs: seq<C.Response>, client: nat)
    requires client < clients && Addressed(rs, clients)
    ensures Stamp(seq(clients, _ => 1), rs).1 == NumberAll(rs)
    ensures Stamp(seq(clients, _ => 1), rs).0[client] == |OfClient(rs, client)| + 1
    decreases rs
  {
    if rs != [] {
      var before, last := rs[..|rs| - 1], rs[|rs| - 1];
      StampNumbers(clients, before, client);
      StampNumbers(clients, before, last.client);
    }
  }

  /** The responses that go out on one socket. */
  function Routed<S(==)>(rs: seq<C.Response>, sockets: seq<Option<S>>, s: S): seq<C.Response>
    requires Addressed(rs, |sockets|)
  {
    if rs == [] then []
    else
      var before, last := Routed(rs[..|rs| - 1], sockets, s), rs[|rs| - 1];
      if sockets[last.client] == Some(s) then before + [last] else before
  }

  lemma RoutedAppend<S>(rs: seq<C.Response>, r: C.Response, sockets: seq<Option<S>>, s: S)
    requires r.client < |sockets| && Addressed(rs, |sockets|)
    ensures Addressed(rs + [r], |sockets|)
    ensures Routed(rs + [r], sockets, s)
         == if sockets[r.client] == Some(s) then Routed(rs, sockets, s) + [r] else Routed(rs, sockets, s)
  {
    assert (rs + [r])[..|rs|] == rs;
  }

  /** A client's own socket carries all of its responses. */
  lemma {:induction false} RoutedOwn<S>(rs: seq<C.Response>, sockets: seq<Option<S>>, s: S, client: nat)
    requires client < |sockets| && sockets[client] == Some(s)
    requires Addressed(rs, |sockets|)
    ensures OfClient(Routed(rs, sockets, s), client) == OfClient(rs, client)
  {
    if rs != [] {
      var before, last := rs[..|rs| - 1], rs[|rs| - 1];
      RoutedOwn(before, sockets, s, client);
      OfClientAppend(Routed(before, sockets, s), last, client);
    }
  }

  /**
   The engine's responses, stamped by the server and sent each on its client's socket: the client
   accepts exactly its own, once each, in the order the engine sent them.
   */
  lemma ResponsesDelivered<S>(clients: nat, rs: seq<C.Response>, sockets: seq<Option<S>>, s: S, client: nat)
    requires client < clients == |sockets| && sockets[client] == Some(s)
    requires Addressed(rs, clients)
    ensures var stream := Routed(Stamp(seq(clients, _ => 1), rs).1, sockets, s);
            Renumbered(AcceptAll(Inbox(client, 1, []), stream).accepted, OfClient(rs, client))
  {
    hide Stamp, AcceptAll, Routed;
    StampNumbers(clients, rs, client);
    RoutedOwn(NumberAll(rs), sockets, s, client);
    ResponsesArrive(client, rs, Routed(NumberAll(rs), sockets, s));
  }

  ghost predicate ResponsesFit(rs: seq<C.Response>) {
    forall i | 0 <= i < |rs| :: C.ResponseFits(rs[i])
  }

  /** The bytes of some responses, one after the other. */
  function Wire(rs: seq<C.Response>): seq<C.byte>
    requires ResponsesFit(rs)
  {
    if rs == [] then [] else Wire(rs[..|rs| - 1]) + C.EncodeResponse(rs[|rs| - 1])
  }

  lemma WireAppend(rs: seq<C.Response>, r: C.Response)
    requires ResponsesFit(rs) && C.ResponseFits(r)
    ensures ResponsesFit(rs + [r]) && Wire(rs + [r]) == Wire(rs) + C.EncodeResponse(r)
  {
    assert (rs + [r])[..|rs|] == rs;
  }

  function DecodedResponses(records: seq<seq<C.byte>>): (r: seq<C.Response>)
    requires Whole(records, 50)
    ensures |r| == |records|
  {
    C.ResponseWidth();
    seq(|records|, i requires 0 <= i < |records| => C.DecodeResponse(records[i]))
  }

  /** Responses on the wire, received in any pieces, decode to themselves. */
  lemma ResponsesDecoded(rs: seq<C.Response>, chunks: seq<seq<C.byte>>, part: seq<C.byte>)
    requires ResponsesFit(rs) && Stream(chunks) == Wire(rs) + part && |part| < 50
    ensures DecodedResponses(Received(chunks, 50).0) == rs && Received(chunks, 50).1 == part
  {
    hide Received, Stream, DecodedResponses, Records, Residue, Wire, ResponsesFit;
    var records := WireRecords(rs);
    ChunkingInvariant(chunks, 50);
    RecordsOf(records, part, 50);
  }

  lemma {:induction false} WireRecords(rs: seq<C.Response>) returns (records: seq<seq<C.byte>>)
    requires ResponsesFit(rs)
    ensures Whole(records, 50) && Stream(records) == Wire(rs) && DecodedResponses(records) == rs
  {
    hide ResponsesFit, DecodedResponses, Stream, Wire, C.EncodeResponse, C.DecodeResponse, C.Width, C.ResponseFits;
    if rs == [] {
      records := [];
      WireNone();
    } else {
      var before, last := rs[..|rs| - 1], rs[|rs| - 1];
      assert rs == before + [last];
      LastFits(rs);
      var front := WireRecords(before);
      C.ResponseRoundTrip(last, []);
      C.ResponseWidth();
      WireAppend(before, last);
      var record := C.EncodeResponse(last);
      records := front + [record];
      StreamConcat(front, [record]);
      StreamCons(record, []);
      WireNone();
      assert [record] + [] == [record];
      DecodedAppend(front, record);
    }
  }

  lemma WireNone()
    ensures ResponsesFit([]) && Stream([]) == [] == Wire([])
    ensures Whole([], 50) && DecodedResponses([]) == []
  {
  }

  lemma LastFits(rs: seq<C.Response>)
    requires ResponsesFit(rs) && rs != []
    ensures ResponsesFit(rs[..|rs| - 1]) && C.ResponseFits(rs[|rs| - 1])
  {
  }

  lemma DecodedAppend(records: seq<seq<C.byte>>, record: seq<C.byte>)
    requires Whole(records, 50) && |record| == 50
    ensures Whole(records + [record], 50) && C.Width(C.RESPONSE_WIDTHS) == 50
    ensures DecodedResponses(records + [record]) == DecodedResponses(records) + [C.DecodeResponse(record)]
  {
    hide C.DecodeResponse, C.Width, C.ResponseFits;
    C.ResponseWidth();
  }
}
