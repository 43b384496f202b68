/**
 Why the gateway always has a socket for a response: the engine answers only clients whose requests
 it was passed, and the socket such a request came from is never forgotten.
 */
module Respondents {
  import opened Types
  import opened Market
  import opened Exchange
  import opened Replication
  import opened Framing
  import opened Gateway
  import opened GatewayNodes
  import C = Codec

  // ----- whom the engine answers

  function OwnersOf(requests: seq<Request>): set<Owner> {
    set i | 0 <= i < |requests| :: requests[i].owner
  }

  /** Every order of a book is of one of these owners. */
  ghost predicate OwnedBy(c: Sides, owners: set<Owner>) {
    forall side: Side, i | 0 <= i < |c.Of(side)| :: c.Of(side)[i].owner in owners
  }

  ghost predicate Answers(rs: seq<Response>, owners: set<Owner>) {
    forall i | 0 <= i < |rs| :: rs[i].owner in owners
  }

  lemma MatchFirstAnswers(c: Sides, t: Taker, remains: nat, owners: set<Owner>)
    requires CanMatch(c, t, remains) && OwnedBy(c, owners) && t.owner in owners
    ensures var out := MatchFirst(c, t, remains); OwnedBy(out.sides, owners) && Answers(out.responses, owners)
  {
    var opp, out := Opposite(t.side), MatchFirst(c, t, remains);
    var s, r := c.Of(opp), out.sides.Of(opp);
    assert s[0].owner in owners;
    forall side: Side, i | 0 <= i < |out.sides.Of(side)|
      ensures out.sides.Of(side)[i].owner in owners
    {
      if side == opp {
        assert r[i].owner == s[i + |s| - |r|].owner;
      } else {
        assert out.sides.Of(side)[i] == c.Of(side)[i];
      }
    }
  }

  lemma {:induction false} FindMatchAnswers(c: Sides, t: Taker, remains: nat, owners: set<Owner>)
    requires OwnedBy(c, owners) && t.owner in owners
    ensures var out := FindMatch(c, t, remains); OwnedBy(out.sides, owners) && Answers(out.responses, owners)
    decreases remains, |c.Of(Opposite(t.side))|
  {
    if CanMatch(c, t, remains) {
      var first := MatchFirst(c, t, remains);
      MatchFirstAnswers(c, t, remains, owners);
      FindMatchAnswers(first.sides, t, first.remains, owners);
    }
  }

  lemma ProcessAnswers(b: Book, r: Request, owners: set<Owner>)
    requires OwnedBy(b.sides, owners) && r.owner in owners
    ensures var (b', out) := Process(b, r); OwnedBy(b'.sides, owners) && Answers(out.responses, owners)
  {
    hide OwnedBy, FindMatch, Place, NextPriority;
    if r.New? {
      var t := Taker(r.owner, r.ticker, b.nextOid, r.side, r.price);
      var m := FindMatch(b.sides, t, r.qty);
      FindMatchAnswers(b.sides, t, r.qty, owners);
      PlacedOwned(m.sides, Rest(m.sides, t, m.remains), owners);
    } else if Locate(b.sides, r.owner).Some? {
      var (side, k) := Locate(b.sides, r.owner).value;
      OwnerIn(b.sides, side, k, owners);
      RemovedOwned(b.sides, side, k, owners);
    }
  }

  lemma OwnerIn(c: Sides, side: Side, k: nat, owners: set<Owner>)
    requires OwnedBy(c, owners) && k < |c.Of(side)|
    ensures c.Of(side)[k].owner in owners
  {
  }

  lemma PlacedOwned(c: Sides, o: Order, owners: set<Owner>)
    requires OwnedBy(c, owners) && o.owner in owners
    ensures OwnedBy(c.With(o.side, Place(c.Of(o.side), o)), owners)
  {
    var s := Place(c.Of(o.side), o);
    PlaceElements(c.Of(o.side), o);
    forall i | 0 <= i < |s|
      ensures s[i].owner in owners
    {
      assert s[i] in s;
    }
    var d := c.With(o.side, s);
    assert d.Of(o.side) == s && d.Of(Opposite(o.side)) == c.Of(Opposite(o.side));
  }

  lemma RemovedOwned(c: Sides, side: Side, k: nat, owners: set<Owner>)
    requires OwnedBy(c, owners) && k < |c.Of(side)|
    ensures OwnedBy(c.With(side, c.Of(side)[..k] + c.Of(side)[k + 1..]), owners)
  {
    var s, r := c.Of(side), c.Of(side)[..k] + c.Of(side)[k + 1..];
    assert forall i | 0 <= i < |r| :: r[i] == s[if i < k then i else i + 1];
    var d := c.With(side, r);
    assert d.Of(side) == r && d.Of(Opposite(side)) == c.Of(Opposite(side));
  }

  lemma MoreOwners(rs: seq<Response>, c: Sides, owners: set<Owner>, more: set<Owner>)
    requires owners <= more
    ensures Answers(rs, owners) ==> Answers(rs, more)
    ensures OwnedBy(c, owners) ==> OwnedBy(c, more)
  {
  }

  /** Over any run, every response is to the owner of a request of the run. */
  lemma {:induction false} RunAnswers(tickers: nat, requests: seq<Request>)
    ensures Answers(RunOf(tickers, requests).responses, OwnersOf(requests))
    ensures forall t | 0 <= t < tickers :: OwnedBy(RunOf(tickers, requests).books[t].sides, OwnersOf(requests))
    decreases requests
  {
    hide OwnedBy;
    if requests == [] {
      EmptyOwned(OwnersOf(requests));
    } else {
      var prior, last := requests[..|requests| - 1], requests[|requests| - 1];
      var before, owners := RunOf(tickers, prior), OwnersOf(requests);
      RunAnswers(tickers, prior);
      OwnersGrow(requests);
      forall t | 0 <= t < tickers
        ensures OwnedBy(before.books[t].sides, owners)
      {
        MoreOwners(before.responses, before.books[t].sides, OwnersOf(prior), owners);
      }
      MoreOwners(before.responses, EMPTY, OwnersOf(prior), owners);
      if last.ticker < tickers {
        ProcessAnswers(before.books[last.ticker], last, owners);
      }
    }
  }

  lemma EmptyOwned(owners: set<Owner>)
    ensures OwnedBy(EMPTY, owners)
  {
  }

  lemma OwnersGrow(requests: seq<Request>)
    requires requests != []
    ensures OwnersOf(requests[..|requests| - 1]) <= OwnersOf(requests)
    ensures requests[|requests| - 1].owner in OwnersOf(requests)
  {
    var prior := requests[..|requests| - 1];
    assert forall i | 0 <= i < |prior| :: prior[i] == requests[i];
  }

  // ----- whom the gateway knows

  /** The socket of every request passed on is the one its client is known by. */
  ghost predicate Remembered<S>(g: Gate<S>) {
    forall i | 0 <= i < |g.forwarded| ::
      && g.forwarded[i].1.client < |g.sockets|
      && g.sockets[g.forwarded[i].1.client] == Some(g.forwarded[i].0)
  }

  lemma {:induction false} RunRemembers<S>(clients: nat, events: seq<(S, C.Request)>)
    requires Named(events, clients)
    ensures Remembered(HandleAll(NewGate(clients), events))
    decreases events
  {
    if events != [] {
      var before, last := events[..|events| - 1], events[|events| - 1];
      RunRemembers(clients, before);
      HandleRemembers(HandleAll(NewGate(clients), before), last.0, last.1);
    }
  }

  lemma HandleRemembers<S>(g: Gate<S>, s: S, r: C.Request)
    requires |g.sockets| == |g.next| && r.client < |g.next| && Remembered(g)
    ensures Remembered(Handle(g, s, r))
  {
  }

  /** Every request the engine handles is one the gateway passed on. */
  ghost predicate PassedOn<S>(requests: seq<Request>, g: Gate<S>) {
    forall i | 0 <= i < |requests| ::
      requests[i].owner.Client? && exists j :: 0 <= j < |g.forwarded| && g.forwarded[j].1.client == requests[i].owner.id
  }

  /** The gateway knows this owner's client, by a socket that a request of that client came from and was passed on. */
  ghost predicate Reached<S>(o: Owner, g: Gate<S>) {
    && o.Client? && o.id < |g.sockets|
    && exists j :: 0 <= j < |g.forwarded| && g.forwarded[j].1.client == o.id
                   && g.sockets[o.id] == Some(g.forwarded[j].0)
  }

  /**
   In every run of gateway and engine, a response of the engine is to a client the gateway knows, by
   the socket that client's requests came from.
   */
  lemma ResponsesReach<S>(clients: nat, events: seq<(S, C.Request)>, tickers: nat, requests: seq<Request>)
    requires Named(events, clients) && PassedOn(requests, HandleAll(NewGate(clients), events))
    ensures var g := HandleAll(NewGate(clients), events);
            forall i | 0 <= i < |RunOf(tickers, requests).responses| ::
              Reached(RunOf(tickers, requests).responses[i].owner, g)
  {
    hide RunOf, HandleAll;
    var g := HandleAll(NewGate(clients), events);
    RunAnswers(tickers, requests);
    RunRemembers(clients, events);
    forall i | 0 <= i < |RunOf(tickers, requests).responses|
      ensures Reached(RunOf(tickers, requests).responses[i].owner, g)
    {
      var o := RunOf(tickers, requests).responses[i].owner;
      assert o in OwnersOf(requests);
      var k :| 0 <= k < |requests| && requests[k].owner == o;
      var j :| 0 <= j < |g.forwarded| && g.forwarded[j].1.client == requests[k].owner.id;
    }
  }

  /** So the server's ASSERT on a missing socket never fails: the engine's responses are reachable. */
  lemma AlwaysReachable(server: OrderGatewayServer, events: seq<(TcpSocket, C.Request)>,
                        tickers: nat, requests: seq<Request>, rs: seq<C.Response>)
    requires server.Valid() && Named(events, server.sockets.Length)
    requires server.State() == HandleAll(NewGate(server.sockets.Length), events)
    requires PassedOn(requests, server.State())
    requires |rs| <= |RunOf(tickers, requests).responses|
    requires forall i | 0 <= i < |rs| ::
               var o := RunOf(tickers, requests).responses[i].owner; o.Client? ==> rs[i].client == o.id
    ensures server.Reachable(rs) && Addressed(rs, server.sockets.Length)
  {
    hide RunOf, HandleAll;
    ResponsesReach(server.sockets.Length, events, tickers, requests);
    forall i | 0 <= i < |rs|
      ensures rs[i].client < server.sockets.Length && server.sockets[rs[i].client] != null
    {
      assert Reached(RunOf(tickers, requests).responses[i].owner, server.State());
      assert server.Known()[rs[i].client].Some?;
    }
  }
}
