/**
 A client's order slots against the matching engine itself: the engine handles this client's
 messages and any other clients' requests, in any order. What the client sees of it is an exchange
 as `OrderSlots` describes, so the position limit holds against the real one.
 */
module TradingDesk {
  import opened Types
  import opened Market
  import opened Exchange
  import opened ReachableBook
  import opened Messages
  import S = OrderSlots
  import Q = Quoting

  // ----- the client's orders in the engine's book

  predicate Mine(o: Order, me: nat) {
    o.owner.Client? && o.owner.id == me
  }

  /** The client's order on one side, by its own id. */
  function LiveOf(s: seq<Order>, me: nat): Option<S.Resting> {
    if s == [] then None
    else if Mine(s[0], me) then Some(S.Resting(s[0].owner.oid, s[0].qty))
    else LiveOf(s[1..], me)
  }

  /** The client has at most one order on this side. */
  ghost predicate Single(s: seq<Order>, me: nat) {
    forall i, j | 0 <= i < j < |s| :: !(Mine(s[i], me) && Mine(s[j], me))
  }

  function LiveIn(c: Sides, me: nat): S.Pair<Option<S.Resting>> {
    S.Pair(LiveOf(c.bids, me), LiveOf(c.asks, me))
  }

  ghost predicate Singles(c: Sides, me: nat) {
    Single(c.bids, me) && Single(c.asks, me)
  }

  lemma {:induction false} LiveNone(s: seq<Order>, me: nat)
    ensures LiveOf(s, me) == None <==> forall i | 0 <= i < |s| :: !Mine(s[i], me)
  {
    if s != [] {
      LiveNone(s[1..], me);
      assert forall i | 1 <= i < |s| :: s[i] == s[1..][i - 1];
    }
  }

  lemma {:induction false} LiveAt(s: seq<Order>, me: nat, k: nat)
    requires Single(s, me) && k < |s| && Mine(s[k], me)
    ensures LiveOf(s, me) == Some(S.Resting(s[k].owner.oid, s[k].qty))
  {
    if k > 0 {
      LiveAt(s[1..], me, k - 1);
    }
  }

  lemma {:induction false} LiveSplit(a: seq<Order>, b: seq<Order>, me: nat)
    ensures LiveOf(a + b, me) == if LiveOf(a, me).Some? then LiveOf(a, me) else LiveOf(b, me)
  {
    if a == [] {
      assert a + b == b;
    } else {
      assert (a + b)[1..] == a[1..] + b;
      LiveSplit(a[1..], b, me);
    }
  }

  lemma LivePlaced(s: seq<Order>, o: Order, me: nat)
    requires Single(s, me) && (Mine(o, me) ==> LiveOf(s, me) == None)
    ensures Single(Place(s, o), me)
    ensures LiveOf(Place(s, o), me) == if Mine(o, me) then Some(S.Resting(o.owner.oid, o.qty)) else LiveOf(s, me)
  {
    hide LiveOf, Place, Single;
    PlaceAt(s, o);
    var k := Rank(s, o);
    assert s == s[..k] + s[k..] && s[..k] + [o] + s[k..] == s[..k] + ([o] + s[k..]);
    LiveInserted(s[..k], s[k..], o, me);
  }

  lemma LiveInserted(a: seq<Order>, b: seq<Order>, o: Order, me: nat)
    requires Single(a + b, me) && (Mine(o, me) ==> LiveOf(a + b, me) == None)
    ensures Single(a + ([o] + b), me)
    ensures LiveOf(a + ([o] + b), me)
         == if Mine(o, me) then Some(S.Resting(o.owner.oid, o.qty)) else LiveOf(a + b, me)
  {
    hide LiveOf;
    LiveNone(a + b, me);
    LiveSplit(a, [o] + b, me);
    LiveSplit([o], b, me);
    LiveSplit(a, b, me);
    LiveOne(o, me);
    SingleInserted(a, b, o, me);
  }

  lemma SingleInserted(a: seq<Order>, b: seq<Order>, o: Order, me: nat)
    requires Single(a + b, me) && (Mine(o, me) ==> forall i | 0 <= i < |a + b| :: !Mine((a + b)[i], me))
    ensures Single(a + ([o] + b), me)
  {
    var s, r, k := a + b, a + ([o] + b), |a|;
    forall i, j | 0 <= i < j < |r|
      ensures !(Mine(r[i], me) && Mine(r[j], me))
    {
      var i', j' := if i < k then i else i - 1, if j < k then j else j - 1;
      if j == k {
        assert r[i] == s[i];
      } else if i == k {
        assert r[j] == s[j'];
      } else {
        assert r[i] == s[i'] && r[j] == s[j'];
      }
    }
  }

  lemma LiveOne(o: Order, me: nat)
    ensures LiveOf([o], me) == if Mine(o, me) then Some(S.Resting(o.owner.oid, o.qty)) else None
  {
    assert [o][1..] == [];
  }

  lemma LiveRemoved(s: seq<Order>, k: nat, me: nat)
    requires Single(s, me) && k < |s|
    ensures var r := s[..k] + s[k + 1..];
            Single(r, me) && LiveOf(r, me) == if Mine(s[k], me) then None else LiveOf(s, me)
  {
    var r := s[..k] + s[k + 1..];
    assert forall i | 0 <= i < |r| :: r[i] == s[if i < k then i else i + 1];
    LiveNone(r, me);
    assert s == s[..k] + ([s[k]] + s[k + 1..]);
    LiveSplit(s[..k], s[k + 1..], me);
    LiveSplit(s[..k], [s[k]] + s[k + 1..], me);
    LiveSplit([s[k]], s[k + 1..], me);
    assert [s[k]][1..] == [];
  }

  // ----- what the engine says to the client

  function ReplyTo(r: Response): S.Reply
    requires r.owner.Client?
  {
    match r
    case Accepted(owner, _, _, side, _, remain) => S.Reply.Accepted(owner.oid, side, remain)
    case Filled(owner, _, _, side, _, exec, remain) => S.Reply.Filled(owner.oid, side, exec, remain)
    case Cancelled(owner, _, _, side, _, remain) => S.Reply.Cancelled(owner.oid, side, remain)
    case CancelRejected(_, _) => S.Reply.CancelRejected
  }

  /** The responses to this client. */
  function RepliesTo(rs: seq<Response>, me: nat): seq<S.Reply> {
    if rs == [] then []
    else if rs[0].owner.Client? && rs[0].owner.id == me then [ReplyTo(rs[0])] + RepliesTo(rs[1..], me)
    else RepliesTo(rs[1..], me)
  }

  lemma {:induction false} RepliesConcat(rs: seq<Response>, qs: seq<Response>, me: nat)
    ensures RepliesTo(rs + qs, me) == RepliesTo(rs, me) + RepliesTo(qs, me)
  {
    if rs == [] {
      assert rs + qs == qs;
    } else {
      assert (rs + qs)[1..] == rs[1..] + qs;
      RepliesConcat(rs[1..], qs, me);
    }
  }

  // ----- matching, as the client sees it

  /** The client's live orders while `t` is being matched: what remains of it counts as live if it is the client's. */
  function LiveDuring(c: Sides, me: nat, t: Taker, remains: nat): S.Pair<Option<S.Resting>> {
    if t.owner.Client? && t.owner.id == me then
      LiveIn(c, me).With(t.side, if remains == 0 then None else Some(S.Resting(t.owner.oid, remains)))
    else LiveIn(c, me)
  }

  predicate Ours(owner: Owner, me: nat) {
    owner.Client? && owner.id == me
  }

  lemma HeadReduced(s: seq<Order>, left: nat, me: nat)
    requires Single(s, me) && s != []
    ensures var r := if left == 0 then s[1..] else [s[0].(qty := left)] + s[1..];
            && Single(r, me)
            && LiveOf(r, me) == if !Mine(s[0], me) then LiveOf(s, me)
                                else if left == 0 then None else Some(S.Resting(s[0].owner.oid, left))
  {
    if left == 0 {
      LiveRemoved(s, 0, me);
      assert s[..0] + s[0 + 1..] == s[1..];
    } else {
      var r := [s[0].(qty := left)] + s[1..];
      assert r[1..] == s[1..];
      assert forall i | 0 <= i < |r| :: Mine(r[i], me) == Mine(s[i], me);
    }
  }

  /** The client's orders after a match: the maker's is reduced or gone, all others are as they were. */
  lemma MakerSeen(c: Sides, me: nat, t: Taker, remains: nat)
    requires Singles(c, me) && CanMatch(c, t, remains)
    ensures var opp := Opposite(t.side); var first := MatchFirst(c, t, remains); var m := c.Of(opp)[0];
            var left := m.qty - Min(remains, m.qty);
            && Singles(first.sides, me)
            && (Mine(m, me) ==> LiveIn(c, me).Of(opp) == Some(S.Resting(m.owner.oid, m.qty)))
            && LiveIn(first.sides, me)
               == (if Mine(m, me)
                   then LiveIn(c, me).With(opp, if left == 0 then None else Some(S.Resting(m.owner.oid, left)))
                   else LiveIn(c, me))
  {
    hide LiveOf, Single;
    var s := c.Of(Opposite(t.side));
    HeadReduced(s, s[0].qty - Min(remains, s[0].qty), me);
    HeadLive(s, me);
  }

  lemma HeadLive(s: seq<Order>, me: nat)
    requires s != []
    ensures Mine(s[0], me) ==> LiveOf(s, me) == Some(S.Resting(s[0].owner.oid, s[0].qty))
  {
  }

  lemma TradeReplies(c: Sides, me: nat, t: Taker, remains: nat)
    requires CanMatch(c, t, remains)
    ensures var m := c.Of(Opposite(t.side))[0]; var fill := Min(remains, m.qty);
            RepliesTo(MatchFirst(c, t, remains).responses, me)
            == (if Ours(t.owner, me) then [S.Reply.Filled(t.owner.oid, t.side, fill, remains - fill)] else [])
               + (if Mine(m, me) then [S.Reply.Filled(m.owner.oid, m.side, fill, m.qty - fill)] else [])
  {
    var rs := MatchFirst(c, t, remains).responses;
    assert rs == [rs[0]] + [rs[1]];
    RepliesConcat([rs[0]], [rs[1]], me);
    assert [rs[0]][1..] == [] && [rs[1]][1..] == [];
  }

  lemma FillIs(s: S.State, side: Side, fill: nat, conf: S.Conf)
    requires s.live.Of(side).Some? && 0 < fill <= s.live.Of(side).value.remain
    ensures var x := s.live.Of(side).value; var left := x.remain - fill;
            S.Step(s, S.Fill(side, fill), conf)
            == s.(live := s.live.With(side, if left == 0 then None else Some(S.Resting(x.oid, left))),
                  replies := s.replies + [S.Reply.Filled(x.oid, side, fill, left)])
  {
  }

  /** A match is a fill of the taker, if it is the client's, and then of the maker, if it is. */
  lemma MatchFirstSeen(s: S.State, c: Sides, me: nat, t: Taker, remains: nat, bound: nat, limit: nat)
    requires SoundSides(c, bound) && Singles(c, me) && CanMatch(c, t, remains)
    requires S.Inv(s, limit) && s.live == LiveDuring(c, me, t, remains)
    ensures var first := MatchFirst(c, t, remains);
            Singles(first.sides, me) && S.Inv(Seen(s, me, t, first), limit)
  {
    hide S.Inv, S.Step, LiveIn, Singles, SoundSides, RepliesTo;
    var opp, conf := Opposite(t.side), S.Conf(0, limit, 0.0);
    var m := c.Of(opp)[0];
    var fill := Min(remains, m.qty);
    FirstResting(c, opp, bound);
    MakerSeen(c, me, t, remains);
    TradeReplies(c, me, t, remains);
    var s1 := s;
    if Ours(t.owner, me) {
      S.FillInv(s, t.side, fill, conf);
      FillIs(s, t.side, fill, conf);
      s1 := S.Step(s, S.Fill(t.side, fill), conf);
    }
    assert s1.live == LiveDuring(c, me, t, remains - fill);
    var s2 := s1;
    if Mine(m, me) {
      S.FillInv(s1, opp, fill, conf);
      FillIs(s1, opp, fill, conf);
      s2 := S.Step(s1, S.Fill(opp, fill), conf);
    }
    assert s2.live == LiveDuring(MatchFirst(c, t, remains).sides, me, t, remains - fill);
    assert s2.replies == s.replies + RepliesTo(MatchFirst(c, t, remains).responses, me);
  }

  /** The client's side of the system after (part of) a match. */
  function Seen(s: S.State, me: nat, t: Taker, out: Outcome): S.State {
    s.(live := LiveDuring(out.sides, me, t, out.remains), replies := s.replies + RepliesTo(out.responses, me))
  }

  /** Matching as a whole. */
  lemma {:induction false} FindMatchSeen(s: S.State, c: Sides, me: nat, t: Taker, remains: nat, bound: nat, limit: nat)
    requires SoundSides(c, bound) && Singles(c, me) && S.Inv(s, limit) && s.live == LiveDuring(c, me, t, remains)
    ensures Singles(FindMatch(c, t, remains).sides, me) && S.Inv(Seen(s, me, t, FindMatch(c, t, remains)), limit)
    decreases remains, |c.Of(Opposite(t.side))|
  {
    hide S.Inv, Singles, SoundSides, RepliesTo, MatchFirst, LiveDuring;
    if !CanMatch(c, t, remains) {
      NothingSeen(s, me, t, Outcome(c, remains, [], []));
    } else {
      var first := MatchFirst(c, t, remains);
      var more := FindMatch(first.sides, t, first.remains);
      Shrinks(c, t, remains);
      MatchFirstSound(c, t, remains, bound);
      MatchFirstSeen(s, c, me, t, remains, bound, limit);
      FindMatchSeen(Seen(s, me, t, first), first.sides, me, t, first.remains, bound, limit);
      SeenTwice(s, me, t, first, more);
    }
  }

  lemma NothingSeen(s: S.State, me: nat, t: Taker, out: Outcome)
    requires out.responses == [] && s.live == LiveDuring(out.sides, me, t, out.remains)
    ensures Seen(s, me, t, out) == s
  {
    assert s.replies + [] == s.replies;
  }

  lemma SeenTwice(s: S.State, me: nat, t: Taker, first: Outcome, more: Outcome)
    ensures Seen(Seen(s, me, t, first), me, t, more)
         == Seen(s, me, t, Outcome(more.sides, more.remains, first.responses + more.responses,
                                   first.updates + more.updates))
  {
    RepliesConcat(first.responses, more.responses, me);
    assert s.replies + RepliesTo(first.responses, me) + RepliesTo(more.responses, me)
        == s.replies + (RepliesTo(first.responses, me) + RepliesTo(more.responses, me));
  }

  lemma Shrinks(c: Sides, t: Taker, remains: nat)
    requires CanMatch(c, t, remains)
    ensures var out := MatchFirst(c, t, remains);
            out.remains < remains
            || (out.remains == remains && |out.sides.Of(Opposite(t.side))| < |c.Of(Opposite(t.side))|)
  {
  }

  // ----- client and engine together

  datatype World = World(slots: S.Pair<S.Slot>, sent: seq<S.Message>, replies: seq<S.Reply>,
                         position: int, nextOid: nat, book: Book)

  /** The world as the client's desk sees it. */
  function Desk(w: World, me: nat): S.State {
    S.State(w.slots, w.sent, LiveIn(w.book.sides, me), w.replies, w.position, w.nextOid)
  }

  function RequestOf(m: S.Message, me: nat, ticker: nat): Request {
    match m
    case NewOrder(oid, side, price, qty) => New(Client(me, oid), ticker, side, price, qty)
    case CancelOrder(oid, _) => Request.CancelOrder(Client(me, oid), ticker)
  }

  datatype Act =
    | Manage(side: Side, price: Option<int>, qty: nat, pnl: real)  // the client's strategy
    | Serve                                                       // the engine handles our next message
    | Other(r: Request)                                           // the engine handles someone else's request
    | Deliver                                                     // the client handles the next reply

  /** The engine handles a request. */
  function Processed(w: World, r: Request, me: nat): World {
    var (b, out) := Process(w.book, r);
    w.(book := b, replies := w.replies + RepliesTo(out.responses, me))
  }

  function Step(w: World, a: Act, me: nat, ticker: nat, conf: S.Conf): World {
    match a
    case Manage(side, price, qty, pnl) =>
      var s := S.Step(Desk(w, me), S.ManageOrder(side, price, qty, pnl), conf);
      w.(slots := s.slots, sent := s.sent, nextOid := s.nextOid)
    case Serve =>
      if w.sent == [] then w else Processed(w.(sent := w.sent[1..]), RequestOf(w.sent[0], me, ticker), me)
    case Other(r) => if Ours(r.owner, me) then w else Processed(w, r, me)
    case Deliver =>
      var s := S.Step(Desk(w, me), S.Deliver, conf);
      w.(slots := s.slots, replies := s.replies, position := s.position)
  }

  const NEW_WORLD := World(S.Pair(S.NO_SLOT, S.NO_SLOT), [], [], 0, 1, NEW_BOOK)

  // ----- the client's ids

  /** The id is on this side: its slot's, or in a message under way. */
  ghost predicate Names(s: S.State, side: Side, oid: nat) {
    || (!s.slots.Of(side).status.Invalid? && s.slots.Of(side).oid == oid)
    || (exists i :: 0 <= i < |s.sent| && s.sent[i].side == side && s.sent[i].oid == oid)
  }

  /** No id is on both sides, and all are older than the next. */
  ghost predicate Apart(s: S.State) {
    forall oid: nat {:trigger Names(s, Buy, oid)} {:trigger Names(s, Sell, oid)} ::
      !(Names(s, Buy, oid) && Names(s, Sell, oid)) && (Names(s, Buy, oid) || Names(s, Sell, oid) ==> oid < s.nextOid)
  }

  lemma NoNewNames(s: S.State, s': S.State)
    requires Apart(s) && s'.nextOid >= s.nextOid
    requires forall side: Side, oid: nat | Names(s', side, oid) :: Names(s, side, oid)
    ensures Apart(s')
  {
  }

  lemma ServedApart(s: S.State, s': S.State)
    requires Apart(s) && s.sent != [] && s'.slots == s.slots && s'.sent == s.sent[1..] && s'.nextOid == s.nextOid
    ensures Apart(s')
  {
    forall side: Side, oid: nat | Names(s', side, oid)
      ensures Names(s, side, oid)
    {
      if i :| 0 <= i < |s'.sent| && s'.sent[i].side == side && s'.sent[i].oid == oid {
        assert s.sent[i + 1] == s'.sent[i];
      }
    }
    NoNewNames(s, s');
  }

  lemma ManagedApart(s: S.State, side: Side, price: Option<int>, qty: nat, pnl: real, conf: S.Conf)
    requires Apart(s)
    ensures Apart(S.Step(s, S.ManageOrder(side, price, qty, pnl), conf))
  {
    hide S.TradeRisk;
    var s' := S.Step(s, S.ManageOrder(side, price, qty, pnl), conf);
    forall d: Side, oid: nat | Names(s', d, oid)
      ensures Names(s, d, oid) || (d == side && oid == s.nextOid < s'.nextOid)
    {
      if i :| 0 <= i < |s'.sent| && s'.sent[i].side == d && s'.sent[i].oid == oid {
        if i < |s.sent| {
          assert s.sent[i] == s'.sent[i];
        }
      }
    }
    assert !Names(s, Opposite(side), s.nextOid);
  }

  /** A live order is its slot's. */
  lemma LiveIsSlots(s: S.State, side: Side, limit: nat)
    requires S.Inv(s, limit) && s.live.Of(side).Some?
    ensures s.slots.Of(side).oid == s.live.Of(side).value.oid && Names(s, side, s.live.Of(side).value.oid)
  {
    var slot, live, rs := s.slots.Of(side), s.live.Of(side), S.RepliesOf(s.replies, side);
    assert S.SideStands(s, side);
    if slot.status.PendingNew? {
      S.LeadsOid(slot.oid, slot.qty, rs[1..], live);
    } else {
      S.LeadsOid(slot.oid, slot.qty, rs, live);
    }
  }

  lemma DeliveredApart(s: S.State, limit: nat, conf: S.Conf)
    requires Apart(s) && S.Inv(s, limit)
    ensures Apart(S.Step(s, S.Deliver, conf))
  {
    if s.replies != [] && !s.replies[0].CancelRejected? {
      assert S.SideStands(s, s.replies[0].side);
    }
    NoNewNames(s, S.Step(s, S.Deliver, conf));
  }

  // ----- the engine's steps, as the desk sees them

  /** The system is as it should be: a sound book with at most one order of ours a side, and a safe desk. */
  ghost predicate Good(w: World, me: nat, limit: nat) {
    Sound(w.book) && Singles(w.book.sides, me) && S.Inv(Desk(w, me), limit) && Apart(Desk(w, me))
  }

  /** The new book and the replies of an added order, from what its matching left. */
  lemma AddedSeen(s: S.State, b: Book, r: Request, me: nat, limit: nat)
    requires r.New? && Sound(b) && Admissible(b, r) && Singles(b.sides, me) && S.Inv(s, limit)
    requires s.live == LiveDuring(b.sides, me, Taker(r.owner, r.ticker, b.nextOid, r.side, r.price), r.qty)
    requires Ours(r.owner, me) ==> LiveOf(b.sides.Of(r.side), me) == None
    ensures var (b', out) := Process(b, r);
            && Singles(b'.sides, me)
            && S.Inv(s.(live := LiveIn(b'.sides, me),
                        replies := s.replies + RepliesTo(out.responses[1..], me)), limit)
  {
    hide S.Inv, Sound, SoundSides, LiveOf, Single, RepliesTo, FindMatch, NextPriority, Place;
    var t := Taker(r.owner, r.ticker, b.nextOid, r.side, r.price);
    var m := FindMatch(b.sides, t, r.qty);
    SoundOfBook(b);
    FindMatchSound(b.sides, t, r.qty, b.nextOid);
    FindMatchSeen(s, b.sides, me, t, r.qty, b.nextOid, limit);
    if m.remains > 0 {
      LivePlaced(m.sides.Of(r.side), Rest(m.sides, t, m.remains), me);
    }
    var out := Process(b, r).1;
    assert out.responses[1..] == m.responses;
    assert LiveIn(Process(b, r).0.sides, me) == LiveDuring(m.sides, me, t, m.remains);
  }

  lemma SoundOfBook(b: Book)
    requires Sound(b)
    ensures SoundSides(b.sides, b.nextOid)
  {
  }

  /** Someone else's new order: our orders are filled or left alone. */
  lemma OtherNewSeen(w: World, r: Request, me: nat, limit: nat)
    requires Good(w, me, limit) && r.New? && Admissible(w.book, r) && !Ours(r.owner, me)
    ensures Singles(Processed(w, r, me).book.sides, me) && S.Inv(Desk(Processed(w, r, me), me), limit)
  {
    hide S.Inv, Sound, LiveOf, Single, FindMatch, NextPriority, Place, Apart, Admissible;
    AddedSeen(Desk(w, me), w.book, r, me, limit);
    var rs := Process(w.book, r).1.responses;
    assert rs == [rs[0]] + rs[1..];
    RepliesConcat([rs[0]], rs[1..], me);
    assert [rs[0]][1..] == [];
    assert RepliesTo(rs, me) == RepliesTo(rs[1..], me);
  }

  /** Our own new order: accepted, then filled and rested as any exchange would. */
  lemma OwnNewSeen(w: World, me: nat, ticker: nat, limit: nat)
    requires Good(w, me, limit) && w.sent != [] && w.sent[0].NewOrder?
    requires Admissible(w.book, RequestOf(w.sent[0], me, ticker))
    requires LiveOf(w.book.sides.Of(w.sent[0].side), me) == None
    ensures var w' := Processed(w.(sent := w.sent[1..]), RequestOf(w.sent[0], me, ticker), me);
            Singles(w'.book.sides, me) && S.Inv(Desk(w', me), limit)
  {
    hide S.Inv, Sound, LiveOf, Single, FindMatch, NextPriority, Place, Apart, Admissible;
    var m, r := w.sent[0], RequestOf(w.sent[0], me, ticker);
    var conf := S.Conf(0, limit, 0.0);
    S.ServeInv(Desk(w, me), conf);
    var s1 := S.Step(Desk(w, me), S.Serve, conf);
    assert s1.replies == w.replies + [S.Reply.Accepted(m.oid, m.side, m.qty)];
    AddedSeen(s1, w.book, r, me, limit);
    var rs := Process(w.book, r).1.responses;
    assert rs == [rs[0]] + rs[1..];
    RepliesConcat([rs[0]], rs[1..], me);
    assert [rs[0]][1..] == [];
    assert RepliesTo([rs[0]], me) == [S.Reply.Accepted(m.oid, m.side, m.qty)];
    assert s1.replies + RepliesTo(rs[1..], me) == w.replies + RepliesTo(rs, me);
  }

  /** Where a client's order is found, by owner. */
  lemma LocateLive(c: Sides, owner: Owner, me: nat)
    requires Singles(c, me) && Ours(owner, me)
    ensures match Locate(c, owner)
            case None =>
              forall side: Side :: LiveIn(c, me).Of(side) == None || LiveIn(c, me).Of(side).value.oid != owner.oid
            case Some((side, k)) =>
              k < |c.Of(side)| && LiveIn(c, me).Of(side) == Some(S.Resting(owner.oid, c.Of(side)[k].qty))
  {
    forall side: Side, k | 0 <= k < |c.Of(side)| && Mine(c.Of(side)[k], me)
      ensures LiveIn(c, me).Of(side) == Some(S.Resting(c.Of(side)[k].owner.oid, c.Of(side)[k].qty))
    {
      LiveAt(c.Of(side), me, k);
    }
    forall side: Side
      ensures LiveIn(c, me).Of(side).Some? ==> exists k :: 0 <= k < |c.Of(side)| && Mine(c.Of(side)[k], me)
    {
      LiveNone(c.Of(side), me);
    }
    assert c.Of(Buy) == c.bids && c.Of(Sell) == c.asks;
  }

  /** A cancel takes out one order; if it is not ours, nothing of ours changes. */
  lemma CancelledSeen(c: Sides, side: Side, k: nat, me: nat)
    requires Singles(c, me) && k < |c.Of(side)|
    ensures var c' := c.With(side, c.Of(side)[..k] + c.Of(side)[k + 1..]);
            && Singles(c', me)
            && LiveIn(c', me) == if Mine(c.Of(side)[k], me) then LiveIn(c, me).With(side, None) else LiveIn(c, me)
  {
    LiveRemoved(c.Of(side), k, me);
  }

  lemma OtherCancelSeen(w: World, r: Request, me: nat, limit: nat)
    requires Good(w, me, limit) && r.CancelOrder? && !Ours(r.owner, me) && r.owner.Client?
    ensures Singles(Processed(w, r, me).book.sides, me) && S.Inv(Desk(Processed(w, r, me), me), limit)
  {
    hide S.Inv, Sound, LiveOf, Single, Apart;
    var rs := Process(w.book, r).1.responses;
    assert |rs| == 1 && rs[1..] == [] && w.replies + [] == w.replies;
    assert RepliesTo(rs, me) == [];
    if Locate(w.book.sides, r.owner).Some? {
      var (side, k) := Locate(w.book.sides, r.owner).value;
      CancelledSeen(w.book.sides, side, k, me);
    }
  }

  /** The engine's handling of our cancel is that of an exchange that looks orders up by side and id. */
  lemma OwnCancelServed(w: World, me: nat, ticker: nat, conf: S.Conf)
    requires w.sent != [] && w.sent[0].CancelOrder? && Sound(w.book) && Singles(w.book.sides, me)
    requires var x := LiveIn(w.book.sides, me).Of(Opposite(w.sent[0].side)); x == None || x.value.oid != w.sent[0].oid
    ensures var w' := Processed(w.(sent := w.sent[1..]), RequestOf(w.sent[0], me, ticker), me);
            Singles(w'.book.sides, me) && Desk(w', me) == S.Step(Desk(w, me), S.Serve, conf)
  {
    hide Sound, LiveIn, Singles, Locate, Owns;
    var m, r, c := w.sent[0], RequestOf(w.sent[0], me, ticker), w.book.sides;
    LocateLive(c, r.owner, me);
    var rs := Process(w.book, r).1.responses;
    assert |rs| == 1 && rs[1..] == [];
    if Locate(c, r.owner).Some? {
      var (side, k) := Locate(c, r.owner).value;
      CancelledSeen(c, side, k, me);
      SideOfListed(w.book, side, k);
      assert side == m.side;
      assert RepliesTo(rs, me) == [S.Reply.Cancelled(m.oid, side, c.Of(side)[k].qty)];
    } else {
      assert RepliesTo(rs, me) == [S.Reply.CancelRejected];
    }
  }

  lemma SideOfListed(b: Book, side: Side, k: nat)
    requires Sound(b) && k < |b.sides.Of(side)|
    ensures b.sides.Of(side)[k].side == side
  {
    assert Resting(b.sides.Of(side)[k], side, b.nextOid);
  }

  /** An order of ours with the id of our next message is on the side the message names. */
  lemma OwnSide(w: World, me: nat, limit: nat)
    requires Good(w, me, limit) && w.sent != []
    ensures var x := LiveIn(w.book.sides, me).Of(Opposite(w.sent[0].side)); x == None || x.value.oid != w.sent[0].oid
  {
    hide S.Inv, Sound, LiveOf, Single;
    var s, side := Desk(w, me), w.sent[0].side;
    assert Names(s, side, w.sent[0].oid);
    if s.live.Of(Opposite(side)).Some? {
      LiveIsSlots(s, Opposite(side), limit);
      assert !(Names(s, Buy, w.sent[0].oid) && Names(s, Sell, w.sent[0].oid));
    }
  }

  /** Our new order finds no order of ours on its side, and none under its id. */
  lemma OwnNewAdmissible(w: World, me: nat, ticker: nat, limit: nat)
    requires Good(w, me, limit) && w.sent != [] && w.sent[0].NewOrder?
    ensures LiveOf(w.book.sides.Of(w.sent[0].side), me) == None
    ensures Admissible(w.book, RequestOf(w.sent[0], me, ticker))
  {
    hide Sound, LiveOf, Single;
    var m, s, c := w.sent[0], Desk(w, me), w.book.sides;
    assert S.SideStands(s, m.side);
    OwnSide(w, me, limit);
    assert S.MessagesOf(s.sent, m.side)[0] == m;
    assert LiveIn(c, me).Of(m.side) == None;
    LocateLive(c, Client(me, m.oid), me);
  }

  // ----- whole runs

  predicate Sizes(conf: S.Conf) {
    S.Convertible(conf) && S.Unsigned(conf)
  }

  /** What is asked of the other clients: a client does not reuse the id of a live order. */
  ghost predicate Allowed(w: World, a: Act) {
    a.Other? ==> Admissible(w.book, a.r)
  }

  lemma ServeGood(w: World, me: nat, ticker: nat, limit: nat)
    requires Good(w, me, limit) && w.sent != []
    ensures Good(Processed(w.(sent := w.sent[1..]), RequestOf(w.sent[0], me, ticker), me), me, limit)
  {
    hide S.Inv, S.Step, Sound, LiveIn, Singles, Process, Apart, Admissible, Locate;
    var r := RequestOf(w.sent[0], me, ticker);
    var w' := Processed(w.(sent := w.sent[1..]), r, me);
    if w.sent[0].NewOrder? {
      OwnNewAdmissible(w, me, ticker, limit);
      OwnNewSeen(w, me, ticker, limit);
    } else {
      OwnSide(w, me, limit);
      S.ServeInv(Desk(w, me), S.Conf(0, limit, 0.0));
      OwnCancelServed(w, me, ticker, S.Conf(0, limit, 0.0));
      CancelAdmissible(w.book, r);
    }
    ProcessSound(w.book, r);
    ServedApart(Desk(w, me), Desk(w', me));
  }

  lemma CancelAdmissible(b: Book, r: Request)
    requires r.CancelOrder? && r.owner.Client?
    ensures Admissible(b, r)
  {
  }

  lemma OtherGood(w: World, r: Request, me: nat, limit: nat)
    requires Good(w, me, limit) && Admissible(w.book, r) && !Ours(r.owner, me)
    ensures Good(Processed(w, r, me), me, limit)
  {
    OwnerOf(w.book, r);
    hide S.Inv, SoundSides, Singles, Process, Apart, Admissible, LiveOf, Locate;
    if r.New? {
      OtherNewSeen(w, r, me, limit);
    } else {
      OtherCancelSeen(w, r, me, limit);
    }
    ProcessSound(w.book, r);
    SameNames(Desk(w, me), Desk(Processed(w, r, me), me));
  }

  lemma OwnerOf(b: Book, r: Request)
    requires Admissible(b, r)
    ensures r.owner.Client?
  {
  }

  lemma SameNames(s: S.State, s': S.State)
    requires Apart(s) && s'.slots == s.slots && s'.sent == s.sent && s'.nextOid == s.nextOid
    ensures Apart(s')
  {
    NoNewNames(s, s');
  }

  lemma StepGood(w: World, a: Act, me: nat, ticker: nat, conf: S.Conf)
    requires Good(w, me, conf.positionMax) && Allowed(w, a) && Sizes(conf)
    ensures Good(Step(w, a, me, ticker, conf), me, conf.positionMax)
  {
    hide S.Inv, Sound, Singles, Process, Apart, Admissible, LiveIn;
    match a
    case Manage(side, price, qty, pnl) =>
      var act := S.ManageOrder(side, price, qty, pnl);
      S.StepInv(Desk(w, me), act, conf);
      ManagedApart(Desk(w, me), side, price, qty, pnl, conf);
      assert Desk(Step(w, a, me, ticker, conf), me) == S.Step(Desk(w, me), act, conf);
    case Serve =>
      if w.sent != [] {
        ServeGood(w, me, ticker, conf.positionMax);
      }
    case Other(r) =>
      if !Ours(r.owner, me) {
        OtherGood(w, r, me, conf.positionMax);
      }
    case Deliver =>
      S.StepInv(Desk(w, me), S.Deliver, conf);
      DeliveredApart(Desk(w, me), conf.positionMax, conf);
      assert Desk(Step(w, a, me, ticker, conf), me) == S.Step(Desk(w, me), S.Deliver, conf);
  }

  function RunOf(acts: seq<Act>, me: nat, ticker: nat, conf: S.Conf): World {
    if acts == [] then NEW_WORLD
    else Step(RunOf(acts[..|acts| - 1], me, ticker, conf), acts[|acts| - 1], me, ticker, conf)
  }

  ghost predicate AllowedAll(acts: seq<Act>, me: nat, ticker: nat, conf: S.Conf) {
    acts == [] ||
    var before := acts[..|acts| - 1];
    AllowedAll(before, me, ticker, conf) && Allowed(RunOf(before, me, ticker, conf), acts[|acts| - 1])
  }

  lemma StartGood(me: nat, limit: nat)
    ensures Good(NEW_WORLD, me, limit)
  {
    assert S.MessagesOf([], Buy) == [] == S.MessagesOf([], Sell);
    assert S.RepliesOf([], Buy) == [] == S.RepliesOf([], Sell);
  }

  lemma {:induction false} RunGood(acts: seq<Act>, me: nat, ticker: nat, conf: S.Conf)
    requires AllowedAll(acts, me, ticker, conf) && Sizes(conf)
    ensures Good(RunOf(acts, me, ticker, conf), me, conf.positionMax)
  {
    hide Good, Step, Allowed, Sizes;
    if acts == [] {
      StartGood(me, conf.positionMax);
    } else {
      var before := acts[..|acts| - 1];
      RunGood(before, me, ticker, conf);
      StepGood(RunOf(before, me, ticker, conf), acts[|acts| - 1], me, ticker, conf);
    }
  }

  /**
   Against the real engine, with any other clients and any interleaving: the client's position, and
   its position with everything its slots still have out on either side, stay within the limit.
   */
  lemma DeskLimited(acts: seq<Act>, me: nat, ticker: nat, conf: S.Conf)
    requires AllowedAll(acts, me, ticker, conf) && Sizes(conf)
    ensures var w := RunOf(acts, me, ticker, conf);
            && w.position + S.Remaining(w.slots.buy) <= conf.positionMax
            && w.position - S.Remaining(w.slots.sell) >= 0 - conf.positionMax
            && S.Limited(w.position, conf.positionMax)
  {
    RunGood(acts, me, ticker, conf);
  }

  // ----- at the quoted price

  /** The orders asked for by slots, under way or resting, are at the prices the slots have. */
  ghost predicate Priced(w: World, me: nat) {
    && (forall i | 0 <= i < |w.sent| && w.sent[i].NewOrder? && w.sent[i].oid == w.slots.Of(w.sent[i].side).oid ::
          w.sent[i].price == w.slots.Of(w.sent[i].side).price)
    && (forall side: Side, k | 0 <= k < |w.book.sides.Of(side)| && Mine(w.book.sides.Of(side)[k], me) ::
          w.book.sides.Of(side)[k].price == w.slots.Of(side).price)
  }

  /** An order of ours in the book is its side's slot's, and the only one on its side. */
  lemma MineIsSlots(w: World, me: nat, limit: nat, side: Side, k: nat)
    requires Good(w, me, limit) && k < |w.book.sides.Of(side)| && Mine(w.book.sides.Of(side)[k], me)
    ensures w.book.sides.Of(side)[k].owner.oid == w.slots.Of(side).oid
    ensures LiveIn(w.book.sides, me).Of(side).Some?
    ensures forall j | 0 <= j < |w.book.sides.Of(side)| && Mine(w.book.sides.Of(side)[j], me) :: j == k
  {
    hide Sound, S.Inv, Apart;
    LiveAt(w.book.sides.Of(side), me, k);
    LiveIsSlots(Desk(w, me), side, limit);
  }

  lemma ManagePriced(w: World, a: Act, me: nat, ticker: nat, conf: S.Conf)
    requires Priced(w, me) && Good(w, me, conf.positionMax) && a.Manage?
    ensures Priced(Step(w, a, me, ticker, conf), me)
  {
    hide Sound, S.TradeRisk, S.Inv, Singles, LiveIn;
    var w', s := Step(w, a, me, ticker, conf), Desk(w, me);
    forall i | 0 <= i < |w'.sent| && w'.sent[i].NewOrder? && w'.sent[i].oid == w'.slots.Of(w'.sent[i].side).oid
      ensures w'.sent[i].price == w'.slots.Of(w'.sent[i].side).price
    {
      if i < |w.sent| {
        assert w'.sent[i] == w.sent[i];
        assert Names(s, w.sent[i].side, w.sent[i].oid);
      }
    }
    forall side: Side, k | 0 <= k < |w'.book.sides.Of(side)| && Mine(w'.book.sides.Of(side)[k], me)
      ensures w'.book.sides.Of(side)[k].price == w'.slots.Of(side).price
    {
      MineIsSlots(w, me, conf.positionMax, side, k);
      LiveIsOut(s, side, conf.positionMax);
    }
  }

  /** A slot with a live order is waiting for a reply or live. */
  lemma LiveIsOut(s: S.State, side: Side, limit: nat)
    requires S.Inv(s, limit) && s.live.Of(side).Some?
    ensures !s.slots.Of(side).status.Invalid? && !s.slots.Of(side).status.Dead?
  {
    assert S.SideStands(s, side);
  }

  /** An order that was there, or that we asked for, is at its slot's price. */
  lemma DescendsPriced(w: World, r: Request, me: nat, side: Side, o: Order)
    requires Priced(w, me) && Mine(o, me) && Descends(o, side, w.book, r) && o.owner.oid == w.slots.Of(side).oid
    requires r.New? && Ours(r.owner, me) && r.owner.oid == w.slots.Of(r.side).oid ==>
               r.price == w.slots.Of(r.side).price
    ensures o.price == w.slots.Of(side).price
  {
  }

  /** The engine's handling of a request puts our orders in the book at our prices only. */
  lemma ProcessedPriced(w: World, r: Request, me: nat, limit: nat)
    requires Sound(w.book) && Priced(w, me) && Good(Processed(w, r, me), me, limit)
    requires r.New? && Ours(r.owner, me) && r.owner.oid == w.slots.Of(r.side).oid ==>
               r.price == w.slots.Of(r.side).price
    ensures Priced(Processed(w, r, me), me)
  {
    hide Good, Process, Sound, RepliesTo, Descends, LiveIn;
    var w' := Processed(w, r, me);
    forall side: Side, k | 0 <= k < |w'.book.sides.Of(side)| && Mine(w'.book.sides.Of(side)[k], me)
      ensures w'.book.sides.Of(side)[k].price == w'.slots.Of(side).price
    {
      MineIsSlots(w', me, limit, side, k);
      if r.New? {
        NewDescends(w.book, r, side, k);
      } else {
        ProcessCancels(w.book, r);
        CancelDescends(w.book, r, side, k);
      }
      DescendsPriced(w, r, me, side, w'.book.sides.Of(side)[k]);
    }
  }

  lemma ServePriced(w: World, me: nat, ticker: nat, limit: nat)
    requires Priced(w, me) && w.sent != []
    ensures Priced(w.(sent := w.sent[1..]), me)
    ensures var r, m := RequestOf(w.sent[0], me, ticker), w.sent[0];
            && (r.New? <==> m.NewOrder?) && r.owner == Client(me, m.oid)
            && (r.New? && m.oid == w.slots.Of(r.side).oid ==> r.price == w.slots.Of(r.side).price)
  {
  }

  lemma DeliverPriced(w: World, me: nat, ticker: nat, conf: S.Conf)
    requires Priced(w, me)
    ensures Priced(Step(w, Deliver, me, ticker, conf), me)
  {
    var w' := Step(w, Deliver, me, ticker, conf);
    assert forall side: Side ::
        w'.slots.Of(side).oid == w.slots.Of(side).oid && w'.slots.Of(side).price == w.slots.Of(side).price;
  }

  lemma {:induction false} RunPriced(acts: seq<Act>, me: nat, ticker: nat, conf: S.Conf)
    requires AllowedAll(acts, me, ticker, conf) && Sizes(conf)
    ensures Priced(RunOf(acts, me, ticker, conf), me)
  {
    hide Good, Priced, S.Step, Process, Allowed, Sizes;
    if acts == [] {
      StartPriced(me);
    } else {
      var before, last := acts[..|acts| - 1], acts[|acts| - 1];
      var w := RunOf(before, me, ticker, conf);
      RunPriced(before, me, ticker, conf);
      RunGood(before, me, ticker, conf);
      RunGood(acts, me, ticker, conf);
      SoundIn(w, me, conf.positionMax);
      match last
      case Manage(_, _, _, _) => ManagePriced(w, last, me, ticker, conf);
      case Serve =>
        if w.sent != [] {
          ServePriced(w, me, ticker, conf.positionMax);
          ProcessedPriced(w.(sent := w.sent[1..]), RequestOf(w.sent[0], me, ticker), me, conf.positionMax);
        }
      case Other(r) =>
        if !Ours(r.owner, me) {
          ProcessedPriced(w, r, me, conf.positionMax);
        }
      case Deliver => DeliverPriced(w, me, ticker, conf);
    }
  }

  lemma StartPriced(me: nat)
    ensures Priced(NEW_WORLD, me)
  {
  }

  lemma SoundIn(w: World, me: nat, limit: nat)
    requires Good(w, me, limit)
    ensures Sound(w.book)
  {
  }

  // ----- the position, by the engine's own reports

  /** What responses report as executed for a client on a side. */
  function ExecutedFor(rs: seq<Response>, me: nat, side: Side): nat {
    if rs == [] then 0
    else
      var r := rs[0];
      (if r.Filled? && Ours(r.owner, me) && r.side == side then r.exec else 0) + ExecutedFor(rs[1..], me, side)
  }

  /** What the engine answers in a step, to whomever. */
  function Answered(w: World, a: Act, me: nat, ticker: nat): seq<Response> {
    match a
    case Serve => if w.sent == [] then [] else Process(w.book, RequestOf(w.sent[0], me, ticker)).1.responses
    case Other(r) => if Ours(r.owner, me) then [] else Process(w.book, r).1.responses
    case _ => []
  }

  /** What the engine has executed of the client's orders on a side. */
  function Executed(acts: seq<Act>, me: nat, ticker: nat, conf: S.Conf, side: Side): nat {
    if acts == [] then 0
    else
      var before, last := acts[..|acts| - 1], acts[|acts| - 1];
      Executed(before, me, ticker, conf, side)
      + ExecutedFor(Answered(RunOf(before, me, ticker, conf), last, me, ticker), me, side)
  }

  lemma {:induction false} RepliesReport(rs: seq<Response>, me: nat, side: Side)
    ensures Q.InFlight(RepliesTo(rs, me), side) == ExecutedFor(rs, me, side)
  {
    if rs != [] {
      RepliesReport(rs[1..], me, side);
    }
  }

  lemma StepExecutes(w: World, a: Act, me: nat, ticker: nat, conf: S.Conf, bought: nat, sold: nat)
    requires Q.Books(Desk(w, me), bought, sold)
    ensures var rs := Answered(w, a, me, ticker);
            Q.Books(Desk(Step(w, a, me, ticker, conf), me), bought + ExecutedFor(rs, me, Buy),
                    sold + ExecutedFor(rs, me, Sell))
  {
    hide S.TradeRisk, Process, LiveIn;
    var rs := Answered(w, a, me, ticker);
    RepliesReport(rs, me, Buy);
    RepliesReport(rs, me, Sell);
    Q.InFlightConcat(w.replies, RepliesTo(rs, me), Buy);
    Q.InFlightConcat(w.replies, RepliesTo(rs, me), Sell);
    if a.Deliver? {
      Q.StepBooks(Desk(w, me), S.Deliver, conf, bought, sold);
    }
  }

  /**
   Against the real engine: the position, with the fills still on their way to the client, is what the engine has
   reported as executed of its orders, bought less sold.
   */
  lemma {:induction false} PositionIsExecuted(acts: seq<Act>, me: nat, ticker: nat, conf: S.Conf)
    ensures var w := RunOf(acts, me, ticker, conf);
            w.position + Q.InFlight(w.replies, Buy) - Q.InFlight(w.replies, Sell)
            == Executed(acts, me, ticker, conf, Buy) - Executed(acts, me, ticker, conf, Sell)
  {
    hide Step, Answered, ExecutedFor;
    if acts != [] {
      var before, last := acts[..|acts| - 1], acts[|acts| - 1];
      PositionIsExecuted(before, me, ticker, conf);
      StepExecutes(RunOf(before, me, ticker, conf), last, me, ticker, conf, Executed(before, me, ticker, conf, Buy),
                   Executed(before, me, ticker, conf, Sell));
    }
  }

  /**
   A client never has more than one order a side in the engine's book, and that one is its slot's, at the price
   the slot was last quoted for a new order.
   */
  lemma SlotsAreResting(acts: seq<Act>, me: nat, ticker: nat, conf: S.Conf, side: Side, k: nat)
    requires AllowedAll(acts, me, ticker, conf) && Sizes(conf)
    requires var w := RunOf(acts, me, ticker, conf);
             k < |w.book.sides.Of(side)| && Mine(w.book.sides.Of(side)[k], me)
    ensures var w := RunOf(acts, me, ticker, conf); var s := w.book.sides.Of(side);
            && s[k].owner.oid == w.slots.Of(side).oid && s[k].price == w.slots.Of(side).price
            && forall j | 0 <= j < |s| && Mine(s[j], me) :: j == k
  {
    hide RunOf, AllowedAll;
    RunGood(acts, me, ticker, conf);
    RunPriced(acts, me, ticker, conf);
    MineIsSlots(RunOf(acts, me, ticker, conf), me, conf.positionMax, side, k);
  }
}
