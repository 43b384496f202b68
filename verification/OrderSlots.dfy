/**
 A client's order slots for one instrument, its risk check, and the exchange at the other end of
 two ordered channels. The exchange is any exchange that keeps the life cycle of an order: it
 accepts, fills in any portions at any time, and cancels what is left or rejects.
 */
module OrderSlots {
  import opened Types

  datatype Status = Invalid | PendingNew | Live | PendingCancel | Dead

  datatype Slot = Slot(status: Status, oid: nat, price: int, qty: nat)

  const NO_SLOT := Slot(Invalid, 0, 0, 0)

  datatype Message = NewOrder(oid: nat, side: Side, price: int, qty: nat) | CancelOrder(oid: nat, side: Side)

  datatype Reply =
    | Accepted(oid: nat, side: Side, remain: nat)
    | Filled(oid: nat, side: Side, exec: nat, remain: nat)
    | Cancelled(oid: nat, side: Side, remain: nat)
    | CancelRejected

  // ----- the risk check

  datatype Conf = Conf(sizeMax: nat, positionMax: nat, lossMax: real)

  datatype Risk = SizeTooLarge | PositionTooLarge | LossTooLarge | Allowed

  const TWO31: int := 0x8000_0000
  const TWO32: int := 0x1_0000_0000

  /** A 32-bit unsigned value converted to signed. */
  function ToInt32(q: nat): int {
    if q < TWO31 then q else q - TWO32
  }

  function Signed(side: Side, x: int): int {
    if side.Buy? then x else -x
  }

  function Abs(x: int): nat {
    if x < 0 then -x else x
  }

  function TradeRisk(conf: Conf, position: int, pnl: real, side: Side, qty: nat): Risk {
    if qty > conf.sizeMax then SizeTooLarge
    else if Abs(position + Signed(side, ToInt32(qty))) > ToInt32(conf.positionMax) then PositionTooLarge
    else if pnl < conf.lossMax then LossTooLarge
    else Allowed
  }

  /** Within the limit. */
  predicate Limited(position: int, limit: nat) {
    0 - limit <= position <= limit
  }

  /** The configured sizes are unsigned 32-bit values. */
  predicate Unsigned(conf: Conf) {
    conf.sizeMax < TWO32 && conf.positionMax < TWO32
  }

  /**
   No order size the check lets through wraps round to a position inside the limit: no size wraps,
   or none far enough, or the limit wraps itself and nothing is let through.
   */
  predicate Convertible(conf: Conf) {
    conf.sizeMax < TWO31 || conf.sizeMax + 2 * conf.positionMax < TWO32 || conf.positionMax >= TWO31
  }

  /**
   The check lets through only orders whose complete fill stays within the limit, exactly when the
   configured sizes leave the signed conversion no room to wrap.
   */
  lemma RiskSoundIff(conf: Conf)
    requires Unsigned(conf)
    ensures Convertible(conf) <==>
              forall position, pnl, side, qty: nat ::
                Limited(position, conf.positionMax) && TradeRisk(conf, position, pnl, side, qty) == Allowed
                ==> Limited(position + Signed(side, qty), conf.positionMax)
  {
    if !Convertible(conf) {
      var qty := conf.sizeMax;
      var position := if conf.positionMax < TWO32 - qty then conf.positionMax else TWO32 - qty;
      assert TradeRisk(conf, position, conf.lossMax, Buy, qty) == Allowed;
      assert !Limited(position + Signed(Buy, qty), conf.positionMax);
    }
  }

  // ----- the whole system

  datatype Pair<T> = Pair(buy: T, sell: T) {
    function Of(side: Side): T {
      if side.Buy? then buy else sell
    }

    function With(side: Side, x: T): Pair<T> {
      if side.Buy? then Pair(x, sell) else Pair(buy, x)
    }
  }

  /** An order live at the exchange, with what remains of it. */
  datatype Resting = Resting(oid: nat, remain: nat)

  datatype State =
    State(slots: Pair<Slot>, sent: seq<Message>, live: Pair<Option<Resting>>, replies: seq<Reply>,
          position: int, nextOid: nat)

  const START := State(Pair(NO_SLOT, NO_SLOT), [], Pair(None, None), [], 0, 1)

  /** The slot's part of managing an order: the new slot and the message to send, if any. */
  function Manage(slot: Slot, conf: Conf, position: int, pnl: real, nextOid: nat,
                  side: Side, price: Option<int>, qty: nat): (Slot, Option<Message>)
  {
    match slot.status
    case Live =>
      if price == Some(slot.price) then (slot, None)
      else (slot.(status := PendingCancel), Some(Message.CancelOrder(slot.oid, side)))
    case PendingNew => (slot, None)
    case PendingCancel => (slot, None)
    case _ =>
      if price.None? || TradeRisk(conf, position, pnl, side, qty) != Allowed then (slot, None)
      else (Slot(PendingNew, nextOid, price.value, qty), Some(NewOrder(nextOid, side, price.value, qty)))
  }

  function OnReply(slot: Slot, r: Reply): Slot {
    match r
    case Accepted(_, _, _) => slot.(status := Live)
    case Cancelled(_, _, _) => slot.(status := Dead)
    case Filled(_, _, _, remain) => slot.(qty := remain, status := if remain == 0 then Dead else slot.status)
    case CancelRejected => slot
  }

  datatype Action =
    | ManageOrder(side: Side, price: Option<int>, qty: nat, pnl: real)  // client
    | Serve                                                            // exchange handles a message
    | Fill(side: Side, exec: nat)                                      // exchange fills a live order
    | Deliver                                                          // client handles a reply

  function Step(s: State, a: Action, conf: Conf): State {
    match a
    case ManageOrder(side, price, qty, pnl) =>
      var (slot, m) := Manage(s.slots.Of(side), conf, s.position, pnl, s.nextOid, side, price, qty);
      var t := s.(slots := s.slots.With(side, slot));
      if m.None? then t
      else t.(sent := s.sent + [m.value], nextOid := if m.value.NewOrder? then s.nextOid + 1 else s.nextOid)
    case Serve =>
      if s.sent == [] then s else Served(s.(sent := s.sent[1..]), s.sent[0])
    case Fill(side, exec) =>
      var x := s.live.Of(side);
      if x.None? || !(0 < exec <= x.value.remain) then s
      else
        var left := x.value.remain - exec;
        s.(live := s.live.With(side, if left == 0 then None else Some(Resting(x.value.oid, left))),
           replies := s.replies + [Reply.Filled(x.value.oid, side, exec, left)])
    case Deliver =>
      if s.replies == [] then s else Delivered(s.(replies := s.replies[1..]), s.replies[0])
  }

  /** The exchange's handling of one message. An order for nothing is accepted but does not rest. */
  function Served(s: State, m: Message): State {
    match m
    case NewOrder(oid, side, _, qty) =>
      s.(live := s.live.With(side, if qty == 0 then None else Some(Resting(oid, qty))),
         replies := s.replies + [Reply.Accepted(oid, side, qty)])
    case CancelOrder(oid, side) =>
      var x := s.live.Of(side);
      if x.Some? && x.value.oid == oid then
        s.(live := s.live.With(side, None), replies := s.replies + [Reply.Cancelled(oid, side, x.value.remain)])
      else s.(replies := s.replies + [Reply.CancelRejected])
  }

  /** The client's handling of one reply: fills move the position, then the slot follows. */
  function Delivered(s: State, r: Reply): State {
    if r.CancelRejected? then s
    else
      var t := s.(slots := s.slots.With(r.side, OnReply(s.slots.Of(r.side), r)));
      if r.Filled? then t.(position := s.position + Signed(r.side, r.exec)) else t
  }

  function RunFrom(actions: seq<Action>, conf: Conf): State {
    if actions == [] then START else Step(RunFrom(actions[..|actions| - 1], conf), actions[|actions| - 1], conf)
  }

  // ----- one side of the two channels

  function MessagesOf(ms: seq<Message>, side: Side): seq<Message> {
    if ms == [] then []
    else if ms[0].side == side then [ms[0]] + MessagesOf(ms[1..], side)
    else MessagesOf(ms[1..], side)
  }

  function RepliesOf(rs: seq<Reply>, side: Side): seq<Reply> {
    if rs == [] then []
    else if !rs[0].CancelRejected? && rs[0].side == side then [rs[0]] + RepliesOf(rs[1..], side)
    else RepliesOf(rs[1..], side)
  }

  lemma {:induction false} MessagesAppend(ms: seq<Message>, m: Message, side: Side)
    ensures MessagesOf(ms + [m], side) == if m.side == side then MessagesOf(ms, side) + [m] else MessagesOf(ms, side)
  {
    if ms == [] {
      assert [m][1..] == [];
    } else {
      assert (ms + [m])[1..] == ms[1..] + [m];
      MessagesAppend(ms[1..], m, side);
    }
  }

  lemma {:induction false} RepliesAppend(rs: seq<Reply>, r: Reply, side: Side)
    ensures RepliesOf(rs + [r], side)
         == if !r.CancelRejected? && r.side == side then RepliesOf(rs, side) + [r] else RepliesOf(rs, side)
  {
    if rs == [] {
      assert [r][1..] == [];
    } else {
      assert (rs + [r])[1..] == rs[1..] + [r];
      RepliesAppend(rs[1..], r, side);
    }
  }

  // ----- the life of an order, as seen from the slot

  /** The replies still to come bring `qty` down to what is live at the exchange, and end the order if nothing is. */
  predicate Leads(oid: nat, qty: nat, rs: seq<Reply>, live: Option<Resting>)
    decreases rs
  {
    if rs == [] then live == if qty == 0 then None else Some(Resting(oid, qty))
    else
      match rs[0]
      case Filled(_, _, exec, remain) =>
        0 < exec <= qty && remain == qty - exec && Leads(oid, remain, rs[1..], live)
        && (remain == 0 ==> rs[1..] == [])
      case Cancelled(_, _, _) => qty > 0 && rs[1..] == [] && live == None
      case _ => false
  }

  lemma {:induction false} LeadsFill(oid: nat, qty: nat, rs: seq<Reply>, side: Side, x: Resting, exec: nat)
    requires Leads(oid, qty, rs, Some(x)) && 0 < exec <= x.remain
    ensures x.oid == oid
    ensures var left := x.remain - exec;
            Leads(oid, qty, rs + [Reply.Filled(oid, side, exec, left)],
                  if left == 0 then None else Some(Resting(oid, left)))
    decreases rs
  {
    var last := Reply.Filled(oid, side, exec, x.remain - exec);
    if rs == [] {
      assert [last][1..] == [];
    } else {
      assert (rs + [last])[1..] == rs[1..] + [last];
      LeadsFill(oid, rs[0].remain, rs[1..], side, x, exec);
    }
  }

  lemma {:induction false} LeadsCancel(oid: nat, qty: nat, rs: seq<Reply>, side: Side, x: Resting)
    requires Leads(oid, qty, rs, Some(x))
    ensures Leads(oid, qty, rs + [Reply.Cancelled(oid, side, x.remain)], None)
    decreases rs
  {
    var last := Reply.Cancelled(oid, side, x.remain);
    if rs == [] {
      assert [last][1..] == [];
    } else {
      assert (rs + [last])[1..] == rs[1..] + [last];
      LeadsCancel(oid, rs[0].remain, rs[1..], side, x);
    }
  }

  lemma {:induction false} LeadsOid(oid: nat, qty: nat, rs: seq<Reply>, live: Option<Resting>)
    requires Leads(oid, qty, rs, live) && live.Some?
    ensures live.value.oid == oid && live.value.remain > 0
    decreases rs
  {
    if rs != [] {
      LeadsOid(oid, rs[0].remain, rs[1..], live);
    }
  }

  /** Cancels of earlier orders that were filled meanwhile; they will be rejected. */
  predicate Stale(ms: seq<Message>, oid: nat) {
    forall i | 0 <= i < |ms| :: ms[i].CancelOrder? && ms[i].oid < oid
  }

  /** Where one side stands: slot, messages under way, order at the exchange, replies under way. */
  predicate Standing(slot: Slot, ms: seq<Message>, live: Option<Resting>, rs: seq<Reply>, nextOid: nat) {
    && slot.oid < nextOid
    && match slot.status
       case PendingNew =>
         if ms != [] then
           && ms[|ms| - 1].NewOrder? && ms[|ms| - 1].oid == slot.oid && ms[|ms| - 1].qty == slot.qty
           && Stale(ms[..|ms| - 1], slot.oid) && live == None && rs == []
         else
           rs != [] && rs[0].Accepted? && Leads(slot.oid, slot.qty, rs[1..], live)
       case Live => ms == [] && Leads(slot.oid, slot.qty, rs, live)
       case PendingCancel =>
         if ms != [] then
           ms[0].CancelOrder? && ms[0].oid == slot.oid && |ms| == 1 && Leads(slot.oid, slot.qty, rs, live)
         else
           live == None && Leads(slot.oid, slot.qty, rs, live)
       case _ => Stale(ms, slot.oid + 1) && live == None && rs == []
  }

  /** What the slot may still add to the position. */
  function Remaining(slot: Slot): nat {
    if slot.status.PendingNew? || slot.status.Live? || slot.status.PendingCancel? then slot.qty else 0
  }

  /** Position plus remaining buys, and position less remaining sells, are within the limit. */
  predicate Safe(s: State, limit: nat) {
    s.position + Remaining(s.slots.buy) <= limit && s.position - Remaining(s.slots.sell) >= 0 - limit
  }

  predicate SideStands(s: State, side: Side) {
    Standing(s.slots.Of(side), MessagesOf(s.sent, side), s.live.Of(side), RepliesOf(s.replies, side), s.nextOid)
  }

  predicate Inv(s: State, limit: nat) {
    SideStands(s, Buy) && SideStands(s, Sell) && Safe(s, limit)
  }

  lemma NewOidStands(slot: Slot, ms: seq<Message>, live: Option<Resting>, rs: seq<Reply>, nextOid: nat)
    requires Standing(slot, ms, live, rs, nextOid)
    ensures Standing(slot, ms, live, rs, nextOid + 1)
  {
  }

  // ----- what one side goes through in each step

  /** Managing a slot keeps its side standing. */
  lemma ManageStands(slot: Slot, ms: seq<Message>, live: Option<Resting>, rs: seq<Reply>, nextOid: nat,
                     conf: Conf, position: int, pnl: real, side: Side, price: Option<int>, qty: nat)
    requires Standing(slot, ms, live, rs, nextOid)
    ensures var (slot', m) := Manage(slot, conf, position, pnl, nextOid, side, price, qty);
            && (m.Some? ==> m.value.side == side)
            && Standing(slot', if m.None? then ms else ms + [m.value], live, rs,
                        if m.Some? && m.value.NewOrder? then nextOid + 1 else nextOid)
  {
    hide TradeRisk, Leads;
    var m := Manage(slot, conf, position, pnl, nextOid, side, price, qty).1;
    if m.Some? {
      var ms' := ms + [m.value];
      assert ms'[..|ms'| - 1] == ms;
    }
  }

  /** The exchange's handling of a side's next message keeps the side standing. */
  lemma ServeStands(slot: Slot, ms: seq<Message>, live: Option<Resting>, rs: seq<Reply>, nextOid: nat)
    requires ms != [] && Standing(slot, ms, live, rs, nextOid)
    ensures match ms[0] {
      case NewOrder(oid, side, _, qty) =>
        Standing(slot, ms[1..], if qty == 0 then None else Some(Resting(oid, qty)),
                 rs + [Reply.Accepted(oid, side, qty)], nextOid)
      case CancelOrder(oid, side) =>
        if live.Some? && live.value.oid == oid then
          Standing(slot, ms[1..], None, rs + [Reply.Cancelled(oid, side, live.value.remain)], nextOid)
        else Standing(slot, ms[1..], live, rs, nextOid)
    }
  {
    match slot.status
    case PendingNew =>
      if |ms| > 1 {
        assert ms[0] == ms[..|ms| - 1][0] && ms[1..][..|ms| - 2] == ms[..|ms| - 1][1..];
      } else if ms[0].NewOrder? {
        var r := Reply.Accepted(ms[0].oid, ms[0].side, ms[0].qty);
        assert rs + [r] == [r] && [r][1..] == [];
      }
    case PendingCancel =>
      if live.Some? {
        LeadsOid(slot.oid, slot.qty, rs, live);
        LeadsCancel(slot.oid, slot.qty, rs, ms[0].side, live.value);
      }
    case _ =>
  }

  lemma FillStands(slot: Slot, ms: seq<Message>, x: Resting, rs: seq<Reply>, nextOid: nat, side: Side, exec: nat)
    requires Standing(slot, ms, Some(x), rs, nextOid) && 0 < exec <= x.remain
    ensures var left := x.remain - exec;
            Standing(slot, ms, if left == 0 then None else Some(Resting(x.oid, left)),
                     rs + [Reply.Filled(x.oid, side, exec, left)], nextOid)
  {
    var left := x.remain - exec;
    if slot.status.PendingNew? {
      LeadsFill(slot.oid, slot.qty, rs[1..], side, x, exec);
      assert (rs + [Reply.Filled(x.oid, side, exec, left)])[1..] == rs[1..] + [Reply.Filled(x.oid, side, exec, left)];
    } else {
      LeadsFill(slot.oid, slot.qty, rs, side, x, exec);
    }
  }

  lemma DeliverStands(slot: Slot, ms: seq<Message>, live: Option<Resting>, rs: seq<Reply>, nextOid: nat)
    requires rs != [] && Standing(slot, ms, live, rs, nextOid)
    ensures Standing(OnReply(slot, rs[0]), ms, live, rs[1..], nextOid)
    ensures Remaining(OnReply(slot, rs[0])) + (if rs[0].Filled? then rs[0].exec else 0) <= Remaining(slot)
  {
    if rs[0].Filled? {
      assert Leads(slot.oid, rs[0].remain, rs[1..], live);
      if rs[0].remain == 0 {
        assert rs[1..] == [] && live == None;
      }
    }
    assert |ms| <= 1;
  }

  // ----- every step, and every run

  predicate Stands(s: State) {
    SideStands(s, Buy) && SideStands(s, Sell)
  }

  lemma ManageSides(s: State, a: Action, conf: Conf)
    requires Stands(s) && a.ManageOrder?
    ensures Stands(Step(s, a, conf))
  {
    hide TradeRisk, Standing, MessagesOf;
    var slot := s.slots.Of(a.side);
    var m := Manage(slot, conf, s.position, a.pnl, s.nextOid, a.side, a.price, a.qty).1;
    ManageStands(slot, MessagesOf(s.sent, a.side), s.live.Of(a.side), RepliesOf(s.replies, a.side), s.nextOid,
                 conf, s.position, a.pnl, a.side, a.price, a.qty);
    var other := Opposite(a.side);
    if m.Some? {
      MessagesAppend(s.sent, m.value, Buy);
      MessagesAppend(s.sent, m.value, Sell);
      NewOidStands(s.slots.Of(other), MessagesOf(s.sent, other), s.live.Of(other), RepliesOf(s.replies, other),
                 s.nextOid);
    }
  }

  lemma ManageInv(s: State, a: Action, conf: Conf)
    requires Inv(s, conf.positionMax) && a.ManageOrder? && Convertible(conf) && Unsigned(conf)
    ensures Inv(Step(s, a, conf), conf.positionMax)
  {
    hide TradeRisk, Standing, MessagesOf, SideStands;
    ManageSides(s, a, conf);
    var m := Manage(s.slots.Of(a.side), conf, s.position, a.pnl, s.nextOid, a.side, a.price, a.qty).1;
    if m.Some? && m.value.NewOrder? {
      RiskSoundIff(conf);
      assert TradeRisk(conf, s.position, a.pnl, a.side, a.qty) == Allowed;
    }
  }

  lemma ServeInv(s: State, conf: Conf)
    requires Inv(s, conf.positionMax) && s.sent != []
    ensures Inv(Step(s, Serve, conf), conf.positionMax)
  {
    hide Standing;
    var m := s.sent[0];
    ServeStands(s.slots.Of(m.side), MessagesOf(s.sent, m.side), s.live.Of(m.side), RepliesOf(s.replies, m.side),
                s.nextOid);
    var t := Step(s, Serve, conf);
    var r := t.replies[|t.replies| - 1];
    RepliesAppend(s.replies, r, Buy);
    RepliesAppend(s.replies, r, Sell);
  }

  lemma FillInv(s: State, side: Side, exec: nat, conf: Conf)
    requires Inv(s, conf.positionMax) && s.live.Of(side).Some? && 0 < exec <= s.live.Of(side).value.remain
    ensures Inv(Step(s, Fill(side, exec), conf), conf.positionMax)
  {
    hide Standing;
    var x := s.live.Of(side).value;
    FillStands(s.slots.Of(side), MessagesOf(s.sent, side), x, RepliesOf(s.replies, side), s.nextOid, side, exec);
    var r := Reply.Filled(x.oid, side, exec, x.remain - exec);
    RepliesAppend(s.replies, r, Buy);
    RepliesAppend(s.replies, r, Sell);
  }

  lemma DeliverInv(s: State, conf: Conf)
    requires Inv(s, conf.positionMax) && s.replies != []
    ensures Inv(Step(s, Deliver, conf), conf.positionMax)
  {
    hide Standing;
    var r := s.replies[0];
    if !r.CancelRejected? {
      DeliverStands(s.slots.Of(r.side), MessagesOf(s.sent, r.side), s.live.Of(r.side), RepliesOf(s.replies, r.side),
                    s.nextOid);
    }
  }

  lemma StepInv(s: State, a: Action, conf: Conf)
    requires Inv(s, conf.positionMax) && Convertible(conf) && Unsigned(conf)
    ensures Inv(Step(s, a, conf), conf.positionMax)
  {
    match a
    case ManageOrder(_, _, _, _) => ManageInv(s, a, conf);
    case Serve => if s.sent != [] { ServeInv(s, conf); }
    case Fill(side, exec) =>
      if s.live.Of(side).Some? && 0 < exec <= s.live.Of(side).value.remain {
        FillInv(s, side, exec, conf);
      }
    case Deliver => if s.replies != [] { DeliverInv(s, conf); }
  }

  lemma {:induction false} RunInv(actions: seq<Action>, conf: Conf)
    requires Convertible(conf) && Unsigned(conf)
    ensures Inv(RunFrom(actions, conf), conf.positionMax)
  {
    if actions != [] {
      RunInv(actions[..|actions| - 1], conf);
      StepInv(RunFrom(actions[..|actions| - 1], conf), actions[|actions| - 1], conf);
    }
  }

  /**
   In every run, in every interleaving of requests, fills that race a cancel, and replies: neither
   the position nor the position with everything the slots have out stands beyond the limit.
   */
  lemma PositionLimited(actions: seq<Action>, conf: Conf)
    requires Convertible(conf) && Unsigned(conf)
    ensures var s := RunFrom(actions, conf);
            && s.position + Remaining(s.slots.buy) <= conf.positionMax
            && s.position - Remaining(s.slots.sell) >= 0 - conf.positionMax
            && Limited(s.position, conf.positionMax)
  {
    RunInv(actions, conf);
  }

  // ----- the same without a limit

  /** What a step of the exchange or a delivery does not look at. */
  lemma SameStep(s: State, a: Action, conf: Conf, other: Conf)
    requires !a.ManageOrder?
    ensures Step(s, a, conf) == Step(s, a, other)
  {
  }

  /** Slots, messages and live orders stay in their relation, whatever the configuration. */
  lemma StepStands(s: State, a: Action, conf: Conf)
    requires Stands(s)
    ensures Stands(Step(s, a, conf))
  {
    hide Step, SideStands;
    var limit := Abs(s.position) + Remaining(s.slots.buy) + Remaining(s.slots.sell);
    var wide := Conf(0, limit, 0.0);
    assert Inv(s, limit);
    if !a.ManageOrder? {
      SameStep(s, a, conf, wide);
      WideStep(s, a, wide);
    } else {
      ManageSides(s, a, conf);
    }
  }

  lemma WideStep(s: State, a: Action, conf: Conf)
    requires Inv(s, conf.positionMax) && !a.ManageOrder?
    ensures Inv(Step(s, a, conf), conf.positionMax)
  {
    hide Inv;
    match a
    case Serve => if s.sent != [] { ServeInv(s, conf); }
    case Fill(side, exec) =>
      if s.live.Of(side).Some? && 0 < exec <= s.live.Of(side).value.remain {
        FillInv(s, side, exec, conf);
      }
    case Deliver => if s.replies != [] { DeliverInv(s, conf); }
    case _ =>
  }

  lemma {:induction false} RunStands(actions: seq<Action>, conf: Conf)
    ensures Stands(RunFrom(actions, conf))
  {
    hide Step;
    if actions != [] {
      RunStands(actions[..|actions| - 1], conf);
      hide Stands;
      StepStands(RunFrom(actions[..|actions| - 1], conf), actions[|actions| - 1], conf);
    }
  }

  predicate Quiet(s: State) {
    s.sent == [] && s.replies == []
  }

  /**
   With nothing under way, a slot is live exactly as the exchange has it, or it has nothing live;
   it waits for a cancel only if it asked for an order of nothing.
   */
  lemma Quiescent(actions: seq<Action>, conf: Conf, side: Side)
    requires Quiet(RunFrom(actions, conf))
    ensures var slot, live := RunFrom(actions, conf).slots.Of(side), RunFrom(actions, conf).live.Of(side);
            && !slot.status.PendingNew?
            && (slot.status.PendingCancel? ==> slot.qty == 0)
            && live == if slot.status.Live? && slot.qty > 0 then Some(Resting(slot.oid, slot.qty)) else None
  {
    RunStands(actions, conf);
    assert SideStands(RunFrom(actions, conf), side);
  }

  // ----- a slot that waits for ever

  /** The slot waits for a cancel, and nothing of its side is under way or live. */
  predicate Waiting(s: State, side: Side) {
    && s.slots.Of(side).status == PendingCancel && s.live.Of(side) == None
    && MessagesOf(s.sent, side) == [] && RepliesOf(s.replies, side) == []
  }

  lemma WaitingStep(s: State, a: Action, conf: Conf, side: Side)
    requires Waiting(s, side)
    ensures Waiting(Step(s, a, conf), side) && Step(s, a, conf).slots.Of(side) == s.slots.Of(side)
  {
    hide TradeRisk;
    var t := Step(s, a, conf);
    if |t.sent| > |s.sent| {
      MessagesAppend(s.sent, t.sent[|s.sent|], side);
    }
    if a.Serve? || a.Fill? {
      if t.replies != s.replies {
        RepliesAppend(s.replies, t.replies[|s.replies|], side);
      }
    }
  }

  /** No later step changes a slot that waits like that. */
  lemma {:induction false} WaitsForEver(actions: seq<Action>, more: seq<Action>, conf: Conf, side: Side)
    requires Waiting(RunFrom(actions, conf), side)
    ensures Waiting(RunFrom(actions + more, conf), side)
    ensures RunFrom(actions + more, conf).slots.Of(side) == RunFrom(actions, conf).slots.Of(side)
    decreases more
  {
    hide Step, Waiting;
    if more == [] {
      assert actions + more == actions;
    } else {
      var before, last := more[..|more| - 1], more[|more| - 1];
      WaitsForEver(actions, before, conf, side);
      assert (actions + more)[..|actions + more| - 1] == actions + before;
      WaitingStep(RunFrom(actions + before, conf), last, conf, side);
    }
  }

  /** A trade size of this quantity, as the strategy is configured with. */
  predicate Trades(actions: seq<Action>, qty: nat) {
    forall i | 0 <= i < |actions| && actions[i].ManageOrder? :: actions[i].qty == qty
  }

  /** Every slot with an order out has something left to fill. */
  predicate Unfilled(s: State) {
    forall side: Side ::
      s.slots.Of(side).status == Invalid || s.slots.Of(side).status == Dead || s.slots.Of(side).qty > 0
  }

  lemma StepUnfilled(s: State, a: Action, conf: Conf)
    requires Stands(s) && Unfilled(s) && (a.ManageOrder? ==> a.qty > 0)
    ensures Unfilled(Step(s, a, conf))
  {
    hide TradeRisk, Leads;
    if a.Deliver? && s.replies != [] && !s.replies[0].CancelRejected? {
      var side := s.replies[0].side;
      assert SideStands(s, side);
      assert RepliesOf(s.replies, side)[0] == s.replies[0];
    }
  }

  lemma {:induction false} TradesUnfilled(actions: seq<Action>, qty: nat, conf: Conf)
    requires qty > 0 && Trades(actions, qty)
    ensures Unfilled(RunFrom(actions, conf))
  {
    hide Stands, Step, Unfilled;
    if actions == [] {
      StartUnfilled();
    } else {
      var before, last := actions[..|actions| - 1], actions[|actions| - 1];
      TradesUnfilled(before, qty, conf);
      RunStands(before, conf);
      StepUnfilled(RunFrom(before, conf), last, conf);
    }
  }

  lemma StartUnfilled()
    ensures Unfilled(START)
  {
  }

  /** A limit that wraps lets no order through. */
  lemma {:induction false} NothingSent(actions: seq<Action>, conf: Conf)
    requires Unsigned(conf) && conf.positionMax >= TWO31
    ensures RunFrom(actions, conf) == START
  {
    if actions != [] {
      NothingSent(actions[..|actions| - 1], conf);
    }
  }

  // ----- runs from any state

  function RunOn(s: State, actions: seq<Action>, conf: Conf): State
    decreases actions
  {
    if actions == [] then s else RunOn(Step(s, actions[0], conf), actions[1..], conf)
  }

  lemma {:induction false} RunFromOn(actions: seq<Action>, more: seq<Action>, conf: Conf)
    ensures RunFrom(actions + more, conf) == RunOn(RunFrom(actions, conf), more, conf)
    decreases more
  {
    if more == [] {
      assert actions + more == actions;
    } else {
      var next := actions + [more[0]];
      assert actions + more == next + more[1..];
      assert next[..|next| - 1] == actions;
      RunFromOn(next, more[1..], conf);
    }
  }

  lemma RunThree(s: State, a: Action, b: Action, c: Action, conf: Conf)
    ensures RunOn(s, [a, b, c], conf) == Step(Step(Step(s, a, conf), b, conf), c, conf)
  {
    hide Step;
    assert [a, b, c][1..] == [b, c] && [b, c][1..] == [c] && [c][1..] == [];
    assert RunOn(Step(Step(s, a, conf), b, conf), [c], conf) == Step(Step(Step(s, a, conf), b, conf), c, conf);
    assert RunOn(Step(s, a, conf), [b, c], conf) == RunOn(Step(Step(s, a, conf), b, conf), [c], conf);
  }

  /** An order of this quantity, accepted. */
  function Order(qty: nat, conf: Conf): seq<Action> {
    [ManageOrder(Buy, Some(1), qty, conf.lossMax), Serve, Deliver]
  }

  /** Nothing is out on the buy side, and nothing is under way. */
  predicate Idle(s: State) {
    Quiet(s) && s.live.buy == None && (s.slots.buy.status == Invalid || s.slots.buy.status == Dead)
  }

  lemma Ordered(s: State, qty: nat, conf: Conf)
    requires Idle(s) && TradeRisk(conf, s.position, conf.lossMax, Buy, qty) == Allowed
    ensures RunOn(s, Order(qty, conf), conf)
         == s.(slots := s.slots.With(Buy, Slot(Live, s.nextOid, 1, qty)), nextOid := s.nextOid + 1,
               live := s.live.With(Buy, if qty == 0 then None else Some(Resting(s.nextOid, qty))))
  {
    RunThree(s, ManageOrder(Buy, Some(1), qty, conf.lossMax), Serve, Deliver, conf);
    var m := NewOrder(s.nextOid, Buy, 1, qty);
    var s1 := s.(slots := s.slots.With(Buy, Slot(PendingNew, s.nextOid, 1, qty)),
                 sent := [m], nextOid := s.nextOid + 1);
    assert Step(s, ManageOrder(Buy, Some(1), qty, conf.lossMax), conf) == s1;
    var s2 := Step(s1, Serve, conf);
    assert s2.sent == [] && s2.replies == [Reply.Accepted(s.nextOid, Buy, qty)];
  }

  // ----- exactly when the limit holds

  lemma {:induction false} RunOnConcat(s: State, a: seq<Action>, b: seq<Action>, conf: Conf)
    ensures RunOn(s, a + b, conf) == RunOn(RunOn(s, a, conf), b, conf)
    decreases a
  {
    if a == [] {
      assert a + b == b;
    } else {
      assert (a + b)[1..] == a[1..] + b;
      RunOnConcat(Step(s, a[0], conf), a[1..], b, conf);
    }
  }

  /** An order of this quantity, accepted and filled at once. */
  function Bought(qty: nat, conf: Conf): seq<Action> {
    Order(qty, conf) + [Fill(Buy, qty), Deliver]
  }

  lemma Buys(s: State, qty: nat, conf: Conf)
    requires Idle(s) && qty > 0 && TradeRisk(conf, s.position, conf.lossMax, Buy, qty) == Allowed
    ensures var t := RunOn(s, Bought(qty, conf), conf); Idle(t) && t.position == s.position + qty
  {
    hide TradeRisk, Order;
    Ordered(s, qty, conf);
    RunOnConcat(s, Order(qty, conf), [Fill(Buy, qty), Deliver], conf);
    var s1 := RunOn(s, Order(qty, conf), conf);
    assert [Fill(Buy, qty), Deliver][1..] == [Deliver] && [Deliver][1..] == [];
    var s2 := s1.(live := s1.live.With(Buy, None), replies := [Reply.Filled(s.nextOid, Buy, qty, 0)]);
    assert Step(s1, Fill(Buy, qty), conf) == s2;
    assert RunOn(s1, [Fill(Buy, qty), Deliver], conf) == Step(s2, Deliver, conf);
  }

  /** Buying up to where the largest size wraps to a short position within the limit, and then that size. */
  lemma Overbuys(conf: Conf) returns (actions: seq<Action>)
    requires Unsigned(conf) && !Convertible(conf)
    ensures RunFrom(actions, conf).position > conf.positionMax
  {
    hide RunOn, RunFrom, Bought, TradeRisk;
    RunFromNone(conf);
    actions := [];
    var first := TWO32 - conf.sizeMax - conf.positionMax;
    if first > 0 {
      AllowedAt(conf, 0, first);
      Buys(START, first, conf);
      RunFromOn([], Bought(first, conf), conf);
      actions := [] + Bought(first, conf);
    }
    var s := RunFrom(actions, conf);
    AllowedAt(conf, s.position, conf.sizeMax);
    Buys(s, conf.sizeMax, conf);
    RunFromOn(actions, Bought(conf.sizeMax, conf), conf);
    actions := actions + Bought(conf.sizeMax, conf);
  }

  lemma AllowedAt(conf: Conf, position: int, qty: nat)
    requires qty <= conf.sizeMax && conf.positionMax < TWO31 && Limited(position + ToInt32(qty), conf.positionMax)
    ensures TradeRisk(conf, position, conf.lossMax, Buy, qty) == Allowed
  {
  }

  /** The position stays within the limit in every run exactly when the configured sizes leave no room to wrap. */
  lemma LimitedIff(conf: Conf)
    requires Unsigned(conf)
    ensures Convertible(conf) <==> forall actions :: Limited(RunFrom(actions, conf).position, conf.positionMax)
  {
    if Convertible(conf) {
      forall actions: seq<Action>
        ensures Limited(RunFrom(actions, conf).position, conf.positionMax)
      {
        PositionLimited(actions, conf);
      }
    } else {
      var actions := Overbuys(conf);
      assert !Limited(RunFrom(actions, conf).position, conf.positionMax);
    }
  }

  // ----- exactly when a slot waits for ever

  /** An order for nothing, then a cancel of it, each handled by the exchange and its reply delivered. */
  function Nothing(conf: Conf): seq<Action> {
    Order(0, conf) + [ManageOrder(Buy, None, 0, conf.lossMax), Serve, Deliver]
  }

  lemma NothingWaits(conf: Conf)
    requires conf.positionMax < TWO31
    ensures Trades(Nothing(conf), 0)
    ensures var s := RunFrom(Nothing(conf), conf); Quiet(s) && Waiting(s, Buy)
  {
    hide RunFrom, RunOn;
    Ordered(START, 0, conf);
    RunFromOn([], Order(0, conf), conf);
    assert [] + Order(0, conf) == Order(0, conf);
    RunFromNone(conf);
    var s := RunFrom(Order(0, conf), conf);
    RunFromOn(Order(0, conf), [ManageOrder(Buy, None, 0, conf.lossMax), Serve, Deliver], conf);
    RunThree(s, ManageOrder(Buy, None, 0, conf.lossMax), Serve, Deliver, conf);
    CancelWaits(s, conf);
  }

  lemma RunFromNone(conf: Conf)
    ensures RunFrom([], conf) == START
  {
  }

  lemma CancelWaits(s: State, conf: Conf)
    requires Quiet(s) && s.live.buy == None && s.slots.buy.status == Live
    ensures var t := Step(Step(Step(s, ManageOrder(Buy, None, 0, conf.lossMax), conf), Serve, conf), Deliver, conf);
            Quiet(t) && Waiting(t, Buy)
  {
    var s1 := s.(slots := s.slots.With(Buy, s.slots.buy.(status := PendingCancel)),
                 sent := [Message.CancelOrder(s.slots.buy.oid, Buy)]);
    assert Step(s, ManageOrder(Buy, None, 0, conf.lossMax), conf) == s1;
    var s2 := s1.(sent := [], replies := [Reply.CancelRejected]);
    assert Step(s1, Serve, conf) == s2;
    assert Step(s2, Deliver, conf) == s2.(replies := []);
  }

  /** In some run a slot of a strategy of this trade size is left waiting with nothing under way. */
  ghost predicate CanWait(qty: nat, conf: Conf) {
    exists actions, side: Side ::
      && Trades(actions, qty) && Quiet(RunFrom(actions, conf))
      && RunFrom(actions, conf).slots.Of(side).status == PendingCancel
  }

  /**
   A strategy's slot can be left waiting for a cancel with nothing under way exactly when its trade
   size is 0 and the configuration lets orders through at all. No later step changes such a slot.
   */
  lemma WaitsIffNothing(qty: nat, conf: Conf)
    requires Unsigned(conf)
    ensures CanWait(qty, conf) <==> qty == 0 && conf.positionMax < TWO31
  {
    hide RunFrom, Trades, Unfilled, Waiting, Nothing;
    if qty == 0 && conf.positionMax < TWO31 {
      NothingWaits(conf);
      WaitingStatus(RunFrom(Nothing(conf), conf), Buy);
    }
    forall actions: seq<Action>, side: Side | Trades(actions, qty) && Quiet(RunFrom(actions, conf))
      ensures qty > 0 || conf.positionMax >= TWO31 ==> RunFrom(actions, conf).slots.Of(side).status != PendingCancel
    {
      if qty > 0 {
        TradesUnfilled(actions, qty, conf);
        Quiescent(actions, conf, side);
        UnfilledAt(RunFrom(actions, conf), side);
      } else if conf.positionMax >= TWO31 {
        NothingSent(actions, conf);
      }
    }
  }

  /** With nothing under way, a slot that waits for a cancel waits for ever. */
  lemma QuietWaitsForEver(actions: seq<Action>, more: seq<Action>, conf: Conf, side: Side)
    requires Quiet(RunFrom(actions, conf)) && RunFrom(actions, conf).slots.Of(side).status == PendingCancel
    ensures RunFrom(actions + more, conf).slots.Of(side) == RunFrom(actions, conf).slots.Of(side)
  {
    hide RunFrom;
    Quiescent(actions, conf, side);
    WaitsForEver(actions, more, conf, side);
  }

  lemma UnfilledAt(s: State, side: Side)
    requires Unfilled(s)
    ensures s.slots.Of(side).status == PendingCancel ==> s.slots.Of(side).qty > 0
  {
  }

  lemma WaitingStatus(s: State, side: Side)
    requires Waiting(s, side)
    ensures s.slots.Of(side).status == PendingCancel
  {
  }

  // ----- slots updated in place

  class OMOrder {
    var status: Status
    var oid: nat
    var price: int
    var qty: nat

    function View(): Slot
      reads this
    {
      Slot(status, oid, price, qty)
    }

    constructor ()
      ensures View() == NO_SLOT
    {
      status, oid, price, qty := Invalid, 0, 0, 0;
    }
  }

  class OrderManager {
    const conf: Conf
    const buy: OMOrder
    const sell: OMOrder
    var nextOid: nat
    var sent: seq<Message>

    constructor (conf: Conf)
      ensures this.conf == conf && nextOid == 1 && sent == [] && buy != sell && fresh(buy) && fresh(sell)
      ensures buy.View() == sell.View() == NO_SLOT
    {
      this.conf := conf;
      buy := new OMOrder();
      sell := new OMOrder();
      nextOid, sent := 1, [];
    }

    function Order(side: Side): OMOrder {
      if side.Buy? then buy else sell
    }

    method RequestNewOrder(order: OMOrder, price: int, side: Side, qty: nat)
      modifies this`nextOid, this`sent, order
      ensures sent == old(sent) + [NewOrder(old(nextOid), side, price, qty)] && nextOid == old(nextOid) + 1
      ensures order.View() == Slot(PendingNew, old(nextOid), price, qty)
    {
      sent := sent + [NewOrder(nextOid, side, price, qty)];
      order.status, order.oid, order.price, order.qty := PendingNew, nextOid, price, qty;
      nextOid := nextOid + 1;
    }

    method RequestCancelOrder(order: OMOrder, side: Side)
      modifies this`sent, order`status
      ensures sent == old(sent) + [Message.CancelOrder(order.oid, side)]
      ensures order.View() == old(order.View()).(status := PendingCancel)
    {
      sent := sent + [Message.CancelOrder(order.oid, side)];
      order.status := PendingCancel;
    }

    /** Places, replaces or leaves the order of a slot. */
    method ManageOrder(order: OMOrder, side: Side, price: Option<int>, qty: nat, position: int, pnl: real)
      modifies this`nextOid, this`sent, order
      ensures var (slot, m) := Manage(old(order.View()), conf, position, pnl, old(nextOid), side, price, qty);
              && order.View() == slot
              && sent == (if m.None? then old(sent) else old(sent) + [m.value])
              && nextOid == (if m.Some? && m.value.NewOrder? then old(nextOid) + 1 else old(nextOid))
    {
      match order.status {
        case Live =>
          if price != Some(order.price) {
            RequestCancelOrder(order, side);
          }
        case PendingNew =>
        case PendingCancel =>
        case _ =>
          if price.Some? {
            if TradeRisk(conf, position, pnl, side, qty) == Allowed {
              RequestNewOrder(order, price.value, side, qty);
            }
          }
      }
    }

    /** Follows the exchange's reply in the slot of its side. */
    method OnOrderResponse(r: Reply)
      requires buy != sell
      modifies buy, sell
      ensures r.CancelRejected? ==> buy.View() == old(buy.View()) && sell.View() == old(sell.View())
      ensures !r.CancelRejected? ==>
                && Order(r.side).View() == OnReply(old(Order(r.side).View()), r)
                && Order(Opposite(r.side)).View() == old(Order(Opposite(r.side)).View())
    {
      match r {
        case Accepted(_, side, _) => Order(side).status := Live;
        case Cancelled(_, side, _) => Order(side).status := Dead;
        case Filled(_, side, _, remain) =>
          var order := Order(side);
          order.qty := remain;
          if order.qty == 0 {
            order.status := Dead;
          }
        case CancelRejected =>
      }
    }
  }
}
