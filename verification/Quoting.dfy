/**
 What a client's slots do with a quote, said without the slot's own decision: when an order is let
 through, kept, placed or cancelled, and where repeating a quote ends.
 */
module Quoting {
  import opened Types
  import opened OrderSlots

  // ----- the risk check

  /** `w` is the 32-bit signed number of the same bits as `q`. */
  predicate SameBits(q: nat, w: int) {
    -0x8000_0000 <= w < 0x8000_0000 && (w == q || w == q - 0x1_0000_0000)
  }

  /** An order of `w` on this side leaves the position within the limit. */
  predicate Fits(position: int, side: Side, w: int, limit: int) {
    match side
    case Buy => 0 - limit <= position + w <= limit
    case Sell => 0 - limit <= position - w <= limit
  }

  /** Each answer of the risk check is given in exactly one case: size first, then position, then loss. */
  lemma RiskAnswers(conf: Conf, position: int, pnl: real, side: Side, qty: nat, w: int, limit: int)
    requires SameBits(qty, w) && SameBits(conf.positionMax, limit)
    ensures var r := TradeRisk(conf, position, pnl, side, qty);
            && (r == SizeTooLarge <==> qty > conf.sizeMax)
            && (r == PositionTooLarge <==> qty <= conf.sizeMax && !Fits(position, side, w, limit))
            && (r == LossTooLarge <==> qty <= conf.sizeMax && Fits(position, side, w, limit) && pnl < conf.lossMax)
            && (r == Allowed <==> qty <= conf.sizeMax && Fits(position, side, w, limit) && pnl >= conf.lossMax)
  {
  }

  /** A higher profit never turns an order away that was let through, and turns no other refusal into one for loss. */
  lemma ProfitHelps(conf: Conf, position: int, pnl: real, more: real, side: Side, qty: nat)
    requires pnl <= more
    ensures TradeRisk(conf, position, pnl, side, qty) == Allowed
            ==> TradeRisk(conf, position, more, side, qty) == Allowed
    ensures TradeRisk(conf, position, pnl, side, qty) != LossTooLarge
            ==> TradeRisk(conf, position, more, side, qty) == TradeRisk(conf, position, pnl, side, qty)
  {
  }

  // ----- one quote

  /** The order of a slot is neither waiting for a reply nor live. */
  predicate Out(slot: Slot) {
    slot.status == Invalid || slot.status == Dead
  }

  /** The whole effect of a quote on a slot in any state, with the limits of the risk check written out. */
  lemma Quoted(s: State, side: Side, price: Option<int>, qty: nat, pnl: real, conf: Conf, w: int, limit: int)
    requires SameBits(qty, w) && SameBits(conf.positionMax, limit)
    ensures var t, slot := Step(s, ManageOrder(side, price, qty, pnl), conf), s.slots.Of(side);
            && (slot.status == Live ==>
                  && (t.slots.Of(side).status == Live <==> price == Some(slot.price))
                  && t == if price == Some(slot.price) then s
                          else s.(sent := s.sent + [Message.CancelOrder(slot.oid, side)],
                                  slots := s.slots.With(side, slot.(status := PendingCancel))))
            && (slot.status == PendingNew || slot.status == PendingCancel ==> t == s)
            && (Out(slot) ==>
                  if price.Some? && qty <= conf.sizeMax && Fits(s.position, side, w, limit) && pnl >= conf.lossMax then
                    && t.slots == s.slots.With(side, Slot(PendingNew, s.nextOid, price.value, qty))
                    && t.sent == s.sent + [NewOrder(s.nextOid, side, price.value, qty)]
                    && t.nextOid == s.nextOid + 1
                    && (t.live, t.replies, t.position) == (s.live, s.replies, s.position)
                  else t == s)
  {
    hide TradeRisk;
    RiskAnswers(conf, s.position, pnl, side, qty, w, limit);
    assert s.slots.With(side, s.slots.Of(side)) == s.slots;
  }

  // ----- every message of a run

  /** What a quote adds to the messages under way, if anything. */
  function Added(s: State, a: Action, conf: Conf): Option<Message> {
    var t := Step(s, a, conf);
    if a.ManageOrder? && |t.sent| > |s.sent| then Some(t.sent[|s.sent|]) else None
  }

  /** What the slots have sent in all. */
  function AllSent(actions: seq<Action>, conf: Conf): seq<Message> {
    if actions == [] then []
    else
      var before, last := actions[..|actions| - 1], actions[|actions| - 1];
      var m := Added(RunFrom(before, conf), last, conf);
      AllSent(before, conf) + if m.Some? then [m.value] else []
  }

  /** The quote `a` in state `s` is a reason to send `m`. */
  predicate Reason(s: State, a: Action, m: Message, conf: Conf) {
    && a.ManageOrder? && a.side == m.side
    && match m
       case NewOrder(oid, side, price, qty) =>
         && Out(s.slots.Of(side)) && oid == s.nextOid && a.price == Some(price) && a.qty == qty
         && qty <= conf.sizeMax && a.pnl >= conf.lossMax
       case CancelOrder(oid, side) =>
         s.slots.Of(side).status == Live && s.slots.Of(side).oid == oid && a.price != Some(s.slots.Of(side).price)
  }

  /** The last order asked for on a side. */
  function LastNew(ms: seq<Message>, side: Side): Option<Message> {
    if ms == [] then None
    else
      var m := ms[|ms| - 1];
      if m.NewOrder? && m.side == side then Some(m) else LastNew(ms[..|ms| - 1], side)
  }

  /** The slot has the id and the price of the last order it asked for. */
  predicate SlotIs(slot: Slot, m: Option<Message>) {
    match m
    case None => slot == NO_SLOT
    case Some(m) => slot.status != Invalid && m.NewOrder? && slot.oid == m.oid && slot.price == m.price
  }

  lemma ManageSends(s: State, a: Action, conf: Conf)
    ensures a.ManageOrder? ==>
              Step(s, a, conf).sent == if Added(s, a, conf).Some? then s.sent + [Added(s, a, conf).value] else s.sent
    ensures Added(s, a, conf).Some? ==> Reason(s, a, Added(s, a, conf).value, conf)
  {
  }

  lemma ManageSlotIs(s: State, a: Action, conf: Conf, ms: seq<Message>, side: Side)
    requires SlotIs(s.slots.Of(side), LastNew(ms, side)) && a.ManageOrder?
    ensures var m := Added(s, a, conf);
            SlotIs(Step(s, a, conf).slots.Of(side), LastNew(if m.Some? then ms + [m.value] else ms, side))
  {
    hide TradeRisk;
    var m := Added(s, a, conf);
    if m.Some? {
      assert (ms + [m.value])[..|ms|] == ms;
    }
  }

  lemma OtherSlotIs(s: State, a: Action, conf: Conf, m: Option<Message>, side: Side)
    requires Stands(s) && SlotIs(s.slots.Of(side), m) && !a.ManageOrder?
    ensures SlotIs(Step(s, a, conf).slots.Of(side), m)
  {
    hide TradeRisk, Leads, LastNew;
    if a.Deliver? && s.replies != [] && !s.replies[0].CancelRejected? {
      var of := s.replies[0].side;
      assert SideStands(s, of);
      assert RepliesOf(s.replies, of)[0] == s.replies[0];
    }
  }

  /**
   In every run: a NEW carries the price and the quantity of a quote made while nothing was out, within the size
   limit and with the profit not below the loss limit; a CANCEL is for the live order, quoted at another price.
   */
  lemma {:induction false} SentForReason(actions: seq<Action>, conf: Conf, k: nat)
    requires k < |AllSent(actions, conf)|
    ensures exists i | 0 <= i < |actions| ::
              Reason(RunFrom(actions[..i], conf), actions[i], AllSent(actions, conf)[k], conf)
  {
    hide RunFrom, Reason;
    var n := |actions| - 1;
    var before, last := actions[..n], actions[n];
    if k < |AllSent(before, conf)| {
      SentForReason(before, conf, k);
      var i :| 0 <= i < n && Reason(RunFrom(before[..i], conf), before[i], AllSent(before, conf)[k], conf);
      assert before[..i] == actions[..i];
      assert Reason(RunFrom(actions[..i], conf), actions[i], AllSent(actions, conf)[k], conf);
    } else {
      ManageSends(RunFrom(before, conf), last, conf);
      assert Reason(RunFrom(actions[..n], conf), actions[n], AllSent(actions, conf)[k], conf);
    }
  }

  lemma NoneSent(side: Side)
    ensures LastNew([], side) == None
  {
  }

  /** In every run the slot of a side is that of the last order sent for it: its id and its price. */
  lemma {:induction false} SlotIsLastSent(actions: seq<Action>, conf: Conf, side: Side)
    ensures SlotIs(RunFrom(actions, conf).slots.Of(side), LastNew(AllSent(actions, conf), side))
  {
    hide Step, Stands, LastNew;
    if actions == [] {
      NoneSent(side);
    } else {
      var before, last := actions[..|actions| - 1], actions[|actions| - 1];
      SlotIsLastSent(before, conf, side);
      RunStands(before, conf);
      var s := RunFrom(before, conf);
      assert AllSent(before, conf) + [] == AllSent(before, conf);
      if last.ManageOrder? {
        ManageSlotIs(s, last, conf, AllSent(before, conf), side);
      } else {
        OtherSlotIs(s, last, conf, LastNew(AllSent(before, conf), side), side);
      }
    }
  }

  // ----- the same quote again and again

  /** A quote, then the exchange handles a message and the client a reply, if there is any. */
  function Round(side: Side, price: int, qty: nat, pnl: real): seq<Action> {
    [ManageOrder(side, Some(price), qty, pnl), Serve, Deliver]
  }

  function Rounds(n: nat, side: Side, price: int, qty: nat, pnl: real): seq<Action> {
    if n == 0 then [] else Round(side, price, qty, pnl) + Rounds(n - 1, side, price, qty, pnl)
  }

  /** A quiet state as a run leaves it: `Quiescent` says that every one is. */
  predicate Settled(s: State, side: Side) {
    && Quiet(s) && !s.slots.Of(side).status.PendingNew?
    && s.live.Of(side) == if s.slots.Of(side).status.Live? && s.slots.Of(side).qty > 0
                          then Some(Resting(s.slots.Of(side).oid, s.slots.Of(side).qty)) else None
  }

  /** What a round does to a quiet state. */
  lemma RoundEnds(s: State, side: Side, price: int, qty: nat, pnl: real, conf: Conf)
    requires Settled(s, side) && TradeRisk(conf, s.position, pnl, side, qty) == Allowed
    ensures var t, slot := RunOn(s, Round(side, price, qty, pnl), conf), s.slots.Of(side);
            if Out(slot) then
              t == s.(slots := s.slots.With(side, Slot(Live, s.nextOid, price, qty)), nextOid := s.nextOid + 1,
                      live := s.live.With(side, if qty == 0 then None else Some(Resting(s.nextOid, qty))))
            else if slot.status == Live && slot.price != price then
              t == s.(slots := s.slots.With(side, slot.(status := if slot.qty > 0 then Dead else PendingCancel)),
                      live := s.live.With(side, None))
            else t == s
  {
    hide TradeRisk, RunOn;
    var a, slot := ManageOrder(side, Some(price), qty, pnl), s.slots.Of(side);
    RunThree(s, a, Serve, Deliver, conf);
    var s1 := Step(s, a, conf);
    var s2 := Step(s1, Serve, conf);
    assert s.slots.With(side, slot) == s.slots;
    if Out(slot) {
      assert s1.sent == [NewOrder(s.nextOid, side, price, qty)];
      assert s2.sent == [] && s2.replies == [Reply.Accepted(s.nextOid, side, qty)];
    } else if slot.status == Live && slot.price != price {
      assert s1.sent == [Message.CancelOrder(slot.oid, side)];
      assert s2.sent == [] && |s2.replies| == 1 && s2.replies[1..] == [];
      assert s.live.With(side, s.live.Of(side)) == s.live;
    } else {
      assert s1 == s;
    }
  }

  /** A slot that no quote at this price can bring back: it waits for the cancel of an order for nothing, or will. */
  predicate Stuck(slot: Slot, price: int) {
    slot.status == PendingCancel || (slot.status == Live && slot.price != price && slot.qty == 0)
  }

  lemma {:induction false} Stays(s: State, n: nat, side: Side, price: int, qty: nat, pnl: real, conf: Conf)
    requires Settled(s, side) && TradeRisk(conf, s.position, pnl, side, qty) == Allowed
    requires var slot := s.slots.Of(side);
             slot.status == PendingCancel || (slot.status == Live && slot.price == price)
    ensures RunOn(s, Rounds(n, side, price, qty, pnl), conf) == s
    decreases n
  {
    hide TradeRisk, Round;
    if n > 0 {
      RoundEnds(s, side, price, qty, pnl, conf);
      RunOnConcat(s, Round(side, price, qty, pnl), Rounds(n - 1, side, price, qty, pnl), conf);
      Stays(s, n - 1, side, price, qty, pnl, conf);
    }
  }

  /**
   From any quiet state of any run, two or more rounds of one allowed quote end with that order live, here and
   at the exchange, exactly when the slot is not stuck: it is left alone if it was there, and is otherwise
   cancelled and placed anew. Nothing else of the state changes.
   */
  lemma QuoteSettles(actions: seq<Action>, n: nat, side: Side, price: int, qty: nat, pnl: real, conf: Conf)
    requires var s := RunFrom(actions, conf);
             Quiet(s) && TradeRisk(conf, s.position, pnl, side, qty) == Allowed
    requires n >= 2
    ensures var s, t := RunFrom(actions, conf), RunFrom(actions + Rounds(n, side, price, qty, pnl), conf);
            var slot := s.slots.Of(side);
            && (t.slots.Of(side).status == Live && t.slots.Of(side).price == price <==> !Stuck(slot, price))
            && (!Stuck(slot, price) ==>
                  t == if slot.status == Live && slot.price == price then s
                       else s.(slots := s.slots.With(side, Slot(Live, s.nextOid, price, qty)), nextOid := s.nextOid + 1,
                               live := s.live.With(side, if qty == 0 then None else Some(Resting(s.nextOid, qty)))))
  {
    hide TradeRisk, RunFrom, RunOn, Round;
    var s, rounds := RunFrom(actions, conf), Rounds(n, side, price, qty, pnl);
    Quiescent(actions, conf, side);
    RunFromOn(actions, rounds, conf);
    var one, more := Round(side, price, qty, pnl), Rounds(n - 1, side, price, qty, pnl);
    RunOnConcat(s, one, more, conf);
    RoundEnds(s, side, price, qty, pnl, conf);
    var s1 := RunOn(s, one, conf);
    if s1.slots.Of(side).status == Dead {
      var rest := Rounds(n - 2, side, price, qty, pnl);
      RunOnConcat(s1, one, rest, conf);
      RoundEnds(s1, side, price, qty, pnl, conf);
      Stays(RunOn(s1, one, conf), n - 2, side, price, qty, pnl, conf);
    } else {
      Stays(s1, n - 1, side, price, qty, pnl, conf);
    }
  }

  // ----- the position

  /** What replies under way report as filled on a side. */
  function InFlight(rs: seq<Reply>, side: Side): nat {
    if rs == [] then 0
    else (if rs[0].Filled? && rs[0].side == side then rs[0].exec else 0) + InFlight(rs[1..], side)
  }

  lemma {:induction false} InFlightConcat(rs: seq<Reply>, qs: seq<Reply>, side: Side)
    ensures InFlight(rs + qs, side) == InFlight(rs, side) + InFlight(qs, side)
  {
    if rs == [] {
      assert rs + qs == qs;
    } else {
      assert (rs + qs)[1..] == rs[1..] + qs;
      InFlightConcat(rs[1..], qs, side);
    }
  }

  lemma InFlightAppend(rs: seq<Reply>, r: Reply, side: Side)
    ensures InFlight(rs + [r], side) == InFlight(rs, side) + if r.Filled? && r.side == side then r.exec else 0
  {
    assert [r][1..] == [];
    InFlightConcat(rs, [r], side);
  }

  /** What a step of the exchange fills of the client's order on a side. */
  function Exec(s: State, a: Action, side: Side): nat {
    if a.Fill? && a.side == side && s.live.Of(side).Some? && a.exec <= s.live.Of(side).value.remain then a.exec else 0
  }

  /** What the exchange has filled of the client's orders on a side. */
  function FilledQty(actions: seq<Action>, conf: Conf, side: Side): nat {
    if actions == [] then 0
    else
      var before, last := actions[..|actions| - 1], actions[|actions| - 1];
      FilledQty(before, conf, side) + Exec(RunFrom(before, conf), last, side)
  }

  /** What is booked and under way is all that was filled. */
  predicate Books(s: State, bought: nat, sold: nat) {
    s.position + InFlight(s.replies, Buy) - InFlight(s.replies, Sell) == bought - sold
  }

  lemma StepBooks(s: State, a: Action, conf: Conf, bought: nat, sold: nat)
    requires Books(s, bought, sold)
    ensures Books(Step(s, a, conf), bought + Exec(s, a, Buy), sold + Exec(s, a, Sell))
  {
    hide TradeRisk;
    var t := Step(s, a, conf);
    if |t.replies| > |s.replies| {
      var r := t.replies[|s.replies|];
      assert t.replies == s.replies + [r];
      InFlightAppend(s.replies, r, Buy);
      InFlightAppend(s.replies, r, Sell);
    }
  }

  /**
   In every run the position is what the exchange has filled, bought less sold, once the replies under way are
   counted in; with none under way it is exactly that.
   */
  lemma {:induction false} PositionIsFilled(actions: seq<Action>, conf: Conf)
    ensures var s := RunFrom(actions, conf);
            s.position + InFlight(s.replies, Buy) - InFlight(s.replies, Sell)
            == FilledQty(actions, conf, Buy) - FilledQty(actions, conf, Sell)
  {
    hide Step, InFlight, Exec;
    if actions == [] {
      NoneInFlight();
    } else {
      var before, last := actions[..|actions| - 1], actions[|actions| - 1];
      PositionIsFilled(before, conf);
      StepBooks(RunFrom(before, conf), last, conf, FilledQty(before, conf, Buy), FilledQty(before, conf, Sell));
    }
  }

  lemma NoneInFlight()
    ensures InFlight([], Buy) == 0 == InFlight([], Sell)
  {
  }
}
