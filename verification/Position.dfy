/**
 A client's position in one instrument, its profit and loss, and a plain cash ledger of the same
 fills. Prices are whole numbers; amounts are reals, so rounding is not modelled.
 */
module Positions {
  import opened Types
  import opened BestOffer

  datatype Fill = Fill(side: Side, price: int, qty: nat)

  // ----- amounts

  /** A quantity at a price. */
  function Amount(price: real, qty: int): real {
    price * qty as real
  }

  /** The price per piece of an amount. */
  function Per(amount: real, qty: int): real
    requires qty != 0
  {
    amount / qty as real
  }

  lemma PerAmount(x: real, n: int)
    requires n != 0
    ensures Amount(Per(x, n), n) == x && Per(Amount(x, n), n) == x
  {
  }

  lemma AmountSum(x: real, m: int, n: int)
    ensures Amount(x, m + n) == Amount(x, m) + Amount(x, n)
  {
    assert (m + n) as real == m as real + n as real;
  }

  lemma AmountNegated(x: real, n: int)
    ensures Amount(x, -n) == -Amount(x, n) && Amount(x, 0) == 0.0
  {
  }

  lemma AmountLess(x: real, y: real, n: int)
    ensures Amount(x - y, n) == Amount(x, n) - Amount(y, n)
  {
  }

  lemma AmountOrder(x: real, y: real, n: nat)
    ensures x <= y ==> Amount(x, n) <= Amount(y, n)
    ensures n > 0 && Amount(x, n) <= Amount(y, n) ==> x <= y
  {
    AmountLess(y, x, n);
    SignOfAmount(y - x, n);
  }

  lemma SignOfAmount(x: real, n: nat)
    ensures x >= 0.0 ==> Amount(x, n) >= 0.0
    ensures n > 0 && Amount(x, n) >= 0.0 ==> x >= 0.0
  {
  }

  // ----- the account

  /** The cost of the open position per side, and the two parts of profit and loss. */
  datatype Account = Account(position: int, bought: real, sold: real, pnlReal: real, pnlUnreal: real, volume: nat) {
    function Total(): real {
      pnlReal + pnlUnreal
    }

    function Cost(side: Side): real {
      if side.Buy? then bought else sold
    }

    function Costing(side: Side, cost: real): Account {
      if side.Buy? then this.(bought := cost, sold := 0.0) else this.(bought := 0.0, sold := cost)
    }
  }

  const FLAT := Account(0, 0.0, 0.0, 0.0, 0.0, 0)

  /** A quantity counted positive for a buy and negative for a sell. */
  function Signed(side: Side, qty: int): int {
    if side.Buy? then qty else -qty
  }

  function Abs(x: int): nat {
    if x < 0 then -x else x
  }

  /** The cost of the open position. */
  function OpenCost(a: Account): real {
    if a.position > 0 then a.bought else a.sold
  }

  /** The average price at which the open position was entered. */
  function Average(a: Account): real
    requires a.position != 0
  {
    Per(OpenCost(a), Abs(a.position))
  }

  /** Only the side of the open position carries a cost. */
  predicate Valid(a: Account) {
    (a.position <= 0 ==> a.bought == 0.0) && (a.position >= 0 ==> a.sold == 0.0)
  }

  /** The open position valued at a price, less what it cost. */
  function Unrealized(a: Account, price: real): real {
    if a.position > 0 then Amount(price, a.position) - a.bought
    else if a.position < 0 then a.sold + Amount(price, a.position)
    else 0.0
  }

  /** Costs and realized profit after a fill: opening or increasing, reducing or closing, or flipping. */
  function Booked(a: Account, f: Fill): Account {
    var next := a.position + Signed(f.side, f.qty);
    var b := a.(position := next, volume := a.volume + f.qty);
    if Signed(f.side, a.position) >= 0 then
      b.Costing(f.side, if next == 0 then 0.0 else a.Cost(f.side) + Amount(f.price as real, f.qty))
    else if f.qty <= Abs(a.position) then
      b.Costing(Opposite(f.side), Amount(Average(a), Abs(next)))
       .(pnlReal := a.pnlReal + Amount(Average(a) - f.price as real, Signed(f.side, f.qty)))
    else
      b.Costing(f.side, Amount(f.price as real, Abs(next)))
       .(pnlReal := a.pnlReal + Amount(Average(a) - f.price as real, -a.position))
  }

  function AfterFill(a: Account, f: Fill): Account {
    var b := Booked(a, f);
    b.(pnlUnreal := Unrealized(b, f.price as real))
  }

  /** With both sides of the market known, an open position is valued at the mid. */
  function AfterQuote(a: Account, bbo: Bbo): Account {
    if a.position != 0 && bbo.bid.Some? && bbo.ask.Some? then a.(pnlUnreal := Unrealized(a, Mid(bbo))) else a
  }

  function Mid(bbo: Bbo): real
    requires bbo.bid.Some? && bbo.ask.Some?
  {
    (bbo.bid.value.price + bbo.ask.value.price) as real * 0.5
  }

  function AccountOf(fills: seq<Fill>): Account {
    if fills == [] then FLAT else AfterFill(AccountOf(fills[..|fills| - 1]), fills[|fills| - 1])
  }

  // ----- the ledger: money in, money out

  function Paid(cash: real, f: Fill): real {
    cash - Amount(f.price as real, Signed(f.side, f.qty))
  }

  function Cash(fills: seq<Fill>): real {
    if fills == [] then 0.0 else Paid(Cash(fills[..|fills| - 1]), fills[|fills| - 1])
  }

  /** What realized profit means: cash, plus what the open position cost. */
  predicate Reconciled(a: Account, cash: real) {
    Valid(a) && a.pnlReal == cash + a.bought - a.sold
  }

  lemma BookedReconciled(a: Account, f: Fill, cash: real)
    requires Reconciled(a, cash)
    ensures Reconciled(Booked(a, f), Paid(cash, f))
  {
    hide Amount, Per;
    var next, price := a.position + Signed(f.side, f.qty), f.price as real;
    AmountNegated(price, f.qty);
    if Signed(f.side, a.position) < 0 {
      var avg := Average(a);
      PerAmount(OpenCost(a), Abs(a.position));
      AmountNegated(avg, f.qty);
      AmountNegated(avg, Abs(a.position));
      if f.qty <= Abs(a.position) {
        AmountLess(avg, price, Signed(f.side, f.qty));
        AmountSum(avg, Abs(next), f.qty);
      } else {
        AmountLess(avg, price, -a.position);
        AmountNegated(price, a.position);
        AmountNegated(price, next);
        AmountSum(price, a.position, Signed(f.side, f.qty));
      }
    }
  }

  lemma {:induction false} LedgerReconciled(fills: seq<Fill>)
    ensures Reconciled(AccountOf(fills), Cash(fills))
  {
    hide Amount, Per, Booked;
    if fills != [] {
      var before, f := fills[..|fills| - 1], fills[|fills| - 1];
      LedgerReconciled(before);
      BookedReconciled(AccountOf(before), f, Cash(before));
    }
  }

  lemma WorthAt(a: Account, cash: real, price: real)
    requires Reconciled(a, cash)
    ensures a.pnlReal + Unrealized(a, price) == cash + Amount(price, a.position)
  {
    hide Amount;
    AmountNegated(price, 0);
  }

  // ----- fills and quotes in any order

  datatype Event = Filled(fill: Fill) | Quoted(bbo: Bbo)

  function AccountAfter(events: seq<Event>): Account {
    if events == [] then FLAT
    else
      var before := AccountAfter(events[..|events| - 1]);
      match events[|events| - 1]
      case Filled(f) => AfterFill(before, f)
      case Quoted(bbo) => AfterQuote(before, bbo)
  }

  function FillsOf(events: seq<Event>): seq<Fill> {
    if events == [] then []
    else
      var before := FillsOf(events[..|events| - 1]);
      if events[|events| - 1].Filled? then before + [events[|events| - 1].fill] else before
  }

  /** The price of the last fill, or the mid of a later quote with both prices known. */
  function Mark(events: seq<Event>): real {
    if events == [] then 0.0
    else
      match events[|events| - 1]
      case Filled(f) => f.price as real
      case Quoted(bbo) => if bbo.bid.Some? && bbo.ask.Some? then Mid(bbo) else Mark(events[..|events| - 1])
  }

  /** Quotes touch nothing but the unrealized part. */
  lemma {:induction false} QuotesRevalue(events: seq<Event>)
    ensures AccountAfter(events).(pnlUnreal := 0.0) == AccountOf(FillsOf(events)).(pnlUnreal := 0.0)
    ensures AccountAfter(events).pnlUnreal == Unrealized(AccountAfter(events), Mark(events))
  {
    hide Booked, Mid, Amount;
    if events != [] {
      var before, last := events[..|events| - 1], events[|events| - 1];
      QuotesRevalue(before);
      if last.Filled? {
        assert FillsOf(events)[..|FillsOf(before)|] == FillsOf(before);
        SameFill(AccountAfter(before), AccountOf(FillsOf(before)), last.fill);
        SameWorth(Booked(AccountAfter(before), last.fill), AccountAfter(events), last.fill.price as real);
      } else if last.bbo.bid.Some? && last.bbo.ask.Some? {
        SameWorth(AccountAfter(before), AccountAfter(events), Mid(last.bbo));
      }
    }
  }

  /** What a fill leaves does not depend on how the position was valued before. */
  lemma SameFill(a: Account, b: Account, f: Fill)
    requires a.(pnlUnreal := 0.0) == b.(pnlUnreal := 0.0)
    ensures AfterFill(a, f) == AfterFill(b, f)
  {
    hide Amount, Per;
  }

  lemma SameWorth(a: Account, b: Account, price: real)
    requires a.(pnlUnreal := 0.0) == b.(pnlUnreal := 0.0)
    ensures Unrealized(a, price) == Unrealized(b, price)
  {
    hide Amount;
  }

  /**
   After any fills and quotes, profit and loss is the cash of the ledger plus the open position at
   the mark: the last fill's price, or the mid of a quote since.
   */
  lemma ProfitIsLedger(events: seq<Event>)
    ensures var a := AccountAfter(events);
            a.Total() == Cash(FillsOf(events)) + Amount(Mark(events), a.position)
  {
    hide AccountAfter, AccountOf, FillsOf, Mark, Cash, Amount, Unrealized, Reconciled;
    var a, b := AccountAfter(events), AccountOf(FillsOf(events));
    QuotesRevalue(events);
    LedgerReconciled(FillsOf(events));
    SameWorth(a, b, Mark(events));
    WorthAt(b, Cash(FillsOf(events)), Mark(events));
  }

  /** Bought less sold. */
  function Net(fills: seq<Fill>): int {
    if fills == [] then 0 else Net(fills[..|fills| - 1]) + Signed(fills[|fills| - 1].side, fills[|fills| - 1].qty)
  }

  function Traded(fills: seq<Fill>): nat {
    if fills == [] then 0 else Traded(fills[..|fills| - 1]) + fills[|fills| - 1].qty
  }

  lemma {:induction false} PositionIsNet(fills: seq<Fill>)
    ensures AccountOf(fills).position == Net(fills) && AccountOf(fills).volume == Traded(fills)
  {
    hide Amount, Per, Average, Unrealized;
    if fills != [] {
      PositionIsNet(fills[..|fills| - 1]);
    }
  }

  // ----- the same in plain sums of the fills

  /** Quantity bought or sold. */
  function QtyOf(fills: seq<Fill>, side: Side): nat {
    if fills == [] then 0
    else
      var f := fills[|fills| - 1];
      QtyOf(fills[..|fills| - 1], side) + if f.side == side then f.qty else 0
  }

  /** Price times quantity of everything bought or sold. */
  function ValueOf(fills: seq<Fill>, side: Side): int {
    if fills == [] then 0
    else
      var f := fills[|fills| - 1];
      ValueOf(fills[..|fills| - 1], side) + if f.side == side then f.price * f.qty else 0
  }

  lemma {:induction false} AmountIsProduct(price: int, qty: nat)
    ensures Amount(price as real, qty) == (price * qty) as real
  {
    if qty > 0 {
      AmountIsProduct(price, qty - 1);
      AmountSum(price as real, qty - 1, 1);
      assert price * qty == price * (qty - 1) + price;
    }
  }

  /** The ledger's cash is what was sold for less what was bought for, and the net is bought less sold. */
  lemma {:induction false} CashIsSums(fills: seq<Fill>)
    ensures Cash(fills) == (ValueOf(fills, Sell) - ValueOf(fills, Buy)) as real
    ensures Net(fills) == QtyOf(fills, Buy) - QtyOf(fills, Sell)
    ensures Traded(fills) == QtyOf(fills, Buy) + QtyOf(fills, Sell)
  {
    hide Amount;
    if fills != [] {
      var f := fills[|fills| - 1];
      CashIsSums(fills[..|fills| - 1]);
      AmountIsProduct(f.price, f.qty);
      AmountNegated(f.price as real, f.qty);
    }
  }

  /** The position and its profit as whole sums: what was sold for less what was bought for, plus the rest at a mark. */
  lemma ProfitIsSums(events: seq<Event>)
    ensures var a, fills := AccountAfter(events), FillsOf(events);
            && a.position == QtyOf(fills, Buy) - QtyOf(fills, Sell)
            && a.volume == QtyOf(fills, Buy) + QtyOf(fills, Sell)
            && a.Total() == (ValueOf(fills, Sell) - ValueOf(fills, Buy)) as real
                            + Mark(events) * (QtyOf(fills, Buy) - QtyOf(fills, Sell)) as real
  {
    hide Cash, AccountAfter, AccountOf, Mark, Net, Traded, FillsOf;
    ProfitIsLedger(events);
    QuotesRevalue(events);
    PositionIsNet(FillsOf(events));
    CashIsSums(FillsOf(events));
  }

  /**
   After any fills and quotes and then a quote with both prices: twice the profit is twice what was sold for less
   what was bought for, plus the bid and the ask for each piece still held. The realized part is as it was.
   */
  lemma ProfitAtQuote(events: seq<Event>, bid: Touch, ask: Touch)
    ensures var a, fills := AccountAfter(events + [Quoted(Bbo(Some(bid), Some(ask)))]), FillsOf(events);
            && 2.0 * a.Total() == 2.0 * (ValueOf(fills, Sell) - ValueOf(fills, Buy)) as real
                                  + (bid.price + ask.price) as real * (QtyOf(fills, Buy) - QtyOf(fills, Sell)) as real
            && a.pnlReal == AccountAfter(events).pnlReal
  {
    hide QtyOf, ValueOf, AccountAfter, Mark, FillsOf;
    QuotedLast(events, bid, ask);
    ProfitIsSums(events + [Quoted(Bbo(Some(bid), Some(ask)))]);
    TwiceHalf((bid.price + ask.price) as real, (QtyOf(FillsOf(events), Buy) - QtyOf(FillsOf(events), Sell)) as real);
  }

  lemma QuotedLast(events: seq<Event>, bid: Touch, ask: Touch)
    ensures var all := events + [Quoted(Bbo(Some(bid), Some(ask)))];
            && FillsOf(all) == FillsOf(events) && Mark(all) == (bid.price + ask.price) as real * 0.5
            && AccountAfter(all).pnlReal == AccountAfter(events).pnlReal
  {
    hide Unrealized;
    var all := events + [Quoted(Bbo(Some(bid), Some(ask)))];
    assert all[..|events|] == events;
  }

  lemma TwiceHalf(x: real, y: real)
    ensures 2.0 * (x * 0.5 * y) == x * y
  {
  }

  /** After a fill, what is still held counts at the fill's own price. */
  lemma ProfitAtFill(events: seq<Event>, f: Fill)
    ensures var a, fills := AccountAfter(events + [Event.Filled(f)]), FillsOf(events + [Event.Filled(f)]);
            a.Total() == (ValueOf(fills, Sell) - ValueOf(fills, Buy)) as real
                         + f.price as real * (QtyOf(fills, Buy) - QtyOf(fills, Sell)) as real
  {
    hide QtyOf, ValueOf, AccountAfter, FillsOf;
    ProfitIsSums(events + [Event.Filled(f)]);
  }

  /** A quote with a price missing changes nothing. */
  lemma HalfQuoteIgnored(events: seq<Event>, bbo: Bbo)
    requires bbo.bid.None? || bbo.ask.None?
    ensures AccountAfter(events + [Quoted(bbo)]) == AccountAfter(events)
  {
    assert (events + [Quoted(bbo)])[..|events|] == events;
  }

  /**
   After any fills, one more: opening or increasing realizes nothing, reducing keeps the average entry price, and
   a flip enters at the fill's price. With the ledger this settles how profit divides into its two parts.
   */
  lemma FillDivides(fills: seq<Fill>, f: Fill)
    ensures var a, b := AccountOf(fills), AccountOf(fills + [f]);
            var next := if f.side == Buy then a.position + f.qty else a.position - f.qty;
            && b.position == next
            && ((f.side == Buy && a.position >= 0) || (f.side == Sell && a.position <= 0) ==> b.pnlReal == a.pnlReal)
            && ((0 < next < a.position) || (a.position < next < 0) ==> Average(b) == Average(a))
            && ((a.position < 0 < next) || (next < 0 < a.position) ==> Average(b) == f.price as real)
  {
    hide Amount, Per;
    var a := AccountOf(fills);
    assert (fills + [f])[..|fills|] == fills;
    LedgerReconciled(fills);
    var next := a.position + Signed(f.side, f.qty);
    if Signed(f.side, a.position) < 0 && f.qty < Abs(a.position) {
      ReducingKeepsAverage(a, f);
    } else if next != 0 {
      PerAmount(f.price as real, Abs(next));
    }
  }

  // ----- the average entry price

  /** Prices of the fills that opened or increased the position since it was last flat or flipped. */
  function Entries(fills: seq<Fill>): seq<int> {
    if fills == [] then []
    else
      var before, f := fills[..|fills| - 1], fills[|fills| - 1];
      var p := AccountOf(before).position;
      if p + Signed(f.side, f.qty) == 0 then []
      else if Signed(f.side, p) < 0 then (if f.qty <= Abs(p) then Entries(before) else [f.price])
      else if f.qty == 0 then Entries(before)
      else Entries(before) + [f.price]
  }

  /** An open position's cost is between its size at the lowest and at the highest entry price. */
  predicate Bounded(a: Account, lo: int, hi: int) {
    a.position != 0 ==>
      Amount(lo as real, Abs(a.position)) <= OpenCost(a) <= Amount(hi as real, Abs(a.position))
  }

  /** Reducing keeps the average. */
  lemma ReducingKeepsAverage(a: Account, f: Fill)
    requires Valid(a) && Signed(f.side, a.position) < 0 && f.qty < Abs(a.position)
    ensures var b := Booked(a, f);
            b.position != 0 && (b.position > 0 <==> a.position > 0) && Average(b) == Average(a)
  {
    hide Amount, Per;
    PerAmount(Average(a), Abs(Booked(a, f).position));
  }

  /** Bounds on the cost are bounds on the average. */
  lemma BoundedAverage(a: Account, lo: int, hi: int)
    requires a.position != 0
    ensures Bounded(a, lo, hi) <==> lo as real <= Average(a) <= hi as real
  {
    hide Amount, Per;
    PerAmount(OpenCost(a), Abs(a.position));
    AmountOrder(lo as real, Average(a), Abs(a.position));
    AmountOrder(Average(a), hi as real, Abs(a.position));
  }

  lemma IncreasedBounded(a: Account, f: Fill, lo: int, hi: int)
    requires Valid(a) && Bounded(a, lo, hi) && Signed(f.side, a.position) >= 0
    requires f.qty > 0 ==> lo <= f.price <= hi
    ensures Bounded(AfterFill(a, f), lo, hi)
  {
    hide Amount;
    AmountOrder(lo as real, f.price as real, f.qty);
    AmountOrder(f.price as real, hi as real, f.qty);
    AmountSum(lo as real, Abs(a.position), f.qty);
    AmountSum(hi as real, Abs(a.position), f.qty);
    AmountNegated(lo as real, 0);
    AmountNegated(hi as real, 0);
    AmountNegated(f.price as real, 0);
  }

  lemma ReducedBounded(a: Account, f: Fill, lo: int, hi: int)
    requires Valid(a) && Bounded(a, lo, hi) && Signed(f.side, a.position) < 0 && f.qty <= Abs(a.position)
    ensures Bounded(AfterFill(a, f), lo, hi)
  {
    hide Amount, Per, Average, Booked, Bounded;
    BoundedAverage(a, lo, hi);
    if f.qty < Abs(a.position) {
      ReducingKeepsAverage(a, f);
      BoundedAverage(Booked(a, f), lo, hi);
    }
    SameBounds(a, f, lo, hi);
  }

  lemma SameBounds(a: Account, f: Fill, lo: int, hi: int)
    requires Signed(f.side, a.position) < 0
    ensures Bounded(AfterFill(a, f), lo, hi) <==> Bounded(Booked(a, f), lo, hi)
    ensures f.qty == Abs(a.position) ==> Bounded(Booked(a, f), lo, hi)
  {
    hide Amount, Per, Average;
  }

  lemma FlippedBounded(a: Account, f: Fill, lo: int, hi: int)
    requires Signed(f.side, a.position) < 0 && f.qty > Abs(a.position) && lo <= f.price <= hi
    ensures Bounded(AfterFill(a, f), lo, hi)
  {
    hide Amount, Per, Average;
    var next := Abs(a.position + Signed(f.side, f.qty));
    AmountOrder(lo as real, f.price as real, next);
    AmountOrder(f.price as real, hi as real, next);
  }

  lemma {:induction false} EntriesOpen(fills: seq<Fill>)
    ensures AccountOf(fills).position != 0 <==> Entries(fills) != []
  {
    hide Amount, Per, Average, Unrealized;
    if fills != [] {
      EntriesOpen(fills[..|fills| - 1]);
    }
  }

  lemma {:induction false} CostBetween(fills: seq<Fill>, lo: int, hi: int)
    requires forall i | 0 <= i < |Entries(fills)| :: lo <= Entries(fills)[i] <= hi
    ensures Bounded(AccountOf(fills), lo, hi)
  {
    hide Amount, Per, Average, Unrealized, Booked, Bounded;
    if fills == [] {
      NothingOpen(FLAT, lo, hi);
    } else {
      var before, f := fills[..|fills| - 1], fills[|fills| - 1];
      var a := AccountOf(before);
      LedgerReconciled(before);
      if a.position + Signed(f.side, f.qty) == 0 {
        Closed(a, f);
        NothingOpen(AfterFill(a, f), lo, hi);
      } else if Signed(f.side, a.position) < 0 && f.qty > Abs(a.position) {
        assert Entries(fills)[0] == f.price;
        FlippedBounded(a, f, lo, hi);
      } else {
        assert forall i | 0 <= i < |Entries(before)| :: Entries(fills)[i] == Entries(before)[i];
        CostBetween(before, lo, hi);
        if Signed(f.side, a.position) < 0 {
          ReducedBounded(a, f, lo, hi);
        } else {
          assert f.qty > 0 ==> Entries(fills)[|Entries(before)|] == f.price;
          IncreasedBounded(a, f, lo, hi);
        }
      }
    }
  }

  lemma NothingOpen(a: Account, lo: int, hi: int)
    requires a.position == 0
    ensures Bounded(a, lo, hi)
  {
  }

  lemma Closed(a: Account, f: Fill)
    requires a.position + Signed(f.side, f.qty) == 0
    ensures AfterFill(a, f).position == 0
  {
    hide Amount, Per, Average, Unrealized;
  }

  /** While a position is open its average entry price is between the entry prices. */
  lemma AverageBetween(fills: seq<Fill>, lo: int, hi: int)
    requires forall i | 0 <= i < |Entries(fills)| :: lo <= Entries(fills)[i] <= hi
    requires Entries(fills) != []
    ensures AccountOf(fills).position != 0
    ensures lo as real <= Average(AccountOf(fills)) <= hi as real
  {
    hide Amount, Per, Average, Bounded, AccountOf;
    EntriesOpen(fills);
    CostBetween(fills, lo, hi);
    BoundedAverage(AccountOf(fills), lo, hi);
  }

  // ----- the position's own fields

  class Position {
    var position: int
    var vwapBuy: real
    var vwapSell: real
    var pnlReal: real
    var pnlUnreal: real
    var pnlTotal: real
    var volume: nat
    var bbo: Bbo

    function View(): Account
      reads this
    {
      Account(position, vwapBuy, vwapSell, pnlReal, pnlUnreal, volume)
    }

    predicate Ok()
      reads this
    {
      Valid(View()) && pnlTotal == View().Total()
    }

    constructor ()
      ensures Ok() && View() == FLAT && bbo == NO_BBO
    {
      position, volume, bbo := 0, 0, NO_BBO;
      vwapBuy, vwapSell, pnlReal, pnlUnreal, pnlTotal := 0.0, 0.0, 0.0, 0.0, 0.0;
    }

    /** Applies one fill of one of our orders. */
    method AddFill(f: Fill)
      requires Ok()
      modifies this
      ensures Ok() && View() == AfterFill(old(View()), f) && bbo == old(bbo)
    {
      hide Amount, Per, Booked;
      ghost var was := View();
      BookedFacts(was, f);
      if Signed(f.side, position) >= 0 {
        Increase(f);
      } else {
        Reduce(f);
      }
      if position == 0 {
        vwapBuy, vwapSell, pnlUnreal := 0.0, 0.0, 0.0;
      } else {
        Revalue(f.price as real);
      }
      pnlTotal := pnlUnreal + pnlReal;
    }

    /** A fill that opens or increases the position. */
    method Increase(f: Fill)
      requires Valid(View()) && Signed(f.side, position) >= 0
      modifies this`position, this`volume, this`vwapBuy, this`vwapSell
      ensures var b := Booked(old(View()), f);
              && position == b.position && volume == b.volume
              && (position != 0 ==> vwapBuy == b.bought && vwapSell == b.sold)
    {
      hide Amount, Per;
      position := position + Signed(f.side, f.qty);
      volume := volume + f.qty;
      if f.side.Buy? {
        vwapBuy := vwapBuy + Amount(f.price as real, f.qty);
      } else {
        vwapSell := vwapSell + Amount(f.price as real, f.qty);
      }
    }

    /** A fill that reduces, closes or flips the position. */
    method Reduce(f: Fill)
      requires Valid(View()) && Signed(f.side, position) < 0
      modifies this`position, this`volume, this`vwapBuy, this`vwapSell, this`pnlReal
      ensures var b := Booked(old(View()), f);
              && position == b.position && volume == b.volume && pnlReal == b.pnlReal
              && (position != 0 ==> vwapBuy == b.bought && vwapSell == b.sold)
    {
      hide Amount, Per;
      var was := position;
      position := position + Signed(f.side, f.qty);
      volume := volume + f.qty;
      var average := Per(if f.side.Buy? then vwapSell else vwapBuy, Abs(was));
      if f.side.Buy? {
        vwapSell := Amount(average, Abs(position));
      } else {
        vwapBuy := Amount(average, Abs(position));
      }
      pnlReal := pnlReal + Amount(average - f.price as real, Signed(f.side, Min(f.qty, Abs(was))));
      var flipped := position * was < 0;
      ReductionSigns(was, position);
      if flipped {
        if f.side.Buy? {
          vwapBuy, vwapSell := Amount(f.price as real, Abs(position)), 0.0;
        } else {
          vwapBuy, vwapSell := 0.0, Amount(f.price as real, Abs(position));
        }
      }
    }

    /** Values the open position at a price. */
    method Revalue(price: real)
      requires position != 0
      modifies this`pnlUnreal
      ensures pnlUnreal == Unrealized(View(), price)
    {
      hide Amount, Per;
      var n := Abs(position);
      if position > 0 {
        AmountLess(price, Per(vwapBuy, n), n);
        PerAmount(vwapBuy, n);
        pnlUnreal := Amount(price - Per(vwapBuy, n), n);
      } else {
        AmountLess(Per(vwapSell, n), price, n);
        PerAmount(vwapSell, n);
        AmountNegated(price, n);
        pnlUnreal := Amount(Per(vwapSell, n) - price, n);
      }
    }

    /** Revalues an open position at the mid, if both prices are known. */
    method OnBboUpdate(b: Bbo)
      requires Ok()
      modifies this
      ensures Ok() && View() == AfterQuote(old(View()), b) && bbo == b
    {
      hide Amount, Per;
      bbo := b;
      if position != 0 && bbo.bid.Some? && bbo.ask.Some? {
        Revalue((bbo.bid.value.price + bbo.ask.value.price) as real * 0.5);
        pnlTotal := pnlUnreal + pnlReal;
      }
    }
  }

  lemma ReductionSigns(was: int, now: int)
    ensures now * was < 0 <==> (now > 0 && was < 0) || (now < 0 && was > 0)
  {
  }

  lemma BookedFacts(a: Account, f: Fill)
    requires Valid(a)
    ensures var b := Booked(a, f);
            && Valid(b) && b.pnlUnreal == a.pnlUnreal
            && (Signed(f.side, a.position) >= 0 ==> b.pnlReal == a.pnlReal)
            && (b.position == 0 ==> b.bought == b.sold == 0.0)
  {
    hide Per;
  }
}
