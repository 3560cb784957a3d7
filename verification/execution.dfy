/** Execution: one pass of the three-leg trading loop.

    A pass picks the recorded opportunity with the largest final balance,
    re-reads three live prices from the triangle table, and splits the pair
    names. Leg 1 buys pair 1 for a fixed size when the first quote currency is
    a settlement currency with a balance above that size; leg 2 sells pair 2,
    leg 3 sells pair 3, with sizes derived from that balance and the live bid
    of pair 2. After each placement the pass waits until the order id is absent
    from the open-order table.

    Placement and the order table observed while waiting are inputs: each
    placement's reply is given, and each wait is given the successive states
    of the open-order table it polls. Sleeps between passes are left out. */
module Execution {
  import opened Instruments
  import opened PriceBook
  import opened Evaluator
  import opened AccountState

  const OrderSize: real := 5.0
  const MinTradeSize: real := 0.0001
  const FeeRate: real := 0.0011

  datatype Side = Buy | Sell

  datatype OrderRequest = OrderRequest(pair: Pair, side: Side, size: real)

  /** How a pass ends. `Waiting` is a pass still polling for a fill when the
      observed order tables run out; the source's wait never gives up. */
  datatype Outcome =
    | NoOpportunity      // the opportunity table is empty
    | Fault              // an exception inside the pass: a missing live price, a pair
                         // name that does not split, or a zero live bid of pair 2
    | InsufficientFunds  // the leg-1 guard fails
    | TooSmall           // a computed size is below the minimum trade size
    | Rejected           // a placement returned no reply
    | Waiting
    | Completed

  /** The orders a pass placed, in order, and how it ended. */
  datatype Attempt = Attempt(placed: seq<OrderRequest>, outcome: Outcome)

  /** What the outside world answers during one pass: each placement's reply
      (`None` when placing fails), and the open-order tables each wait polls. */
  datatype Exchange = Exchange(reply1: Option<string>, reply2: Option<string>, reply3: Option<string>,
                               polls1: seq<map<string, OpenOrder>>,
                               polls2: seq<map<string, OpenOrder>>,
                               polls3: seq<map<string, OpenOrder>>)

  /** A reply counts as a placed order when it is a non-empty text. */
  predicate Accepted(reply: Option<string>) {
    reply.Some? && |reply.value| > 0
  }

  // ---------------------------------------------------------------------------
  // Choosing the opportunity.

  /** The opportunity with the largest final balance; the earliest on ties. */
  function SelectBest(os: seq<Opportunity>): (r: Option<Opportunity>)
    ensures r.None? <==> |os| == 0
    ensures r.Some? ==> r.value in os
    ensures r.Some? ==> forall o :: o in os ==> o.finalBalance <= r.value.finalBalance
    decreases |os|
  {
    if |os| == 0 then None
    else
      match SelectBest(os[1..])
      case None => Some(os[0])
      case Some(b) => if b.finalBalance > os[0].finalBalance then Some(b) else Some(os[0])
  }

  // ---------------------------------------------------------------------------
  // Live prices.

  /** The three live prices re-read before trading, each from the first row
      whose pair in that leg position matches. */
  datatype Column = Ask1 | Bid2 | Bid3

  function KeyOf(r: Row, col: Column): Pair {
    match col
    case Ask1 => r.leg1.pair
    case Bid2 => r.leg2.pair
    case Bid3 => r.leg3.pair
  }

  function ValueOf(r: Row, col: Column): Option<real> {
    match col
    case Ask1 => r.leg1.quote.ask
    case Bid2 => r.leg2.quote.bid
    case Bid3 => r.leg3.quote.bid
  }

  /** The position of the first row keyed by `p` in column `col`. */
  function FirstMatch(rows: seq<Row>, col: Column, p: Pair): (i: Option<nat>)
    ensures i.None? <==> forall k :: 0 <= k < |rows| ==> KeyOf(rows[k], col) != p
    ensures i.Some? ==> i.value < |rows| && KeyOf(rows[i.value], col) == p
    ensures i.Some? ==> forall k :: 0 <= k < i.value ==> KeyOf(rows[k], col) != p
    decreases |rows|
  {
    if |rows| == 0 then None
    else if KeyOf(rows[0], col) == p then Some(0)
    else
      match FirstMatch(rows[1..], col, p)
      case None => None
      case Some(j) => Some(j + 1)
  }

  /** A live price; `None` when no row matches or the value is absent, both of
      which raise in the source. */
  function Fetch(rows: seq<Row>, col: Column, p: Pair): (v: Option<real>)
    ensures v.Some? <==> FirstMatch(rows, col, p).Some? && ValueOf(rows[FirstMatch(rows, col, p).value], col).Some?
    ensures v.Some? ==> ValueOf(rows[FirstMatch(rows, col, p).value], col) == v
  {
    match FirstMatch(rows, col, p)
    case None => None
    case Some(i) => ValueOf(rows[i], col)
  }

  /** Splitting a stored pair name back into base and quote. */
  function SplitPair(p: Pair): Option<Pair> {
    ParseInstId(InstId(p))
  }

  /** Pairs read from a catalog of dash-free parts always split back to themselves. */
  lemma SplitWellFormed(p: Pair)
    requires WellFormed(p)
    ensures SplitPair(p) == Some(p)
  {
    ParseInstIdRoundTrip(p);
  }

  // ---------------------------------------------------------------------------
  // One pass.

  /** The state of a pass before any order: idle with an outcome, or ready with
      the chosen opportunity, the live bid of pair 2 and the first quote currency. */
  datatype Setup = Idle(outcome: Outcome) | Ready(best: Opportunity, bid2: real, quote1: Currency)

  function Prepare(opps: seq<Opportunity>, rows: seq<Row>): (s: Setup)
    ensures s.Idle? ==> s.outcome == NoOpportunity || s.outcome == Fault
    ensures (s.Idle? && s.outcome == NoOpportunity) <==> |opps| == 0
    ensures s.Ready? ==>
              && SelectBest(opps) == Some(s.best)
              && Fetch(rows, Ask1, s.best.pair1).Some?
              && Fetch(rows, Bid2, s.best.pair2) == Some(s.bid2)
              && Fetch(rows, Bid3, s.best.pair3).Some?
              && SplitPair(s.best.pair1).Some? && SplitPair(s.best.pair2).Some? && SplitPair(s.best.pair3).Some?
              && s.quote1 == SplitPair(s.best.pair1).value.quote
    ensures |opps| > 0 && s.Idle? ==>
              var b := SelectBest(opps).value;
              || Fetch(rows, Ask1, b.pair1).None? || Fetch(rows, Bid2, b.pair2).None? || Fetch(rows, Bid3, b.pair3).None?
              || SplitPair(b.pair1).None? || SplitPair(b.pair2).None? || SplitPair(b.pair3).None?
  {
    match SelectBest(opps)
    case None => Idle(NoOpportunity)
    case Some(b) =>
      match (Fetch(rows, Ask1, b.pair1), Fetch(rows, Bid2, b.pair2), Fetch(rows, Bid3, b.pair3))
      case (Some(_), Some(bid2), Some(_)) =>
        (match (SplitPair(b.pair1), SplitPair(b.pair2), SplitPair(b.pair3))
         case (Some(p1), Some(_), Some(_)) => Ready(b, bid2, p1.quote)
         case _ => Idle(Fault))
      case _ => Idle(Fault)
  }

  /** The leg-2 size: the whole first-quote balance converted at the live bid
      of pair 2, less the fee. */
  function Leg2Size(balance: real, bid2: real): real
    requires bid2 != 0.0
  {
    balance / bid2 * (1.0 - FeeRate)
  }

  /** The leg-3 size: the leg-2 size converted back at the same bid, less the fee. */
  function Leg3Size(size2: real, bid2: real): real {
    size2 * bid2 * (1.0 - FeeRate)
  }

  /** What a pass from a ready setup promises about the orders it places: the
      leg-1 guard, sides buy, sell, sell on pairs 1, 2, 3, the sizing formulas
      and the minimum-size guards, no leg 2 before leg 1's reply was accepted
      and its order seen gone, and no leg 3 before leg 2's order was seen gone. */
  predicate LegsFollow(s: Setup, balances: map<Currency, BalanceRow>, x: Exchange, a: Attempt)
    requires s.Ready?
  {
    var funds := GetBalance(balances, s.quote1);
    && |a.placed| <= 3
    && (|a.placed| > 0 <==> s.quote1 in TargetCurrencies && funds > OrderSize)
    && (|a.placed| > 0 ==> a.placed[0] == OrderRequest(s.best.pair1, Buy, OrderSize))
    && (|a.placed| > 1 ==>
          && Accepted(x.reply1) && WaitForOrder(x.polls1, x.reply1).Confirmed?
          && s.bid2 != 0.0
          && a.placed[1] == OrderRequest(s.best.pair2, Sell, Leg2Size(funds, s.bid2))
          && a.placed[1].size >= MinTradeSize)
    && (|a.placed| > 2 ==>
          && WaitForOrder(x.polls2, x.reply2).Confirmed?
          && a.placed[2] == OrderRequest(s.best.pair3, Sell, Leg3Size(a.placed[1].size, s.bid2))
          && a.placed[2].size >= MinTradeSize)
    && (a.outcome == Completed ==> |a.placed| == 3 && WaitForOrder(x.polls3, x.reply3).Confirmed?)
    && a.outcome != NoOpportunity
  }

  /** The leg-1 guard: the first quote is a settlement currency with a
      balance above the fixed order size. */
  predicate FirstDue(s: Setup, balances: map<Currency, BalanceRow>)
    requires s.Ready?
  {
    s.quote1 in TargetCurrencies && GetBalance(balances, s.quote1) > OrderSize
  }

  /** Leg 1's order was accepted and then seen gone from the open orders. */
  predicate FirstFilled(x: Exchange) {
    Accepted(x.reply1) && WaitForOrder(x.polls1, x.reply1).Confirmed?
  }

  /** Leg 2 is placed once leg 1 is filled, given that its size reaches the minimum. */
  predicate SecondDue(s: Setup, funds: real)
    requires s.Ready? && s.bid2 != 0.0
  {
    Leg2Size(funds, s.bid2) >= MinTradeSize
  }

  /** Leg 2's order went through (its reply is only inspected when `checked`)
      and was seen gone. */
  predicate SecondFilled(x: Exchange, checked: bool) {
    (checked ==> Accepted(x.reply2)) && WaitForOrder(x.polls2, x.reply2).Confirmed?
  }

  /** Leg 3 is placed once leg 2 is placed and filled, given that its size
      reaches the minimum. */
  predicate ThirdDue(s: Setup, funds: real, x: Exchange, checked: bool)
    requires s.Ready? && s.bid2 != 0.0
  {
    && SecondDue(s, funds)
    && SecondFilled(x, checked)
    && Leg3Size(Leg2Size(funds, s.bid2), s.bid2) >= MinTradeSize
  }

  /** How the later legs go: how many orders are placed, and what each
      outcome means. `TooSmall` is a computed size below the minimum,
      `Rejected` a reply found empty, `Waiting` a wait still polling. */
  predicate LaterProgress(s: Setup, funds: real, x: Exchange, checked: bool, a: Attempt)
    requires s.Ready? && s.bid2 != 0.0
  {
    && (|a.placed| >= 2 <==> SecondDue(s, funds))
    && (|a.placed| == 3 <==> ThirdDue(s, funds, x, checked))
    && (a.outcome == TooSmall <==>
          || !SecondDue(s, funds)
          || (SecondDue(s, funds) && SecondFilled(x, checked) && !ThirdDue(s, funds, x, checked)))
    && (a.outcome == Rejected <==>
          || (checked && SecondDue(s, funds) && !Accepted(x.reply2))
          || (checked && ThirdDue(s, funds, x, checked) && !Accepted(x.reply3)))
    && (a.outcome == Waiting <==>
          || (SecondDue(s, funds) && (checked ==> Accepted(x.reply2)) && WaitForOrder(x.polls2, x.reply2).StillWaiting?)
          || (ThirdDue(s, funds, x, checked) && (checked ==> Accepted(x.reply3)) && WaitForOrder(x.polls3, x.reply3).StillWaiting?))
    && (a.outcome == Completed <==>
          ThirdDue(s, funds, x, checked) && (checked ==> Accepted(x.reply3)) && WaitForOrder(x.polls3, x.reply3).Confirmed?)
  }

  /** How a pass from a ready setup goes: no order without the leg-1 guard,
      a rejected or unfilled leg 1 ends the pass with one order, a zero live
      bid of pair 2 faults after leg 1, and otherwise the later legs go as
      `LaterProgress` states. */
  predicate Progress(s: Setup, balances: map<Currency, BalanceRow>, x: Exchange, checked: bool, a: Attempt)
    requires s.Ready?
  {
    var funds := GetBalance(balances, s.quote1);
    && (a.outcome == InsufficientFunds <==> !FirstDue(s, balances))
    && (a.outcome == Rejected && |a.placed| == 1 <==> FirstDue(s, balances) && !Accepted(x.reply1))
    && (a.outcome == Waiting && |a.placed| == 1 <==>
          FirstDue(s, balances) && Accepted(x.reply1) && WaitForOrder(x.polls1, x.reply1).StillWaiting?)
    && (a.outcome == Fault <==> FirstDue(s, balances) && FirstFilled(x) && s.bid2 == 0.0)
    && (FirstDue(s, balances) && FirstFilled(x) && s.bid2 != 0.0 ==> LaterProgress(s, funds, x, checked, a))
    && (!(FirstDue(s, balances) && FirstFilled(x) && s.bid2 != 0.0) ==> |a.placed| <= 1)
  }

  /** The pass after setup. `checked` says whether the replies of legs 2 and 3
      are inspected as leg 1's is. */
  function Trade(s: Setup, balances: map<Currency, BalanceRow>, x: Exchange, checked: bool): (a: Attempt)
    requires s.Ready?
    ensures LegsFollow(s, balances, x, a)
    ensures Progress(s, balances, x, checked, a)
    ensures checked && |a.placed| > 2 ==> Accepted(x.reply2)
    ensures checked && a.outcome == Completed ==> Accepted(x.reply1) && Accepted(x.reply2) && Accepted(x.reply3)
  {
    var funds := GetBalance(balances, s.quote1);
    var leg1 := OrderRequest(s.best.pair1, Buy, OrderSize);
    if !(s.quote1 in TargetCurrencies && funds > OrderSize) then Attempt([], InsufficientFunds)
    else if OrderSize < MinTradeSize then Attempt([], TooSmall)
    else if !Accepted(x.reply1) then Attempt([leg1], Rejected)
    else if WaitForOrder(x.polls1, x.reply1).StillWaiting? then Attempt([leg1], Waiting)
    else if s.bid2 == 0.0 then Attempt([leg1], Fault)
    else LaterLegs(s, funds, x, checked)
  }

  /** Legs 2 and 3, once leg 1 is placed and seen filled. */
  function LaterLegs(s: Setup, funds: real, x: Exchange, checked: bool): (a: Attempt)
    requires s.Ready? && s.bid2 != 0.0
    ensures 1 <= |a.placed| <= 3 && a.outcome != NoOpportunity
    ensures a.outcome != InsufficientFunds && a.outcome != Fault
    ensures a.placed[0] == OrderRequest(s.best.pair1, Buy, OrderSize)
    ensures |a.placed| > 1 ==>
              && a.placed[1] == OrderRequest(s.best.pair2, Sell, Leg2Size(funds, s.bid2))
              && a.placed[1].size >= MinTradeSize
    ensures |a.placed| > 2 ==>
              && WaitForOrder(x.polls2, x.reply2).Confirmed?
              && a.placed[2] == OrderRequest(s.best.pair3, Sell, Leg3Size(a.placed[1].size, s.bid2))
              && a.placed[2].size >= MinTradeSize
    ensures a.outcome == Completed ==> |a.placed| == 3 && WaitForOrder(x.polls3, x.reply3).Confirmed?
    ensures checked && |a.placed| > 2 ==> Accepted(x.reply2)
    ensures checked && a.outcome == Completed ==> Accepted(x.reply2) && Accepted(x.reply3)
    ensures LaterProgress(s, funds, x, checked, a)
  {
    var leg1 := OrderRequest(s.best.pair1, Buy, OrderSize);
    var size2 := Leg2Size(funds, s.bid2);
    var leg2 := OrderRequest(s.best.pair2, Sell, size2);
    if size2 < MinTradeSize then Attempt([leg1], TooSmall)
    else if checked && !Accepted(x.reply2) then Attempt([leg1, leg2], Rejected)
    else if WaitForOrder(x.polls2, x.reply2).StillWaiting? then Attempt([leg1, leg2], Waiting)
    else
      var size3 := Leg3Size(size2, s.bid2);
      var leg3 := OrderRequest(s.best.pair3, Sell, size3);
      if size3 < MinTradeSize then Attempt([leg1, leg2], TooSmall)
      else if checked && !Accepted(x.reply3) then Attempt([leg1, leg2, leg3], Rejected)
      else if WaitForOrder(x.polls3, x.reply3).StillWaiting? then Attempt([leg1, leg2, leg3], Waiting)
      else Attempt([leg1, leg2, leg3], Completed)
  }

  /** `LegsFollow` and `Progress` leave no freedom: they fix both the orders
      placed and the outcome, so they are a complete description of `Trade`. */
  lemma ProgressDeterminesTrade(s: Setup, balances: map<Currency, BalanceRow>, x: Exchange, checked: bool, a: Attempt)
    requires s.Ready?
    requires LegsFollow(s, balances, x, a) && Progress(s, balances, x, checked, a)
    ensures a == Trade(s, balances, x, checked)
  {
    var t := Trade(s, balances, x, checked);
    assert |a.placed| == |t.placed|;
    assert a.placed == t.placed;
  }

  function Pass(opps: seq<Opportunity>, rows: seq<Row>, balances: map<Currency, BalanceRow>,
                x: Exchange, checked: bool): (a: Attempt)
    ensures Prepare(opps, rows).Idle? ==> a == Attempt([], Prepare(opps, rows).outcome)
    ensures Prepare(opps, rows).Ready? ==> LegsFollow(Prepare(opps, rows), balances, x, a)
    ensures Prepare(opps, rows).Ready? ==> Progress(Prepare(opps, rows), balances, x, checked, a)
    ensures checked && |a.placed| > 2 ==> Accepted(x.reply2)
    ensures checked && a.outcome == Completed ==> Accepted(x.reply1) && Accepted(x.reply2) && Accepted(x.reply3)
  {
    var s := Prepare(opps, rows);
    if s.Idle? then Attempt([], s.outcome) else Trade(s, balances, x, checked)
  }

  /** Every pass, checked or not: it trades only from a ready setup, ends
      with `NoOpportunity` exactly when the table is empty and with `Fault`
      when setup fails, places its orders as `LegsFollow` states, and goes as
      far as `Progress` states. */
  predicate WellSequenced(opps: seq<Opportunity>, rows: seq<Row>, balances: map<Currency, BalanceRow>,
                          x: Exchange, checked: bool, a: Attempt)
  {
    && (a.outcome == NoOpportunity <==> |opps| == 0)
    && (Prepare(opps, rows).Idle? ==> a == Attempt([], Prepare(opps, rows).outcome))
    && (Prepare(opps, rows).Ready? ==> LegsFollow(Prepare(opps, rows), balances, x, a))
    && (Prepare(opps, rows).Ready? ==> Progress(Prepare(opps, rows), balances, x, checked, a))
  }

  /** `triangular_arbitrage`, one pass, as written: only leg 1's reply is inspected. */
  function RunPass(opps: seq<Opportunity>, rows: seq<Row>, balances: map<Currency, BalanceRow>, x: Exchange): (a: Attempt)
    ensures WellSequenced(opps, rows, balances, x, false, a)
  {
    Pass(opps, rows, balances, x, false)
  }

  /** The pass with every leg's reply inspected: no leg is placed after a
      rejected one, and a completed pass had all three orders accepted. */
  function RunPassChecked(opps: seq<Opportunity>, rows: seq<Row>, balances: map<Currency, BalanceRow>, x: Exchange): (a: Attempt)
    ensures WellSequenced(opps, rows, balances, x, true, a)
    ensures |a.placed| > 2 ==> Accepted(x.reply2)
    ensures a.outcome == Completed ==> Accepted(x.reply1) && Accepted(x.reply2) && Accepted(x.reply3)
  {
    Pass(opps, rows, balances, x, true)
  }

  /** When every reply is accepted the check changes nothing. */
  lemma CheckedAgreesOnAcceptedReplies(opps: seq<Opportunity>, rows: seq<Row>, balances: map<Currency, BalanceRow>, x: Exchange)
    requires Accepted(x.reply1) && Accepted(x.reply2) && Accepted(x.reply3)
    ensures RunPass(opps, rows, balances, x) == RunPassChecked(opps, rows, balances, x)
  {
    var s := Prepare(opps, rows);
    if s.Ready? {
      TradeAgrees(s, balances, x);
    }
    assert Pass(opps, rows, balances, x, false) == Pass(opps, rows, balances, x, true);
  }

  lemma TradeAgrees(s: Setup, balances: map<Currency, BalanceRow>, x: Exchange)
    requires s.Ready? && Accepted(x.reply2) && Accepted(x.reply3)
    ensures Trade(s, balances, x, false) == Trade(s, balances, x, true)
  {
    if s.bid2 != 0.0 {
      var funds := GetBalance(balances, s.quote1);
      LaterLegsAgree(s, funds, x);
    }
  }

  lemma LaterLegsAgree(s: Setup, funds: real, x: Exchange)
    requires s.Ready? && s.bid2 != 0.0 && Accepted(x.reply2) && Accepted(x.reply3)
    ensures LaterLegs(s, funds, x, false) == LaterLegs(s, funds, x, true)
  {
  }

  /** The leg-3 size is the first-quote balance less the fee twice: the live
      bid of pair 2 cancels out. */
  lemma Leg3SizeIgnoresPrice(balance: real, bid2: real)
    requires bid2 != 0.0
    ensures Leg3Size(Leg2Size(balance, bid2), bid2) == balance * (1.0 - FeeRate) * (1.0 - FeeRate)
  {
    calc {
      Leg3Size(Leg2Size(balance, bid2), bid2);
      balance / bid2 * (1.0 - FeeRate) * bid2 * (1.0 - FeeRate);
      { assert balance / bid2 * bid2 == balance; }
      balance * (1.0 - FeeRate) * (1.0 - FeeRate);
    }
  }

  // ---------------------------------------------------------------------------
  // A rejected second leg.

  const P1: Pair := Pair("BTC", "USDT")
  const P2: Pair := Pair("ETH", "BTC")
  const P3: Pair := Pair("ETH", "USDT")

  function Priced(bid: real, ask: real): Quote {
    Quote(Some(bid), Some(ask), Some(1.0), Some(1.0))
  }

  const ExampleRows: seq<Row> := [Row(Leg(P1, Priced(1.0, 1.0)), Leg(P2, Priced(1.0, 1.0)), Leg(P3, Priced(1.0, 1.0)))]
  const ExampleOpps: seq<Opportunity> := [Opportunity(P1, 1.0, 1.0, P2, 1.0, 1.0, P3, 1.0, 1.0, 1020.0)]
  const ExampleBalances: map<Currency, BalanceRow> := map["USDT" := BalanceRow(100.0, 0.0)]
  /** Leg 1 is accepted and filled at once; leg 2's placement fails; the
      private feed shows no open orders. */
  const ExampleSetup: Setup := Ready(ExampleOpps[0], 1.0, "USDT")
  const RejectedLeg2: Exchange := Exchange(Some("ok"), None, Some("ok"), [map[]], [map[]], [map[]])

  /** As written, a failed leg-2 placement goes unnoticed: the wait on a
      missing id returns at once, leg 3 is placed and the pass reports
      completion. With the check, the pass stops at leg 2. */
  lemma RejectedSecondLegStillTrades()
    ensures RunPass(ExampleOpps, ExampleRows, ExampleBalances, RejectedLeg2).outcome == Completed
    ensures |RunPass(ExampleOpps, ExampleRows, ExampleBalances, RejectedLeg2).placed| == 3
    ensures RunPassChecked(ExampleOpps, ExampleRows, ExampleBalances, RejectedLeg2) ==
            Attempt(RunPass(ExampleOpps, ExampleRows, ExampleBalances, RejectedLeg2).placed[..2], Rejected)
  {
    var legs := ExampleOrders();
    ExampleAsWritten(legs);
    ExampleChecked(legs);
  }

  lemma ExampleAsWritten(legs: seq<OrderRequest>)
    requires legs == ExampleOrders()
    ensures RunPass(ExampleOpps, ExampleRows, ExampleBalances, RejectedLeg2) == Attempt(legs, Completed)
  {
    ExamplePass(false);
    ExampleLegs();
    ExampleWaits();
    assert LaterLegs(ExampleSetup, 100.0, RejectedLeg2, false) == Attempt(legs, Completed);
  }

  lemma ExampleChecked(legs: seq<OrderRequest>)
    requires legs == ExampleOrders()
    ensures RunPassChecked(ExampleOpps, ExampleRows, ExampleBalances, RejectedLeg2) == Attempt(legs[..2], Rejected)
  {
    ExamplePass(true);
    ExampleStopsAtLeg2(legs);
  }

  /** With the check, the missing leg-2 reply ends the pass after two orders. */
  lemma ExampleStopsAtLeg2(legs: seq<OrderRequest>)
    requires legs == ExampleOrders()
    ensures LaterLegs(ExampleSetup, 100.0, RejectedLeg2, true) == Attempt(legs[..2], Rejected)
  {
    ExampleLegs();
    assert !Accepted(RejectedLeg2.reply2);
    assert legs[..2] == [legs[0], legs[1]];
  }

  /** The example pass reaches the later legs with 100 USDT to spend. */
  lemma ExamplePass(checked: bool)
    ensures Pass(ExampleOpps, ExampleRows, ExampleBalances, RejectedLeg2, checked) ==
            LaterLegs(ExampleSetup, 100.0, RejectedLeg2, checked)
  {
    ExamplePrepared();
    ExampleWaits();
    assert Pass(ExampleOpps, ExampleRows, ExampleBalances, RejectedLeg2, checked) ==
           Trade(ExampleSetup, ExampleBalances, RejectedLeg2, checked);
  }


  /** With no open orders, both waits return at the first poll: the accepted
      reply's and the missing one's. */
  lemma ExampleWaits()
    ensures GetBalance(ExampleBalances, "USDT") == 100.0
    ensures WaitForOrder([map[]], Some("ok")) == Confirmed(0)
    ensures WaitForOrder([map[]], None) == Confirmed(0)
  {
  }

  function ExampleOrders(): seq<OrderRequest> {
    [OrderRequest(P1, Buy, OrderSize), OrderRequest(P2, Sell, Leg2Size(100.0, 1.0)),
     OrderRequest(P3, Sell, Leg3Size(Leg2Size(100.0, 1.0), 1.0))]
  }

  /** The example's three orders, both computed sizes above the minimum. */
  lemma ExampleLegs()
    ensures Leg2Size(100.0, 1.0) >= MinTradeSize && Leg3Size(Leg2Size(100.0, 1.0), 1.0) >= MinTradeSize
  {
    assert Leg2Size(100.0, 1.0) == 100.0 * (1.0 - FeeRate);
  }

  /** The example's setup: its one opportunity, a live bid of 1 and USDT to spend. */
  lemma ExamplePrepared()
    ensures Prepare(ExampleOpps, ExampleRows) == ExampleSetup
  {
    assert SelectBest(ExampleOpps) == Some(ExampleOpps[0]);
    ExampleFetches();
    SplitWellFormed(P1);
    SplitWellFormed(P2);
    SplitWellFormed(P3);
    PrepareReady(ExampleOpps, ExampleRows, ExampleOpps[0], 1.0, P1);
  }

  /** When the best opportunity's prices are all present and its pairs all
      split, the pass is ready with that opportunity. */
  lemma PrepareReady(opps: seq<Opportunity>, rows: seq<Row>, b: Opportunity, bid2: real, p1: Pair)
    requires SelectBest(opps) == Some(b)
    requires Fetch(rows, Ask1, b.pair1).Some? && Fetch(rows, Bid2, b.pair2) == Some(bid2) && Fetch(rows, Bid3, b.pair3).Some?
    requires SplitPair(b.pair1) == Some(p1) && SplitPair(b.pair2).Some? && SplitPair(b.pair3).Some?
    ensures Prepare(opps, rows) == Ready(b, bid2, p1.quote)
  {
  }

  /** Every price the example pass reads is present in its one row. */
  lemma ExampleFetches()
    ensures Fetch(ExampleRows, Ask1, P1) == Some(1.0)
    ensures Fetch(ExampleRows, Bid2, P2) == Some(1.0)
    ensures Fetch(ExampleRows, Bid3, P3) == Some(1.0)
  {
    assert FirstMatch(ExampleRows, Ask1, P1) == Some(0);
    assert FirstMatch(ExampleRows, Bid2, P2) == Some(0);
    assert FirstMatch(ExampleRows, Bid3, P3) == Some(0);
  }

}
