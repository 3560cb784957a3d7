/** Evaluator: one analysis cycle over the triangle table.

    A row is skipped when a price or volume it needs is absent, when a needed
    volume is zero, or when the first or second leg's volume is below what a
    200-unit trade needs. Otherwise the conversion chain 1000 / ask1 * bid2 *
    bid3 is computed, and the row is recorded when the result exceeds 1010.
    The recorded set replaces the previous one. Prices are idealised reals. */
module Evaluator {
  import opened Instruments
  import opened PriceBook

  const InitialBalance: real := 1000.0
  const RequiredNotional: real := 200.0
  /** The absolute threshold on the final balance (named as a percentage in the source). */
  const ProfitThreshold: real := 1010.0

  /** The values an analysis reads from one row, all present. */
  datatype Prices = Prices(bid1: real, ask1: real, ask1Volume: real,
                           bid2: real, ask2: real, bid2Volume: real,
                           bid3: real, ask3: real)

  /** A qualifying opportunity, as stored for the execution engine. */
  datatype Opportunity = Opportunity(pair1: Pair, bid1: real, ask1: real,
                                     pair2: Pair, bid2: real, ask2: real,
                                     pair3: Pair, bid3: real, ask3: real,
                                     finalBalance: real)

  /** The outcome for one row. `DivisionByZero` is the exception a zero ask1 or
      bid2 raises, which ends the analysis thread. */
  datatype Verdict =
    | MissingData
    | DivisionByZero
    | NoVolume
    | Illiquid
    | BelowThreshold(finalBalance: real)
    | Qualifies(opportunity: Opportunity)

  predicate Present(o: Option<real>) {
    o.Some?
  }

  /** Every field the analysis needs is present. */
  predicate Complete(r: Row) {
    && Present(r.leg1.quote.bid) && Present(r.leg1.quote.ask) && Present(r.leg1.quote.askVolume)
    && Present(r.leg2.quote.bid) && Present(r.leg2.quote.ask) && Present(r.leg2.quote.bidVolume)
    && Present(r.leg3.quote.bid) && Present(r.leg3.quote.ask)
  }

  /** The snapshot read: the needed values, or nothing when one is absent. */
  function ReadPrices(r: Row): (p: Option<Prices>)
    ensures p.None? <==> !Complete(r)
    ensures p.Some? ==>
              && r.leg1.quote == Quote(Some(p.value.bid1), Some(p.value.ask1), r.leg1.quote.bidVolume, Some(p.value.ask1Volume))
              && r.leg2.quote == Quote(Some(p.value.bid2), Some(p.value.ask2), Some(p.value.bid2Volume), r.leg2.quote.askVolume)
              && r.leg3.quote == Quote(Some(p.value.bid3), Some(p.value.ask3), r.leg3.quote.bidVolume, r.leg3.quote.askVolume)
  {
    if !Complete(r) then None
    else Some(Prices(r.leg1.quote.bid.value, r.leg1.quote.ask.value, r.leg1.quote.askVolume.value,
                     r.leg2.quote.bid.value, r.leg2.quote.ask.value, r.leg2.quote.bidVolume.value,
                     r.leg3.quote.bid.value, r.leg3.quote.ask.value))
  }

  /** The conversion chain: buy leg 1 at its ask, sell legs 2 and 3 at their bids. */
  function FinalBalance(ask1: real, bid2: real, bid3: real): (f: real)
    requires ask1 != 0.0
    ensures f * ask1 == InitialBalance * bid2 * bid3
  {
    var step1 := InitialBalance / ask1;
    var step2 := step1 * bid2;
    step2 * bid3
  }

  /** Both liquidity gates: the leg volumes cover a 200-unit trade. */
  predicate Liquid(p: Prices)
    requires p.ask1 != 0.0 && p.bid2 != 0.0
  {
    p.ask1Volume >= RequiredNotional / p.ask1 && p.bid2Volume >= RequiredNotional / p.bid2
  }

  function Assess(r: Row): (v: Verdict)
    ensures v.MissingData? <==> !Complete(r)
    ensures v.DivisionByZero? <==> Complete(r) && (r.leg1.quote.ask.value == 0.0 || r.leg2.quote.bid.value == 0.0)
    ensures v.Qualifies? ==> v.opportunity.finalBalance * v.opportunity.ask1
                             == InitialBalance * v.opportunity.bid2 * v.opportunity.bid3
    ensures v.Qualifies? ==>
              && v.opportunity.pair1 == r.leg1.pair
              && v.opportunity.pair2 == r.leg2.pair
              && v.opportunity.pair3 == r.leg3.pair
              && v.opportunity.finalBalance > ProfitThreshold
    ensures v.Qualifies? || v.BelowThreshold? ==>
              && ReadPrices(r).Some? && ReadPrices(r).value.ask1 != 0.0 && ReadPrices(r).value.bid2 != 0.0
              && Liquid(ReadPrices(r).value)
    ensures v.Qualifies? ==>
              var p := ReadPrices(r).value;
              && v.opportunity.bid1 == p.bid1 && v.opportunity.ask1 == p.ask1
              && v.opportunity.bid2 == p.bid2 && v.opportunity.ask2 == p.ask2
              && v.opportunity.bid3 == p.bid3 && v.opportunity.ask3 == p.ask3
              && v.opportunity.finalBalance == FinalBalance(p.ask1, p.bid2, p.bid3)
    ensures v.BelowThreshold? ==>
              var p := ReadPrices(r).value;
              v.finalBalance == FinalBalance(p.ask1, p.bid2, p.bid3) && v.finalBalance <= ProfitThreshold
  {
    match ReadPrices(r)
    case None => MissingData
    case Some(p) =>
      if p.ask1 == 0.0 || p.bid2 == 0.0 then DivisionByZero
      else if p.ask1Volume == 0.0 || p.bid2Volume == 0.0 then NoVolume
      else if !Liquid(p) then Illiquid
      else
        var f := FinalBalance(p.ask1, p.bid2, p.bid3);
        if f > ProfitThreshold then
          Qualifies(Opportunity(r.leg1.pair, p.bid1, p.ask1, r.leg2.pair, p.bid2, p.ask2,
                                r.leg3.pair, p.bid3, p.ask3, f))
        else BelowThreshold(f)
  }

  /** The prices the analysis divides by are present and positive, as quoted
      prices are. */
  predicate PositivePrices(r: Row) {
    Complete(r) && r.leg1.quote.ask.value > 0.0 && r.leg2.quote.bid.value > 0.0
  }

  /** For positively priced rows, when a row qualifies, stated without
      division: both legs' volumes are worth at least 200 and 1000 converted
      along the chain ends above 1010. */
  lemma QualifiesCharacterized(r: Row)
    requires PositivePrices(r)
    ensures Assess(r).Qualifies? <==>
              var p := ReadPrices(r).value;
              && p.ask1Volume * p.ask1 >= RequiredNotional
              && p.bid2Volume * p.bid2 >= RequiredNotional
              && InitialBalance * p.bid2 * p.bid3 > ProfitThreshold * p.ask1
  {
    var p := ReadPrices(r).value;
    var f := FinalBalance(p.ask1, p.bid2, p.bid3);
    DivisionCompare(p.ask1Volume, RequiredNotional, p.ask1);
    DivisionCompare(p.bid2Volume, RequiredNotional, p.bid2);
    MulCompare(f, ProfitThreshold, p.ask1);
  }

  /** Multiplying both sides by a positive number keeps an order. */
  lemma MulCompare(x: real, y: real, a: real)
    requires a > 0.0
    ensures x > y <==> x * a > y * a
    ensures x >= y <==> x * a >= y * a
  {
    if x > y {
      assert (x - y) * a > 0.0;
    } else if x < y {
      assert (y - x) * a > 0.0;
    }
  }

  /** `v >= n / a` is `v * a >= n`, for a positive divisor. */
  lemma DivisionCompare(v: real, n: real, a: real)
    requires a > 0.0
    ensures v >= n / a <==> v * a >= n
  {
    MulCompare(v, n / a, a);
  }

  // ---------------------------------------------------------------------------
  // One cycle.

  /** The result of a cycle: the new opportunity table, or the thread dies on a
      division by zero before the table is touched. */
  datatype Cycle = Recorded(opportunities: seq<Opportunity>) | Crashed

  /** The qualifying opportunities of `rows`, in row order; `Crashed` when some
      row divides by zero. */
  function Analyze(rows: seq<Row>): (c: Cycle)
    ensures c.Crashed? <==> exists i :: 0 <= i < |rows| && Assess(rows[i]).DivisionByZero?
    ensures c.Recorded? ==> forall o :: o in c.opportunities <==> exists i :: 0 <= i < |rows| && Assess(rows[i]) == Qualifies(o)
    ensures c.Recorded? ==> |c.opportunities| <= |rows|
    decreases |rows|
  {
    if |rows| == 0 then Recorded([])
    else
      var v := Assess(rows[0]);
      var rest := Analyze(rows[1..]);
      assert forall i :: 0 < i < |rows| ==> rows[i] == rows[1..][i - 1];
      if v.DivisionByZero? then Crashed
      else if rest.Crashed? then
        var i :| 0 <= i < |rows[1..]| && Assess(rows[1..][i]).DivisionByZero?;
        assert rows[i + 1] == rows[1..][i];
        Crashed
      else if v.Qualifies? then
        var r := [v.opportunity] + rest.opportunities;
        assert forall o :: o in r <==> exists i :: 0 <= i < |rows| && Assess(rows[i]) == Qualifies(o) by {
          forall o ensures o in r <==> exists i :: 0 <= i < |rows| && Assess(rows[i]) == Qualifies(o) {
            if o in rest.opportunities {
              var j :| 0 <= j < |rows[1..]| && Assess(rows[1..][j]) == Qualifies(o);
              assert rows[j + 1] == rows[1..][j];
            }
          }
        }
        Recorded(r)
      else
        assert forall o :: o in rest.opportunities <==> exists i :: 0 <= i < |rows| && Assess(rows[i]) == Qualifies(o) by {
          forall o ensures o in rest.opportunities <==> exists i :: 0 <= i < |rows| && Assess(rows[i]) == Qualifies(o) {
            if o in rest.opportunities {
              var j :| 0 <= j < |rows[1..]| && Assess(rows[1..][j]) == Qualifies(o);
              assert rows[j + 1] == rows[1..][j];
            }
          }
        }
        rest
  }

  /** The opportunity table after a cycle with outcome `c`: a completed cycle
      replaces the previous table outright; a crashed one never reaches the
      write and leaves it. */
  function TableAfter(c: Cycle, previous: seq<Opportunity>): seq<Opportunity> {
    match c
    case Crashed => previous
    case Recorded(os) => os
  }

  /** Every opportunity a completed cycle records clears the threshold. */
  lemma RecordedAboveThreshold(rows: seq<Row>)
    requires Analyze(rows).Recorded?
    ensures forall o :: o in Analyze(rows).opportunities ==> o.finalBalance > ProfitThreshold
  {
    forall o | o in Analyze(rows).opportunities
      ensures o.finalBalance > ProfitThreshold
    {
      var i :| 0 <= i < |rows| && Assess(rows[i]) == Qualifies(o);
    }
  }

  /** `analyze_triangles`: the opportunity table after one cycle over `rows`. */
  function NextOpportunities(rows: seq<Row>, previous: seq<Opportunity>): (next: seq<Opportunity>)
    ensures Analyze(rows).Crashed? ==> next == previous
    ensures Analyze(rows).Recorded? ==> next == Analyze(rows).opportunities
    ensures Analyze(rows).Recorded? ==> forall o :: o in next ==> o.finalBalance > ProfitThreshold
  {
    if Analyze(rows).Recorded? then RecordedAboveThreshold(rows); TableAfter(Analyze(rows), previous)
    else TableAfter(Analyze(rows), previous)
  }

  /** A completed cycle does not depend on what was recorded before. */
  lemma CycleSupersedes(rows: seq<Row>, previous1: seq<Opportunity>, previous2: seq<Opportunity>)
    requires Analyze(rows).Recorded?
    ensures NextOpportunities(rows, previous1) == NextOpportunities(rows, previous2)
  {
  }

  /** The analysis thread after a run of cycles: the opportunity table, and
      whether the thread is still alive. */
  datatype ThreadState = ThreadState(table: seq<Opportunity>, alive: bool)

  /** The thread loop over the outcomes of its successive cycles: each recorded
      cycle replaces the table; the first crash ends the loop. */
  function RunCycles(cycles: seq<Cycle>, table: seq<Opportunity>): (t: ThreadState)
    ensures t.alive <==> forall k :: 0 <= k < |cycles| ==> cycles[k].Recorded?
    ensures t.alive && |cycles| > 0 ==> t.table == cycles[|cycles| - 1].opportunities
    ensures t.alive && |cycles| == 0 ==> t.table == table
    ensures (forall o :: o in table ==> o.finalBalance > ProfitThreshold) &&
            (forall k, o :: 0 <= k < |cycles| && cycles[k].Recorded? && o in cycles[k].opportunities ==>
                              o.finalBalance > ProfitThreshold) ==>
              forall o :: o in t.table ==> o.finalBalance > ProfitThreshold
    decreases |cycles|
  {
    if |cycles| == 0 then ThreadState(table, true)
    else
      var rest := cycles[1..];
      assert forall k :: 1 <= k < |cycles| ==> cycles[k] == rest[k - 1];
      if cycles[0].Crashed? then ThreadState(TableAfter(cycles[0], table), false)
      else
        var t := RunCycles(rest, TableAfter(cycles[0], table));
        if !t.alive then
          var k :| 0 <= k < |rest| && !rest[k].Recorded?;
          assert !cycles[k + 1].Recorded?;
          t
        else
          t
  }

  /** Once a cycle crashes, the loop's state is settled: later cycles change
      nothing, and the table is the one before the crash. */
  lemma {:induction false} CrashEndsCycles(cycles: seq<Cycle>, table: seq<Opportunity>, k: nat)
    requires k < |cycles| && cycles[k].Crashed?
    ensures !RunCycles(cycles, table).alive
    ensures RunCycles(cycles, table) == RunCycles(cycles[..k + 1], table)
    ensures RunCycles(cycles, table).table == RunCycles(cycles[..k], table).table
    decreases k
  {
    var rest := cycles[1..];
    assert cycles[..k + 1][0] == cycles[0];
    if k > 0 && cycles[0].Recorded? {
      assert cycles[..k + 1][1..] == rest[..k];
      assert cycles[..k][1..] == rest[..k - 1];
      assert cycles[..k][0] == cycles[0];
      CrashEndsCycles(rest, cycles[0].opportunities, k - 1);
    }
  }

  /** The outcome of analysing each snapshot. */
  function Cycles(snapshots: seq<seq<Row>>): (cs: seq<Cycle>)
    ensures |cs| == |snapshots| && forall k :: 0 <= k < |cs| ==> cs[k] == Analyze(snapshots[k])
  {
    seq(|snapshots|, k requires 0 <= k < |snapshots| => Analyze(snapshots[k]))
  }

  /** `analyze_triangles_thread` over the successive snapshots of the triangle
      table it reads. A crashed cycle ends the thread, so later snapshots are
      never analysed. */
  function RunAnalysis(snapshots: seq<seq<Row>>, table: seq<Opportunity>): (t: ThreadState)
    ensures t.alive <==> forall k :: 0 <= k < |snapshots| ==> Analyze(snapshots[k]).Recorded?
    ensures t.alive && |snapshots| > 0 ==> t.table == Analyze(snapshots[|snapshots| - 1]).opportunities
    ensures t.alive && |snapshots| == 0 ==> t.table == table
    ensures (forall o :: o in table ==> o.finalBalance > ProfitThreshold) ==>
              forall o :: o in t.table ==> o.finalBalance > ProfitThreshold
  {
    var cs := Cycles(snapshots);
    assert forall k, o :: 0 <= k < |cs| && cs[k].Recorded? && o in cs[k].opportunities ==>
                            o.finalBalance > ProfitThreshold by {
      forall k, o | 0 <= k < |cs| && cs[k].Recorded? && o in cs[k].opportunities
        ensures o.finalBalance > ProfitThreshold
      {
        RecordedAboveThreshold(snapshots[k]);
      }
    }
    RunCycles(cs, table)
  }

  /** Once a cycle crashes, the table stays as it was before that cycle,
      whatever the market does afterwards. */
  lemma CrashFreezesTable(snapshots: seq<seq<Row>>, table: seq<Opportunity>, k: nat)
    requires k < |snapshots| && Analyze(snapshots[k]).Crashed?
    ensures !RunAnalysis(snapshots, table).alive
    ensures RunAnalysis(snapshots, table) == RunAnalysis(snapshots[..k + 1], table)
    ensures RunAnalysis(snapshots, table).table == RunAnalysis(snapshots[..k], table).table
  {
    var cs := Cycles(snapshots);
    assert Cycles(snapshots[..k + 1]) == cs[..k + 1];
    assert Cycles(snapshots[..k]) == cs[..k];
    CrashEndsCycles(cs, table, k);
  }


  function Full(bid: real, ask: real, bidVolume: real, askVolume: real): Quote {
    Quote(Some(bid), Some(ask), Some(bidVolume), Some(askVolume))
  }

  /** ask1 = 100, bid2 = 1, bid3 = 99 with ample volume gives 990: not recorded. */
  lemma Example990NotRecorded(p1: Pair, p2: Pair, p3: Pair)
    ensures Assess(Row(Leg(p1, Full(99.0, 100.0, 10.0, 10.0)), Leg(p2, Full(1.0, 1.01, 500.0, 500.0)),
                       Leg(p3, Full(99.0, 99.5, 1.0, 1.0))))
            == BelowThreshold(990.0)
  {
  }

  /** ask1 = 50, bid2 = 2, bid3 = 12 gives 1000 / 50 * 2 * 12 = 480, which is
      below the threshold: not recorded either. */
  lemma Example480NotRecorded(p1: Pair, p2: Pair, p3: Pair)
    ensures Assess(Row(Leg(p1, Full(49.0, 50.0, 10.0, 10.0)), Leg(p2, Full(2.0, 2.1, 500.0, 500.0)),
                       Leg(p3, Full(12.0, 12.5, 1.0, 1.0))))
            == BelowThreshold(480.0)
  {
  }

  /** ask1 = 1, bid2 = 1.02, bid3 = 1 gives 1020: recorded. */
  lemma Example1020Recorded(p1: Pair, p2: Pair, p3: Pair)
    ensures Assess(Row(Leg(p1, Full(0.99, 1.0, 300.0, 300.0)), Leg(p2, Full(1.02, 1.03, 300.0, 300.0)),
                       Leg(p3, Full(1.0, 1.001, 1.0, 1.0)))).Qualifies?
  {
  }
}
