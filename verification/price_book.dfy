/** PriceBook: the triangle table with live top-of-book quotes per leg, and the
    market-data message handler that writes into it.

    A message names one instrument; when both sides of its book are non-empty,
    the best level of each side is written, as bid, ask and their volumes,
    into every leg of every row whose pair is that instrument. */
module PriceBook {
  import opened Instruments
  import opened TriangleGraph

  /** Top of book for one leg; every field is absent until first observed. */
  datatype Quote = Quote(bid: Option<real>, ask: Option<real>, bidVolume: Option<real>, askVolume: Option<real>)

  datatype Leg = Leg(pair: Pair, quote: Quote)

  /** One row of the triangle table. */
  datatype Row = Row(leg1: Leg, leg2: Leg, leg3: Leg)

  const Unquoted: Quote := Quote(None, None, None, None)

  /** The table as written after filtering: the three pairs, no prices yet. */
  function InitialTable(ts: seq<Triangle>): (rows: seq<Row>)
    ensures |rows| == |ts|
    ensures forall i :: 0 <= i < |ts| ==>
              && rows[i].leg1 == Leg(ts[i].leg1, Unquoted)
              && rows[i].leg2 == Leg(ts[i].leg2, Unquoted)
              && rows[i].leg3 == Leg(ts[i].leg3, Unquoted)
  {
    seq(|ts|, i requires 0 <= i < |ts| =>
      Row(Leg(ts[i].leg1, Unquoted), Leg(ts[i].leg2, Unquoted), Leg(ts[i].leg3, Unquoted)))
  }

  /** The instruments to subscribe to: every pair used by some leg, once each. */
  function SubscribedPairs(rows: seq<Row>): (ps: set<Pair>)
    ensures forall p :: p in ps <==> exists r :: r in rows && OnRow(r, p)
  {
    (set r | r in rows :: r.leg1.pair) + (set r | r in rows :: r.leg2.pair) + (set r | r in rows :: r.leg3.pair)
  }

  predicate OnRow(r: Row, p: Pair) {
    r.leg1.pair == p || r.leg2.pair == p || r.leg3.pair == p
  }

  // ---------------------------------------------------------------------------
  // Messages.

  /** One order-book level as numbers: price, volume, then fields not read. */
  type Level = seq<real>

  /** The first data entry of a book message; a missing side is empty. */
  datatype Book = Book(bids: seq<Level>, asks: seq<Level>)

  /** A market-data message after JSON decoding. `Unrelated` lacks the `arg` or
      `data` key (subscription acknowledgements); `Malformed` is one whose
      decoding raises (bad JSON, no instrument id, a non-numeric field). */
  datatype MarketMessage =
    | BookMessage(instId: Pair, data: seq<Book>)
    | Unrelated
    | Malformed

  /** What the handler extracts from a message. */
  datatype Extract = Fatal | Ignore | Write(pair: Pair, quote: Quote)

  /** `q` holds the best bid and ask of `b`, each with its volume. */
  predicate TopOfBook(b: Book, q: Quote) {
    && |b.bids| > 0 && |b.asks| > 0
    && |b.bids[0]| >= 2 && |b.asks[0]| >= 2
    && q == Quote(Some(b.bids[0][0]), Some(b.asks[0][0]), Some(b.bids[0][1]), Some(b.asks[0][1]))
  }

  predicate ShortLevel(side: seq<Level>) {
    |side| > 0 && |side[0]| < 2
  }

  /** Top-of-book extraction. An empty data list or a best level with fewer than
      two numbers raises, and the handler then calls `sys.exit`. */
  function ExtractTop(msg: MarketMessage): (e: Extract)
    ensures e.Write? ==> msg.BookMessage? && e.pair == msg.instId && |msg.data| > 0 && TopOfBook(msg.data[0], e.quote)
    ensures msg.BookMessage? && |msg.data| > 0 && !ShortLevel(msg.data[0].bids) && !ShortLevel(msg.data[0].asks)
            ==> (e.Write? <==> |msg.data[0].bids| > 0 && |msg.data[0].asks| > 0)
    ensures e.Fatal? <==>
              msg.Malformed?
              || (msg.BookMessage? && (|msg.data| == 0 || ShortLevel(msg.data[0].bids) || ShortLevel(msg.data[0].asks)))
  {
    match msg
    case Unrelated => Ignore
    case Malformed => Fatal
    case BookMessage(inst, data) =>
      if |data| == 0 then Fatal
      else
        var b := data[0];
        if ShortLevel(b.bids) || ShortLevel(b.asks) then Fatal
        else if |b.bids| > 0 && |b.asks| > 0 then
          Write(inst, Quote(Some(b.bids[0][0]), Some(b.asks[0][0]), Some(b.bids[0][1]), Some(b.asks[0][1])))
        else Ignore
  }

  // ---------------------------------------------------------------------------
  // The CASE-style update.

  function UpdateLeg(l: Leg, p: Pair, q: Quote): Leg {
    if l.pair == p then l.(quote := q) else l
  }

  function UpdateRow(r: Row, p: Pair, q: Quote): Row {
    Row(UpdateLeg(r.leg1, p, q), UpdateLeg(r.leg2, p, q), UpdateLeg(r.leg3, p, q))
  }

  /** A leg after the update: same pair; new quote exactly when its pair matches. */
  predicate LegWritten(before: Leg, after: Leg, p: Pair, q: Quote) {
    && after.pair == before.pair
    && (before.pair == p ==> after.quote == q)
    && (before.pair != p ==> after.quote == before.quote)
  }

  /** The table after writing `q` for instrument `p`: same rows, each leg written as `LegWritten` says. */
  predicate TableWritten(before: seq<Row>, after: seq<Row>, p: Pair, q: Quote) {
    && |after| == |before|
    && forall i :: 0 <= i < |before| ==>
         && LegWritten(before[i].leg1, after[i].leg1, p, q)
         && LegWritten(before[i].leg2, after[i].leg2, p, q)
         && LegWritten(before[i].leg3, after[i].leg3, p, q)
  }

  function UpdateTable(rows: seq<Row>, p: Pair, q: Quote): (rs: seq<Row>)
    ensures TableWritten(rows, rs, p, q)
    ensures forall i :: 0 <= i < |rows| && !OnRow(rows[i], p) ==> rs[i] == rows[i]
  {
    seq(|rows|, i requires 0 <= i < |rows| => UpdateRow(rows[i], p, q))
  }

  /** The outcome of handling one message: the table carries on, or the
      handler exits, which stops the market-data feed. */
  datatype Handled = Continue(rows: seq<Row>) | Exit

  /** `process_ws_message`. */
  function HandleMarketMessage(rows: seq<Row>, msg: MarketMessage): (h: Handled)
    ensures h.Exit? <==> ExtractTop(msg).Fatal?
    ensures ExtractTop(msg).Ignore? ==> h == Continue(rows)
    ensures ExtractTop(msg).Write? ==>
              h.Continue? && TableWritten(rows, h.rows, ExtractTop(msg).pair, ExtractTop(msg).quote)
    ensures h.Continue? ==> |h.rows| == |rows|
  {
    match ExtractTop(msg)
    case Fatal => Exit
    case Ignore => Continue(rows)
    case Write(p, q) => Continue(UpdateTable(rows, p, q))
  }

  /** Writing the same quote twice is writing it once. */
  lemma UpdateIdempotent(rows: seq<Row>, p: Pair, q: Quote)
    ensures UpdateTable(UpdateTable(rows, p, q), p, q) == UpdateTable(rows, p, q)
  {
    var once := UpdateTable(rows, p, q);
    var twice := UpdateTable(once, p, q);
    forall i | 0 <= i < |rows| ensures twice[i] == once[i] {
    }
  }

  /** Handling the same message twice is handling it once. */
  lemma HandleIdempotent(rows: seq<Row>, msg: MarketMessage)
    requires HandleMarketMessage(rows, msg).Continue?
    ensures HandleMarketMessage(HandleMarketMessage(rows, msg).rows, msg) == HandleMarketMessage(rows, msg)
  {
    if ExtractTop(msg).Write? {
      UpdateIdempotent(rows, ExtractTop(msg).pair, ExtractTop(msg).quote);
    }
  }

  /** Updates for different instruments touch disjoint legs, so their order
      does not matter. */
  lemma UpdatesCommute(rows: seq<Row>, p1: Pair, q1: Quote, p2: Pair, q2: Quote)
    requires p1 != p2
    ensures UpdateTable(UpdateTable(rows, p1, q1), p2, q2) == UpdateTable(UpdateTable(rows, p2, q2), p1, q1)
  {
    var a := UpdateTable(UpdateTable(rows, p1, q1), p2, q2);
    var b := UpdateTable(UpdateTable(rows, p2, q2), p1, q1);
    forall i | 0 <= i < |rows| ensures a[i] == b[i] {
    }
  }

  /** A later update for the same instrument overrides an earlier one. */
  lemma LastWriteWins(rows: seq<Row>, p: Pair, q1: Quote, q2: Quote)
    ensures UpdateTable(UpdateTable(rows, p, q1), p, q2) == UpdateTable(rows, p, q2)
  {
    var a := UpdateTable(UpdateTable(rows, p, q1), p, q2);
    var b := UpdateTable(rows, p, q2);
    forall i | 0 <= i < |rows| ensures a[i] == b[i] {
    }
  }
}
