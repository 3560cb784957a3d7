/** AccountState: balances and open orders as pushed by the private feed.

    An `account` push upserts one balance row per currency detail, a missing
    amount counting as 0. An `orders` push upserts one row per order id; for an
    id already present only price and quantity change. A push whose handling
    raises (a missing key, an unparsable number) is dropped whole: nothing it
    carried is committed. No push ever removes an order row. */
module AccountState {
  import opened Instruments

  datatype BalanceRow = BalanceRow(available: real, reserved: real)

  datatype OpenOrder = OpenOrder(pair: string, side: string, price: Option<real>, quantity: real, createdAt: string)

  datatype Account = Account(balances: map<Currency, BalanceRow>, orders: map<string, OpenOrder>)

  const EmptyAccount: Account := Account(map[], map[])

  /** A numeric field of a push: absent, a number, or text that does not parse. */
  datatype Amount = Missing | Number(value: real) | Unparsable

  /** The order price field: absent key, empty text, a number, or unparsable text. */
  datatype PriceField = NoPrice | EmptyPrice | PriceValue(value: real) | BadPrice

  datatype BalanceDetail = BalanceDetail(ccy: Option<Currency>, availBal: Amount, frozenBal: Amount)

  /** One account entry; a missing `details` list is empty. */
  datatype AccountEntry = AccountEntry(details: seq<BalanceDetail>)

  datatype OrderEntry = OrderEntry(ordId: Option<string>, instId: Option<string>, side: Option<string>,
                                   px: PriceField, sz: Amount, cTime: Option<string>)

  /** A private-feed message after JSON decoding. `OtherPush` covers messages
      without `arg`/`data`, other channels, and the login and subscribe replies. */
  datatype PrivateMessage =
    | AccountPush(accounts: seq<AccountEntry>)
    | OrdersPush(orders: seq<OrderEntry>)
    | OtherPush

  // ---------------------------------------------------------------------------
  // Balances.

  /** `float(balance.get(key, 0))`. */
  function AmountOrZero(a: Amount): Option<real> {
    match a
    case Missing => Some(0.0)
    case Number(v) => Some(v)
    case Unparsable => None
  }

  /** One detail read into a currency and its row; `None` when reading raises. */
  function ReadDetail(d: BalanceDetail): (r: Option<(Currency, BalanceRow)>)
    ensures r.Some? <==> d.ccy.Some? && !d.availBal.Unparsable? && !d.frozenBal.Unparsable?
    ensures r.Some? ==> r.value.0 == d.ccy.value
    ensures r.Some? && d.availBal.Missing? ==> r.value.1.available == 0.0
    ensures r.Some? && d.frozenBal.Missing? ==> r.value.1.reserved == 0.0
    ensures r.Some? && d.availBal.Number? ==> r.value.1.available == d.availBal.value
    ensures r.Some? && d.frozenBal.Number? ==> r.value.1.reserved == d.frozenBal.value
  {
    match (d.ccy, AmountOrZero(d.availBal), AmountOrZero(d.frozenBal))
    case (Some(c), Some(a), Some(f)) => Some((c, BalanceRow(a, f)))
    case _ => None
  }

  predicate Readable(d: BalanceDetail) {
    ReadDetail(d).Some?
  }

  /** The details of all entries, in message order. */
  function AllDetails(accounts: seq<AccountEntry>): (ds: seq<BalanceDetail>)
    ensures |accounts| == 1 ==> ds == accounts[0].details
  {
    if |accounts| == 0 then [] else accounts[0].details + AllDetails(accounts[1..])
  }

  /** `i` is the last detail of `ds` for currency `c`. */
  predicate LastFor(ds: seq<BalanceDetail>, i: int, c: Currency) {
    && 0 <= i < |ds| && ds[i].ccy == Some(c)
    && forall j :: i < j < |ds| ==> ds[j].ccy != Some(c)
  }

  /** The upserts of a fully readable detail list, applied in order. */
  function Updates(ds: seq<BalanceDetail>): map<Currency, BalanceRow>
    requires forall i :: 0 <= i < |ds| ==> Readable(ds[i])
    decreases |ds|
  {
    if |ds| == 0 then map[]
    else
      var n := |ds| - 1;
      assert Readable(ds[n]);
      assert forall i :: 0 <= i < n ==> ds[..n][i] == ds[i];
      Updates(ds[..n])[ReadDetail(ds[n]).value.0 := ReadDetail(ds[n]).value.1]
  }

  /** The upserts touch exactly the currencies the details mention. */
  lemma {:induction false} UpdatesKeys(ds: seq<BalanceDetail>, c: Currency)
    requires forall i :: 0 <= i < |ds| ==> Readable(ds[i])
    ensures c in Updates(ds) <==> exists i :: 0 <= i < |ds| && ds[i].ccy == Some(c)
    decreases |ds|
  {
    if |ds| > 0 {
      var n := |ds| - 1;
      var init := ds[..n];
      assert forall i :: 0 <= i < n ==> init[i] == ds[i];
      assert Readable(ds[n]);
      UpdatesKeys(init, c);
      if exists i :: 0 <= i < |ds| && ds[i].ccy == Some(c) {
        var i :| 0 <= i < |ds| && ds[i].ccy == Some(c);
        if i < n {
          assert init[i].ccy == Some(c);
        }
      }
      if exists i :: 0 <= i < n && init[i].ccy == Some(c) {
        var i :| 0 <= i < n && init[i].ccy == Some(c);
        assert ds[i].ccy == Some(c);
      }
    }
  }

  /** Each currency holds the values of its last detail. */
  lemma {:induction false} UpdatesLast(ds: seq<BalanceDetail>, c: Currency, i: int)
    requires forall k :: 0 <= k < |ds| ==> Readable(ds[k])
    requires LastFor(ds, i, c)
    ensures c in Updates(ds) && Updates(ds)[c] == ReadDetail(ds[i]).value.1
    decreases |ds|
  {
    var n := |ds| - 1;
    var init := ds[..n];
    assert forall k :: 0 <= k < n ==> init[k] == ds[k];
    assert Readable(ds[n]) && Readable(ds[i]);
    if i < n {
      assert ds[n].ccy != Some(c);
      assert LastFor(init, i, c);
      UpdatesLast(init, c, i);
    }
  }

  /** Upserts the balances of one detail list; `None` when any detail raises,
      in which case nothing of the message is committed. */
  function ApplyDetails(balances: map<Currency, BalanceRow>, ds: seq<BalanceDetail>): (r: Option<map<Currency, BalanceRow>>)
    ensures r.None? <==> exists i :: 0 <= i < |ds| && !Readable(ds[i])
    ensures r.Some? ==> r.value == balances + Updates(ds)
  {
    if forall i :: 0 <= i < |ds| ==> Readable(ds[i]) then Some(balances + Updates(ds)) else None
  }

  // ---------------------------------------------------------------------------
  // Orders.

  /** One order entry read into its id and row; `None` when reading raises. */
  function ReadOrder(o: OrderEntry): (r: Option<(string, OpenOrder)>)
    ensures r.Some? <==>
              && o.ordId.Some? && o.instId.Some? && o.side.Some? && o.cTime.Some?
              && !o.px.NoPrice? && !o.px.BadPrice? && o.sz.Number?
    ensures r.Some? ==> r.value.0 == o.ordId.value && r.value.1.quantity == o.sz.value
    ensures r.Some? ==> (r.value.1.price.None? <==> o.px.EmptyPrice?)
    ensures r.Some? && o.px.PriceValue? ==> r.value.1.price == Some(o.px.value)
    ensures r.Some? ==>
              && r.value.1.pair == o.instId.value
              && r.value.1.side == o.side.value
              && r.value.1.createdAt == o.cTime.value
  {
    match (o.ordId, o.instId, o.side, o.px, o.sz, o.cTime)
    case (Some(id), Some(pair), Some(side), EmptyPrice, Number(q), Some(t)) =>
      Some((id, OpenOrder(pair, side, None, q, t)))
    case (Some(id), Some(pair), Some(side), PriceValue(p), Number(q), Some(t)) =>
      Some((id, OpenOrder(pair, side, Some(p), q, t)))
    case _ => None
  }

  /** Insert a new order, or refresh price and quantity of an existing one. */
  function UpsertOrder(orders: map<string, OpenOrder>, id: string, o: OpenOrder): (m: map<string, OpenOrder>)
    ensures m.Keys == orders.Keys + {id}
    ensures id !in orders ==> m[id] == o
    ensures id in orders ==> m[id] == orders[id].(price := o.price, quantity := o.quantity)
    ensures forall k :: k in orders && k != id ==> m[k] == orders[k]
  {
    if id in orders then orders[id := orders[id].(price := o.price, quantity := o.quantity)]
    else orders[id := o]
  }

  /** Every entry of an orders push reads without raising. */
  predicate AllRead(es: seq<OrderEntry>) {
    forall i :: 0 <= i < |es| ==> ReadOrder(es[i]).Some?
  }

  lemma AllReadCons(es: seq<OrderEntry>)
    requires |es| > 0
    ensures AllRead(es) <==> ReadOrder(es[0]).Some? && AllRead(es[1..])
  {
    assert forall i :: 1 <= i < |es| ==> es[i] == es[1..][i - 1];
  }

  /** The order ids a readable push mentions. */
  function OrderIds(es: seq<OrderEntry>): set<string>
    requires AllRead(es)
    decreases |es|
  {
    if |es| == 0 then {}
    else
      AllReadCons(es);
      {ReadOrder(es[0]).value.0} + OrderIds(es[1..])
  }

  /** The row carried by the last entry of `es` with id `k`. */
  function LastEntry(es: seq<OrderEntry>, k: string): OpenOrder
    requires AllRead(es) && k in OrderIds(es)
    decreases |es|
  {
    AllReadCons(es);
    if k in OrderIds(es[1..]) then LastEntry(es[1..], k) else ReadOrder(es[0]).value.1
  }

  /** The row carried by the first entry of `es` with id `k`. */
  function FirstEntry(es: seq<OrderEntry>, k: string): OpenOrder
    requires AllRead(es) && k in OrderIds(es)
    decreases |es|
  {
    AllReadCons(es);
    if ReadOrder(es[0]).value.0 == k then ReadOrder(es[0]).value.1 else FirstEntry(es[1..], k)
  }

  /** Two rows of the same order: pair, side and creation time agree. */
  predicate SameOrder(x: OpenOrder, y: OpenOrder) {
    x.pair == y.pair && x.side == y.side && x.createdAt == y.createdAt
  }

  /** Upserts each order entry in turn; `None` when any entry raises, in which
      case nothing of the message is committed. */
  function ApplyOrders(orders: map<string, OpenOrder>, es: seq<OrderEntry>): (r: Option<map<string, OpenOrder>>)
    ensures r.Some? <==> AllRead(es)
    ensures r.Some? ==> r.value.Keys == orders.Keys + OrderIds(es)
    ensures r.Some? ==> forall k :: k in orders ==> SameOrder(r.value[k], orders[k])
    ensures r.Some? ==> forall k :: k in orders && k !in OrderIds(es) ==> r.value[k] == orders[k]
    decreases |es|
  {
    if |es| == 0 then Some(orders)
    else
      AllReadCons(es);
      match ReadOrder(es[0])
      case None => None
      case Some((id, o)) => ApplyOrders(UpsertOrder(orders, id, o), es[1..])
  }

  /** An id new to the table takes pair, side and creation time from its
      first entry in the push. */
  lemma {:induction false} ApplyOrdersInserts(orders: map<string, OpenOrder>, es: seq<OrderEntry>, k: string)
    requires AllRead(es) && k in OrderIds(es) && k !in orders
    ensures SameOrder(ApplyOrders(orders, es).value[k], FirstEntry(es, k))
    decreases |es|
  {
    AllReadCons(es);
    var (id, o) := ReadOrder(es[0]).value;
    var mid := UpsertOrder(orders, id, o);
    if id != k {
      assert k in OrderIds(es[1..]);
      ApplyOrdersInserts(mid, es[1..], k);
    }
  }

  /** After a readable orders push, every id it mentions holds the price and
      quantity of its last entry. */
  predicate Settled(orders: map<string, OpenOrder>, es: seq<OrderEntry>)
    requires AllRead(es)
  {
    forall k :: k in OrderIds(es) ==>
      k in orders && orders[k].price == LastEntry(es, k).price && orders[k].quantity == LastEntry(es, k).quantity
  }

  lemma {:induction false} ApplyOrdersSettles(orders: map<string, OpenOrder>, es: seq<OrderEntry>)
    requires AllRead(es)
    ensures Settled(ApplyOrders(orders, es).value, es)
    decreases |es|
  {
    if |es| > 0 {
      AllReadCons(es);
      var (id, o) := ReadOrder(es[0]).value;
      var mid := UpsertOrder(orders, id, o);
      ApplyOrdersSettles(mid, es[1..]);
    }
  }

  /** Re-applying a push to a table that differs from a settled one only in
      the price and quantity of ids the push mentions yields the settled one. */
  lemma {:induction false} ApplyOrdersAbsorbs(d': map<string, OpenOrder>, d: map<string, OpenOrder>, es: seq<OrderEntry>)
    requires AllRead(es)
    requires d'.Keys == d.Keys && OrderIds(es) <= d.Keys
    requires forall k :: k in d ==> SameOrder(d'[k], d[k])
    requires forall k :: k in d && k !in OrderIds(es) ==> d'[k] == d[k]
    requires Settled(d, es)
    ensures ApplyOrders(d', es) == Some(d)
    decreases |es|
  {
    if |es| == 0 {
      assert d' == d;
    } else {
      AllReadCons(es);
      var (id, o) := ReadOrder(es[0]).value;
      var mid := UpsertOrder(d', id, o);
      assert OrderIds(es) == {id} + OrderIds(es[1..]);
      forall k | k in OrderIds(es[1..])
        ensures LastEntry(es, k) == LastEntry(es[1..], k)
      {
      }
      ApplyOrdersAbsorbs(mid, d, es[1..]);
    }
  }

  // ---------------------------------------------------------------------------
  // The handler and the queries.

  /** Every detail of a list reads without raising. */
  predicate AllReadable(ds: seq<BalanceDetail>) {
    forall i :: 0 <= i < |ds| ==> Readable(ds[i])
  }

  /** `process_private_ws_message`. A readable account push upserts its
      balances; a readable orders push upserts its orders, new ids taking
      their first entry's row and every id its last entry's price and
      quantity; anything that raises leaves the account as it was. */
  function HandlePrivateMessage(a: Account, msg: PrivateMessage): (a': Account)
    ensures msg.OtherPush? ==> a' == a
    ensures msg.AccountPush? ==> a'.orders == a.orders
    ensures msg.AccountPush? && AllReadable(AllDetails(msg.accounts)) ==>
              a'.balances == a.balances + Updates(AllDetails(msg.accounts))
    ensures msg.AccountPush? && !AllReadable(AllDetails(msg.accounts)) ==> a' == a
    ensures msg.OrdersPush? ==> a'.balances == a.balances
    ensures msg.OrdersPush? && AllRead(msg.orders) ==>
              && a'.orders.Keys == a.orders.Keys + OrderIds(msg.orders)
              && Settled(a'.orders, msg.orders)
              && (forall k :: k in a.orders ==> SameOrder(a'.orders[k], a.orders[k]))
              && (forall k :: k in OrderIds(msg.orders) && k !in a.orders ==>
                    SameOrder(a'.orders[k], FirstEntry(msg.orders, k)))
              && (forall k :: k in a.orders && k !in OrderIds(msg.orders) ==> a'.orders[k] == a.orders[k])
    ensures msg.OrdersPush? && !AllRead(msg.orders) ==> a' == a
    ensures a.orders.Keys <= a'.orders.Keys
  {
    match msg
    case OtherPush => a
    case AccountPush(accounts) =>
      (match ApplyDetails(a.balances, AllDetails(accounts))
       case None => a
       case Some(b) => a.(balances := b))
    case OrdersPush(es) =>
      (match ApplyOrders(a.orders, es)
       case None => a
       case Some(o) =>
         ApplyOrdersSettles(a.orders, es);
         assert forall k :: k in OrderIds(es) && k !in a.orders ==> SameOrder(o[k], FirstEntry(es, k)) by {
           forall k | k in OrderIds(es) && k !in a.orders
             ensures SameOrder(o[k], FirstEntry(es, k))
           {
             ApplyOrdersInserts(a.orders, es, k);
           }
         }
         a.(orders := o))
  }

  /** `get_balance`: the available amount, or 0 for an unknown currency. */
  function GetBalance(balances: map<Currency, BalanceRow>, c: Currency): (v: real)
    ensures c !in balances ==> v == 0.0
    ensures c in balances ==> v == balances[c].available
  {
    if c in balances then balances[c].available else 0.0
  }

  /** One poll of `wait_for_order`: the order counts as filled when no row has
      its id. A missing id never matches a row (SQL `= NULL`). */
  predicate OrderGone(orders: map<string, OpenOrder>, id: Option<string>) {
    id.None? || id.value !in orders
  }

  datatype Wait = Confirmed(polls: nat) | StillWaiting

  /** `wait_for_order` over the successive states of the order table it polls:
      it returns at the first poll that finds no row, and otherwise keeps
      polling; it never reports failure. */
  function WaitForOrder(polls: seq<map<string, OpenOrder>>, id: Option<string>): (w: Wait)
    ensures w.Confirmed? ==> w.polls < |polls| && OrderGone(polls[w.polls], id)
                             && forall k :: 0 <= k < w.polls ==> !OrderGone(polls[k], id)
    ensures w.StillWaiting? ==> forall k :: 0 <= k < |polls| ==> !OrderGone(polls[k], id)
    decreases |polls|
  {
    if |polls| == 0 then StillWaiting
    else if OrderGone(polls[0], id) then Confirmed(0)
    else
      match WaitForOrder(polls[1..], id)
      case StillWaiting => StillWaiting
      case Confirmed(k) => Confirmed(k + 1)
  }

  // ---------------------------------------------------------------------------
  // Properties.

  /** After a readable account push, each currency it mentions holds the
      available amount of its last detail, and every other currency is
      unchanged. */
  lemma BalancePushEffect(a: Account, ds: seq<BalanceDetail>, c: Currency, i: int)
    requires forall k :: 0 <= k < |ds| ==> Readable(ds[k])
    ensures var a' := HandlePrivateMessage(a, AccountPush([AccountEntry(ds)]));
            && ((forall k :: 0 <= k < |ds| ==> ds[k].ccy != Some(c)) ==> GetBalance(a'.balances, c) == GetBalance(a.balances, c))
            && (LastFor(ds, i, c) ==> GetBalance(a'.balances, c) == ReadDetail(ds[i]).value.1.available)
  {
    UpdatesKeys(ds, c);
    if LastFor(ds, i, c) {
      UpdatesLast(ds, c, i);
    }
  }

  /** Applying the same account push twice is applying it once: one row per
      currency, holding the latest values. */
  lemma BalancePushIdempotent(a: Account, accounts: seq<AccountEntry>)
    ensures HandlePrivateMessage(HandlePrivateMessage(a, AccountPush(accounts)), AccountPush(accounts))
            == HandlePrivateMessage(a, AccountPush(accounts))
  {
    var ds := AllDetails(accounts);
    if forall i :: 0 <= i < |ds| ==> Readable(ds[i]) {
      var u := Updates(ds);
      assert (a.balances + u) + u == a.balances + u;
    }
  }

  /** Applying the same orders push twice is applying it once: re-applying
      rewrites each id with the price and quantity it already holds. */
  lemma OrdersPushIdempotent(a: Account, es: seq<OrderEntry>)
    ensures HandlePrivateMessage(HandlePrivateMessage(a, OrdersPush(es)), OrdersPush(es))
            == HandlePrivateMessage(a, OrdersPush(es))
  {
    if AllRead(es) {
      var d := ApplyOrders(a.orders, es).value;
      var once := a.(orders := d);
      assert HandlePrivateMessage(a, OrdersPush(es)) == once;
      ApplyOrdersSettles(a.orders, es);
      ApplyOrdersAbsorbs(d, d, es);
      assert HandlePrivateMessage(once, OrdersPush(es)) == once;
    }
  }

  /** No push removes an order row. */
  lemma {:induction false} OrderRowsPersist(a: Account, msgs: seq<PrivateMessage>)
    ensures a.orders.Keys <= Replay(a, msgs).orders.Keys
    decreases |msgs|
  {
    if |msgs| > 0 {
      OrderRowsPersist(HandlePrivateMessage(a, msgs[0]), msgs[1..]);
    }
  }

  function Replay(a: Account, msgs: seq<PrivateMessage>): Account
    decreases |msgs|
  {
    if |msgs| == 0 then a else Replay(HandlePrivateMessage(a, msgs[0]), msgs[1..])
  }

  /** Once an order row is present, waiting on its id never completes, however
      the private feed evolves: the fill signal the engine waits for never comes. */
  lemma PresentOrderNeverConfirms(a: Account, msgs: seq<PrivateMessage>, id: string)
    requires id in a.orders
    ensures forall k :: 0 <= k <= |msgs| ==> !OrderGone(Replay(a, msgs[..k]).orders, Some(id))
  {
    forall k | 0 <= k <= |msgs| ensures !OrderGone(Replay(a, msgs[..k]).orders, Some(id)) {
      OrderRowsPersist(a, msgs[..k]);
    }
  }
}
