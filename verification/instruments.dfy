/** Instruments: currency codes, spot pairs and the venue's fixed currency sets.
    An instrument is identified on the wire by the string `BASE-QUOTE`; the
    rest of the model works with the parsed `Pair`, which `ParseInstId` and
    `InstId` connect both ways. */
module Instruments {

  type Currency = string

  datatype Option<+T> = None | Some(value: T)

  /** A spot instrument `BASE-QUOTE`. */
  datatype Pair = Pair(base: Currency, quote: Currency)

  /** Settlement currencies: the only ones a third leg may consist of. */
  const TargetCurrencies: set<Currency> := {"USDT", "USDC"}

  /** Major assets allowed as both currencies of a second leg. */
  const BridgeCurrencies: set<Currency> := {"BTC", "ETH", "SOL", "OKB", "BCH", "BSV", "LTC"}

  /** Currencies a generated triangle may close on. */
  const DefaultCurrencies: set<Currency> := {"USDT", "USDC", "BTC", "ETH"}

  /** Fiat currencies, never traded. */
  const ExcludedCurrencies: set<Currency> :=
    {"USD", "UAH", "EUR", "JPY", "CNY", "GBP", "CHF", "AUD", "CAD",
     "BRL", "SGD", "HKD", "KRW", "RUB", "INR", "MXN", "TRY", "AED"}

  predicate Involves(p: Pair, c: Currency) {
    p.base == c || p.quote == c
  }

  predicate TouchesExcluded(p: Pair) {
    p.base in ExcludedCurrencies || p.quote in ExcludedCurrencies
  }

  predicate NoDash(s: string) {
    '-' !in s
  }

  /** Number of '-' separators in `s`. */
  function Dashes(s: string): nat {
    if |s| == 0 then 0
    else (if s[0] == '-' then 1 else 0) + Dashes(s[1..])
  }

  lemma {:induction false} NoDashHasNoDashes(s: string)
    requires NoDash(s)
    ensures Dashes(s) == 0
  {
    if |s| > 0 {
      assert s[0] != '-';
      assert NoDash(s[1..]) by {
        forall i | 0 <= i < |s[1..]| ensures s[1..][i] != '-' {
          assert s[1..][i] == s[i + 1];
        }
      }
      NoDashHasNoDashes(s[1..]);
    }
  }

  /** The wire identifier of a pair. */
  function InstId(p: Pair): string {
    p.base + "-" + p.quote
  }

  /** `base, quote = instId.split("-")`: succeeds exactly when the string holds
      one separator; any other count raises in the source. */
  function ParseInstId(s: string): (r: Option<Pair>)
    ensures r.Some? <==> Dashes(s) == 1
    ensures r.Some? ==> InstId(r.value) == s && NoDash(r.value.base) && NoDash(r.value.quote)
  {
    if |s| == 0 then None
    else if s[0] == '-' then
      (if Dashes(s[1..]) == 0 then
         NoDashesIsNoDash(s[1..]);
         Some(Pair("", s[1..]))
       else None)
    else
      match ParseInstId(s[1..])
      case None => None
      case Some(p) =>
        assert s == [s[0]] + InstId(p);
        Some(Pair([s[0]] + p.base, p.quote))
  }

  lemma {:induction false} NoDashesIsNoDash(s: string)
    requires Dashes(s) == 0
    ensures NoDash(s)
  {
    if |s| > 0 {
      NoDashesIsNoDash(s[1..]);
      assert s == [s[0]] + s[1..];
    }
  }

  /** Formatting then splitting gives the pair back, for codes without '-'. */
  lemma {:induction false} ParseInstIdRoundTrip(p: Pair)
    requires NoDash(p.base) && NoDash(p.quote)
    ensures ParseInstId(InstId(p)) == Some(p)
    decreases |p.base|
  {
    var s := InstId(p);
    if |p.base| == 0 {
      assert s[1..] == p.quote;
      NoDashHasNoDashes(p.quote);
    } else {
      var tail := Pair(p.base[1..], p.quote);
      assert NoDash(tail.base) by {
        forall i | 0 <= i < |tail.base| ensures tail.base[i] != '-' {
          assert tail.base[i] == p.base[i + 1];
        }
      }
      assert s[0] == p.base[0] && s[0] != '-';
      assert s[1..] == InstId(tail);
      ParseInstIdRoundTrip(tail);
      assert [s[0]] + tail.base == p.base;
    }
  }

  /** Two dash-free pairs share a wire identifier only if they are the same pair,
      so comparing pairs is the same as comparing the source's identifier strings. */
  lemma InstIdInjective(p: Pair, q: Pair)
    requires NoDash(p.base) && NoDash(p.quote) && NoDash(q.base) && NoDash(q.quote)
    requires InstId(p) == InstId(q)
    ensures p == q
  {
    ParseInstIdRoundTrip(p);
    ParseInstIdRoundTrip(q);
  }

  /** A pair whose codes hold no '-', as every catalog pair does. */
  predicate WellFormed(p: Pair) {
    NoDash(p.base) && NoDash(p.quote)
  }

  /** The catalog read from the instrument list: every identifier is split,
      before any is filtered; `None` when one of them does not split, which
      raises and ends the start-up. */
  function ParseCatalog(ids: seq<string>): (r: Option<seq<Pair>>)
    ensures r.Some? <==> forall i :: 0 <= i < |ids| ==> Dashes(ids[i]) == 1
    ensures r.Some? ==> |r.value| == |ids|
    ensures r.Some? ==> forall i :: 0 <= i < |ids| ==> InstId(r.value[i]) == ids[i] && WellFormed(r.value[i])
    decreases |ids|
  {
    if |ids| == 0 then Some([])
    else
      assert forall i :: 1 <= i < |ids| ==> ids[i] == ids[1..][i - 1];
      match (ParseInstId(ids[0]), ParseCatalog(ids[1..]))
      case (Some(p), Some(ps)) => Some([p] + ps)
      case (None, _) => None
      case (_, None) =>
        var i :| 0 <= i < |ids[1..]| && Dashes(ids[1..][i]) != 1;
        assert Dashes(ids[i + 1]) != 1;
        None
  }
}
