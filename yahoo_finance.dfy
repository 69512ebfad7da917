/**
 * The chart-API client: ticker normalisation, quote shaping, price history
 * and batch quotes. The HTTP request is abstracted as a total function from
 * the request parameters to the reply the API gives.
 */
module YahooFinance {
  import opened Wrappers
  import opened Strings

  const BRAZIL_PREFIX: string := "BR:"
  const US_PREFIX: string := "US:"
  const SAO_PAULO_SUFFIX: string := ".SA"
  const DEFAULT_PERIOD: string := "1mo"
  const RATE_SYMBOL: string := "USDBRL=X"

  /** An entry of `indicators.quote[0].close`; `Undefined` is what an index past its end reads. */
  datatype Close = Null | Undefined | Value(price: real)

  /** The fields of `chart.result[i].meta` that the client reads. */
  datatype Meta = Meta(regularMarketPrice: real, previousClose: real, currency: string, regularMarketTime: int)

  /** One element of `chart.result`. */
  datatype ChartResult = ChartResult(meta: Meta, timestamp: seq<int>, close: seq<Close>)

  /**
   * What an HTTP GET returns: a transport error, or a body whose `chart.result`
   * is `None` when any of `data`, `chart` or `result` is missing.
   */
  datatype Reply = NetworkError(message: string) | Chart(result: Option<seq<ChartResult>>)

  datatype FetchError =
    | NotFound(message: string)   // the body has no chart.result
    | Malformed                   // chart.result is an empty array, so result[0].meta throws
    | Network(message: string)

  datatype QuoteInfo = QuoteInfo(ticker: string, price: real, previousClose: real, change: real,
                                 currency: string, timestamp: int)

  datatype ExchangeRate = ExchangeRate(rate: real, timestamp: int)

  datatype PricePoint = PricePoint(date: int, price: Close)

  datatype History = History(ticker: string, currency: string, history: seq<PricePoint>)

  // ---------------------------------------------------------------- normalisation

  /** Removes the first `BR:` and then the first `US:`. */
  function StripMarket(t: string): (r: string)
    ensures |r| <= |t|
    ensures !Contains(t, BRAZIL_PREFIX) && !Contains(t, US_PREFIX) ==> r == t
  {
    ReplaceFirst(ReplaceFirst(t, BRAZIL_PREFIX, ""), US_PREFIX, "")
  }

  /**
   * The rewrite that getQuote and getPriceHistory apply to their argument:
   * a ticker that mentions `BR:` but not `.SA` loses its first `BR:` and gains `.SA`;
   * then the first `BR:` and the first `US:` are removed.
   */
  function Normalize(ticker: string): (r: string)
    ensures |r| <= |ticker| + |SAO_PAULO_SUFFIX|
    ensures !Contains(ticker, BRAZIL_PREFIX) ==> r == StripMarket(ticker)
  {
    var t := if Contains(ticker, BRAZIL_PREFIX) && !Contains(ticker, SAO_PAULO_SUFFIX)
             then ReplaceFirst(ticker, BRAZIL_PREFIX, "") + SAO_PAULO_SUFFIX
             else ticker;
    StripMarket(t)
  }

  /** `.SA` itself holds no pattern of three or more characters without a dot. */
  lemma SuffixLacks(p: string)
    requires |p| >= 3 && '.' !in p
    ensures !Contains(SAO_PAULO_SUFFIX, p)
  {
    var s := SAO_PAULO_SUFFIX;
    assert !StartsWith(s, p) by { assert p[0] != s[0]; }
    assert s[1..][1..] == s[2..] && s[2..][1..] == s[3..] && s[3..] == [];
    assert !StartsWith(s[1..], p) && !StartsWith(s[2..], p) && !StartsWith(s[3..], p);
  }

  /** Appending `.SA` cannot create or hide an occurrence of a pattern without a dot. */
  lemma {:induction false} ReplaceFirstBeforeSuffix(x: string, p: string, rep: string)
    requires |p| >= 3 && '.' !in p
    ensures ReplaceFirst(x + SAO_PAULO_SUFFIX, p, rep) == ReplaceFirst(x, p, rep) + SAO_PAULO_SUFFIX
    decreases |x|
  {
    var s := x + SAO_PAULO_SUFFIX;
    if |x| == 0 {
      assert s == SAO_PAULO_SUFFIX;
      SuffixLacks(p);
      assert !StartsWith(x, p);
    } else if StartsWith(s, p) {
      StartsWithBeforeSuffix(x, p);
      assert s[|p|..] == x[|p|..] + SAO_PAULO_SUFFIX;
    } else {
      assert !StartsWith(x, p);
      assert s[1..] == x[1..] + SAO_PAULO_SUFFIX;
      ReplaceFirstBeforeSuffix(x[1..], p, rep);
    }
  }

  /** An occurrence of a dot-free pattern at the start of `x + ".SA"` lies inside `x`. */
  lemma StartsWithBeforeSuffix(x: string, p: string)
    requires '.' !in p && StartsWith(x + SAO_PAULO_SUFFIX, p)
    ensures StartsWith(x, p)
  {
    var s := x + SAO_PAULO_SUFFIX;
    assert s[|x|] == '.';
    assert forall k :: 0 <= k < |p| ==> s[k] == p[k] != '.';
    assert s[..|p|] == x[..|p|];
  }

  /** Prefixing a character that cannot start `p` does not change whether `p` occurs. */
  lemma ContainsAfterChar(c: char, x: string, p: string)
    requires |p| > 0 && p[0] != c
    ensures Contains([c] + x, p) == Contains(x, p)
  {
    assert ([c] + x)[1..] == x;
  }

  /** `.SA` is appended exactly once, at the very end, when the ticker mentions `BR:` and not `.SA`. */
  lemma NormalizeAppendsSuffix(ticker: string)
    requires Contains(ticker, BRAZIL_PREFIX) && !Contains(ticker, SAO_PAULO_SUFFIX)
    ensures Normalize(ticker) == StripMarket(ReplaceFirst(ticker, BRAZIL_PREFIX, "")) + SAO_PAULO_SUFFIX
  {
    var x := ReplaceFirst(ticker, BRAZIL_PREFIX, "");
    ReplaceFirstBeforeSuffix(x, BRAZIL_PREFIX, "");
    ReplaceFirstBeforeSuffix(ReplaceFirst(x, BRAZIL_PREFIX, ""), US_PREFIX, "");
  }

  /** A ticker that already mentions `.SA` only loses its market prefixes. */
  lemma NormalizeKeepsSuffix(ticker: string)
    requires Contains(ticker, SAO_PAULO_SUFFIX)
    ensures Normalize(ticker) == StripMarket(ticker)
  {
  }

  /** A ticker without market prefixes is left as it is (so `PETR4` stays `PETR4`). */
  lemma NormalizePlain(ticker: string)
    requires !Contains(ticker, BRAZIL_PREFIX) && !Contains(ticker, US_PREFIX)
    ensures Normalize(ticker) == ticker
  {
  }

  /** `BR:` followed by a bare symbol becomes the symbol plus `.SA` (so `BR:VALE3` becomes `VALE3.SA`). */
  lemma NormalizeBrazilian(x: string)
    requires !Contains(x, BRAZIL_PREFIX) && !Contains(x, US_PREFIX) && !Contains(x, SAO_PAULO_SUFFIX)
    ensures Normalize(BRAZIL_PREFIX + x) == x + SAO_PAULO_SUFFIX
  {
    var t := BRAZIL_PREFIX + x;
    assert StartsWith(t, BRAZIL_PREFIX);
    assert t == ['B'] + (['R'] + ([':'] + x));
    ContainsAfterChar(':', x, SAO_PAULO_SUFFIX);
    ContainsAfterChar('R', [':'] + x, SAO_PAULO_SUFFIX);
    ContainsAfterChar('B', ['R'] + ([':'] + x), SAO_PAULO_SUFFIX);
    assert ReplaceFirst(t, BRAZIL_PREFIX, "") == x by {
      assert t[|BRAZIL_PREFIX|..] == x;
    }
    NormalizeAppendsSuffix(t);
  }

  /** `US:` followed by a bare symbol becomes the symbol (so `US:AAPL` becomes `AAPL`). */
  lemma NormalizeUnitedStates(x: string)
    requires !Contains(x, BRAZIL_PREFIX) && !Contains(x, US_PREFIX)
    ensures Normalize(US_PREFIX + x) == x
  {
    var t := US_PREFIX + x;
    assert t == ['U'] + (['S'] + ([':'] + x));
    ContainsAfterChar(':', x, BRAZIL_PREFIX);
    ContainsAfterChar('S', [':'] + x, BRAZIL_PREFIX);
    ContainsAfterChar('U', ['S'] + ([':'] + x), BRAZIL_PREFIX);
    assert StartsWith(t, US_PREFIX);
    assert t[|US_PREFIX|..] == x;
  }

  /** `BR:VALE3` becomes `VALE3.SA`. */
  lemma NormalizeBrazilianExample()
    ensures Normalize("BR:VALE3") == "VALE3.SA"
  {
    var x := "VALE3";
    AbsentFirstChar(x, BRAZIL_PREFIX);
    AbsentFirstChar(x, US_PREFIX);
    AbsentFirstChar(x, SAO_PAULO_SUFFIX);
    NormalizeBrazilian(x);
    assert BRAZIL_PREFIX + x == "BR:VALE3" && x + SAO_PAULO_SUFFIX == "VALE3.SA";
  }

  /** `US:AAPL` becomes `AAPL`. */
  lemma NormalizeUnitedStatesExample()
    ensures Normalize("US:AAPL") == "AAPL"
  {
    var x := "AAPL";
    AbsentFirstChar(x, BRAZIL_PREFIX);
    AbsentFirstChar(x, US_PREFIX);
    NormalizeUnitedStates(x);
    assert US_PREFIX + x == "US:AAPL";
  }

  /** `PETR4` is left alone: no `.SA` is added to a ticker without the `BR:` prefix. */
  lemma NormalizePlainExample()
    ensures Normalize("PETR4") == "PETR4"
  {
    AbsentFirstChar("PETR4", BRAZIL_PREFIX);
    AbsentFirstChar("PETR4", US_PREFIX);
    NormalizePlain("PETR4");
  }

  // ---------------------------------------------------------------- quotes

  /** The first element of `chart.result`, or the error getQuote and getPriceHistory raise. */
  function FirstResult(reply: Reply, notFound: string): (r: Result<ChartResult, FetchError>)
    ensures r.Ok? <==> reply.Chart? && reply.result.Some? && |reply.result.value| > 0
    ensures r.Ok? ==> r.value == reply.result.value[0]
    ensures reply.Chart? && reply.result.None? ==> r == Err(NotFound(notFound))
  {
    match reply
    case NetworkError(m) => Err(Network(m))
    case Chart(None) => Err(NotFound(notFound))
    case Chart(Some(results)) => if |results| == 0 then Err(Malformed) else Ok(results[0])
  }

  /** getQuote: normalise, request the chart of the normalised ticker, shape its `meta`. */
  function GetQuote(ticker: string, fetch: string -> Reply): (r: Result<QuoteInfo, FetchError>)
    ensures var reply := fetch(Normalize(ticker));
      r.Ok? <==> reply.Chart? && reply.result.Some? && |reply.result.value| > 0
    ensures r.Ok? ==>
      var meta := fetch(Normalize(ticker)).result.value[0].meta;
      && r.value.ticker == Normalize(ticker)
      && r.value.price == meta.regularMarketPrice
      && r.value.previousClose == meta.previousClose
      && r.value.change == r.value.price - r.value.previousClose
      && r.value.currency == meta.currency
      && r.value.timestamp == meta.regularMarketTime * 1000
  {
    var symbol := Normalize(ticker);
    match FirstResult(fetch(symbol), "Cotação não encontrada")
    case Err(e) => Err(e)
    case Ok(result) =>
      var m := result.meta;
      Ok(QuoteInfo(symbol, m.regularMarketPrice, m.previousClose,
                   m.regularMarketPrice - m.previousClose, m.currency, m.regularMarketTime * 1000))
  }

  /** getExchangeRate: the USD/BRL chart's market price and its time in milliseconds. */
  function GetExchangeRate(fetch: string -> Reply): (r: Result<ExchangeRate, FetchError>)
    ensures var reply := fetch(RATE_SYMBOL);
      && (r.Ok? <==> reply.Chart? && reply.result.Some? && |reply.result.value| > 0)
      && (r.Ok? ==>
            && r.value.rate == reply.result.value[0].meta.regularMarketPrice
            && r.value.timestamp == reply.result.value[0].meta.regularMarketTime * 1000)
  {
    match FirstResult(fetch(RATE_SYMBOL), "Taxa de câmbio não encontrada")
    case Err(e) => Err(e)
    case Ok(result) => Ok(ExchangeRate(result.meta.regularMarketPrice, result.meta.regularMarketTime * 1000))
  }

  /** The successful values of a list of results, in order. */
  function Successes(rs: seq<Result<QuoteInfo, FetchError>>): (r: seq<QuoteInfo>)
    ensures |r| <= |rs|
    ensures forall q :: q in r <==> Ok(q) in rs
    decreases |rs|
  {
    if |rs| == 0 then []
    else
      var rest := Successes(rs[1..]);
      assert forall x :: x in rs <==> x == rs[0] || x in rs[1..];
      if rs[0].Ok? then [rs[0].value] + rest else rest
  }

  /** Filtering commutes with concatenation, so it keeps the input order. */
  lemma {:induction false} SuccessesAppend(a: seq<Result<QuoteInfo, FetchError>>, b: seq<Result<QuoteInfo, FetchError>>)
    ensures Successes(a + b) == Successes(a) + Successes(b)
    decreases |a|
  {
    if |a| == 0 {
      assert a + b == b;
    } else {
      assert (a + b)[0] == a[0] && (a + b)[1..] == a[1..] + b;
      SuccessesAppend(a[1..], b);
    }
  }

  /** getMultipleQuotes: one getQuote per ticker; failures are dropped, the rest kept in order. */
  function GetMultipleQuotes(tickers: seq<string>, fetch: string -> Reply): (r: seq<QuoteInfo>)
    ensures |r| <= |tickers|
    ensures forall i :: 0 <= i < |tickers| && GetQuote(tickers[i], fetch).Ok? ==> GetQuote(tickers[i], fetch).value in r
    ensures forall q :: q in r ==> exists i :: 0 <= i < |tickers| && GetQuote(tickers[i], fetch) == Ok(q)
  {
    var rs := seq(|tickers|, i requires 0 <= i < |tickers| => GetQuote(tickers[i], fetch));
    assert forall i :: 0 <= i < |tickers| ==> rs[i] == GetQuote(tickers[i], fetch);
    Successes(rs)
  }

  /** The quotes of a concatenation are the quotes of each part, in order: nothing is reordered. */
  lemma GetMultipleQuotesAppend(a: seq<string>, b: seq<string>, fetch: string -> Reply)
    ensures GetMultipleQuotes(a + b, fetch) == GetMultipleQuotes(a, fetch) + GetMultipleQuotes(b, fetch)
  {
    var ab := a + b;
    var ra := seq(|a|, i requires 0 <= i < |a| => GetQuote(a[i], fetch));
    var rb := seq(|b|, i requires 0 <= i < |b| => GetQuote(b[i], fetch));
    var rab := seq(|ab|, i requires 0 <= i < |ab| => GetQuote(ab[i], fetch));
    assert rab == ra + rb;
    SuccessesAppend(ra, rb);
  }

  /** One ticker contributes its quote when getQuote succeeds and nothing when it fails. */
  lemma GetMultipleQuotesOne(ticker: string, fetch: string -> Reply)
    ensures GetMultipleQuotes([ticker], fetch)
         == if GetQuote(ticker, fetch).Ok? then [GetQuote(ticker, fetch).value] else []
  {
    var rs := seq(1, i requires 0 <= i < 1 => GetQuote([ticker][i], fetch));
    assert rs == [GetQuote(ticker, fetch)];
    assert rs[1..] == [];
  }

  /** A failing ticker between two groups does not disturb either group's quotes. */
  lemma FailureIsSkipped(before: seq<string>, failing: string, after: seq<string>, fetch: string -> Reply)
    requires GetQuote(failing, fetch).Err?
    ensures GetMultipleQuotes(before + [failing] + after, fetch)
         == GetMultipleQuotes(before, fetch) + GetMultipleQuotes(after, fetch)
  {
    var all := before + [failing] + after;
    var rb := seq(|before|, i requires 0 <= i < |before| => GetQuote(before[i], fetch));
    var ra := seq(|after|, i requires 0 <= i < |after| => GetQuote(after[i], fetch));
    var rs := seq(|all|, i requires 0 <= i < |all| => GetQuote(all[i], fetch));
    assert rs == rb + [GetQuote(failing, fetch)] + ra;
    SuccessesAppend(rb + [GetQuote(failing, fetch)], ra);
    SuccessesAppend(rb, [GetQuote(failing, fetch)]);
  }

  // ---------------------------------------------------------------- history

  /** `timestamps.map((t, i) => ({date: t * 1000, price: close[i]}))`. */
  function Points(timestamps: seq<int>, close: seq<Close>): (r: seq<PricePoint>)
    ensures |r| == |timestamps|
    ensures forall i :: 0 <= i < |r| ==>
      r[i].date == timestamps[i] * 1000 && r[i].price == (if i < |close| then close[i] else Undefined)
  {
    seq(|timestamps|, i requires 0 <= i < |timestamps| =>
      PricePoint(timestamps[i] * 1000, if i < |close| then close[i] else Undefined))
  }

  /** `.filter(item => item.price !== null)`. */
  function DropNulls(ps: seq<PricePoint>): (r: seq<PricePoint>)
    ensures |r| <= |ps|
    ensures forall x :: x in r <==> x in ps && x.price != Null
    ensures (forall i :: 0 <= i < |ps| ==> ps[i].price != Null) ==> r == ps
    decreases |ps|
  {
    if |ps| == 0 then []
    else
      var rest := DropNulls(ps[1..]);
      assert forall x :: x in ps <==> x == ps[0] || x in ps[1..];
      if ps[0].price == Null then rest else [ps[0]] + rest
  }

  /** Dropping nulls commutes with concatenation, so the history keeps the input order. */
  lemma {:induction false} DropNullsAppend(a: seq<PricePoint>, b: seq<PricePoint>)
    ensures DropNulls(a + b) == DropNulls(a) + DropNulls(b)
    decreases |a|
  {
    if |a| == 0 {
      assert a + b == b;
    } else {
      assert (a + b)[0] == a[0] && (a + b)[1..] == a[1..] + b;
      DropNullsAppend(a[1..], b);
    }
  }

  /** getPriceHistory: normalise, request the chart over `period` (default `1mo`), zip and filter. */
  function GetPriceHistory(ticker: string, period: Option<string>, fetch: (string, string) -> Reply)
    : (r: Result<History, FetchError>)
    ensures var reply := fetch(Normalize(ticker), if period.Some? then period.value else DEFAULT_PERIOD);
      && (r.Ok? <==> reply.Chart? && reply.result.Some? && |reply.result.value| > 0)
      && (r.Ok? ==>
            var res := reply.result.value[0];
            && r.value.ticker == Normalize(ticker)
            && r.value.currency == res.meta.currency
            && r.value.history == DropNulls(Points(res.timestamp, res.close))
            && |r.value.history| <= |res.timestamp|)
  {
    var symbol := Normalize(ticker);
    var range := if period.Some? then period.value else DEFAULT_PERIOD;
    match FirstResult(fetch(symbol, range), "Histórico de preços não encontrado")
    case Err(e) => Err(e)
    case Ok(result) => Ok(History(symbol, result.meta.currency, DropNulls(Points(result.timestamp, result.close))))
  }

  /** With a close for every timestamp and no nulls, every day is kept, in order. */
  lemma FullHistory(timestamps: seq<int>, close: seq<Close>)
    requires |close| >= |timestamps|
    requires forall i :: 0 <= i < |close| ==> close[i] != Null
    ensures var h := DropNulls(Points(timestamps, close));
      |h| == |timestamps| && forall i :: 0 <= i < |h| ==> h[i] == PricePoint(timestamps[i] * 1000, close[i])
  {
  }
}
