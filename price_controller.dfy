/**
 * The price endpoint: a time-to-live cache shared by the exchange rate and the
 * tickers, the USD/BRL rate lookup with its stale and default fallbacks, per-ticker
 * resolution (cache, remote quote, persisted price, error entry) and the
 * conversion of every price into BRL.
 *
 * The remote quote service and the price table's failures are oracles, indexed
 * by the item's position in the request: the Env of a request gives the reply the
 * remote call for item k would get and whether the read and the write for item k
 * fail. An item served from the cache makes no call. The clock is the parameter `now`.
 */
module PriceController {
  import opened Wrappers
  import opened Strings

  const CACHE_DURATION_MS: int := 30 * 1000
  const RATE_KEY: string := "USDBRL=X"
  const DEFAULT_RATE: real := 5.0
  /** The values of the persisted `Currency` enum. */
  const CURRENCIES: set<string> := {"BRL", "USD"}

  const MISSING_TICKERS: string := "Tickers query parameter is required (comma-separated)"
  const NOT_FOUND: string := "Data not found or incomplete from Yahoo Finance and not in DB"
  const RATE_FAILED: string := "Failed to fetch USD/BRL exchange rate"

  /** The fields of a remote quote the controller reads; a missing price is 0, a missing currency "". */
  datatype Quote = Quote(symbol: string, price: real, currency: string)

  /** One remote call: it returns a quote (possibly null) or throws. */
  datatype Remote = Returned(quote: Option<Quote>) | Threw(message: string)

  datatype CacheEntry = CacheEntry(data: Quote, timestamp: int)

  /** A row of the price table, keyed by its upper-cased ticker. */
  datatype PriceRecord = PriceRecord(ticker: string, lastPrice: real, currency: string, fetchedAt: int)

  /** The cache and the price table together. */
  datatype Store = Store(cache: map<string, CacheEntry>, db: map<string, PriceRecord>)

  /** What getUSDToBRLRate resolves to, or the error it throws. */
  datatype RateResult = Rate(value: real) | RateError(message: string)

  datatype Source = Cache | Api | DatabaseFallback | DatabaseFallbackOnError

  /** One element of the response array. */
  datatype PriceEntry =
    | Priced(ticker: string, price: real, currency: string, priceInBRL: Option<real>,
             source: Source, fetchedAt: int, usdToBrlRate: Option<real>)
    | Failed(ticker: string, error: string)

  datatype PricesResponse = BadRequest(message: string) | PriceList(results: seq<PriceEntry>)

  /** The outside world during one request, indexed by the item's position: its remote reply, read and write failures. */
  datatype Env = Env(rateRemote: Remote, remote: nat -> Remote, readFails: nat -> bool, writeFails: nat -> bool)

  // ---------------------------------------------------------------- cache and rate

  /** An entry is served while it is younger than the cache duration; nothing is ever evicted. */
  predicate Fresh(cache: map<string, CacheEntry>, key: string, now: int) {
    key in cache && now - cache[key].timestamp < CACHE_DURATION_MS
  }

  /** An entry written at time `t` is served exactly while fewer than 30 000 ms have passed. */
  lemma FreshWindow(cache: map<string, CacheEntry>, key: string, data: Quote, t: int, now: int)
    ensures Fresh(cache[key := CacheEntry(data, t)], key, now) <==> now < t + 30000
  {
  }

  /** Every key is upper-cased and every cached quote carries a truthy price (both writers check it). */
  ghost predicate CacheValid(cache: map<string, CacheEntry>) {
    forall k :: k in cache ==> ToUpper(k) == k && cache[k].data.price != 0.0
  }

  /** The rate's key is already upper-cased, so tickers and the rate share one key space. */
  lemma RateKeyUpper()
    ensures ToUpper(RATE_KEY) == RATE_KEY
  {
    var k := RATE_KEY;
    assert forall i :: 0 <= i < |k| ==> !('a' <= k[i] <= 'z');
  }

  /** A reply the rate lookup stores: a quote with a truthy price. */
  predicate RateComplete(r: Remote) {
    r.Returned? && r.quote.Some? && r.quote.value.price != 0.0
  }

  /** The outcome of getUSDToBRLRate and the cache it leaves. */
  function FetchRate(cache: map<string, CacheEntry>, now: int, remote: Remote)
    : (r: (RateResult, map<string, CacheEntry>))
    ensures Fresh(cache, RATE_KEY, now) ==> r == (Rate(cache[RATE_KEY].data.price), cache)
    ensures !Fresh(cache, RATE_KEY, now) && RateComplete(remote) ==>
      r == (Rate(remote.quote.value.price), cache[RATE_KEY := CacheEntry(remote.quote.value, now)])
    ensures !Fresh(cache, RATE_KEY, now) && !RateComplete(remote) ==>
      r.1 == cache &&
      r.0 == (if RATE_KEY in cache then Rate(cache[RATE_KEY].data.price)
              else if remote.Returned? then Rate(DEFAULT_RATE) else RateError(RATE_FAILED))
    ensures r.0.RateError? <==> RATE_KEY !in cache && remote.Threw?
    ensures CacheValid(cache) ==> CacheValid(r.1) && (r.0.Rate? ==> r.0.value != 0.0)
  {
    if Fresh(cache, RATE_KEY, now) then (Rate(cache[RATE_KEY].data.price), cache)
    else if RateComplete(remote) then
      RateKeyUpper();
      (Rate(remote.quote.value.price), cache[RATE_KEY := CacheEntry(remote.quote.value, now)])
    else if RATE_KEY in cache then (Rate(cache[RATE_KEY].data.price), cache)
    else if remote.Returned? then (Rate(DEFAULT_RATE), cache)
    else (RateError(RATE_FAILED), cache)
  }

  /** Stale-on-error: a failed refresh still yields the last stored rate, however old. */
  lemma StaleRateOnFailure(cache: map<string, CacheEntry>, now: int, remote: Remote)
    requires RATE_KEY in cache && !RateComplete(remote)
    ensures FetchRate(cache, now, remote) == (Rate(cache[RATE_KEY].data.price), cache)
  {
  }

  // ---------------------------------------------------------------- conversion

  /** JavaScript truthiness of `number | null`. */
  predicate Truthy(rate: Option<real>) {
    rate.Some? && rate.value != 0.0
  }

  /**
   * The conversion written out in each branch: start from the price, multiply a
   * USD price by a truthy rate, then report the price for BRL, the candidate for a
   * truthy rate and null otherwise.
   */
  function PriceInBRL(price: real, currency: string, rate: Option<real>): (r: Option<real>)
    ensures r.None? <==> currency != "BRL" && !Truthy(rate)
    ensures r.Some? && currency != "USD" ==> r.value == price
  {
    var converted := if currency == "USD" && Truthy(rate) then price * rate.value else price;
    if currency == "BRL" then Some(price) else if Truthy(rate) then Some(converted) else None
  }

  /** The conversion rule: BRL is kept; without a rate nothing; USD is multiplied; others kept. */
  lemma PriceInBRLRule(price: real, currency: string, rate: Option<real>)
    ensures PriceInBRL(price, currency, rate) ==
      if currency == "BRL" then Some(price)
      else if !Truthy(rate) then None
      else if currency == "USD" then Some(price * rate.value)
      else Some(price)
  {
  }

  // ---------------------------------------------------------------- price table

  /** Every row sits under its own upper-cased ticker and holds a currency of the enum. */
  ghost predicate DbValid(db: map<string, PriceRecord>) {
    forall k :: k in db ==> db[k].ticker == k && ToUpper(k) == k && db[k].currency in CURRENCIES
  }

  /** updatePrismaPrice: an upsert under the upper-cased ticker; a failed write is swallowed. */
  function SavePrice(db: map<string, PriceRecord>, ticker: string, currency: string, price: real,
                     now: int, fails: bool): (r: map<string, PriceRecord>)
    ensures var key := ToUpper(ticker);
      if fails || ToUpper(currency) !in CURRENCIES then r == db
      else (r.Keys == db.Keys + {key}
        && r[key].lastPrice == price && r[key].currency == ToUpper(currency) && r[key].fetchedAt == now
        && (forall k :: k in db && k != key ==> r[k] == db[k]))
    ensures DbValid(db) ==> DbValid(r)
  {
    var key := ToUpper(ticker);
    var cur := ToUpper(currency);
    if fails || cur !in CURRENCIES then db
    else if key in db then db[key := db[key].(lastPrice := price, currency := cur, fetchedAt := now)]
    else
      ToUpperIdempotent(ticker);
      db[key := PriceRecord(key, price, cur, now)]
  }

  /** Repeating an upsert with the same values gives the same table apart from the write time. */
  lemma SavePriceIdempotent(db: map<string, PriceRecord>, ticker: string, currency: string, price: real,
                            t1: int, t2: int)
    ensures SavePrice(SavePrice(db, ticker, currency, price, t1, false), ticker, currency, price, t2, false)
         == SavePrice(db, ticker, currency, price, t2, false)
  {
  }

  /** getPrismaPrice: the row under the upper-cased ticker; a failed read counts as not found. */
  function LoadPrice(db: map<string, PriceRecord>, ticker: string, fails: bool): (r: Option<PriceRecord>)
    ensures r.Some? <==> !fails && ToUpper(ticker) in db
    ensures r.Some? ==> r.value == db[ToUpper(ticker)]
  {
    if fails then None
    else if ToUpper(ticker) in db then Some(db[ToUpper(ticker)])
    else None
  }

  // ---------------------------------------------------------------- one ticker

  /** A reply the ticker path accepts: a quote with a truthy price and a truthy currency. */
  predicate Complete(r: Remote): (b: bool)
    ensures b ==> RateComplete(r)
  {
    r.Returned? && r.quote.Some? && r.quote.value.price != 0.0 && r.quote.value.currency != ""
  }

  ghost predicate StoreValid(s: Store) {
    CacheValid(s.cache) && DbValid(s.db)
  }

  /** The entry pushed for one ticker and the store left behind. */
  function ResolveOne(s: Store, now: int, rate: Option<real>, ticker: string,
                      remote: Remote, readFails: bool, writeFails: bool): (r: (PriceEntry, Store))
    ensures var key := ToUpper(ticker);
      && (r.0.Priced? && r.0.source == Cache <==> Fresh(s.cache, key, now))
      && (Fresh(s.cache, key, now) ==> r.0.fetchedAt == s.cache[key].timestamp && r.1.cache == s.cache)
      && (r.1.cache == if !Fresh(s.cache, key, now) && Complete(remote)
                       then s.cache[key := CacheEntry(remote.quote.value, now)] else s.cache)
      && (r.0.Priced? && r.0.source == Api ==> r.0.fetchedAt == now && Complete(remote))
      && (!Fresh(s.cache, key, now) && !Complete(remote) ==> r.1 == s)
    ensures r.0.Priced? ==> r.0.priceInBRL == PriceInBRL(r.0.price, r.0.currency, rate) && r.0.usdToBrlRate == rate
    ensures r.0.Priced? && r.0.source in {DatabaseFallback, DatabaseFallbackOnError} ==>
      && LoadPrice(s.db, ticker, readFails) == Some(PriceRecord(r.0.ticker, r.0.price, r.0.currency, r.0.fetchedAt))
      && (r.0.source == DatabaseFallbackOnError <==> remote.Threw?)
    ensures var key := ToUpper(ticker);
      Fresh(s.cache, key, now) ==>
        var d := s.cache[key].data;
        && r.0.Priced? && r.0.ticker == d.symbol && r.0.price == d.price && r.0.currency == d.currency
        && r.1.db == SavePrice(s.db, d.symbol, d.currency, d.price, now, writeFails)
    ensures !Fresh(s.cache, ToUpper(ticker), now) && Complete(remote) ==>
      var q := remote.quote.value;
      && r.0 == Priced(q.symbol, q.price, q.currency, PriceInBRL(q.price, q.currency, rate), Api, now, rate)
      && r.1.db == SavePrice(s.db, q.symbol, q.currency, q.price, now, writeFails)
    ensures r.0.Failed? ==>
      && r.0.ticker == ticker
      && r.0.error == (if remote.Threw? then "Failed to fetch price: " + remote.message else NOT_FOUND)
      && !Fresh(s.cache, ToUpper(ticker), now) && !Complete(remote)
      && LoadPrice(s.db, ticker, readFails).None?
    ensures StoreValid(s) ==> StoreValid(r.1)
  {
    var key := ToUpper(ticker);
    if Fresh(s.cache, key, now) then
      var d := s.cache[key].data;
      (Priced(d.symbol, d.price, d.currency, PriceInBRL(d.price, d.currency, rate), Cache, s.cache[key].timestamp, rate),
       Store(s.cache, SavePrice(s.db, d.symbol, d.currency, d.price, now, writeFails)))
    else if Complete(remote) then
      ToUpperIdempotent(ticker);
      var q := remote.quote.value;
      (Priced(q.symbol, q.price, q.currency, PriceInBRL(q.price, q.currency, rate), Api, now, rate),
       Store(s.cache[key := CacheEntry(q, now)], SavePrice(s.db, q.symbol, q.currency, q.price, now, writeFails)))
    else
      var found := LoadPrice(s.db, ticker, readFails);
      if found.Some? then
        var p := found.value;
        (Priced(p.ticker, p.lastPrice, p.currency, PriceInBRL(p.lastPrice, p.currency, rate),
                if remote.Threw? then DatabaseFallbackOnError else DatabaseFallback, p.fetchedAt, rate), s)
      else if remote.Threw? then (Failed(ticker, "Failed to fetch price: " + remote.message), s)
      else (Failed(ticker, NOT_FOUND), s)
  }

  /** A fresh cache entry is served without consulting the remote service or the table. */
  lemma CacheHitIgnoresRemote(s: Store, now: int, rate: Option<real>, ticker: string,
                              r1: Remote, r2: Remote, f1: bool, f2: bool, writeFails: bool)
    requires Fresh(s.cache, ToUpper(ticker), now)
    ensures ResolveOne(s, now, rate, ticker, r1, f1, writeFails) == ResolveOne(s, now, rate, ticker, r2, f2, writeFails)
  {
  }

  /** A ticker fetched successfully is served from the cache when it is repeated at the same instant. */
  lemma RepeatIsServedFromCache(s: Store, now: int, rate: Option<real>, ticker: string, again: string,
                                r1: Remote, f1: bool, w1: bool, r2: Remote, f2: bool, w2: bool)
    requires ToUpper(again) == ToUpper(ticker)
    requires !Fresh(s.cache, ToUpper(ticker), now) && Complete(r1)
    ensures var (e1, s1) := ResolveOne(s, now, rate, ticker, r1, f1, w1);
      var e2 := ResolveOne(s1, now, rate, again, r2, f2, w2).0;
      e1.Priced? && e1.source == Api && e2.Priced? && e2.source == Cache
      && e2.ticker == e1.ticker && e2.price == e1.price && e2.currency == e1.currency && e2.fetchedAt == now
  {
  }

  // ---------------------------------------------------------------- the request

  /** The entries for `tickers`, resolved one after another, and the final store. */
  function ResolveAll(s: Store, now: int, rate: Option<real>, tickers: seq<string>, env: Env)
    : (r: (seq<PriceEntry>, Store))
    ensures |r.0| == |tickers|
    decreases |tickers|
  {
    if |tickers| == 0 then ([], s)
    else
      var n := |tickers| - 1;
      var (done, s1) := ResolveAll(s, now, rate, tickers[..n], env);
      var (e, s2) := ResolveOne(s1, now, rate, tickers[n], env.remote(n), env.readFails(n), env.writeFails(n));
      (done + [e], s2)
  }

  /** Resolving one more item extends the resolution of the items before it. */
  lemma ResolveAllNext(s: Store, now: int, rate: Option<real>, tickers: seq<string>, env: Env, i: nat,
                       done: seq<PriceEntry>, s1: Store)
    requires i < |tickers|
    requires (done, s1) == ResolveAll(s, now, rate, tickers[..i], env)
    ensures var (e, s2) := ResolveOne(s1, now, rate, tickers[i], env.remote(i), env.readFails(i), env.writeFails(i));
      ResolveAll(s, now, rate, tickers[..i + 1], env) == (done + [e], s2)
  {
    assert tickers[..i + 1][..i] == tickers[..i];
  }

  /** The k-th entry is the resolution of the k-th item in the store the first k items left. */
  lemma {:induction false} ResolveAllAt(s: Store, now: int, rate: Option<real>, tickers: seq<string>, env: Env, k: nat)
    requires k < |tickers|
    ensures var before := ResolveAll(s, now, rate, tickers[..k], env).1;
      ResolveAll(s, now, rate, tickers, env).0[k]
        == ResolveOne(before, now, rate, tickers[k], env.remote(k), env.readFails(k), env.writeFails(k)).0
    decreases |tickers|
  {
    var n := |tickers| - 1;
    var (done, s1) := ResolveAll(s, now, rate, tickers[..n], env);
    var e := ResolveOne(s1, now, rate, tickers[n], env.remote(n), env.readFails(n), env.writeFails(n)).0;
    assert ResolveAll(s, now, rate, tickers, env).0 == done + [e];
    if k < n {
      ResolveAllAt(s, now, rate, tickers[..n], env, k);
      assert tickers[..n][..k] == tickers[..k];
      assert (done + [e])[k] == done[k];
    } else {
      assert tickers[..n] == tickers[..k];
    }
  }

  /** Every entry follows its item: an error names the requested ticker, a price uses the one conversion rule. */
  lemma ResolveAllEntries(s: Store, now: int, rate: Option<real>, tickers: seq<string>, env: Env)
    ensures var rs := ResolveAll(s, now, rate, tickers, env).0;
      forall k :: 0 <= k < |rs| ==>
        && (rs[k].Failed? ==> rs[k].ticker == tickers[k])
        && (rs[k].Priced? ==> rs[k].priceInBRL == PriceInBRL(rs[k].price, rs[k].currency, rate) && rs[k].usdToBrlRate == rate)
  {
    forall k | 0 <= k < |tickers| {
      ResolveAllAt(s, now, rate, tickers, env, k);
    }
  }

  /** Resolving the items one after another keeps the store invariant. */
  lemma {:induction false} ResolveAllValid(s: Store, now: int, rate: Option<real>, tickers: seq<string>, env: Env)
    requires StoreValid(s)
    ensures StoreValid(ResolveAll(s, now, rate, tickers, env).1)
    decreases |tickers|
  {
    if |tickers| > 0 {
      ResolveAllValid(s, now, rate, tickers[..|tickers| - 1], env);
    }
  }

  /** Dropping the last item drops the last entry. */
  lemma ResolveAllInit(s: Store, now: int, rate: Option<real>, tickers: seq<string>, env: Env)
    requires |tickers| > 0
    ensures var n := |tickers| - 1;
      ResolveAll(s, now, rate, tickers, env).0[..n] == ResolveAll(s, now, rate, tickers[..n], env).0
  {
    var n := |tickers| - 1;
    var (done, s1) := ResolveAll(s, now, rate, tickers[..n], env);
    var e := ResolveOne(s1, now, rate, tickers[n], env.remote(n), env.readFails(n), env.writeFails(n)).0;
    assert ResolveAll(s, now, rate, tickers, env).0 == done + [e];
    assert (done + [e])[..n] == done;
  }

  /** Resolving a longer list first resolves its prefix. */
  lemma {:induction false} ResolveAllPrefix(s: Store, now: int, rate: Option<real>, tickers: seq<string>, env: Env, k: nat)
    requires k <= |tickers|
    ensures ResolveAll(s, now, rate, tickers, env).0[..k] == ResolveAll(s, now, rate, tickers[..k], env).0
    decreases |tickers|
  {
    if k < |tickers| {
      var n := |tickers| - 1;
      ResolveAllInit(s, now, rate, tickers, env);
      var all := ResolveAll(s, now, rate, tickers, env).0;
      assert all[..n][..k] == all[..k];
      ResolveAllPrefix(s, now, rate, tickers[..n], env, k);
      assert tickers[..n][..k] == tickers[..k];
    } else {
      assert tickers[..k] == tickers;
    }
  }

  /** The rate used for conversion: the resolved rate, or null if the lookup threw. */
  function RateOf(r: RateResult): Option<real> {
    if r.Rate? then Some(r.value) else None
  }

  /** getPrices: the response and the store it leaves. */
  function Prices(s: Store, query: Option<string>, now: int, env: Env): (r: (PricesResponse, Store))
    ensures r.0.BadRequest? <==> query.None? || query.value == ""
    ensures r.0.BadRequest? ==> r.1 == s
    ensures r.0.PriceList? ==> |r.0.results| == |Split(query.value, ',')|
  {
    if query.None? || query.value == "" then (BadRequest(MISSING_TICKERS), s)
    else
      var (rate, cache) := FetchRate(s.cache, now, env.rateRemote);
      var (results, s2) := ResolveAll(Store(cache, s.db), now, RateOf(rate), Split(query.value, ','), env);
      (PriceList(results), s2)
  }

  /** Every entry of a request follows its comma-separated item and the request's single rate. */
  lemma PricesEntries(s: Store, query: string, now: int, env: Env)
    requires query != ""
    ensures var items := Split(query, ',');
      var rate := RateOf(FetchRate(s.cache, now, env.rateRemote).0);
      var rs := Prices(s, Some(query), now, env).0.results;
      forall k :: 0 <= k < |rs| ==>
        && (rs[k].Failed? ==> rs[k].ticker == items[k])
        && (rs[k].Priced? ==> rs[k].priceInBRL == PriceInBRL(rs[k].price, rs[k].currency, rate) && rs[k].usdToBrlRate == rate)
  {
    var (rate, cache) := FetchRate(s.cache, now, env.rateRemote);
    ResolveAllEntries(Store(cache, s.db), now, RateOf(rate), Split(query, ','), env);
  }

  /** A request keeps the store invariant. */
  lemma PricesValid(s: Store, query: Option<string>, now: int, env: Env)
    requires StoreValid(s)
    ensures StoreValid(Prices(s, query, now, env).1)
  {
    if query.Some? && query.value != "" {
      var (rate, cache) := FetchRate(s.cache, now, env.rateRemote);
      ResolveAllValid(Store(cache, s.db), now, RateOf(rate), Split(query.value, ','), env);
    }
  }

  /** A failed rate lookup does not abort the request: every item is still resolved, with a null rate. */
  lemma RateFailureDoesNotAbort(s: Store, query: string, now: int, env: Env)
    requires query != "" && RATE_KEY !in s.cache && env.rateRemote.Threw?
    ensures var r := Prices(s, Some(query), now, env).0;
      && r.PriceList? && |r.results| == |Split(query, ',')|
      && forall k :: 0 <= k < |r.results| && r.results[k].Priced? ==> r.results[k].usdToBrlRate == None
  {
    PricesEntries(s, query, now, env);
  }

  // ---------------------------------------------------------------- the controller

  /** The module-level cache and the price table, updated in place. */
  class PriceService {
    var cache: map<string, CacheEntry>
    var db: map<string, PriceRecord>

    ghost predicate Valid()
      reads this
    {
      StoreValid(Store(cache, db))
    }

    function Snapshot(): Store
      reads this
    {
      Store(cache, db)
    }

    /** An empty cache in front of an existing price table. */
    constructor (table: map<string, PriceRecord>)
      requires DbValid(table)
      ensures Valid() && cache == map[] && db == table
    {
      cache := map[];
      db := table;
    }

    method GetUSDToBRLRate(now: int, remote: Remote) returns (rate: RateResult)
      requires Valid()
      modifies this
      ensures Valid()
      ensures (rate, cache) == FetchRate(old(cache), now, remote) && db == old(db)
    {
      if RATE_KEY in cache && now - cache[RATE_KEY].timestamp < CACHE_DURATION_MS {
        return Rate(cache[RATE_KEY].data.price);
      }
      match remote {
        case Returned(quote) =>
          if quote.Some? && quote.value.price != 0.0 {
            cache := cache[RATE_KEY := CacheEntry(quote.value, now)];
            return Rate(quote.value.price);
          }
          if RATE_KEY in cache {
            return Rate(cache[RATE_KEY].data.price);
          }
          return Rate(DEFAULT_RATE);
        case Threw(_) =>
          if RATE_KEY in cache {
            return Rate(cache[RATE_KEY].data.price);
          }
          return RateError(RATE_FAILED);
      }
    }

    method UpdatePrismaPrice(ticker: string, currency: string, lastPrice: real, now: int, fails: bool)
      requires Valid()
      modifies this
      ensures Valid()
      ensures db == SavePrice(old(db), ticker, currency, lastPrice, now, fails) && cache == old(cache)
    {
      if fails {
        return;
      }
      var key := ToUpper(ticker);
      var cur := ToUpper(currency);
      if cur !in CURRENCIES {
        return;
      }
      if key in db {
        db := db[key := db[key].(lastPrice := lastPrice, currency := cur, fetchedAt := now)];
      } else {
        db := db[key := PriceRecord(key, lastPrice, cur, now)];
      }
    }

    method GetPrismaPrice(ticker: string, fails: bool) returns (found: Option<PriceRecord>)
      ensures found.Some? <==> !fails && ToUpper(ticker) in db
      ensures found.Some? ==> found.value == db[ToUpper(ticker)]
      ensures found == LoadPrice(db, ticker, fails)
    {
      if fails {
        return None;
      }
      var key := ToUpper(ticker);
      if key in db {
        return Some(db[key]);
      }
      return None;
    }

    /** The body of the loop of getPrices for one ticker. */
    method ResolveTicker(now: int, rate: Option<real>, ticker: string,
                         remote: Remote, readFails: bool, writeFails: bool) returns (entry: PriceEntry)
      requires Valid()
      modifies this
      ensures Valid()
      ensures (entry, Snapshot()) == ResolveOne(old(Snapshot()), now, rate, ticker, remote, readFails, writeFails)
    {
      var key := ToUpper(ticker);
      if key in cache && now - cache[key].timestamp < CACHE_DURATION_MS {
        var cached := cache[key];
        var d := cached.data;
        entry := Priced(d.symbol, d.price, d.currency, PriceInBRL(d.price, d.currency, rate),
                        Cache, cached.timestamp, rate);
        UpdatePrismaPrice(d.symbol, d.currency, d.price, now, writeFails);
        return;
      }
      if remote.Returned? && remote.quote.Some? && remote.quote.value.price != 0.0 && remote.quote.value.currency != "" {
        var q := remote.quote.value;
        cache := cache[key := CacheEntry(q, now)];
        entry := Priced(q.symbol, q.price, q.currency, PriceInBRL(q.price, q.currency, rate), Api, now, rate);
        UpdatePrismaPrice(q.symbol, q.currency, q.price, now, writeFails);
        return;
      }
      var found := GetPrismaPrice(ticker, readFails);
      if found.Some? {
        var p := found.value;
        var source := if remote.Threw? then DatabaseFallbackOnError else DatabaseFallback;
        entry := Priced(p.ticker, p.lastPrice, p.currency, PriceInBRL(p.lastPrice, p.currency, rate),
                        source, p.fetchedAt, rate);
      } else if remote.Threw? {
        entry := Failed(ticker, "Failed to fetch price: " + remote.message);
      } else {
        entry := Failed(ticker, NOT_FOUND);
      }
    }

    /** The loop of getPrices: resolve each item in order, pushing one entry per item. */
    method ResolveTickers(tickers: seq<string>, now: int, usdToBrlRate: Option<real>, env: Env)
      returns (results: seq<PriceEntry>)
      requires Valid()
      modifies this
      ensures Valid()
      ensures (results, Snapshot()) == ResolveAll(old(Snapshot()), now, usdToBrlRate, tickers, env)
    {
      results := [];
      var i := 0;
      while i < |tickers|
        invariant 0 <= i <= |tickers|
        invariant (results, Snapshot()) == ResolveAll(old(Snapshot()), now, usdToBrlRate, tickers[..i], env)
        invariant Valid()
      {
        ghost var before := Snapshot();
        var entry := ResolveTicker(now, usdToBrlRate, tickers[i], env.remote(i), env.readFails(i), env.writeFails(i));
        ResolveAllNext(old(Snapshot()), now, usdToBrlRate, tickers, env, i, results, before);
        results := results + [entry];
        i := i + 1;
      }
      assert tickers[..|tickers|] == tickers;
    }

    /** getPrices: validate the query, look up the rate once, then resolve the items. */
    method GetPrices(query: Option<string>, now: int, env: Env) returns (response: PricesResponse)
      requires Valid()
      modifies this
      ensures Valid()
      ensures (response, Snapshot()) == Prices(old(Snapshot()), query, now, env)
      ensures response.BadRequest? <==> query.None? || query.value == ""
      ensures response.PriceList? ==> |response.results| == |Split(query.value, ',')|
    {
      if query.None? || query.value == "" {
        return BadRequest(MISSING_TICKERS);
      }
      var tickers := Split(query.value, ',');
      var usdToBrlRate: Option<real> := None;
      var fetched := GetUSDToBRLRate(now, env.rateRemote);
      if fetched.Rate? {
        usdToBrlRate := Some(fetched.value);
      }
      assert usdToBrlRate == RateOf(fetched);
      var results := ResolveTickers(tickers, now, usdToBrlRate, env);
      response := PriceList(results);
      PricesValid(old(Snapshot()), query, now, env);
    }
  }
}
