/**
 * The asset endpoints: listing, creation with its validation order, the
 * get-or-create of a category by name, the ownership-checked update with its
 * field-wise merge, and the ownership-checked delete. The asset and category
 * tables are maps held by an AssetStore; identifiers are drawn from counters.
 */
module AssetController {
  import opened Wrappers

  const UNAUTHORIZED: string := "Unauthorized"
  const FIELDS_REQUIRED: string := "Category, ticker, quantity, and currency are required"
  const INVALID_CATEGORY: string := "Invalid category name"
  const INVALID_CURRENCY: string := "Invalid currency"
  const DUPLICATE_TICKER: string := "This ticker already exists for this user."
  const ID_REQUIRED: string := "Asset ID is required"
  const NOT_FOUND: string := "Asset not found or unauthorized"
  const INTERNAL_ERROR: string := "Internal server error"

  /** The category enum. */
  datatype CategoryName = AcoesBr | Fiis | RendaFixa | AcoesUs | Crypto

  /** The currency enum. */
  datatype Currency = BRL | USD

  function CategoryLabel(c: CategoryName): string {
    match c
    case AcoesBr => "ACOES_BR"
    case Fiis => "FIIS"
    case RendaFixa => "RENDA_FIXA"
    case AcoesUs => "ACOES_US"
    case Crypto => "CRYPTO"
  }

  function CurrencyLabel(c: Currency): string {
    match c
    case BRL => "BRL"
    case USD => "USD"
  }

  /** `Object.values(CategoryName).includes(s)`, returning the member found. */
  function ParseCategory(s: string): (r: Option<CategoryName>)
    ensures r.Some? ==> CategoryLabel(r.value) == s
    ensures (exists c :: CategoryLabel(c) == s) ==> r.Some?
  {
    if s == "ACOES_BR" then Some(AcoesBr)
    else if s == "FIIS" then Some(Fiis)
    else if s == "RENDA_FIXA" then Some(RendaFixa)
    else if s == "ACOES_US" then Some(AcoesUs)
    else if s == "CRYPTO" then Some(Crypto)
    else None
  }

  /** `Object.values(Currency).includes(s)`, returning the member found. */
  function ParseCurrency(s: string): (r: Option<Currency>)
    ensures r.Some? ==> CurrencyLabel(r.value) == s
    ensures (exists c :: CurrencyLabel(c) == s) ==> r.Some?
  {
    if s == "BRL" then Some(BRL) else if s == "USD" then Some(USD) else None
  }

  /** A request field: absent (`None`) or a string; only non-empty strings are truthy. */
  predicate Truthy(f: Option<string>) {
    f.Some? && f.value != ""
  }

  /** The fields of a request body; `quantity` is `None` when undefined. */
  datatype AssetBody = AssetBody(categoryName: Option<string>, ticker: Option<string>,
                                 quantity: Option<real>, currency: Option<string>)

  datatype Asset = Asset(id: nat, userId: string, categoryId: nat, ticker: string, quantity: real, currency: Currency)

  /** A validated creation request. */
  datatype NewAsset = NewAsset(category: CategoryName, ticker: string, quantity: real, currency: Currency)

  /** A reply of one endpoint: its payload, or an HTTP error status and message. */
  datatype Reply =
    | Listed(assets: map<nat, Asset>)
    | Created(asset: Asset)
    | Updated(asset: Asset)
    | Deleted
    | Error(status: nat, message: string)

  /** The HTTP status a reply is sent with. */
  function Status(r: Reply): nat {
    match r
    case Listed(_) => 200
    case Created(_) => 201
    case Updated(_) => 200
    case Deleted => 204
    case Error(status, _) => status
  }

  /** The checks of createAsset on the body, in their order: presence, category, currency. */
  function ValidateCreate(body: AssetBody): (r: Result<NewAsset, Reply>)
    ensures r.Err? ==> Status(r.error) == 400
    ensures r.Ok? <==>
      && Truthy(body.categoryName) && Truthy(body.ticker) && body.quantity.Some? && Truthy(body.currency)
      && ParseCategory(body.categoryName.value).Some? && ParseCurrency(body.currency.value).Some?
    ensures !(Truthy(body.categoryName) && Truthy(body.ticker) && body.quantity.Some? && Truthy(body.currency))
      ==> r == Err(Error(400, FIELDS_REQUIRED))
    ensures Truthy(body.categoryName) && Truthy(body.ticker) && body.quantity.Some? && Truthy(body.currency) ==>
      && (ParseCategory(body.categoryName.value).None? ==> r == Err(Error(400, INVALID_CATEGORY)))
      && ((ParseCategory(body.categoryName.value).Some? && ParseCurrency(body.currency.value).None?)
            ==> r == Err(Error(400, INVALID_CURRENCY)))
    ensures r.Ok? ==>
      && CategoryLabel(r.value.category) == body.categoryName.value
      && r.value.ticker == body.ticker.value && r.value.ticker != ""
      && r.value.quantity == body.quantity.value
      && CurrencyLabel(r.value.currency) == body.currency.value
  {
    if !Truthy(body.categoryName) || !Truthy(body.ticker) || body.quantity.None? || !Truthy(body.currency) then
      Err(Error(400, FIELDS_REQUIRED))
    else if ParseCategory(body.categoryName.value).None? then
      Err(Error(400, INVALID_CATEGORY))
    else if ParseCurrency(body.currency.value).None? then
      Err(Error(400, INVALID_CURRENCY))
    else
      Ok(NewAsset(ParseCategory(body.categoryName.value).value, body.ticker.value, body.quantity.value,
                  ParseCurrency(body.currency.value).value))
  }

  /** The data of the update: truthy ticker and currency and a defined quantity replace the old values. */
  function Merge(existing: Asset, body: AssetBody, categoryId: nat): (r: Asset)
    requires Truthy(body.currency) ==> ParseCurrency(body.currency.value).Some?
    ensures r.id == existing.id && r.userId == existing.userId && r.categoryId == categoryId
    ensures r.ticker == MergedTicker(existing, body)
    ensures r.quantity == (if body.quantity.Some? then body.quantity.value else existing.quantity)
    ensures CurrencyLabel(r.currency) == (if Truthy(body.currency) then body.currency.value else CurrencyLabel(existing.currency))
  {
    Asset(existing.id, existing.userId, categoryId, MergedTicker(existing, body),
          if body.quantity.Some? then body.quantity.value else existing.quantity,
          if Truthy(body.currency) then ParseCurrency(body.currency.value).value else existing.currency)
  }

  /** An update with an empty body rewrites the asset unchanged. */
  lemma MergeEmpty(existing: Asset)
    ensures Merge(existing, AssetBody(None, None, None, None), existing.categoryId) == existing
  {
  }

  /** Applying the same update twice is the same as applying it once. */
  lemma MergeIdempotent(existing: Asset, body: AssetBody, categoryId: nat)
    requires Truthy(body.currency) ==> ParseCurrency(body.currency.value).Some?
    ensures Merge(Merge(existing, body, categoryId), body, categoryId) == Merge(existing, body, categoryId)
  {
  }

  /** The ticker an update ends with. */
  function MergedTicker(existing: Asset, body: AssetBody): string {
    if Truthy(body.ticker) then body.ticker.value else existing.ticker
  }

  /** Whether `userId` already holds an asset with `ticker`, other than `except`. */
  predicate TickerTaken(assets: map<nat, Asset>, userId: string, ticker: string, except: Option<nat>) {
    exists id :: id in assets && (except.None? || id != except.value)
      && assets[id].userId == userId && assets[id].ticker == ticker
  }

  /** The assets of one user. */
  function AssetsOf(assets: map<nat, Asset>, userId: string): (r: map<nat, Asset>)
    ensures forall id :: id in r <==> id in assets && assets[id].userId == userId
    ensures forall id :: id in r ==> r[id] == assets[id]
  {
    map id | id in assets && assets[id].userId == userId :: assets[id]
  }

  /** Rows are stored under their own id, below the next id to hand out. */
  ghost predicate AssetsKeyed(assets: map<nat, Asset>, next: nat) {
    forall id :: id in assets ==> assets[id].id == id && id < next
  }

  /** Category ids are below the next id to hand out and distinct. */
  ghost predicate CategoriesKeyed(categories: map<CategoryName, nat>, next: nat) {
    && (forall c :: c in categories ==> categories[c] < next)
    && (forall c1, c2 :: c1 in categories && c2 in categories && categories[c1] == categories[c2] ==> c1 == c2)
  }

  /** Every asset refers to an existing category. */
  ghost predicate CategoriesExist(assets: map<nat, Asset>, categories: map<CategoryName, nat>) {
    forall id :: id in assets ==> assets[id].categoryId in categories.Values
  }

  /** No user holds the same ticker twice (the unique (userId, ticker) constraint). */
  ghost predicate UniqueTickers(assets: map<nat, Asset>) {
    forall a, b :: a in assets && b in assets && a != b ==>
      assets[a].userId != assets[b].userId || assets[a].ticker != assets[b].ticker
  }

  /** Adding a category keeps every category id that was there. */
  lemma AddCategoryKeepsIds(assets: map<nat, Asset>, categories: map<CategoryName, nat>, name: CategoryName, id: nat)
    requires name !in categories && CategoriesExist(assets, categories)
    ensures CategoriesExist(assets, categories[name := id])
  {
    forall i | i in assets ensures assets[i].categoryId in categories[name := id].Values {
      var c :| c in categories && categories[c] == assets[i].categoryId;
      assert categories[name := id][c] == assets[i].categoryId;
    }
  }

  /**
   * What updateAsset does to an owned asset `id`: an invalid category name is rejected
   * before anything is written; a valid one is looked up or created; an invalid currency
   * is rejected next; a write that would duplicate the user's ticker fails with 500;
   * otherwise the merge is written over exactly that row.
   */
  ghost predicate UpdateOutcome(assets: map<nat, Asset>, categories: map<CategoryName, nat>, id: nat, body: AssetBody,
                                reply: Reply, assets': map<nat, Asset>, categories': map<CategoryName, nat>)
    requires id in assets
  {
    var existing := assets[id];
    var named := if Truthy(body.categoryName) then ParseCategory(body.categoryName.value) else None;
    && (Truthy(body.categoryName) && named.None? ==>
          reply == Error(400, INVALID_CATEGORY) && categories' == categories)
    && (named.Some? ==>
          && named.value in categories'
          && (named.value in categories ==> categories' == categories)
          && (named.value !in categories ==> categories' == categories[named.value := categories'[named.value]]))
    && (named.None? ==> categories' == categories)
    && (!(Truthy(body.categoryName) && named.None?) && Truthy(body.currency) && ParseCurrency(body.currency.value).None? ==>
          reply == Error(400, INVALID_CURRENCY))
    && (reply.Updated? <==>
          !(Truthy(body.categoryName) && named.None?)
          && !(Truthy(body.currency) && ParseCurrency(body.currency.value).None?)
          && !TickerTaken(assets, existing.userId, MergedTicker(existing, body), Some(id)))
    && (reply == Error(500, INTERNAL_ERROR) <==>
          !(Truthy(body.categoryName) && named.None?)
          && !(Truthy(body.currency) && ParseCurrency(body.currency.value).None?)
          && TickerTaken(assets, existing.userId, MergedTicker(existing, body), Some(id)))
    && (reply.Updated? ==>
          reply.asset == Merge(existing, body, if named.Some? then categories'[named.value] else existing.categoryId)
          && assets' == assets[id := reply.asset])
    && (!reply.Updated? ==> assets' == assets)
  }

  /** Writing one row whose ticker is not taken by another row of its user keeps the table invariants. */
  lemma WriteKeepsInvariants(assets: map<nat, Asset>, categories: map<CategoryName, nat>, next: nat, row: Asset)
    requires AssetsKeyed(assets, next) && CategoriesExist(assets, categories) && UniqueTickers(assets)
    requires row.id < next && row.categoryId in categories.Values
    requires !TickerTaken(assets, row.userId, row.ticker, Some(row.id))
    ensures var after := assets[row.id := row];
      AssetsKeyed(after, next) && CategoriesExist(after, categories) && UniqueTickers(after)
  {
    var after := assets[row.id := row];
    forall a, b | a in after && b in after && a != b
      ensures after[a].userId != after[b].userId || after[a].ticker != after[b].ticker
    {
      if a == row.id {
        assert !(b in assets && b != row.id && assets[b].userId == row.userId && assets[b].ticker == row.ticker);
      } else if b == row.id {
        assert !(a in assets && a != row.id && assets[a].userId == row.userId && assets[a].ticker == row.ticker);
      }
    }
  }

  /** The asset and category tables. */
  class AssetStore {
    var assets: map<nat, Asset>
    var categories: map<CategoryName, nat>
    var nextAssetId: nat
    var nextCategoryId: nat

    ghost predicate Valid()
      reads this
    {
      && AssetsKeyed(assets, nextAssetId)
      && CategoriesKeyed(categories, nextCategoryId)
      && CategoriesExist(assets, categories)
      && UniqueTickers(assets)
    }

    constructor ()
      ensures Valid() && assets == map[] && categories == map[]
    {
      assets := map[];
      categories := map[];
      nextAssetId := 0;
      nextCategoryId := 0;
    }

    /** getCategoryIdByName: find the category or create it. */
    method GetCategoryIdByName(name: CategoryName) returns (id: nat)
      requires Valid()
      modifies this
      ensures Valid()
      ensures name in categories && id == categories[name]
      ensures old(name in categories) ==> id == old(categories[name]) && categories == old(categories)
      ensures old(name !in categories) ==> categories == old(categories)[name := id]
      ensures assets == old(assets) && nextAssetId == old(nextAssetId)
    {
      if name in categories {
        return categories[name];
      }
      id := nextCategoryId;
      categories := categories[name := id];
      nextCategoryId := nextCategoryId + 1;
      AddCategoryKeepsIds(assets, old(categories), name, id);
    }

    /** getAssets: the caller's assets. */
    method GetAssets(userId: Option<string>) returns (reply: Reply)
      ensures !Truthy(userId) ==> reply == Error(401, UNAUTHORIZED)
      ensures Truthy(userId) ==>
        && reply.Listed?
        && (forall id :: id in reply.assets <==> id in assets && assets[id].userId == userId.value)
        && (forall id :: id in reply.assets ==> reply.assets[id] == assets[id])
    {
      if !Truthy(userId) {
        return Error(401, UNAUTHORIZED);
      }
      reply := Listed(AssetsOf(assets, userId.value));
    }

    /** createAsset: authenticate, validate, get or create the category, insert unless the ticker is taken. */
    method CreateAsset(userId: Option<string>, body: AssetBody) returns (reply: Reply)
      requires Valid()
      modifies this
      ensures Valid()
      ensures !Truthy(userId) || ValidateCreate(body).Err? ==>
        reply == (if !Truthy(userId) then Error(401, UNAUTHORIZED) else ValidateCreate(body).error)
        && assets == old(assets) && categories == old(categories)
      ensures Truthy(userId) && ValidateCreate(body).Ok? ==>
        var v := ValidateCreate(body).value;
        && v.category in categories
        && (old(v.category in categories) ==> categories == old(categories))
        && (old(v.category !in categories) ==> categories == old(categories)[v.category := categories[v.category]])
        && (TickerTaken(old(assets), userId.value, v.ticker, None) ==>
              reply == Error(400, DUPLICATE_TICKER) && assets == old(assets))
        && (!TickerTaken(old(assets), userId.value, v.ticker, None) ==>
              && reply == Created(Asset(old(nextAssetId), userId.value, categories[v.category], v.ticker, v.quantity, v.currency))
              && old(nextAssetId) !in old(assets)
              && assets == old(assets)[old(nextAssetId) := reply.asset])
    {
      if !Truthy(userId) {
        return Error(401, UNAUTHORIZED);
      }
      var checked := ValidateCreate(body);
      if checked.Err? {
        return checked.error;
      }
      var v := checked.value;
      var categoryId := GetCategoryIdByName(v.category);
      if TickerTaken(assets, userId.value, v.ticker, None) {
        return Error(400, DUPLICATE_TICKER);
      }
      var asset := Asset(nextAssetId, userId.value, categoryId, v.ticker, v.quantity, v.currency);
      WriteKeepsInvariants(assets, categories, nextAssetId + 1, asset);
      assets := assets[nextAssetId := asset];
      nextAssetId := nextAssetId + 1;
      reply := Created(asset);
    }

    /** updateAsset: authenticate, check the id and the owner, then apply the body. */
    method UpdateAsset(userId: Option<string>, id: Option<nat>, body: AssetBody) returns (reply: Reply)
      requires Valid()
      modifies this
      ensures Valid()
      ensures !Truthy(userId) ==> reply == Error(401, UNAUTHORIZED) && assets == old(assets) && categories == old(categories)
      ensures Truthy(userId) && id.None? ==> reply == Error(400, ID_REQUIRED) && assets == old(assets) && categories == old(categories)
      ensures Truthy(userId) && id.Some? && (id.value !in old(assets) || old(assets)[id.value].userId != userId.value) ==>
        reply == Error(404, NOT_FOUND) && assets == old(assets) && categories == old(categories)
      ensures reply.Updated? ==> Truthy(userId) && id.Some? && id.value in old(assets) && old(assets)[id.value].userId == userId.value
      ensures Truthy(userId) && id.Some? && id.value in old(assets) && old(assets)[id.value].userId == userId.value ==>
        UpdateOutcome(old(assets), old(categories), id.value, body, reply, assets, categories)
    {
      if !Truthy(userId) {
        return Error(401, UNAUTHORIZED);
      }
      if id.None? {
        return Error(400, ID_REQUIRED);
      }
      if id.value !in assets || assets[id.value].userId != userId.value {
        return Error(404, NOT_FOUND);
      }
      reply := ApplyUpdate(id.value, body);
    }

    /** The part of updateAsset after the ownership check. */
    method ApplyUpdate(id: nat, body: AssetBody) returns (reply: Reply)
      requires Valid() && id in assets
      modifies this
      ensures Valid()
      ensures UpdateOutcome(old(assets), old(categories), id, body, reply, assets, categories)
    {
      var existing := assets[id];
      var categoryId := existing.categoryId;
      if Truthy(body.categoryName) && ParseCategory(body.categoryName.value).Some? {
        categoryId := GetCategoryIdByName(ParseCategory(body.categoryName.value).value);
        assert categories[ParseCategory(body.categoryName.value).value] == categoryId;
      } else if Truthy(body.categoryName) {
        return Error(400, INVALID_CATEGORY);
      }
      assert categoryId in categories.Values;
      if Truthy(body.currency) && ParseCurrency(body.currency.value).None? {
        return Error(400, INVALID_CURRENCY);
      }
      var updated := Merge(existing, body, categoryId);
      if TickerTaken(assets, existing.userId, updated.ticker, Some(id)) {
        // the unique (userId, ticker) constraint rejects the write
        return Error(500, INTERNAL_ERROR);
      }
      WriteKeepsInvariants(assets, categories, nextAssetId, updated);
      assets := assets[id := updated];
      reply := Updated(updated);
    }

    /** deleteAsset: authenticate, check the id and the owner, remove exactly that row. */
    method DeleteAsset(userId: Option<string>, id: Option<nat>) returns (reply: Reply)
      requires Valid()
      modifies this
      ensures Valid()
      ensures categories == old(categories)
      ensures !Truthy(userId) ==> reply == Error(401, UNAUTHORIZED) && assets == old(assets)
      ensures Truthy(userId) && id.None? ==> reply == Error(400, ID_REQUIRED) && assets == old(assets)
      ensures Truthy(userId) && id.Some? && (id.value !in old(assets) || old(assets)[id.value].userId != userId.value) ==>
        reply == Error(404, NOT_FOUND) && assets == old(assets)
      ensures Truthy(userId) && id.Some? && id.value in old(assets) && old(assets)[id.value].userId == userId.value ==>
        reply == Deleted && assets == old(assets) - {id.value}
    {
      if !Truthy(userId) {
        return Error(401, UNAUTHORIZED);
      }
      if id.None? {
        return Error(400, ID_REQUIRED);
      }
      if id.value !in assets || assets[id.value].userId != userId.value {
        return Error(404, NOT_FOUND);
      }
      assets := assets - {id.value};
      reply := Deleted;
    }
  }
}
