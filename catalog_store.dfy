/** The catalog store (store/catalog.ts): the catalog list with its load
    status, and the by-trade and distinct-trade queries over it. */
module CatalogStore {
  import opened Wrappers
  import opened Text
  import opened Seqs
  import opened Types

  /** The trade of each item, in catalog order. */
  function TradesOf(items: seq<CatalogItem>): (r: seq<string>)
    ensures |r| == |items|
    ensures forall i :: 0 <= i < |items| ==> r[i] == items[i].trade
  {
    KeysBy(items, (item: CatalogItem) => item.trade)
  }

  /** The string order that models `sort()` is a total preorder. */
  lemma LexLeTotalPreorder()
    ensures TotalPreorder(LexLe)
  {
    forall a: string, b: string ensures LexLe(a, b) || LexLe(b, a) {
      LexLeTotal(a, b);
    }
    forall a: string, b: string, c: string | LexLe(a, b) && LexLe(b, c) ensures LexLe(a, c) {
      LexLeTrans(a, b, c);
    }
  }

  /** Whether an item belongs to `trade`. */
  function InTrade(trade: string): CatalogItem -> bool {
    (item: CatalogItem) => item.trade == trade
  }

  /** `catalog.filter(item => item.trade === trade)`. */
  function ItemsOfTrade(catalog: seq<CatalogItem>, trade: string): (r: seq<CatalogItem>)
    ensures forall i :: 0 <= i < |r| ==> r[i].trade == trade && r[i] in catalog
    ensures forall i :: 0 <= i < |catalog| && catalog[i].trade == trade ==> catalog[i] in r
  {
    Filter(catalog, InTrade(trade))
  }

  /** `Array.from(new Set(trades)).sort()`: every trade once, ascending. */
  function SortedTrades(catalog: seq<CatalogItem>): (r: seq<string>)
    ensures forall i, j :: 0 <= i < j < |r| ==> LexLe(r[i], r[j]) && r[i] != r[j]
    ensures forall x :: x in r <==> x in TradesOf(catalog)
    ensures forall k :: 0 <= k < |catalog| ==> catalog[k].trade in r
  {
    LexLeTotalPreorder();
    var trades := TradesOf(catalog);
    var distinct := Distinct(trades);
    var r := SortBy(distinct, LexLe);
    PermutationSameElements(distinct, r);
    r
  }

  /** Items of a trade keep their catalog order: filtering a catalog made of
      two parts filters each part. */
  lemma ItemsOfTradeConcat(a: seq<CatalogItem>, b: seq<CatalogItem>, trade: string)
    ensures ItemsOfTrade(a + b, trade) == ItemsOfTrade(a, trade) + ItemsOfTrade(b, trade)
  {
    FilterConcat(a, b, InTrade(trade));
  }

  class CatalogStore {
    var catalog: seq<CatalogItem>
    var lastUpdated: Option<int>
    var isLoading: bool
    var error: Option<string>

    constructor()
      ensures catalog == [] && lastUpdated == None && !isLoading && error == None
    {
      catalog := [];
      lastUpdated := None;
      isLoading := false;
      error := None;
    }

    /** `loadCatalogFromUrl` and `loadCatalogFromFile`, which differ only in
        where the workbook comes from: `outcome` is the parsed catalog or the
        thrown error's message (`None` for a non-`Error` throw). */
    method LoadCatalog(outcome: Result<seq<CatalogItem>, Option<string>>, now: int)
      modifies this
      ensures !isLoading
      ensures outcome.Ok? ==> catalog == outcome.value && lastUpdated == Some(now) && error == None
      ensures outcome.Err? ==> catalog == old(catalog) && lastUpdated == old(lastUpdated)
      ensures outcome.Err? ==> error == Some(outcome.error.GetOr("Failed to load catalog"))
    {
      isLoading := true;
      error := None;
      match outcome {
        case Ok(items) =>
          catalog := items;
          lastUpdated := Some(now);
          isLoading := false;
          error := None;
        case Err(message) =>
          error := Some(message.GetOr("Failed to load catalog"));
          isLoading := false;
      }
    }

    /** `setCatalog`: the catalog replaced wholesale; the load status is kept. */
    method SetCatalog(items: seq<CatalogItem>, now: int)
      modifies this
      ensures catalog == items && lastUpdated == Some(now)
      ensures isLoading == old(isLoading) && error == old(error)
    {
      catalog := items;
      lastUpdated := Some(now);
    }

    /** `getCatalogByTrade`. */
    function GetCatalogByTrade(trade: string): (r: seq<CatalogItem>)
      reads this
      ensures r == ItemsOfTrade(catalog, trade)
    {
      ItemsOfTrade(catalog, trade)
    }

    /** `getAllTrades`. */
    function GetAllTrades(): (r: seq<string>)
      reads this
      ensures r == SortedTrades(catalog)
    {
      SortedTrades(catalog)
    }
  }
}
