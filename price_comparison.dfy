/**
  The PriceComparison aggregate of smart-cart-vite/src/models/PriceComparison.js:
  the products listed for one logical item, at most one per store, kept both as an
  ordered list and as a store-to-product `Map`, with the statistics computed from them.

  The source's constructor assigns `this.product` and `this.storePrices`, while
  `addProduct` and every query read `this.products` and `this.storePriceMap`, which
  are never assigned (see AddProductAsWritten below). The class models the evidently
  intended object: one ordered `products` list and one `storePriceMap`, both empty at
  construction and kept consistent by every AddProduct.
*/
module PriceComparisons {
  import opened Wrappers
  import opened Products
  import opened ArrayBuiltins

  /** The sort keys: a product by its price, a price by itself. */
  function PriceOf(p: Product): real { p.price }
  function PriceKey(x: real): real { x }

  /** `products.map(p => p.price)` */
  function Prices(ps: seq<Product>): (r: seq<real>)
    ensures |r| == |ps| && forall i :: 0 <= i < |ps| ==> r[i] == ps[i].price
  {
    seq(|ps|, i requires 0 <= i < |ps| => ps[i].price)
  }

  function StoresOf(ps: seq<Product>): (r: seq<string>)
    ensures |r| == |ps| && forall i :: 0 <= i < |ps| ==> r[i] == ps[i].store
  {
    seq(|ps|, i requires 0 <= i < |ps| => ps[i].store)
  }

  ghost predicate Distinct<T>(s: seq<T>) {
    forall i, j :: 0 <= i < j < |s| ==> s[i] != s[j]
  }

  /** `Array.prototype.findIndex(p => p.store === store)`: the first match, or -1. */
  function FindIndex(ps: seq<Product>, store: string): (r: int)
    ensures -1 <= r < |ps|
    ensures r == -1 <==> forall i :: 0 <= i < |ps| ==> ps[i].store != store
    ensures r >= 0 ==> ps[r].store == store && forall i :: 0 <= i < r ==> ps[i].store != store
  {
    if ps == [] then -1
    else if ps[0].store == store then 0
    else
      var k := FindIndex(ps[1..], store);
      assert forall i :: 1 <= i < |ps| ==> ps[i] == ps[1..][i - 1];
      if k == -1 then -1 else k + 1
  }

  /** The list after AddProduct: the product of the same store is overwritten in place, else `p` is appended. */
  function Upserted(ps: seq<Product>, p: Product): (r: seq<Product>)
    ensures p in r
    ensures |r| == if p.store in StoresOf(ps) then |ps| else |ps| + 1
  {
    var i := FindIndex(ps, p.store);
    assert i != -1 ==> StoresOf(ps)[i] == p.store;
    assert i == -1 ==> forall k :: 0 <= k < |ps| ==> StoresOf(ps)[k] != p.store;
    var r := if i != -1 then ps[i := p] else ps + [p];
    assert r[if i != -1 then i else |ps|] == p;
    r
  }

  /**
    Overwriting keeps position and length, appending happens only for a new store, and
    either way the list keeps one product per store.
  */
  lemma UpsertedKeepsOneProductPerStore(ps: seq<Product>, p: Product)
    requires Distinct(StoresOf(ps))
    ensures var r := Upserted(ps, p);
      && Distinct(StoresOf(r))
      && StoresOf(r) == (if p.store in StoresOf(ps) then StoresOf(ps) else StoresOf(ps) + [p.store])
      && (p.store in StoresOf(ps) ==>
            |r| == |ps| && exists i :: 0 <= i < |ps| && ps[i].store == p.store && r == ps[i := p])
      && (p.store !in StoresOf(ps) ==> r == ps + [p])
  {
    var i := FindIndex(ps, p.store);
    var r := Upserted(ps, p);
    if i != -1 {
      assert StoresOf(r) == StoresOf(ps);
    } else {
      assert StoresOf(r) == StoresOf(ps) + [p.store];
    }
  }

  /** The least and the greatest price of the statistics are the prices of listed products. */
  lemma StatsOfListing(ps: seq<Product>)
    ensures var s := StatsOf(Prices(ps));
      && (ps == [] ==> s == PriceStats(0.0, 0.0, 0.0, 0.0, 0.0))
      && (ps != [] ==>
            && (exists i :: 0 <= i < |ps| && ps[i].price == s.min)
            && (exists i :: 0 <= i < |ps| && ps[i].price == s.max)
            && (forall i :: 0 <= i < |ps| ==> s.min <= ps[i].price <= s.max))
  {
    var prices := Prices(ps);
    var s := StatsOf(prices);
    if ps != [] {
      var lo :| 0 <= lo < |prices| && prices[lo] == s.min;
      var hi :| 0 <= hi < |prices| && prices[hi] == s.max;
      assert ps[lo].price == s.min && ps[hi].price == s.max;
    }
  }

  /** The list and the map describe the same products, one per store, in the same order. */
  ghost predicate Consistent(products: seq<Product>, storeOrder: seq<string>, storePriceMap: map<string, Product>) {
    && storeOrder == StoresOf(products)
    && Distinct(storeOrder)
    && (forall s :: s in storePriceMap <==> s in storeOrder)
    && (forall i :: 0 <= i < |products| ==>
          products[i].store in storePriceMap && storePriceMap[products[i].store] == products[i])
  }

  /** Upserting a product into the list and the map together keeps them consistent. */
  lemma UpsertKeepsConsistent(products: seq<Product>, storeOrder: seq<string>, storePriceMap: map<string, Product>, p: Product)
    requires Consistent(products, storeOrder, storePriceMap)
    ensures Consistent(
      Upserted(products, p),
      if p.store in storePriceMap then storeOrder else storeOrder + [p.store],
      storePriceMap[p.store := p])
  {
    UpsertedKeepsOneProductPerStore(products, p);
    UpsertKeepsKeys(storeOrder, storePriceMap, p);
    UpsertKeepsEntries(products, storePriceMap, p);
  }

  /** The map's keys follow the key order when a store is added or overwritten. */
  lemma UpsertKeepsKeys(storeOrder: seq<string>, storePriceMap: map<string, Product>, p: Product)
    requires forall s :: s in storePriceMap <==> s in storeOrder
    ensures var order := if p.store in storePriceMap then storeOrder else storeOrder + [p.store];
      forall s :: s in storePriceMap[p.store := p] <==> s in order
  {
  }

  /** Every product of the upserted list is the map entry of its store. */
  lemma UpsertKeepsEntries(products: seq<Product>, storePriceMap: map<string, Product>, p: Product)
    requires Distinct(StoresOf(products))
    requires forall i :: 0 <= i < |products| ==>
      products[i].store in storePriceMap && storePriceMap[products[i].store] == products[i]
    ensures var ps, m := Upserted(products, p), storePriceMap[p.store := p];
      forall i :: 0 <= i < |ps| ==> ps[i].store in m && m[ps[i].store] == ps[i]
  {
    var ps, m := Upserted(products, p), storePriceMap[p.store := p];
    var k := FindIndex(products, p.store);
    forall i | 0 <= i < |ps|
      ensures ps[i].store in m && m[ps[i].store] == ps[i]
    {
      if k == -1 {
        if i < |products| {
          assert ps[i] == products[i] && products[i].store != p.store;
        }
      } else if i != k {
        assert StoresOf(products)[i] != StoresOf(products)[k];
        assert ps[i] == products[i] && products[i].store != p.store;
      }
    }
  }

  /** A list without repetitions has as many elements as the set of its elements. */
  lemma {:induction false} DistinctCardinality<T>(s: seq<T>)
    requires Distinct(s)
    ensures |set x | x in s| == |s|
  {
    if s != [] {
      var tail := s[1..];
      DistinctCardinality(tail);
      assert (set x | x in s) == (set x | x in tail) + {s[0]};
      assert forall k :: 0 <= k < |tail| ==> tail[k] == s[k + 1];
    }
  }

  datatype PriceStats = PriceStats(min: real, max: real, average: real, median: real, range: real)

  /** `getPriceStats` on a list of prices: all zeros when empty, else order statistics of the sorted copy. */
  function StatsOf(prices: seq<real>): (s: PriceStats)
    ensures prices == [] ==> s == PriceStats(0.0, 0.0, 0.0, 0.0, 0.0)
    ensures prices != [] ==>
      && s.min in prices && s.max in prices
      && (forall i :: 0 <= i < |prices| ==> s.min <= prices[i] <= s.max)
      && s.range == s.max - s.min >= 0.0
      && s.average == Sum(prices) / |prices| as real
      && s.min <= s.average <= s.max
      && s.min <= s.median <= s.max
      && CountBelow(prices, s.median) <= |prices| / 2
      && CountAbove(prices, s.median) <= |prices| / 2
      && (|prices| % 2 == 1 ==> s.median in prices)
    ensures prices != [] ==> forall sorted :: IsAscendingCopy(sorted, prices) ==> sorted != [] && s == SortedStats(sorted)
  {
    if prices == [] then PriceStats(0.0, 0.0, 0.0, 0.0, 0.0)
    else
      var sorted := SortBy(prices, PriceKey, true);
      AscendingPriceCopy(prices);
      SortedStatsFacts(prices, sorted);
      AscendingCopiesAgree(prices);
      SortedStats(sorted)
  }

  /**
    A list of prices in ascending order, stated on the values themselves. `SortedBy` in
    `ArrayBuiltins` is the same order seen through a key and a direction, as the shared
    sort needs it; the statistics need neither, and `AscendingByPrice` converts one into
    the other once.
  */
  ghost predicate Ascending(s: seq<real>) {
    forall i, j :: 0 <= i < j < |s| ==> s[i] <= s[j]
  }

  /** `sorted` holds the values of `prices`, in ascending order. */
  ghost predicate IsAscendingCopy(sorted: seq<real>, prices: seq<real>) {
    multiset(sorted) == multiset(prices) && Ascending(sorted)
  }

  /** Two ascending lists with the same values are the same list. */
  lemma {:induction false} AscendingCopyIsUnique(a: seq<real>, b: seq<real>)
    requires IsAscendingCopy(a, b) && Ascending(b)
    ensures a == b
  {
    assert |a| == |multiset(a)| == |multiset(b)| == |b|;
    if a != [] {
      AscendingHeadIsLeast(a, b[0]);
      AscendingHeadIsLeast(b, a[0]);
      AscendingTail(a);
      AscendingTail(b);
      TailCopy(a, b);
      AscendingCopyIsUnique(a[1..], b[1..]);
      assert a == [a[0]] + a[1..] && b == [b[0]] + b[1..];
    }
  }

  lemma AscendingHeadIsLeast(s: seq<real>, x: real)
    requires Ascending(s) && x in multiset(s)
    ensures s[0] <= x
  {
    var j :| 0 <= j < |s| && s[j] == x;
    if j > 0 { assert s[0] <= s[j]; }
  }

  lemma AscendingTail(s: seq<real>)
    requires Ascending(s) && s != []
    ensures Ascending(s[1..])
  {
    forall i, j | 0 <= i < j < |s| - 1 ensures s[1..][i] <= s[1..][j] {
      assert s[1..][i] == s[i + 1] && s[1..][j] == s[j + 1];
    }
  }

  lemma TailCopy(a: seq<real>, b: seq<real>)
    requires a != [] && b != [] && multiset(a) == multiset(b) && a[0] == b[0]
    ensures multiset(a[1..]) == multiset(b[1..])
  {
    assert a == [a[0]] + a[1..] && b == [b[0]] + b[1..];
    assert multiset(a) == multiset{a[0]} + multiset(a[1..]);
    assert multiset(b) == multiset{b[0]} + multiset(b[1..]);
    assert multiset(a[1..]) == multiset(a) - multiset{a[0]};
    assert multiset(b[1..]) == multiset(b) - multiset{b[0]};
  }

  /** Every ascending copy of the prices is the one `SortBy` builds, so all give the same statistics. */
  lemma AscendingCopiesAgree(prices: seq<real>)
    requires prices != []
    ensures forall sorted :: IsAscendingCopy(sorted, prices) ==>
      sorted != [] && SortedStats(sorted) == SortedStats(SortBy(prices, PriceKey, true))
  {
    var canonical := SortBy(prices, PriceKey, true);
    AscendingPriceCopy(prices);
    forall sorted | IsAscendingCopy(sorted, prices)
      ensures sorted != [] && SortedStats(sorted) == SortedStats(canonical)
    {
      assert IsAscendingCopy(sorted, canonical);
      AscendingCopyIsUnique(sorted, canonical);
    }
  }

  /** The order statistics of an ascending list, as `getPriceStats` reads them off. */
  function SortedStats(sorted: seq<real>): (s: PriceStats)
    requires sorted != []
    ensures s.min == sorted[0] && s.max == sorted[|sorted| - 1] && s.range == s.max - s.min
    ensures s.average * |sorted| as real == Sum(sorted)
    ensures |sorted| % 2 == 1 ==> s.median == sorted[|sorted| / 2]
    ensures |sorted| % 2 == 0 ==> 2.0 * s.median == sorted[|sorted| / 2 - 1] + sorted[|sorted| / 2]
  {
    var n, mid := |sorted|, |sorted| / 2;
    var median := if n % 2 == 0 then (sorted[mid - 1] + sorted[mid]) / 2.0 else sorted[mid];
    PriceStats(sorted[0], sorted[n - 1], Sum(sorted) / n as real, median, sorted[n - 1] - sorted[0])
  }

  /** The ascending copy of the prices is a permutation of them, ordered, with the same sum and counts. */
  lemma AscendingPriceCopy(prices: seq<real>)
    ensures var sorted := SortBy(prices, PriceKey, true);
      && multiset(sorted) == multiset(prices)
      && (forall i, j :: 0 <= i < j < |sorted| ==> sorted[i] <= sorted[j])
      && Sum(sorted) == Sum(prices)
      && (forall m :: CountBelow(sorted, m) == CountBelow(prices, m) && CountAbove(sorted, m) == CountAbove(prices, m))
  {
    var sorted := SortBy(prices, PriceKey, true);
    AscendingByPrice(sorted);
    SumSortBy(prices, PriceKey, true);
    forall m ensures CountBelow(sorted, m) == CountBelow(prices, m) && CountAbove(sorted, m) == CountAbove(prices, m) {
      CountSortBy(prices, PriceKey, true, m);
    }
  }

  /** The statistics read off an ascending permutation of the prices. */
  lemma SortedStatsFacts(prices: seq<real>, sorted: seq<real>)
    requires prices != [] && multiset(sorted) == multiset(prices)
    requires forall i, j :: 0 <= i < j < |sorted| ==> sorted[i] <= sorted[j]
    requires Sum(sorted) == Sum(prices)
    requires forall m :: CountBelow(sorted, m) == CountBelow(prices, m) && CountAbove(sorted, m) == CountAbove(prices, m)
    ensures sorted != [] && var s := SortedStats(sorted);
      && s.min in prices && s.max in prices
      && (forall i :: 0 <= i < |prices| ==> s.min <= prices[i] <= s.max)
      && s.range == s.max - s.min >= 0.0
      && s.average == Sum(prices) / |prices| as real
      && s.min <= s.average <= s.max
      && s.min <= s.median <= s.max
      && CountBelow(prices, s.median) <= |prices| / 2
      && CountAbove(prices, s.median) <= |prices| / 2
      && (|prices| % 2 == 1 ==> s.median in prices)
  {
    SortedHasSameElements(prices, sorted);
    var n := |sorted|;
    var s := SortedStats(sorted);
    assert sorted[0] in sorted && sorted[n - 1] in sorted && sorted[n / 2] in sorted;
    MeanBounds(prices, sorted[0], sorted[n - 1]);
    MedianCounts(sorted, s.median);
    assert CountBelow(sorted, s.median) == CountBelow(prices, s.median);
    assert CountAbove(sorted, s.median) == CountAbove(prices, s.median);
  }

  /** An ascending permutation of a list starts at its least and ends at its greatest element. */
  lemma SortedHasSameElements(prices: seq<real>, sorted: seq<real>)
    requires prices != [] && multiset(sorted) == multiset(prices)
    requires forall i, j :: 0 <= i < j < |sorted| ==> sorted[i] <= sorted[j]
    ensures |sorted| == |prices|
    ensures forall x :: x in sorted <==> x in prices
    ensures forall i :: 0 <= i < |prices| ==> sorted[0] <= prices[i] <= sorted[|sorted| - 1]
  {
    assert |sorted| == |multiset(sorted)| == |multiset(prices)| == |prices|;
    forall x ensures x in sorted <==> x in prices {
      assert x in sorted <==> x in multiset(sorted);
      assert x in prices <==> x in multiset(prices);
    }
    forall i | 0 <= i < |prices| ensures sorted[0] <= prices[i] <= sorted[|sorted| - 1] {
      assert prices[i] in multiset(prices);
      assert prices[i] in sorted;
    }
  }

  /** The mean of values within [lo, hi] lies within [lo, hi]. */
  lemma MeanBounds(prices: seq<real>, lo: real, hi: real)
    requires prices != []
    requires forall i :: 0 <= i < |prices| ==> lo <= prices[i] <= hi
    ensures lo <= Sum(prices) / |prices| as real <= hi
  {
    SumBounds(prices, lo, hi);
    AverageBounds(Sum(prices), |prices| as real, lo, hi);
  }

  lemma AscendingByPrice(s: seq<real>)
    requires SortedBy(s, PriceKey, true)
    ensures forall i, j :: 0 <= i < j < |s| ==> s[i] <= s[j]
  {
    assert forall i, j :: 0 <= i < j < |s| ==> InOrder(PriceKey(s[i]), PriceKey(s[j]), true);
  }

  /** The median of an ascending list has at most half the values strictly on either side of it. */
  lemma MedianCounts(sorted: seq<real>, median: real)
    requires sorted != [] && forall i, j :: 0 <= i < j < |sorted| ==> sorted[i] <= sorted[j]
    requires var n, mid := |sorted|, |sorted| / 2;
      median == if n % 2 == 0 then (sorted[mid - 1] + sorted[mid]) / 2.0 else sorted[mid]
    ensures sorted[0] <= median <= sorted[|sorted| - 1]
    ensures CountBelow(sorted, median) <= |sorted| / 2 && CountAbove(sorted, median) <= |sorted| / 2
  {
    var n, mid := |sorted|, |sorted| / 2;
    var lo := if n % 2 == 0 then sorted[mid - 1] else sorted[mid];
    var hi := sorted[mid];
    assert lo <= median <= hi;
    forall i | mid <= i < n ensures sorted[i] >= median {
      if i > mid { assert sorted[mid] <= sorted[i]; }
    }
    CountBelowAtMost(sorted, median, mid);
    forall i | 0 <= i < n - mid ensures sorted[i] <= median {
      if n % 2 == 0 && i < mid - 1 { assert sorted[i] <= sorted[mid - 1]; }
      if n % 2 == 1 && i < mid { assert sorted[i] <= sorted[mid]; }
    }
    CountAboveAtMost(sorted, median, mid);
    if 0 < n - 1 { assert sorted[0] <= sorted[n - 1]; }
  }

  lemma AverageBounds(sum: real, n: real, lo: real, hi: real)
    requires n > 0.0 && n * lo <= sum <= n * hi
    ensures lo <= sum / n <= hi
  {
    assert sum / n * n == sum;
  }

  /** The argument of `addProduct`: a `Product` instance, or any other value. */
  datatype Candidate = AProduct(product: Product) | NotAProduct

  const InvalidProductType := "Invalid product type"

  /** One row of `getStoreBreakdown`, without the `toFixed` renderings. */
  datatype BreakdownEntry = BreakdownEntry(
    price: real,
    inStock: bool,
    isOnSale: bool,
    discountPercentage: int,
    differenceFromBest: real,
    percentageAboveBest: real)

  /** The breakdown row of `p` against the cheapest price; no percentage unless that price is positive. */
  function EntryFor(p: Product, cheapestPrice: real): (e: BreakdownEntry)
    ensures e.price == p.price && e.inStock == p.inStock
    ensures e.isOnSale == IsOnSale(p) && e.discountPercentage == DiscountPercentage(p)
    ensures e.differenceFromBest == p.price - cheapestPrice
    ensures cheapestPrice <= 0.0 ==> e.percentageAboveBest == 0.0
    ensures cheapestPrice > 0.0 ==> e.percentageAboveBest * cheapestPrice == (p.price - cheapestPrice) * 100.0
  {
    BreakdownEntry(
      p.price, p.inStock, IsOnSale(p), DiscountPercentage(p),
      p.price - cheapestPrice,
      if cheapestPrice > 0.0 then (p.price - cheapestPrice) / cheapestPrice * 100.0 else 0.0)
  }

  datatype BestDeal = BestDeal(store: string, price: real, savings: real)
  datatype WorstDeal = WorstDeal(store: string, price: real)

  /** `getComparisonSummary` without its two `toFixed` strings. */
  datatype Summary = Summary(
    productName: string,
    storeCount: nat,
    bestDeal: Option<BestDeal>,
    worstDeal: Option<WorstDeal>,
    stores: map<string, BreakdownEntry>)

  /** The `forEach` of `getStoreBreakdown`: one row per store of `order`, priced against `cheapestPrice`. */
  method BreakdownRows(order: seq<string>, m: map<string, Product>, cheapestPrice: real)
    returns (b: map<string, BreakdownEntry>)
    requires forall j :: 0 <= j < |order| ==> order[j] in m
    ensures forall s :: s in b <==> s in order
    ensures forall s :: s in b ==> s in m && b[s] == EntryFor(m[s], cheapestPrice)
  {
    b := map[];
    var i := 0;
    while i < |order|
      invariant 0 <= i <= |order|
      invariant forall j :: 0 <= j < i ==> order[j] in b
      invariant forall s :: s in b ==> s in order[..i] && s in m && b[s] == EntryFor(m[s], cheapestPrice)
    {
      var store := order[i];
      b := b[store := EntryFor(m[store], cheapestPrice)];
      assert order[..i + 1] == order[..i] + [store];
      i := i + 1;
    }
    assert order[..i] == order;
  }

  const UnknownProduct := "Unknown Product"

  class PriceComparison {
    /** `generateId()` and `new Date()`: random and clock values, supplied by the caller. */
    const comparisonId: string
    const createdAt: Timestamp
    /** The products, in the order they were first added per store. */
    var products: seq<Product>
    /** The store names in the iteration order of the JavaScript `Map`: first insertion. */
    var storeOrder: seq<string>
    var storePriceMap: map<string, Product>

    /** The list and the map describe the same products, one per store, in the same order. */
    ghost predicate Valid()
      reads this
    {
      Consistent(products, storeOrder, storePriceMap)
    }

    constructor (comparisonId: string, createdAt: Timestamp)
      ensures Valid()
      ensures this.comparisonId == comparisonId && this.createdAt == createdAt
      ensures products == [] && storeOrder == [] && storePriceMap == map[]
    {
      this.comparisonId := comparisonId;
      this.createdAt := createdAt;
      products := [];
      storeOrder := [];
      storePriceMap := map[];
    }

    method AddProduct(c: Candidate) returns (r: Outcome<string>)
      requires Valid()
      modifies this
      ensures Valid()
      ensures c.NotAProduct? ==>
        && r == Fail(InvalidProductType)
        && products == old(products) && storeOrder == old(storeOrder) && storePriceMap == old(storePriceMap)
      ensures c.AProduct? ==>
        && r == Pass
        && products == Upserted(old(products), c.product)
        && storePriceMap == old(storePriceMap)[c.product.store := c.product]
        && storeOrder == if c.product.store in old(storePriceMap) then old(storeOrder) else old(storeOrder) + [c.product.store]
      ensures c.AProduct? ==>
        && GetProductByStore(c.product.store) == Some(c.product)
        && HasStore(c.product.store)
        && GetPriceByStore(c.product.store) == Some(c.product.price)
        && forall s :: s != c.product.store ==> GetProductByStore(s) == old(GetProductByStore(s))
    {
      if c.NotAProduct? {
        return Fail(InvalidProductType);
      }
      var p := c.product;
      UpsertKeepsConsistent(products, storeOrder, storePriceMap, p);
      var existingIndex := FindIndex(products, p.store);
      if existingIndex != -1 {
        products := products[existingIndex := p];
      } else {
        products := products + [p];
      }
      if p.store !in storePriceMap {
        storeOrder := storeOrder + [p.store];
      }
      storePriceMap := storePriceMap[p.store := p];
      assert Valid();
      assert GetProductByStore(p.store) == Some(p);
      forall s | s != p.store
        ensures GetProductByStore(s) == old(GetProductByStore(s))
      {
        assert (s in storePriceMap) == (s in old(storePriceMap));
      }
      r := Pass;
    }

    function GetProductByStore(storeName: string): (r: Option<Product>)
      reads this
      requires Valid()
      ensures r.Some? <==> exists i :: 0 <= i < |products| && products[i].store == storeName
      ensures r.Some? ==> r.value.store == storeName && r.value in products
    {
      if storeName in storePriceMap then
        StoreEntryIsListed(storeName);
        Some(storePriceMap[storeName])
      else
        assert forall i :: 0 <= i < |products| ==> storeOrder[i] == products[i].store;
        None
    }

    /** Every map entry is the listed product of its store. */
    lemma StoreEntryIsListed(storeName: string)
      requires Valid() && storeName in storePriceMap
      ensures exists i :: 0 <= i < |products| && products[i].store == storeName && storePriceMap[storeName] == products[i]
    {
      var i :| 0 <= i < |storeOrder| && storeOrder[i] == storeName;
      assert products[i].store == storeName;
    }

    function GetPriceByStore(storeName: string): (r: Option<real>)
      reads this
      requires Valid()
      ensures r.Some? <==> HasStore(storeName)
      ensures r.Some? ==> exists i :: 0 <= i < |products| && products[i].store == storeName && products[i].price == r.value
    {
      var product := GetProductByStore(storeName);
      if product.Some? then Some(product.value.price) else None
    }

    predicate HasStore(storeName: string)
      reads this
      requires Valid()
      ensures HasStore(storeName) <==> exists i :: 0 <= i < |products| && products[i].store == storeName
    {
      assert storeName in storePriceMap ==> GetProductByStore(storeName).Some?;
      assert GetProductByStore(storeName).Some? ==> storeName in storePriceMap;
      storeName in storePriceMap
    }

    /** `Array.from(storePriceMap.keys())`: the stores of the list, in list order, each once. */
    function GetStores(): (r: seq<string>)
      reads this
      requires Valid()
      ensures r == StoresOf(products) && Distinct(r)
      ensures |r| == |products| == |storePriceMap|
    {
      StoreCount();
      storeOrder
    }

    /** The map has one entry per listed product. */
    lemma StoreCount()
      requires Valid()
      ensures |storePriceMap| == |products|
    {
      assert storePriceMap.Keys == set s | s in storeOrder;
      DistinctCardinality(storeOrder);
    }

    function GetPriceStats(): (s: PriceStats)
      reads this
      ensures s == StatsOf(Prices(products))
      ensures products == [] ==> s == PriceStats(0.0, 0.0, 0.0, 0.0, 0.0)
      ensures products != [] ==>
        (exists i :: 0 <= i < |products| && products[i].price == s.min) &&
        (exists i :: 0 <= i < |products| && products[i].price == s.max) &&
        (forall i :: 0 <= i < |products| ==> s.min <= products[i].price <= s.max)
      ensures products != [] ==>
        forall sorted :: IsAscendingCopy(sorted, Prices(products)) ==> sorted != [] && s == SortedStats(sorted)
    {
      StatsOfListing(products);
      StatsOf(Prices(products))
    }

    /** The cheapest listing costs the minimum of the statistics. */
    lemma CheapestIsStatsMin()
      requires products != []
      ensures GetCheapestProduct().value.price == GetPriceStats().min
    {
      var stats := GetPriceStats();
      var lo :| 0 <= lo < |products| && products[lo].price == stats.min;
      assert GetCheapestProduct().value.price <= products[lo].price;
    }

    /** The dearest listing costs the maximum of the statistics. */
    lemma DearestIsStatsMax()
      requires products != []
      ensures GetMostExpensiveProduct().value.price == GetPriceStats().max
    {
      var stats := GetPriceStats();
      var hi :| 0 <= hi < |products| && products[hi].price == stats.max;
      assert GetMostExpensiveProduct().value.price >= products[hi].price;
    }

    /** `reduce((min, p) => p.price < min.price ? p : min)`: the first product of the lowest price. */
    function GetCheapestProduct(): (r: Option<Product>)
      reads this
      ensures r.None? <==> products == []
      ensures r.Some? ==> exists k :: (
        && 0 <= k < |products| && products[k] == r.value
        && (forall j :: 0 <= j < |products| ==> r.value.price <= products[j].price)
        && (forall j :: 0 <= j < k ==> products[j].price > r.value.price))
    {
      if products == [] then None
      else
        var k := ExtremeIndex(products, PriceOf, true);
        assert forall j :: 0 <= j < |products| ==> PriceOf(products[j]) == products[j].price;
        Some(products[k])
    }

    /** `reduce((max, p) => p.price > max.price ? p : max)`: the first product of the highest price. */
    function GetMostExpensiveProduct(): (r: Option<Product>)
      reads this
      ensures r.None? <==> products == []
      ensures r.Some? ==> exists k :: (
        && 0 <= k < |products| && products[k] == r.value
        && (forall j :: 0 <= j < |products| ==> r.value.price >= products[j].price)
        && (forall j :: 0 <= j < k ==> products[j].price < r.value.price))
    {
      if products == [] then None
      else
        var k := ExtremeIndex(products, PriceOf, false);
        assert forall j :: 0 <= j < |products| ==> PriceOf(products[j]) == products[j].price;
        Some(products[k])
    }

    /** The spread between the dearest and the cheapest listing: the range of the price statistics. */
    function GetPotentialSavings(): (r: real)
      reads this
      ensures r >= 0.0
      ensures r == GetPriceStats().range
      ensures |products| <= 1 ==> r == 0.0
    {
      var cheapest := GetCheapestProduct();
      var mostExpensive := GetMostExpensiveProduct();
      var stats := GetPriceStats();
      if cheapest.None? || mostExpensive.None? then 0.0
      else
        CheapestIsStatsMin();
        DearestIsStatsMax();
        mostExpensive.value.price - cheapest.value.price
    }

    /** A sorted copy: a stable permutation of the list, ordered by price; the list itself is not touched. */
    function GetProductsSortedByPrice(ascending: bool := true): (r: seq<Product>)
      reads this
      ensures multiset(r) == multiset(products)
      ensures SortedBy(r, PriceOf, ascending)
      ensures forall v :: WithKey(r, PriceOf, v) == WithKey(products, PriceOf, v)
    {
      SortByIsStableEverywhere(products, PriceOf, ascending);
      SortBy(products, PriceOf, ascending)
    }

    /** `getCheapestProduct()?.price || 0` */
    function CheapestPrice(): (c: real)
      reads this
      ensures forall i :: 0 <= i < |products| ==> c <= products[i].price
      ensures products == [] ==> c == 0.0
      ensures products != [] ==> c == GetCheapestProduct().value.price && c == GetPriceStats().min
    {
      var cheapest := GetCheapestProduct();
      if cheapest.Some? then
        CheapestIsStatsMin();
        cheapest.value.price
      else 0.0
    }

    /** `getStoreBreakdown`: one row per store, built by iterating the map in its key order. */
    method GetStoreBreakdown() returns (b: map<string, BreakdownEntry>)
      requires Valid()
      ensures b.Keys == storePriceMap.Keys
      ensures forall s :: s in b ==> b[s] == EntryFor(storePriceMap[s], CheapestPrice())
      ensures forall s :: s in b ==> b[s].differenceFromBest >= 0.0
      ensures forall s :: s in b ==> (CheapestPrice() <= 0.0 ==> b[s].percentageAboveBest == 0.0)
    {
      var cheapestPrice := CheapestPrice();
      assert forall j :: 0 <= j < |storeOrder| ==> storeOrder[j] in storePriceMap;
      b := BreakdownRows(storeOrder, storePriceMap, cheapestPrice);
      EntriesCostAtLeastCheapest();
    }

    lemma EntriesCostAtLeastCheapest()
      requires Valid()
      ensures forall s :: s in storePriceMap ==> CheapestPrice() <= storePriceMap[s].price
    {
      forall s | s in storePriceMap ensures CheapestPrice() <= storePriceMap[s].price {
        StoreEntryIsListed(s);
      }
    }

    method GetComparisonSummary() returns (summary: Summary)
      requires Valid()
      ensures summary.productName ==
        if products != [] && products[0].name != "" then products[0].name else UnknownProduct
      ensures summary.storeCount == |products|
      ensures summary.bestDeal.None? <==> products == []
      ensures summary.bestDeal.Some? ==>
        var cheapest := GetCheapestProduct().value;
        summary.bestDeal.value == BestDeal(cheapest.store, cheapest.price, GetPotentialSavings())
      ensures summary.worstDeal.None? <==> products == []
      ensures summary.worstDeal.Some? ==>
        var dearest := GetMostExpensiveProduct().value;
        summary.worstDeal.value == WorstDeal(dearest.store, dearest.price)
      ensures summary.stores.Keys == storePriceMap.Keys
      ensures forall s :: s in summary.stores ==> summary.stores[s] == EntryFor(storePriceMap[s], CheapestPrice())
    {
      var cheapest := GetCheapestProduct();
      var mostExpensive := GetMostExpensiveProduct();
      var stores := GetStoreBreakdown();
      StoreCount();
      summary := Summary(
        if products != [] && products[0].name != "" then products[0].name else UnknownProduct,
        |storePriceMap|,
        if cheapest.Some? then Some(BestDeal(cheapest.value.store, cheapest.value.price, GetPotentialSavings())) else None,
        if mostExpensive.Some? then Some(WorstDeal(mostExpensive.value.store, mostExpensive.value.price)) else None,
        stores);
    }
  }

  /**
    The object as the source's constructor leaves it: the unused argument under
    `product`, an empty `storePrices` map, and `products` and `storePriceMap`
    never assigned (`undefined`).
  */
  datatype WrittenFields = WrittenFields(
    product: seq<Product>,
    storePrices: map<string, real>,
    products: Option<seq<Product>>,
    storePriceMap: Option<map<string, Product>>)

  const TypeErrorUndefinedProducts := "TypeError: cannot read properties of undefined (reading 'findIndex')"

  /** `new PriceComparison(product)` as written: only `product` and `storePrices` are assigned. */
  function ConstructedAsWritten(product: seq<Product>): (o: WrittenFields)
    ensures o.product == product && o.storePrices == map[]
    ensures o.products.None? && o.storePriceMap.None?
  {
    WrittenFields(product, map[], None, None)
  }

  /** `addProduct` as written, up to the first statement that reads `this.products`. */
  function AddProductAsWritten(o: WrittenFields, c: Candidate): (r: Outcome<string>)
    ensures c.NotAProduct? ==> r == Fail(InvalidProductType)
    ensures c.AProduct? ==> (r.Pass? <==> o.products.Some?)
    ensures c.AProduct? && o.products.None? ==> r == Fail(TypeErrorUndefinedProducts)
  {
    if c.NotAProduct? then Fail(InvalidProductType)
    else if o.products.None? then Fail(TypeErrorUndefinedProducts)
    else Pass
  }

  /** As written, no product can ever be added to a freshly constructed comparison. */
  lemma AddProductAsWrittenAlwaysThrows(product: seq<Product>, c: Candidate)
    ensures AddProductAsWritten(ConstructedAsWritten(product), c).Fail?
    ensures c.AProduct? ==> AddProductAsWritten(ConstructedAsWritten(product), c) == Fail(TypeErrorUndefinedProducts)
  {
  }

  /** The corrected class accepts the product a fresh comparison is given first. */
  method FirstAddSucceeds(p: Product) returns (pc: PriceComparison)
    ensures fresh(pc) && pc.Valid()
    ensures pc.products == [p] && pc.GetStores() == [p.store] && pc.GetProductByStore(p.store) == Some(p)
  {
    pc := new PriceComparison("pc", 0);
    var r := pc.AddProduct(AProduct(p));
    assert r == Pass;
  }
}
