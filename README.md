# smart_cart price comparison — a Dafny model

This project models the client-side data layer of the smart-cart price
comparison tool (`smart-cart-vite/src`):

- **Product** (`product.dfy`, module `Products`): a grocery listing built once
  from a loosely typed record. JavaScript's `||` replaces every falsy value
  (missing key, `""`, `0`) with a default. The model also covers unit price,
  discount percentage, on-sale and validity tests, and the `toJSON` copy.
- **Store** (`store.dfy`, module `Stores`): a store's configuration with its
  defaults. It derives the API configuration (endpoint plus bearer and JSON
  headers) and a redacted public view.
- **PriceComparison** (`price_comparison.dfy`, module `PriceComparisons`): the
  aggregate of listings for one logical item, at most one per store. It is a
  class holding an ordered `products` list and a store-to-product map. The
  map's key order is kept as a sequence, because a JavaScript `Map` iterates in
  first-insertion order. The queries cover store lookups, price statistics,
  cheapest and dearest listing, potential savings, a sorted copy, the per-store
  breakdown and the summary.
- **Array built-ins** (`array_builtins.dfy`, module `ArrayBuiltins`): the
  JavaScript `Array.prototype.sort` the comparison relies on (stable, with a
  numeric comparator), `reduce` as a first-wins search for an extreme, and
  `reduce` as a sum.
- **BaseAPIService cache** (`base_api_service.dfy`, module `ApiServices`): the
  fields copied from a Store, and the in-memory cache that serves an entry for
  five minutes (300000 ms) after it was stored.

Prices and quantities are Dafny `real`s: exact rationals, not IEEE doubles.
`Math.round(x)` is `(x + 0.5).Floor`. A missing key of an input record is
`None`. `Product` and `Store` are subset types of their field records. They
admit exactly the values the constructors can produce (predicate `Normalized`).
For example, `originalPrice` is 0 only when `price` is 0. That is why
`DiscountPercentage` never divides by zero, and why rebuilding a product from
its own JSON gives back the same product.

The JavaScript clock, `Math.random` and the fetch function are parameters:
- `NewProduct` takes the `now` that `new Date()` would read.
- `PriceComparison`'s constructor takes the generated id and the creation time.
- `GetCachedOrFetch` takes the clock reading at lookup, the outcome the fetch
  would settle with (a value, or the error it rejects with) and the clock
  reading after the fetch. Its `didFetch` result says whether the fetch ran.

## Model

| member | source | states |
|---|---|---|
| `Wrappers.OrString` | smart-cart-vite/src/models/Product.js:8 | `x \|\| d` on an optional string keeps a given non-empty string and otherwise gives the default `d`; it is "" only when the default is "" |
| `Products.OrNull` | smart-cart-vite/src/models/Product.js:7 | `x \|\| null` keeps a given non-empty string and otherwise gives `null`; it never gives the empty string |
| `Products.OrNumber` | smart-cart-vite/src/models/Product.js:10-11 | `x \|\| d` on an optional number keeps a given non-zero number and otherwise gives the default `d`; it is 0 only when the default is 0 |
| `Products.NewProduct` | smart-cart-vite/src/models/Product.js:6-22 | A price defaults to 0. `originalPrice` falls back to the price. Quantity 1 and unit `each` replace missing or falsy values. `inStock` is true unless an explicit `false` is given. A missing `lastUpdated` takes the clock. Every result is a well-formed product. Name, brand, store, storeId and category are the given non-empty string, else "". id, imageUrl, upc and sku are the given non-empty string, else null. |
| `Products.EmptyDataDefaults` | smart-cart-vite/src/models/Product.js:6-22 | From `{}` the constructor builds price 0, quantity 1, unit `each`, in stock, empty name and store, no id, stamped now. Its unit price is its price. |
| `Products.PricePerUnit` | smart-cart-vite/src/models/Product.js:24-26 | For a positive quantity the unit price times the quantity is the price. For a negative quantity the unit price is the price. |
| `Products.Round` | smart-cart-vite/src/models/Product.js:30 | `Math.round` gives the integer within half of x, with halves going up. |
| `Products.DiscountPercentage` | smart-cart-vite/src/models/Product.js:28-31 | The result is 0 when the product is not on sale. On sale, it is the nearest whole percentage of the original price saved. With a non-negative price it lies in 0..100. |
| `Products.IsOnSale` | smart-cart-vite/src/models/Product.js:33-35 | On sale means the original price exceeds the price; an on-sale product with a non-negative price has a positive original price |
| `Products.NewProductNotOnSale` | smart-cart-vite/src/models/Product.js:10-11 | A product built without `originalPrice` is not on sale and has discount 0. |
| `Products.NewProductValidity` | smart-cart-vite/src/models/Product.js:37-39 | A product built from a record is valid iff the record gives a non-empty name, a non-empty store and no negative price. |
| `Products.IsValid` | smart-cart-vite/src/models/Product.js:37-39 | Valid means a non-empty name, a non-negative price and a non-empty store |
| `Products.ToJSON` | smart-cart-vite/src/models/Product.js:41-43 | All fifteen fields appear under their own keys with their values unchanged: id, name, brand, price, originalPrice, store, storeId, imageUrl, unit, quantity, inStock, category, upc, sku and lastUpdated. A null id, image, UPC or SKU stays null |
| `Products.RebuildFromJSON` | smart-cart-vite/src/models/Product.js:41-43 | The constructor applied to a product's JSON gives back the same product, whatever the clock. |
| `Stores.NewStore` | smart-cart-vite/src/models/Store.js:6-16 | id, name, apiEndpoint, apiKey and logoUrl are the given non-empty string, else "". `displayName` falls back to `name`, then to "". It is "" only when both are missing or empty. Colour defaults to `#666` and icon to `icon-store`. `isActive` is true unless an explicit `false` is given |
| `Stores.EmptyDataDefaults` | smart-cart-vite/src/models/Store.js:6-16 | From `{}` the strings are empty, colour is `#666`, icon is `icon-store` and the store is active. |
| `Stores.GetAPIConfig` | smart-cart-vite/src/models/Store.js:18-26 | The endpoint is the store's `apiEndpoint`. There are exactly two headers: `Content-Type: application/json`, and `Authorization`, which is `Bearer ` followed by exactly the API key. |
| `Stores.ToJSON` | smart-cart-vite/src/models/Store.js:28-37 | The public view holds id, name, display name, colour, icon and active flag. It never holds `apiKey`, `apiEndpoint` or `logoUrl`. |
| `Stores.RebuildFromJSON` | smart-cart-vite/src/models/Store.js:28-37 | Rebuilding a store from its public view keeps every public field and blanks exactly the three redacted ones. |
| `ArrayBuiltins.SortBy` | smart-cart-vite/src/models/PriceComparison.js:169-173 | The sorted copy is a permutation of its input, ordered by key: non-decreasing, or non-increasing when descending. |
| `ArrayBuiltins.SortByIsStable` | smart-cart-vite/src/models/PriceComparison.js:169-173 | For every price, the elements carrying that price appear in the sorted copy in their original order. |
| `ArrayBuiltins.StableSortIsUnique` | smart-cart-vite/src/models/PriceComparison.js:169-173 | Two stably sorted permutations of the same list are equal. So any stable sort returns what `SortBy` returns. |
| `ArrayBuiltins.ReduceFromFindsEarliestExtreme` | smart-cart-vite/src/models/PriceComparison.js:150-152 | A reduce that replaces the accumulator only on a strict improvement ends on an element nothing beats. Every element before it is strictly worse. |
| `ArrayBuiltins.ExtremeIndex` | smart-cart-vite/src/models/PriceComparison.js:148-160 | On a non-empty list, the reduce lands on the first index of the extreme price. |
| `ArrayBuiltins.ReduceFrom` | smart-cart-vite/src/models/PriceComparison.js:150-152 | The `reduce` callback as a fold over indices: from a valid best index it ends on a valid index; `ReduceFromFindsEarliestExtreme` states which one |
| `ArrayBuiltins.Sum` | smart-cart-vite/src/models/PriceComparison.js:84 | `reduce((acc, price) => acc + price, 0)`: 0 for no prices, else the first price plus the sum of the rest; `SumSortBy` and `SumBounds` state its properties |
| `ArrayBuiltins.SumSortBy` | smart-cart-vite/src/models/PriceComparison.js:83-84 | Summing the sorted prices gives the sum of the prices in list order. |
| `ArrayBuiltins.SumBounds` | smart-cart-vite/src/models/PriceComparison.js:84 | The sum of n values within [lo, hi] lies within [n·lo, n·hi]. |
| `PriceComparisons.FindIndex` | smart-cart-vite/src/models/PriceComparison.js:26 | The result is -1 iff no product is from the store. Otherwise it is the first index of a product from that store. |
| `PriceComparisons.Prices` | smart-cart-vite/src/models/PriceComparison.js:83 | `products.map(p => p.price)`: one price per product, in list order |
| `PriceComparisons.Upserted` | smart-cart-vite/src/models/PriceComparison.js:26-34 | The upserted list contains the added product. Its length is unchanged when the store was listed and one more otherwise |
| `PriceComparisons.UpsertedKeepsOneProductPerStore` | smart-cart-vite/src/models/PriceComparison.js:26-34 | For a store already listed, the product is overwritten at its index, so the length and the store order are unchanged. For a new store, the product is appended at the end. Stores stay pairwise distinct. |
| `PriceComparisons.UpsertKeepsConsistent` | smart-cart-vite/src/models/PriceComparison.js:26-37 | Upserting a product into the list and setting it in the map keeps the two consistent: the key order is the list's store order without repeats, the map's keys are the listed stores, and each listed product is its store's entry. |
| `PriceComparisons.UpsertKeepsKeys` | smart-cart-vite/src/models/PriceComparison.js:37 | After `set`, the map's keys are the old key order, extended by the store only when it was new. |
| `PriceComparisons.UpsertKeepsEntries` | smart-cart-vite/src/models/PriceComparison.js:26-37 | Every product of the upserted list is the map entry of its store, provided the old list had one product per store. |
| `PriceComparisons.StatsOf` | smart-cart-vite/src/models/PriceComparison.js:72-96 | All five statistics are zero for no prices. Otherwise: min and max are the smallest and largest price; range = max − min ≥ 0; average = sum/count; min ≤ average ≤ max and min ≤ median ≤ max; at most half the prices lie strictly below the median and at most half strictly above; for an odd count the median is a price. The statistics are exactly those read off any ascending copy of the prices (`SortedStats`), so for an even count the median is the mean of the two middle prices. |
| `PriceComparisons.SortedStats` | smart-cart-vite/src/models/PriceComparison.js:85-95 | Read off an ascending list: min is its first value, max its last, range their difference, average times the count is the sum; the median is the middle value for an odd count and half the sum of the two middle values for an even one |
| `PriceComparisons.AscendingCopyIsUnique` | smart-cart-vite/src/models/PriceComparison.js:83 | Two ascending lists holding the same values are equal, so however the prices are sorted the result is the same list |
| `PriceComparisons.AscendingCopiesAgree` | smart-cart-vite/src/models/PriceComparison.js:83-95 | Every ascending copy of the prices gives the same statistics as the ascending copy `SortBy` builds |
| `PriceComparisons.AscendingPriceCopy` | smart-cart-vite/src/models/PriceComparison.js:83 | The ascending copy of the prices is a permutation of them, in order, with the same sum and the same number of values below and above any bound. |
| `PriceComparisons.SortedStatsFacts` | smart-cart-vite/src/models/PriceComparison.js:84-95 | Read off any ascending permutation of the prices, the first and last values are the least and greatest price, the mean lies between them, and so does the median, with at most half the prices strictly on either side. |
| `PriceComparisons.StatsOfListing` | smart-cart-vite/src/models/PriceComparison.js:72-96 | The statistics of the listed prices are zero for an empty list; otherwise min and max are prices of listed products and bound every listed price. |
| `PriceComparisons.MedianCounts` | smart-cart-vite/src/models/PriceComparison.js:85-93 | For a list in ascending order, the middle element (or the mean of the two middle elements) has at most half the values strictly below it and at most half strictly above. |
| `PriceComparisons.EntryFor` | smart-cart-vite/src/models/PriceComparison.js:132-142 | A breakdown row carries the product's price, stock flag, sale flag (`IsOnSale`) and discount percentage (`DiscountPercentage`), and its difference from the cheapest price. Its percentage above the cheapest is 0 unless the cheapest price is positive; otherwise it is that difference as a percentage of the cheapest price |
| `PriceComparisons.BreakdownRows` | smart-cart-vite/src/models/PriceComparison.js:131-143 | Iterating the stores in key order yields exactly one row per store, each that store's row against the cheapest price. |
| `PriceComparisons.PriceComparison.constructor` | smart-cart-vite/src/models/PriceComparison.js:8-14 | A new comparison has no products, no stores and an empty map. It keeps the supplied id and creation time. |
| `PriceComparisons.PriceComparison.AddProduct` | smart-cart-vite/src/models/PriceComparison.js:20-38 | A non-product fails with `Invalid product type` and changes nothing. A product is upserted into the list and set in the map. Afterwards its store maps to it, `HasStore` holds and the price lookup gives its price. Every other store's lookup is unchanged. Its store joins the key order only if new. The list/map consistency is kept. |
| `PriceComparisons.PriceComparison.GetProductByStore` | smart-cart-vite/src/models/PriceComparison.js:43-45 | The result is present iff some listed product is from that store, and then it is that product. |
| `PriceComparisons.PriceComparison.GetPriceByStore` | smart-cart-vite/src/models/PriceComparison.js:50-53 | The result is present iff the store is present, and then it is the price of that store's listed product. |
| `PriceComparisons.PriceComparison.HasStore` | smart-cart-vite/src/models/PriceComparison.js:58-60 | Map membership holds iff some listed product is from that store. |
| `PriceComparisons.PriceComparison.GetStores` | smart-cart-vite/src/models/PriceComparison.js:65-67 | The map's key order equals the stores of the list, in list order and without repeats. Its length is the product count and the map size. |
| `PriceComparisons.PriceComparison.StoreCount` | smart-cart-vite/src/models/PriceComparison.js:108 | The map size equals the number of listed products. |
| `PriceComparisons.PriceComparison.GetPriceStats` | smart-cart-vite/src/models/PriceComparison.js:72-96 | The result is zero for an empty comparison. Otherwise it gives the statistics of the listed prices; min and max are attained by listed products and bound every price. The statistics are exactly those read off any ascending copy of the listed prices, so an even count gives the mean of the two middle prices as median. |
| `PriceComparisons.PriceComparison.GetCheapestProduct` | smart-cart-vite/src/models/PriceComparison.js:148-153 | The result is absent iff there are no products. Otherwise it is a listed product whose price is ≤ every price, and every earlier product is strictly dearer (the first cheapest). |
| `PriceComparisons.PriceComparison.GetMostExpensiveProduct` | smart-cart-vite/src/models/PriceComparison.js:155-160 | The result is absent iff there are no products. Otherwise it is a listed product whose price is ≥ every price, and every earlier product is strictly cheaper (the first dearest). |
| `PriceComparisons.PriceComparison.CheapestIsStatsMin` | smart-cart-vite/src/models/PriceComparison.js:148-153 | The price of the cheapest product equals the `min` of the price statistics. |
| `PriceComparisons.PriceComparison.DearestIsStatsMax` | smart-cart-vite/src/models/PriceComparison.js:155-160 | The price of the dearest product equals the `max` of the price statistics. |
| `PriceComparisons.PriceComparison.GetPotentialSavings` | smart-cart-vite/src/models/PriceComparison.js:162-167 | The result is ≥ 0 and equals the range of the price statistics. It is 0 with at most one product. |
| `PriceComparisons.PriceComparison.GetProductsSortedByPrice` | smart-cart-vite/src/models/PriceComparison.js:169-173 | The result is a permutation of the list, sorted by price in the requested direction. It is stable: equal prices keep their list order. The direction defaults to ascending. |
| `PriceComparisons.PriceComparison.CheapestPrice` | smart-cart-vite/src/models/PriceComparison.js:129 | `getCheapestProduct()?.price \|\| 0` is 0 when there are no products. Otherwise it is the cheapest product's price, which is the `min` of the price statistics and ≤ every listed price |
| `PriceComparisons.PriceComparison.EntriesCostAtLeastCheapest` | smart-cart-vite/src/models/PriceComparison.js:138 | Every product in the map costs at least the cheapest price. |
| `PriceComparisons.PriceComparison.GetStoreBreakdown` | smart-cart-vite/src/models/PriceComparison.js:127-146 | There is one row per store in the map, namely that store's product's row against the cheapest price. Every `differenceFromBest` is ≥ 0. `percentageAboveBest` is 0 when the cheapest price is not positive. |
| `PriceComparisons.PriceComparison.GetComparisonSummary` | smart-cart-vite/src/models/PriceComparison.js:101-122 | The product name comes from the first product, `Unknown Product` when there is none or it is unnamed. The store count is the product count. The best deal is the cheapest product's store and price with the potential savings. The worst deal is the dearest product's store and price. Both are null iff empty. The breakdown is `GetStoreBreakdown`'s. |
| `PriceComparisons.ConstructedAsWritten` | smart-cart-vite/src/models/PriceComparison.js:8-12 | As written, the constructor stores its argument under `product` and an empty map under `storePrices`, and leaves `products` and `storePriceMap` undefined |
| `PriceComparisons.AddProductAsWrittenAlwaysThrows` | smart-cart-vite/src/models/PriceComparison.js:8-26 | As written, adding anything to a freshly constructed comparison throws; a real product fails with the TypeError raised at `this.products.findIndex` |
| `PriceComparisons.AddProductAsWritten` | smart-cart-vite/src/models/PriceComparison.js:20-26 | As written, a non-product fails with `Invalid product type`; a product reaches the update iff `products` is defined, and otherwise fails with the TypeError of reading `findIndex` of undefined |
| `PriceComparisons.FirstAddSucceeds` | smart-cart-vite/src/models/PriceComparison.js:20-38 | With the intended fields, the first product added to a new comparison is accepted. It becomes the only product, its store is the only store, and looking the store up gives it back. |
| `ApiServices.BaseAPIService.constructor` | smart-cart-vite/src/services/api/BaseAPIService.js:11-16 | The base URL is the store's endpoint. The headers are the store's API-config headers. The API key is the store's, or null when empty. The TTL is 300000 ms. The cache starts empty. |
| `ApiServices.BaseAPIService.IsHit` | smart-cart-vite/src/services/api/BaseAPIService.js:52-54 | A lookup is a hit iff the key has an entry whose age at the lookup is below the TTL |
| `ApiServices.BaseAPIService.GetCachedOrFetch` | smart-cart-vite/src/services/api/BaseAPIService.js:51-68 | The fetch runs iff there is no entry or the entry is at least 300000 ms old (exactly 300000 is a miss). A hit returns the stored data and leaves the cache unchanged. A miss returns the fetch's outcome. A fetched value is stored, stamped with the time after the fetch; a rejected fetch stores nothing. Other keys are unchanged and no key is removed |
| `ApiServices.BaseAPIService.ClearCache` | smart-cart-vite/src/services/api/BaseAPIService.js:70-72 | The cache is empty, so every later lookup of any key at any time is a miss. |
| `ApiServices.LookupTwice` | smart-cart-vite/src/services/api/BaseAPIService.js:54-65 | For a key not cached, the first call fetches and returns the fetched value. A second call within the TTL of the first fetch's completion returns the same data without fetching. A later one fetches again |
| `ApiServices.RetryAfterFailure` | smart-cart-vite/src/services/api/BaseAPIService.js:60-65 | When the first fetch of an uncached key rejects, its error reaches the caller, and the next lookup of that key fetches again and returns that fetch's outcome |

## Findings

| source | as written | input that shows it | evidently intended | confidence | as-written member | corrected member |
|---|---|---|---|---|---|---|
| smart-cart-vite/src/models/PriceComparison.js:8-10 | The constructor assigns `this.product` and `this.storePrices`. `addProduct` and all queries read `this.products` and `this.storePriceMap`, which are never assigned. So `addProduct` throws a TypeError at `this.products.findIndex`. | `new PriceComparison().addProduct(new Product({ name: 'Milk', price: 3, store: 'A' }))` | One ordered `products` list and one store-to-product `storePriceMap`, both empty after construction and kept consistent by `addProduct` | not executed | `PriceComparisons.AddProductAsWrittenAlwaysThrows` | `PriceComparisons.FirstAddSucceeds` |

## Left out

- `makeRequest` (BaseAPIService.js:27-49) is not modelled. It is a network `fetch` with HTTP status handling, JSON parsing and error logging.
- The abstract-class mechanics are not modelled: the `new.target` check and the throwing stubs `searchProducts`, `getProductById` and `transformToProduct`. They hold no logic.
- `async`/`await` is not modelled: `getCachedOrFetch` is taken as sequential. Concurrent overlapping misses are outside the model.
- The `console.log` and `console.error` messages are left out.
- `generateId` (`Math.random`) is not modelled. The comparison's id and `createdAt` are constructor parameters.
- `Product.lastUpdated`'s `new Date()` is not modelled. It is the `now` parameter of `NewProduct`.
- The `toFixed` strings are left out. These are `priceFormatted`, `priceRange`, `averagePrice`, and the one-decimal rendering of `percentageAboveBest`. `BreakdownEntry` and `Summary` hold only the numeric and boolean fields, and `percentageAboveBest` is the unrounded real.
- `PriceComparisons.PriceComparison.GetStoreBreakdown` returns a Dafny `map`. The iteration order of the JavaScript object it builds is not modelled.
- `PriceComparison.toJSON` is not modelled. It only bundles the id, the timestamp, each product's `toJSON` and the summary, which this model holds without its strings.
- The constructor argument `product` of `PriceComparison` seeds nothing. Only `ConstructedAsWritten` keeps it; the corrected class does not take it.
- IEEE floating point is not modelled: prices are exact reals, with no NaN, no Infinity and no rounding error.
- `Products.DiscountPercentage` is total only over products the constructor can build. With `originalPrice` 0 and a negative price, JavaScript divides by zero (Infinity). The subset type `Product` excludes that state, since no constructed product has it.
- Fields are typed. `id`, `upc`, `sku` and `imageUrl` are strings or null. A JavaScript caller could pass a number or another type, which `||` would keep. `isValid` is a boolean rather than the truthy operand JavaScript returns.
- `Stores.NewStore`: `isActive: null` in an input record is not modelled. Store.js:15 keeps `null` (falsy) because it is not `undefined`; the model's `Option<bool>` treats it as absent and gives `true`.
- `inStock: null` in an input record is not modelled. JavaScript keeps it as `null` because it is not `undefined`; the model's `Option<bool>` treats it as absent.
