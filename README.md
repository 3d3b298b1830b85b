# Client favourites: validation, listing through the product cache, repositories and DTOs

This Dafny project models the core of a small Laravel backend. The backend
keeps clients and each client's favourite products. Product data comes from
an external catalogue. The model covers:

- `ValidateProductsService`. It adds a favourite after a duplicate check
  and a catalogue request. It lists a client's favourites, reading each
  product from the shared product cache and asking the catalogue only on a
  miss. It also reads and deletes single favourites.
- `ClientFavoriteProductsRepository`. It is the favourites table
  `clients_favorites`, whose unique index is on (client_id, product_id).
- `ClientsRepository`. It is the clients table. Deleting a client first
  deletes the client's favourites.
- The response DTOs `ClientDTO`, `FavoriteProductDTO` and
  `ClientWithFavoritesDTO`.

Layout, one module per file:

| file | module | what it holds |
|---|---|---|
| `wrappers.dfy` | `Wrappers` | `Option` |
| `json.dfy` | `Json` | the decoded value (`json_decode($body, true)`), PHP truthiness, `??` and the `(array)` cast |
| `catalogue.dfy` | `Catalogue` | the Guzzle client as an oracle class (`ProductsApi`) with a ghost request log, and PHP `empty()` on a body |
| `cache.dfy` | `Caching` | `Cache::get` and `Cache::remember` on a `ProductCache` class |
| `favorites.dfy` | `Favorites` | the favourites table (`seq<Favorite>` in primary-key order), Eloquent `where` as `Filter`, and the repository class |
| `clients.dfy` | `Clients` | the clients table (`map` by key) and the repository class |
| `listing.dfy` | `Listing` | the listing loop of `showFavoriteProducts` as a left fold (`Step`, `Run`) and its properties |
| `service.dfy` | `Services` | the service class; its listing method is a `while` loop proved against `Listing.ResolveFavorites` |
| `dtos.dfy` | `Dtos` | the three DTOs; `ClientWithFavoritesDTO::toArray` is a loop, so it is a method |

Modelling choices:

- The service's calls that can throw (`ValidateProducts`,
  `ShowFavoriteProducts`) return an `Outcome` (`Returned(v)` or `Threw(e)`).
  Below the service, a throw is a plain value: `Store` returns `ok: bool`,
  false where the insert's unique-index violation would throw, and
  `ProductsApi.Get` returns the `Failed` response where Guzzle would throw.
- A catalogue request yields `Ok(body)` or `Failed`. Guzzle raises an
  exception on a transport error and, by default, on a 4xx or 5xx status;
  both are `Failed`.
- The catalogue's answers are a function `responses` fixed when the client
  is built. `client.requests` records every product id requested, so
  contracts can say when the catalogue is asked and when it is not.
- `json_decode` is the service's function parameter `decode`.
- The favourites table keeps two invariants, checked by `Valid()`: the
  unique index on the pair, and strictly increasing auto-increment keys.

## Behaviour worth knowing

The model follows the code in each case below.

- A failed catalogue request ends the whole listing. `showFavoriteProducts`
  has no `try`/`catch` around its loop (lines 67-92). So a request that
  throws for one product ends the call with that exception, and the
  products already resolved are not returned. A listing that isolated
  failures per product would instead skip that product and go on. Cache
  entries remembered earlier in the same listing stay.
- A duplicate key on insert is not turned into "already favourited".
  `validateProducts` checks the pair first (line 28) and then inserts
  (lines 48-51) without catching anything. If the insert broke the unique
  index, its exception would propagate unchanged (`Threw(DuplicateKey)`),
  not as `ProductAlreadyFavoritedException`. Without concurrency this
  cannot happen: `ValidateProducts` ensures `r != Threw(DuplicateKey)`.
- An empty catalogue body makes `validateProducts` return `false` (lines
  35-37), which the controller answers with 404 "Produto não encontrado".
  PHP's `empty()` also counts the body `"0"` as empty.
- The listing's cache test and `remember` disagree. The listing treats a
  cached value as a hit only when it is truthy (`if ($cachedProduct)`,
  line 73). `Cache::remember` stores only when the current value is null.
  So a cached falsy value that is not null (such as `[]`) is fetched from
  the catalogue on every listing and is never replaced
  (`Listing.FalsyEntryIsRefetched`).

## Model

| member | source | states |
|---|---|---|
| Favorites.Filter | app/Repositories/ClientFavoriteProductsRepository.php:16 | a `where` query never returns more rows than the table holds |
| Favorites.FilterMembers | app/Repositories/ClientFavoriteProductsRepository.php:14-34 | a row is in the result of a `where` query exactly when it is in the table and matches; the rows a `where(...)->delete()` leaves are exactly those in the table that do not match |
| Favorites.FilterAppend | app/Repositories/ClientFavoriteProductsRepository.php:16 | filtering commutes with concatenation: a result keeps the relative order the rows have in the model's table (primary-key order, see "Left out") |
| Favorites.FilterPartition | app/Repositories/ClientFavoriteProductsRepository.php:24-34 | the rows a `where` selects and the rows its `delete()` leaves together account for every row exactly once |
| Favorites.FilterKeepsTable | app/Repositories/ClientFavoriteProductsRepository.php:24-34 | a table left by a delete, and any query result, still satisfy the unique index and the key order |
| Favorites.PairMatchesAtMostOne | database/migrations/2025_11_20_192634_create_clients_favorites.php:18 | under the unique index a (client, product) pair matches at most one row, and exactly one when the pair is a favourite |
| Favorites.ClientFavoriteProductsRepository.Valid | database/migrations/2025_11_20_192634_create_clients_favorites.php:18 | at most one row per (client, product) pair, keys ascending and below the next key; established by the constructor and kept by every mutator (`Store`, `DeleteByClientId`, `DeleteByClientIdAndProductId` each ensure it) |
| Favorites.ClientFavoriteProductsRepository.Store | app/Repositories/ClientFavoriteProductsRepository.php:9-12 | the insert succeeds exactly when the pair is new; it appends a row under the next key and adds the pair, and a failed insert leaves the rows as they were |
| Favorites.ClientFavoriteProductsRepository.ShowFavoriteProducts | app/Repositories/ClientFavoriteProductsRepository.php:14-17 | returns exactly the client's rows, with no duplicate pair, in primary-key order (the order the model chooses for a query without `orderBy`, see "Left out") |
| Favorites.ClientFavoriteProductsRepository.CheckIfProductIsFavorite | app/Repositories/ClientFavoriteProductsRepository.php:19-22 | true exactly when the pair is a favourite |
| Favorites.ClientFavoriteProductsRepository.DeleteByClientId | app/Repositories/ClientFavoriteProductsRepository.php:24-27 | every row of the client goes and every other row stays, in order |
| Favorites.ClientFavoriteProductsRepository.DeleteByClientIdAndProductId | app/Repositories/ClientFavoriteProductsRepository.php:29-34 | returns true exactly when the pair was a favourite; afterwards the pair is gone and every other pair stays |
| Favorites.ClientFavoriteProductsRepository.GetByClientIdAndProductId | app/Repositories/ClientFavoriteProductsRepository.php:36-41 | returns the pair's row when the pair is a favourite, and null otherwise |
| Clients.Updated | app/Repositories/ClientsRepository.php:37 | the supplied fields are overwritten, absent ones and the key stay |
| Clients.UpdateIdempotent | app/Repositories/ClientsRepository.php:31-40 | applying the same update twice equals applying it once |
| Clients.EmptyUpdateIsIdentity | app/Repositories/ClientsRepository.php:37 | an update with no field leaves the client unchanged |
| Clients.ClientsRepository.CreateClient | app/Repositories/ClientsRepository.php:16-19 | the new client gets a key not in use, and only that key is added |
| Clients.ClientsRepository.GetAllClients | app/Repositories/ClientsRepository.php:21-24 | returns exactly the clients in the table |
| Clients.ClientsRepository.GetClient | app/Repositories/ClientsRepository.php:26-29 | null exactly when the key is missing, otherwise that client |
| Clients.ClientsRepository.UpdateClient | app/Repositories/ClientsRepository.php:31-40 | null and no change for a missing key; otherwise only that client is replaced by its update, which is returned |
| Clients.ClientsRepository.DeleteClient | app/Repositories/ClientsRepository.php:42-53 | null and no change to either table for a missing key; otherwise the client and all of its favourites go, other clients' favourites stay, and the deleted client is returned; the favourites' next key never changes |
| Caching.Remembered | app/Services/ValidateProductsService.php:42-44 | `remember` writes only a key holding null and leaves every other key alone |
| Caching.RememberIdempotent | app/Services/ValidateProductsService.php:87-89 | remembering again under a key that holds a non-null value changes nothing |
| Caching.ProductCache.Get | app/Services/ValidateProductsService.php:70 | the value under the key, or null when absent |
| Caching.ProductCache.Remember | app/Services/ValidateProductsService.php:87-89 | the cache becomes `Remembered` of the old cache |
| Caching.Lookup | app/Services/ValidateProductsService.php:70 | `Cache::get`: the entry under the product's key, or null when there is none |
| Caching.ProductCache.Forget | app/Services/ValidateProductsService.php:87 | the entry's time to live (`$this->cacheTime`) runs out: it is gone and reads as null; no other key changes |
| Catalogue.ProductsApi.Get | app/Services/ValidateProductsService.php:79-80 | returns the catalogue's answer for the id and logs exactly one request |
| Json.Truthy | app/Services/ValidateProductsService.php:73 | PHP truthiness as `if ($cachedProduct)` tests it: false for null, `false`, 0, 0.0, `""`, `"0"` and empty arrays, true otherwise |
| Catalogue.EmptyBody | app/Services/ValidateProductsService.php:35 | `empty($productData)` on a body string: true exactly for `""` and `"0"` (also used at line 82) |
| Listing.Step | app/Services/ValidateProductsService.php:69-91 | one turn of the listing loop: a truthy cache entry is appended; otherwise the catalogue is asked; a throw stops the loop; an empty body skips the product; a non-empty one is decoded, remembered and appended |
| Listing.Run | app/Services/ValidateProductsService.php:67-92 | the listing loop over a list of ids, one `Step` per id in order |
| Listing.ResolveFavorites | app/Services/ValidateProductsService.php:65-94 | the whole listing: `Run` from an empty result, no requests, and the cache as it is when the call starts |
| Listing.StepRequestsOnlyOnMiss | app/Services/ValidateProductsService.php:70-84 | the catalogue is asked for a product exactly when the cache holds no truthy value for it; a hit only appends the cached value; on a miss a throw stops the loop and appends nothing, and an empty body skips the product, leaving products and cache as they were |
| Listing.ForgottenEntryIsRequested | app/Services/ValidateProductsService.php:70-79 | once a cache entry has expired, the next listing turn for that product asks the catalogue again |
| Listing.RunOnlyAppends | app/Services/ValidateProductsService.php:67-92 | the loop only appends, at most one product and one request per id, and after a throw nothing changes |
| Listing.RunAppend | app/Services/ValidateProductsService.php:67-92 | running over `a + b` equals running over `a` and then over `b`, so results and requests follow the order of the ids |
| Listing.RunNeverOverwrites | app/Services/ValidateProductsService.php:87-89 | the listing never overwrites a non-null cache entry and writes no key outside the listed ids |
| Listing.RunAllHits | app/Services/ValidateProductsService.php:70-76 | when every id has a truthy entry, no request is made, the cache is unchanged, and the entries are returned in id order |
| Listing.FalsyEntryIsRefetched | app/Services/ValidateProductsService.php:73 | a falsy non-null cache entry causes a request every time and is never replaced |
| Listing.RunFromCacheOrCatalogue | app/Services/ValidateProductsService.php:67-92 | every cache entry and every product stays traceable to the starting cache or to a catalogue answer for a listed id |
| Listing.ResolvedFromCacheOrCatalogue | app/Services/ValidateProductsService.php:67-92 | every listed product is the starting cache's entry or the decoded catalogue answer for one of the ids |
| Listing.RunSkipsNothing | app/Services/ValidateProductsService.php:79-91 | when the catalogue answers every id with a non-empty body, there is no throw and one product per id |
| Listing.RunFillsCache | app/Services/ValidateProductsService.php:67-92 | when the catalogue has every product and no entry is falsy and non-null, every id ends up holding a truthy entry |
| Listing.RunReadsBackCache | app/Services/ValidateProductsService.php:67-92 | under the same conditions, the appended products are the final cache entries in id order |
| Listing.SecondListingIsServedFromCache | app/Services/ValidateProductsService.php:70-76 | under the same conditions as `RunFillsCache` (the catalogue answers every id with a non-empty body that decodes to a truthy value, and no cached entry for the ids is falsy and non-null), the first listing does not throw, and listing the same favourites again makes no request and returns the same products with the same cache |
| Services.ProductIds | app/Services/ValidateProductsService.php:68 | one product id per favourite row, in row order |
| Services.ValidateProductsService.ValidateProducts | app/Services/ValidateProductsService.php:25-54 | an existing favourite throws before any request and changes nothing; otherwise exactly one request is made; a throw or an empty body changes nothing; a non-empty body is remembered, the pair is stored under the next key, and true is returned |
| Services.ValidateProductsService.ShowFavoriteProducts | app/Services/ValidateProductsService.php:56-95 | the cache, the requests and the result are those of `ResolveFavorites` over the client's product ids in row order; a throw ends the listing; no favourites means no request and an empty result |
| Services.ValidateProductsService.ResolveProduct | app/Services/ValidateProductsService.php:69-91 | one turn of the loop does exactly what `Listing.Step` says |
| Services.ValidateProductsService.GetFavoriteProduct | app/Services/ValidateProductsService.php:97-100 | the pair's row exactly when the pair is a favourite |
| Services.ValidateProductsService.DeleteFavoriteProduct | app/Services/ValidateProductsService.php:102-105 | true exactly when the pair was a favourite; only that pair goes; the next key and the cache are left alone |
| Dtos.ClientDto.ToArray | app/DTOs/ClientDTO.php:14-21 | keys `id`, `nome` and `email` only, holding the client's key, name and email |
| Dtos.ClientArrayDeterminesClient | app/DTOs/ClientDTO.php:14-21 | different clients give different arrays |
| Json.Coalesce | app/DTOs/FavoriteProductDTO.php:15-19 | `$product[$key] ?? null`: the field's value, or null when the key is missing |
| Json.AsArray | app/DTOs/ClientWithFavoritesDTO.php:18 | `is_array($product) ? $product : (array) $product`, as far as the string keys the DTO reads are concerned: an object's fields, and nothing for a list or a scalar |
| Dtos.FavoriteProductDto.ToArray | app/DTOs/FavoriteProductDTO.php:12-21 | exactly the five response keys; each holds the renamed catalogue field, or null when that field is missing; no value is invented |
| Dtos.ProductArrayIgnoresOtherFields | app/DTOs/FavoriteProductDTO.php:14-20 | catalogue fields other than the five renamed ones do not reach the response |
| Dtos.ClientWithFavoritesDto.ToArray | app/DTOs/ClientWithFavoritesDTO.php:13-26 | keys `cliente` and `produtos_favoritos`; the client's array, and one reshaped product per favourite, in order |

## Left out

- Time and cache expiry: the TTL (`cache_time`) is not modelled. Expiry is `ProductCache.Forget`, which a caller may apply at any point. A non-positive TTL, for which Laravel stores nothing, is not modelled.
- Cache keys: the key string `'product_' . $productId` is modelled by the product id. The prefix is the same for every key.
- `json_decode`: it is the function parameter `decode`, so any decoding, including null for invalid JSON, is covered but not computed.
- Catalogue transport: the URL, headers and status codes are not modelled. Every Guzzle exception is the single `Failed` response.
- Concurrency: the race between the duplicate check and the insert is not modelled. The model is sequential.
- Foreign key: the `client_id` foreign key to `clients` is not checked by `Favorites.ClientFavoriteProductsRepository.Store`, and the clients table does not constrain the favourites table.
- Timestamps: the `created_at` and `updated_at` columns are not modelled, and neither are client attributes other than name and email.
- Favorites.ClientFavoriteProductsRepository.ShowFavoriteProducts: the query has no `orderBy`, so the database chooses the order of the rows (it may, for example, read them off the unique index in product order). The model returns them in primary-key order, one order a database may use. The order of the listing in `Services.ValidateProductsService.ShowFavoriteProducts` follows it.
- Clients.ClientsRepository.GetAllClients: returns a set, so the order of `Client::all()` is not modelled.
- Dtos.FavoriteProductDto.ToArray: the result is a map, so the key order of the PHP array, and so of the JSON, is not modelled. The same holds for `Dtos.ClientDto.ToArray` and `Dtos.ClientWithFavoritesDto.ToArray`.
- Ids as strings: the PHP signatures take ids as strings, which the database compares as numbers. The model uses `int` ids and so assumes canonical decimal ids. `validateProducts` builds the cache key and the URL from the id string as the caller passed it (lines 32 and 42), while the listing builds them from the stored integer (lines 68, 70, 87). For an id such as `"+42"` or `" 42"`, which the `integer` validation rule accepts, the add path remembers under `product_+42` and the listing misses that entry. The model does not capture this.
- Favorites.ClientFavoriteProductsRepository.Store: what a rejected insert does to the auto-increment counter depends on the database engine (MySQL InnoDB and PostgreSQL may use up the value, SQLite does not), so the contract leaves `nextId` free after a failed insert and promises only that the rows are unchanged.
- Row shape: `showFavoriteProducts` accepts a favourite row given either as an array or as an object (source line 68). Both give the same `product_id`, so rows are modelled as one `Favorite` datatype.
- `(array)` cast: `Json.AsArray` keeps only string-keyed fields. A list or scalar cast to an array has integer keys only, which the DTO never reads.
- Prices: prices are floats in PHP and are kept as opaque reals. No floating-point arithmetic is modelled.
- Exception rendering: the HTTP response for `ProductAlreadyFavoritedException` belongs to the controllers and is not part of this model.
