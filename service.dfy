/**
 * ValidateProductsService: adds a favourite after checking it against the
 * catalogue, and lists a client's favourite products through the product
 * cache, fetching from the catalogue only on a cache miss.
 */
module Services {
  import opened Wrappers
  import opened Json
  import opened Catalogue
  import opened Caching
  import opened Favorites
  import opened Listing

  /** What can be thrown out of the service. */
  datatype Exception =
    | ProductAlreadyFavorited  // ProductAlreadyFavoritedException, thrown by validateProducts
    | DuplicateKey             // the insert's unique-index violation, passed on unconverted
    | RequestFailed            // a Guzzle exception from a catalogue request

  /** A call either returns a value or throws. */
  datatype Outcome<T> = Returned(value: T) | Threw(error: Exception)

  /** The product ids of favourite rows, in row order. */
  function ProductIds(rows: seq<Favorite>): (ids: seq<int>)
    ensures |ids| == |rows|
    ensures forall i :: 0 <= i < |rows| ==> ids[i] == rows[i].productId
  {
    seq(|rows|, i requires 0 <= i < |rows| => rows[i].productId)
  }

  class ValidateProductsService {
    /** The Guzzle client pointed at the catalogue. */
    const client: ProductsApi
    const productsRepository: ClientFavoriteProductsRepository
    /** The cache store behind the `Cache` facade. */
    const cache: ProductCache
    /** `json_decode($body, true)`. */
    const decode: string -> Value

    ghost predicate Valid()
      reads this, productsRepository
    {
      productsRepository.Valid()
    }

    constructor (client: ProductsApi, productsRepository: ClientFavoriteProductsRepository,
                 cache: ProductCache, decode: string -> Value)
      requires productsRepository.Valid()
      ensures Valid()
      ensures this.client == client && this.productsRepository == productsRepository
      ensures this.cache == cache && this.decode == decode
    {
      this.client := client;
      this.productsRepository := productsRepository;
      this.cache := cache;
      this.decode := decode;
    }

    /**
     * `validateProducts($productId, $clientId)`: rejects a favourite that
     * already exists before asking the catalogue; returns false when the
     * catalogue's body is empty; otherwise remembers the product in the
     * cache, stores the favourite and returns true.
     */
    method ValidateProducts(productId: int, clientId: int) returns (r: Outcome<bool>)
      requires Valid()
      modifies client, cache, productsRepository
      ensures Valid()
      ensures (clientId, productId) in old(productsRepository.Pairs()) ==>
        && r == Threw(ProductAlreadyFavorited)
        && client.requests == old(client.requests)
        && unchanged(cache, productsRepository)
      ensures (clientId, productId) !in old(productsRepository.Pairs()) ==>
        client.requests == old(client.requests) + [productId]
      ensures (clientId, productId) !in old(productsRepository.Pairs()) && client.responses(productId).Failed? ==>
        r == Threw(RequestFailed) && unchanged(cache, productsRepository)
      ensures (clientId, productId) !in old(productsRepository.Pairs()) && client.responses(productId).Ok?
              && EmptyBody(client.responses(productId).body) ==>
        r == Returned(false) && unchanged(cache, productsRepository)
      ensures (clientId, productId) !in old(productsRepository.Pairs()) && client.responses(productId).Ok?
              && !EmptyBody(client.responses(productId).body) ==>
        && r == Returned(true)
        && cache.entries == Remembered(old(cache.entries), productId, decode(client.responses(productId).body))
        && productsRepository.rows == old(productsRepository.rows) + [Favorite(old(productsRepository.nextId), clientId, productId)]
        && productsRepository.Pairs() == old(productsRepository.Pairs()) + {(clientId, productId)}
      ensures r != Threw(DuplicateKey)
    {
      var isFavorite := productsRepository.CheckIfProductIsFavorite(clientId, productId);
      if isFavorite {
        return Threw(ProductAlreadyFavorited);
      }

      var response := client.Get(productId);
      if response.Failed? {
        return Threw(RequestFailed);
      }
      var productData := response.body;
      if EmptyBody(productData) {
        return Returned(false);
      }

      cache.Remember(productId, decode(productData));

      var stored := productsRepository.Store(clientId, productId);
      r := if stored then Returned(true) else Threw(DuplicateKey);
    }

    /**
     * `showFavoriteProducts($clientId)`: the client's favourite products,
     * in the order of the client's rows, each read from the cache or, on a
     * miss, from the catalogue. A request that throws ends the call; the
     * cache keeps what was remembered before it.
     */
    method ShowFavoriteProducts(clientId: int) returns (r: Outcome<seq<Value>>)
      requires Valid()
      modifies client, cache
      ensures Valid()
      ensures var ids := ProductIds(Filter(productsRepository.rows, ClientIs(clientId), true));
              var resolution := ResolveFavorites(ids, old(cache.entries), client.responses, decode);
              && cache.entries == resolution.cache
              && client.requests == old(client.requests) + resolution.requested
              && r == if resolution.failed then Threw(RequestFailed) else Returned(resolution.products)
      ensures Filter(productsRepository.rows, ClientIs(clientId), true) == [] ==>
        r == Returned([]) && unchanged(client, cache)
    {
      var favorites := productsRepository.ShowFavoriteProducts(clientId);
      if favorites == [] {
        return Returned([]);
      }

      ghost var ids := ProductIds(favorites);
      ghost var whole := ResolveFavorites(ids, cache.entries, client.responses, decode);
      ghost var base := client.requests;
      ghost var state := Resolution([], cache.entries, [], false);
      var cachedProducts: seq<Value> := [];
      var i := 0;
      while i < |favorites|
        invariant 0 <= i <= |favorites|
        invariant state.products == cachedProducts && state.cache == cache.entries && !state.failed
        invariant client.requests == base + state.requested
        invariant Run(state, ids[i..], client.responses, decode) == whole
      {
        var failed;
        ghost var next;
        cachedProducts, failed, next := ResolveProduct(favorites[i].productId, cachedProducts, state, base);
        RunUnfold(state, ids, i, next, client.responses, decode);
        state := next;
        if failed {
          RunOnlyAppends(next, ids[i + 1..], client.responses, decode);
          return Threw(RequestFailed);
        }
        i := i + 1;
      }
      assert ids[i..] == [];
      r := Returned(cachedProducts);
    }

    /**
     * One turn of the loop in `showFavoriteProducts`: a truthy cache entry
     * is appended; on a miss the catalogue is asked, an empty body skips the
     * product, and a non-empty one is decoded, remembered and appended.
     * `state` is the loop's state before the turn, `next` the one after it.
     */
    method ResolveProduct(productId: int, cachedProducts: seq<Value>, ghost state: Resolution, ghost base: seq<int>)
      returns (products: seq<Value>, failed: bool, ghost next: Resolution)
      requires state.products == cachedProducts && state.cache == cache.entries && !state.failed
      requires client.requests == base + state.requested
      modifies client, cache
      ensures next == Step(state, productId, client.responses, decode)
      ensures next.products == products && next.cache == cache.entries && next.failed == failed
      ensures client.requests == base + next.requested
    {
      var cachedProduct := cache.Get(productId);
      if Truthy(cachedProduct) {
        products, failed := cachedProducts + [cachedProduct], false;
        next := state.(products := products);
        return;
      }

      var response := client.Get(productId);
      if response.Failed? {
        products, failed := cachedProducts, true;
        next := state.(requested := state.requested + [productId], failed := true);
        return;
      }
      var productData := response.body;
      if EmptyBody(productData) {
        products, failed := cachedProducts, false;
        next := state.(requested := state.requested + [productId]);
        return;
      }

      var product := decode(productData);
      cache.Remember(productId, product);
      products, failed := cachedProducts + [product], false;
      next := Resolution(products, cache.entries, state.requested + [productId], false);
    }

    /** `getFavoriteProduct($clientId, $productId)`: the pair's row, or null. */
    method GetFavoriteProduct(clientId: int, productId: int) returns (favorite: Option<Favorite>)
      requires Valid()
      ensures favorite.Some? <==> (clientId, productId) in productsRepository.Pairs()
      ensures favorite.Some? ==> favorite.value in productsRepository.rows
      ensures favorite.Some? ==> favorite.value.clientId == clientId && favorite.value.productId == productId
    {
      favorite := productsRepository.GetByClientIdAndProductId(clientId, productId);
    }

    /**
     * `deleteFavoriteProduct($clientId, $productId)`: removes only that
     * pair, reports whether a row went, and leaves the cache alone.
     */
    method DeleteFavoriteProduct(clientId: int, productId: int) returns (deleted: bool)
      requires Valid()
      modifies productsRepository
      ensures Valid()
      ensures deleted <==> (clientId, productId) in old(productsRepository.Pairs())
      ensures productsRepository.Pairs() == old(productsRepository.Pairs()) - {(clientId, productId)}
      ensures productsRepository.rows == Filter(old(productsRepository.rows), PairIs(clientId, productId), false)
      ensures productsRepository.nextId == old(productsRepository.nextId)
      ensures cache.entries == old(cache.entries)
    {
      deleted := productsRepository.DeleteByClientIdAndProductId(clientId, productId);
    }
  }
}
