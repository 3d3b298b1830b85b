/**
 * What the listing loop of `showFavoriteProducts` computes, stated as a
 * left fold over the client's product ids, with the properties of that
 * fold: cache first, remember never overwrites, order kept, and a second
 * listing served from the cache.
 */
module Listing {
  import opened Json
  import opened Catalogue
  import opened Caching

  /**
   * The loop's state: the products appended so far, the cache, the ids
   * requested from the catalogue, and whether a request threw (which ends
   * the loop).
   */
  datatype Resolution = Resolution(products: seq<Value>, cache: map<int, Value>, requested: seq<int>, failed: bool)

  /**
   * One turn of the loop for `id`: a truthy cache entry is appended as it
   * is; otherwise the catalogue is asked, an empty body skips the id, and a
   * non-empty one is decoded, remembered in the cache and appended.
   */
  function Step(r: Resolution, id: int, responses: int -> Response, decode: string -> Value): Resolution
  {
    if r.failed then r
    else
      var cached := Lookup(r.cache, id);
      if Truthy(cached) then r.(products := r.products + [cached])
      else
        match responses(id)
        case Failed => r.(requested := r.requested + [id], failed := true)
        case Ok(body) =>
          if EmptyBody(body) then r.(requested := r.requested + [id])
          else
            var product := decode(body);
            Resolution(r.products + [product], Remembered(r.cache, id, product), r.requested + [id], false)
  }

  /** The loop run over `ids` from state `r`. */
  function Run(r: Resolution, ids: seq<int>, responses: int -> Response, decode: string -> Value): Resolution
    decreases |ids|
  {
    if ids == [] then r else Run(Step(r, ids[0], responses, decode), ids[1..], responses, decode)
  }

  /**
   * The loop only ever appends, at most one product and one request per
   * id, and a state that has thrown stays as it is.
   */
  lemma {:induction false} RunOnlyAppends(r: Resolution, ids: seq<int>,
                                          responses: int -> Response, decode: string -> Value)
    ensures var out := Run(r, ids, responses, decode);
            && |r.products| <= |out.products| <= |r.products| + |ids|
            && |r.requested| <= |out.requested| <= |r.requested| + |ids|
            && out.products[..|r.products|] == r.products
            && out.requested[..|r.requested|] == r.requested
            && (r.failed ==> out == r)
    decreases |ids|
  {
    if ids != [] {
      var next := Step(r, ids[0], responses, decode);
      RunOnlyAppends(next, ids[1..], responses, decode);
      var out := Run(next, ids[1..], responses, decode);
      assert out.products[..|r.products|] == out.products[..|next.products|][..|r.products|];
      assert out.requested[..|r.requested|] == out.requested[..|next.requested|][..|r.requested|];
    }
  }

  /** One turn of the loop at position `i`: what remains of the run after `ids[i]` is the run from the next state. */
  lemma RunUnfold(r: Resolution, ids: seq<int>, i: nat, next: Resolution,
                  responses: int -> Response, decode: string -> Value)
    requires i < |ids|
    requires next == Step(r, ids[i], responses, decode)
    ensures Run(r, ids[i..], responses, decode) == Run(next, ids[i + 1..], responses, decode)
  {
  }

  /** The listing of `ids` from the cache `cache`, before any product is appended. */
  function ResolveFavorites(ids: seq<int>, cache: map<int, Value>,
                            responses: int -> Response, decode: string -> Value): Resolution
  {
    Run(Resolution([], cache, [], false), ids, responses, decode)
  }

  /**
   * Running over `a + b` is running over `a` and then over `b`: results
   * and requests follow the order of the ids.
   */
  lemma {:induction false} RunAppend(r: Resolution, a: seq<int>, b: seq<int>,
                                     responses: int -> Response, decode: string -> Value)
    ensures Run(r, a + b, responses, decode) == Run(Run(r, a, responses, decode), b, responses, decode)
    decreases |a|
  {
    if a == [] {
      assert a + b == b;
    } else {
      assert (a + b)[0] == a[0];
      assert (a + b)[1..] == a[1..] + b;
      RunAppend(Step(r, a[0], responses, decode), a[1..], b, responses, decode);
    }
  }

  /**
   * The loop writes the cache only through `remember`: a non-null entry is
   * never overwritten, and no key outside `ids` is written.
   */
  lemma {:induction false} RunNeverOverwrites(r: Resolution, ids: seq<int>,
                                              responses: int -> Response, decode: string -> Value)
    ensures var out := Run(r, ids, responses, decode);
            && (forall k :: Lookup(r.cache, k) != Null ==> Lookup(out.cache, k) == Lookup(r.cache, k))
            && (forall k :: k !in ids ==> Lookup(out.cache, k) == Lookup(r.cache, k))
    decreases |ids|
  {
    if ids != [] {
      RunNeverOverwrites(Step(r, ids[0], responses, decode), ids[1..], responses, decode);
    }
  }

  /**
   * When every id has a truthy cache entry, the catalogue is never asked,
   * the cache is unchanged, and the entries are appended in the order of
   * the ids.
   */
  lemma {:induction false} RunAllHits(r: Resolution, ids: seq<int>,
                                      responses: int -> Response, decode: string -> Value)
    requires !r.failed
    requires forall i :: 0 <= i < |ids| ==> Truthy(Lookup(r.cache, ids[i]))
    ensures var out := Run(r, ids, responses, decode);
            && out.cache == r.cache && out.requested == r.requested && !out.failed
            && |out.products| == |r.products| + |ids|
            && out.products[..|r.products|] == r.products
            && (forall i :: 0 <= i < |ids| ==> out.products[|r.products| + i] == Lookup(r.cache, ids[i]))
    decreases |ids|
  {
    if ids != [] {
      var next := Step(r, ids[0], responses, decode);
      assert next == r.(products := r.products + [Lookup(r.cache, ids[0])]);
      forall i | 0 <= i < |ids[1..]| ensures Truthy(Lookup(r.cache, ids[1..][i])) {
        assert ids[1..][i] == ids[i + 1];
      }
      RunAllHits(next, ids[1..], responses, decode);
      var out := Run(next, ids[1..], responses, decode);
      assert out.products[..|r.products|] == out.products[..|next.products|][..|r.products|];
      assert out.products[|r.products|] == out.products[..|next.products|][|r.products|];
      forall i | 0 < i < |ids| ensures out.products[|r.products| + i] == Lookup(r.cache, ids[i]) {
        assert ids[i] == ids[1..][i - 1];
      }
    }
  }

  /**
   * The catalogue is asked for `id` exactly when the cache holds no truthy
   * value for it; a hit only appends the cached value. On a miss, a request
   * that throws stops the loop and appends nothing, and an empty body skips
   * the id, leaving the products and the cache as they were.
   */
  lemma StepRequestsOnlyOnMiss(r: Resolution, id: int, responses: int -> Response, decode: string -> Value)
    requires !r.failed
    ensures var next := Step(r, id, responses, decode);
            && (Truthy(Lookup(r.cache, id)) ==> next == r.(products := r.products + [Lookup(r.cache, id)]))
            && (!Truthy(Lookup(r.cache, id)) ==> next.requested == r.requested + [id])
            && (!Truthy(Lookup(r.cache, id)) && responses(id).Failed? ==>
                  next == r.(requested := r.requested + [id], failed := true))
            && (!Truthy(Lookup(r.cache, id)) && responses(id).Ok? && EmptyBody(responses(id).body) ==>
                  next == r.(requested := r.requested + [id]))
  {
  }

  /**
   * Once an entry has expired (`ProductCache.Forget`), the next turn for
   * that id asks the catalogue again.
   */
  lemma ForgottenEntryIsRequested(r: Resolution, id: int, responses: int -> Response, decode: string -> Value)
    requires !r.failed
    ensures Step(r.(cache := r.cache - {id}), id, responses, decode).requested == r.requested + [id]
  {
    StepRequestsOnlyOnMiss(r.(cache := r.cache - {id}), id, responses, decode);
  }

  /**
   * A cached value that is not null but falsy (an empty array, `false`, 0)
   * is a miss for the listing, yet `remember` never replaces it: every
   * listing asks the catalogue again and the cache keeps the falsy value.
   */
  lemma FalsyEntryIsRefetched(r: Resolution, id: int, responses: int -> Response, decode: string -> Value)
    requires !r.failed
    requires Lookup(r.cache, id) != Null && !Truthy(Lookup(r.cache, id))
    ensures var next := Step(r, id, responses, decode);
            next.requested == r.requested + [id] && next.cache == r.cache
  {
  }

  /** A cache whose every entry is either as in `start` or the decoded catalogue answer for one of `ids`. */
  ghost predicate CacheFrom(cache: map<int, Value>, start: map<int, Value>, ids: seq<int>,
                            responses: int -> Response, decode: string -> Value)
  {
    forall k :: Lookup(cache, k) == Lookup(start, k)
                || (k in ids && responses(k).Ok? && Lookup(cache, k) == decode(responses(k).body))
  }

  /** Products each of which is the start cache's entry or the decoded catalogue answer for one of `ids`. */
  ghost predicate ProductsFrom(products: seq<Value>, start: map<int, Value>, ids: seq<int>,
                               responses: int -> Response, decode: string -> Value)
  {
    forall i :: 0 <= i < |products| ==>
      exists k :: k in ids && (products[i] == Lookup(start, k)
                               || (responses(k).Ok? && products[i] == decode(responses(k).body)))
  }

  /** The loop keeps every product and every cache entry traceable to the cache or the catalogue. */
  lemma {:induction false} RunFromCacheOrCatalogue(r: Resolution, ids: seq<int>, all: seq<int>,
                                                   start: map<int, Value>,
                                                   responses: int -> Response, decode: string -> Value)
    requires forall k :: k in ids ==> k in all
    requires CacheFrom(r.cache, start, all, responses, decode)
    requires ProductsFrom(r.products, start, all, responses, decode)
    ensures var out := Run(r, ids, responses, decode);
            CacheFrom(out.cache, start, all, responses, decode) && ProductsFrom(out.products, start, all, responses, decode)
    decreases |ids|
  {
    if ids != [] {
      var id := ids[0];
      var next := Step(r, id, responses, decode);
      assert id in all;
      if !r.failed && !Truthy(Lookup(r.cache, id)) && responses(id).Ok? && !EmptyBody(responses(id).body) {
        var product := decode(responses(id).body);
        forall k ensures Lookup(next.cache, k) == Lookup(start, k)
                         || (k in all && responses(k).Ok? && Lookup(next.cache, k) == decode(responses(k).body))
        {
          if k != id {
            assert Lookup(next.cache, k) == Lookup(r.cache, k);
          }
        }
        assert next.products[|r.products|] == product;
      } else if !r.failed && Truthy(Lookup(r.cache, id)) {
        assert next.products[|r.products|] == Lookup(r.cache, id);
      }
      assert forall i :: 0 <= i < |r.products| ==> next.products[i] == r.products[i];
      RunFromCacheOrCatalogue(next, ids[1..], all, start, responses, decode);
    }
  }

  /**
   * Every listed product is either what the cache held for one of the ids
   * when the listing began, or the decoded catalogue answer for one of them.
   */
  lemma ResolvedFromCacheOrCatalogue(ids: seq<int>, cache: map<int, Value>,
                                     responses: int -> Response, decode: string -> Value)
    ensures ProductsFrom(ResolveFavorites(ids, cache, responses, decode).products, cache, ids, responses, decode)
  {
    RunFromCacheOrCatalogue(Resolution([], cache, [], false), ids, ids, cache, responses, decode);
  }

  /** When the catalogue answers every id with a non-empty body, nothing is skipped and nothing throws. */
  lemma {:induction false} RunSkipsNothing(r: Resolution, ids: seq<int>,
                                           responses: int -> Response, decode: string -> Value)
    requires !r.failed
    requires forall i :: 0 <= i < |ids| ==> responses(ids[i]).Ok? && !EmptyBody(responses(ids[i]).body)
    ensures var out := Run(r, ids, responses, decode);
            !out.failed && |out.products| == |r.products| + |ids|
    decreases |ids|
  {
    if ids != [] {
      assert responses(ids[0]).Ok?;
      RunSkipsNothing(Step(r, ids[0], responses, decode), ids[1..], responses, decode);
    }
  }

  /** Every cache entry for the ids is either empty (null) or truthy. */
  ghost predicate HitOrEmpty(ids: seq<int>, cache: map<int, Value>)
  {
    forall i :: 0 <= i < |ids| ==> Lookup(cache, ids[i]) == Null || Truthy(Lookup(cache, ids[i]))
  }

  /** The catalogue answers every id with a non-empty body that decodes to a truthy value. */
  ghost predicate CatalogueHasAll(ids: seq<int>, responses: int -> Response, decode: string -> Value)
  {
    forall i :: 0 <= i < |ids| ==>
      responses(ids[i]).Ok? && !EmptyBody(responses(ids[i]).body) && Truthy(decode(responses(ids[i]).body))
  }

  /**
   * One turn for the first of `ids`, when each id is empty or truthy in
   * the cache and the catalogue has them all: it leaves a truthy entry for
   * that id, appends exactly that entry, touches no other key, and the
   * same holds of the remaining ids from the new state.
   */
  lemma StepFills(r: Resolution, ids: seq<int>, responses: int -> Response, decode: string -> Value)
    requires !r.failed && ids != []
    requires HitOrEmpty(ids, r.cache)
    requires CatalogueHasAll(ids, responses, decode)
    ensures var next := Step(r, ids[0], responses, decode);
            && !next.failed
            && Truthy(Lookup(next.cache, ids[0]))
            && next.products == r.products + [Lookup(next.cache, ids[0])]
            && HitOrEmpty(ids[1..], next.cache)
            && CatalogueHasAll(ids[1..], responses, decode)
  {
  }

  /**
   * When the catalogue has every id and the cache holds no falsy non-null
   * entry for them, the run neither throws nor skips, and afterwards every
   * id holds a truthy entry.
   */
  lemma {:induction false} RunFillsCache(r: Resolution, ids: seq<int>,
                                         responses: int -> Response, decode: string -> Value)
    requires !r.failed
    requires HitOrEmpty(ids, r.cache)
    requires CatalogueHasAll(ids, responses, decode)
    ensures var out := Run(r, ids, responses, decode);
            && !out.failed
            && |out.products| == |r.products| + |ids|
            && (forall i :: 0 <= i < |ids| ==> Truthy(Lookup(out.cache, ids[i])))
    decreases |ids|
  {
    if ids != [] {
      var next := Step(r, ids[0], responses, decode);
      StepFills(r, ids, responses, decode);
      RunFillsCache(next, ids[1..], responses, decode);
      RunNeverOverwrites(next, ids[1..], responses, decode);
      var out := Run(next, ids[1..], responses, decode);
      assert Lookup(next.cache, ids[0]) != Null;
      forall i | 0 < i < |ids| ensures Truthy(Lookup(out.cache, ids[i])) {
        assert ids[i] == ids[1..][i - 1];
      }
    }
  }

  /**
   * Under the same conditions, the products the run appends are the final
   * cache's entries for the ids, in the order of the ids.
   */
  lemma {:induction false} RunReadsBackCache(r: Resolution, ids: seq<int>,
                                             responses: int -> Response, decode: string -> Value)
    requires !r.failed
    requires HitOrEmpty(ids, r.cache)
    requires CatalogueHasAll(ids, responses, decode)
    ensures var out := Run(r, ids, responses, decode);
            && |out.products| == |r.products| + |ids|
            && (forall i :: 0 <= i < |ids| ==> out.products[|r.products| + i] == Lookup(out.cache, ids[i]))
    decreases |ids|
  {
    RunFillsCache(r, ids, responses, decode);
    if ids != [] {
      var next := Step(r, ids[0], responses, decode);
      StepFills(r, ids, responses, decode);
      RunReadsBackCache(next, ids[1..], responses, decode);
      RunNeverOverwrites(next, ids[1..], responses, decode);
      RunOnlyAppends(next, ids[1..], responses, decode);
      var out := Run(next, ids[1..], responses, decode);
      var first := Lookup(next.cache, ids[0]);
      assert first != Null && Lookup(out.cache, ids[0]) == first;
      assert out.products[|r.products|] == first by {
        assert out.products[..|next.products|][|r.products|] == next.products[|r.products|];
      }
      forall i | 0 < i < |ids| ensures out.products[|r.products| + i] == Lookup(out.cache, ids[i]) {
        assert ids[i] == ids[1..][i - 1];
      }
    }
  }

  /**
   * Listing the same favourites twice asks the catalogue only the first
   * time: provided the catalogue has every product and the cache held no
   * falsy non-null entry for them, the second listing is served entirely
   * from the cache, returns the same products and leaves the cache as it was.
   */
  lemma SecondListingIsServedFromCache(ids: seq<int>, cache: map<int, Value>,
                                       responses: int -> Response, decode: string -> Value)
    requires HitOrEmpty(ids, cache)
    requires CatalogueHasAll(ids, responses, decode)
    ensures var first := ResolveFavorites(ids, cache, responses, decode);
            var second := ResolveFavorites(ids, first.cache, responses, decode);
            !first.failed && second == Resolution(first.products, first.cache, [], false)
  {
    var start := Resolution([], cache, [], false);
    var first := Run(start, ids, responses, decode);
    RunFillsCache(start, ids, responses, decode);
    RunReadsBackCache(start, ids, responses, decode);
    var again := Resolution([], first.cache, [], false);
    RunAllHits(again, ids, responses, decode);
    var second := Run(again, ids, responses, decode);
    forall i | 0 <= i < |ids| ensures second.products[i] == first.products[i] {
      assert second.products[|again.products| + i] == Lookup(again.cache, ids[i]);
      assert first.products[|start.products| + i] == Lookup(first.cache, ids[i]);
    }
    assert second.products == first.products;
  }
}
