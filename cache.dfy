/**
 * The product cache behind Laravel's `Cache` facade, keyed by
 * `'product_' . $productId`. Entries are indexed here by the product id
 * itself: the key prefix is the same for every entry, so there is exactly
 * one entry per product, shared by all clients.
 */
module Caching {
  import opened Json

  /** `Cache::get($key)`: null when the key is absent. */
  function Lookup(entries: map<int, Value>, productId: int): Value
  {
    if productId in entries then entries[productId] else Null
  }

  /**
   * The entries after `Cache::remember($key, $ttl, fn () => $value)`: the
   * value is stored only when the key currently holds null, so an existing
   * entry is never overwritten, and every other key is left alone.
   */
  function Remembered(entries: map<int, Value>, productId: int, value: Value): (after: map<int, Value>)
    ensures forall k :: k != productId ==> Lookup(after, k) == Lookup(entries, k)
    ensures Lookup(entries, productId) != Null ==> Lookup(after, productId) == Lookup(entries, productId)
    ensures Lookup(entries, productId) == Null ==> Lookup(after, productId) == value
  {
    if Lookup(entries, productId) != Null then entries else entries[productId := value]
  }

  /** Remembering again under a key that already holds a non-null value changes nothing. */
  lemma RememberIdempotent(entries: map<int, Value>, productId: int, value: Value, later: Value)
    requires value != Null
    ensures Remembered(Remembered(entries, productId, value), productId, later)
         == Remembered(entries, productId, value)
  {
  }

  class ProductCache {
    var entries: map<int, Value>

    constructor ()
      ensures entries == map[]
    {
      entries := map[];
    }

    /** `Cache::get('product_' . $productId)`. */
    method Get(productId: int) returns (value: Value)
      ensures value == Lookup(entries, productId)
      ensures value != Null ==> productId in entries && entries[productId] == value
    {
      value := Lookup(entries, productId);
    }

    /** `Cache::remember('product_' . $productId, $ttl, fn () => $value)`. */
    method Remember(productId: int, value: Value)
      modifies this
      ensures entries == Remembered(old(entries), productId, value)
    {
      if Lookup(entries, productId) == Null {
        entries := entries[productId := value];
      }
    }

    /** An entry's time to live runs out: the key is dropped. */
    method Forget(productId: int)
      modifies this
      ensures entries == old(entries) - {productId}
      ensures Lookup(entries, productId) == Null
    {
      entries := entries - {productId};
    }
  }
}
