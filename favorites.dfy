/**
 * The `clients_favorites` table and its repository. The table holds one
 * row per favourite; the schema's unique index on (client_id, product_id)
 * allows at most one row per pair. The queries carry no `orderBy`, so the
 * database chooses the order of their results; the model keeps rows in
 * primary-key order and answers queries in that order, one of the orders a
 * database may use.
 */
module Favorites {
  import opened Wrappers

  /** One row: its auto-increment key and the (client, product) pair. */
  datatype Favorite = Favorite(id: nat, clientId: int, productId: int)

  /** The `where` clauses the repository puts on its queries. */
  datatype Where =
    | ClientIs(clientId: int)
    | PairIs(clientId: int, productId: int)

  predicate Matches(w: Where, f: Favorite)
  {
    match w
    case ClientIs(c) => f.clientId == c
    case PairIs(c, p) => f.clientId == c && f.productId == p
  }

  /** The unique index on (client_id, product_id). */
  ghost predicate UniquePairs(rows: seq<Favorite>)
  {
    forall i, j :: 0 <= i < j < |rows| ==>
      (rows[i].clientId, rows[i].productId) != (rows[j].clientId, rows[j].productId)
  }

  /** Rows are in strictly increasing primary-key order. */
  ghost predicate Ascending(rows: seq<Favorite>)
  {
    forall i, j :: 0 <= i < j < |rows| ==> rows[i].id < rows[j].id
  }

  /** The favourites recorded in `rows`, as (client, product) pairs. */
  ghost function PairsOf(rows: seq<Favorite>): set<(int, int)>
  {
    set f | f in rows :: (f.clientId, f.productId)
  }

  /**
   * The rows that match `w` (keep) or that do not (!keep), in the order of `rows`:
   * `where(...)->get()` and what `where(...)->delete()` leaves behind.
   */
  function Filter(rows: seq<Favorite>, w: Where, keep: bool): (kept: seq<Favorite>)
    ensures |kept| <= |rows|
  {
    if rows == [] then []
    else if Matches(w, rows[0]) == keep then [rows[0]] + Filter(rows[1..], w, keep)
    else Filter(rows[1..], w, keep)
  }

  /** A row is kept exactly when it is in the table and its match against `w` is `keep`. */
  lemma {:induction false} FilterMembers(rows: seq<Favorite>, w: Where, keep: bool)
    ensures forall f :: f in Filter(rows, w, keep) <==> f in rows && Matches(w, f) == keep
  {
    if rows != [] {
      FilterMembers(rows[1..], w, keep);
      assert rows == [rows[0]] + rows[1..];
    }
  }

  /** Filtering commutes with concatenation, so the relative order of rows is kept. */
  lemma {:induction false} FilterAppend(a: seq<Favorite>, b: seq<Favorite>, w: Where, keep: bool)
    ensures Filter(a + b, w, keep) == Filter(a, w, keep) + Filter(b, w, keep)
  {
    if a == [] {
      assert a + b == b;
    } else {
      assert (a + b)[1..] == a[1..] + b;
      FilterAppend(a[1..], b, w, keep);
    }
  }

  /** The rows that match and the rows that do not partition the table. */
  lemma {:induction false} FilterPartition(rows: seq<Favorite>, w: Where)
    ensures |Filter(rows, w, true)| + |Filter(rows, w, false)| == |rows|
  {
    if rows != [] {
      FilterPartition(rows[1..], w);
    }
  }

  /** A filtered table still satisfies the unique index and the key order. */
  lemma {:induction false} FilterKeepsTable(rows: seq<Favorite>, w: Where, keep: bool)
    requires UniquePairs(rows) && Ascending(rows)
    ensures UniquePairs(Filter(rows, w, keep)) && Ascending(Filter(rows, w, keep))
  {
    if rows != [] {
      var tail := rows[1..];
      FilterKeepsTable(tail, w, keep);
      FilterMembers(tail, w, keep);
      var rest := Filter(tail, w, keep);
      forall j | 0 <= j < |rest|
        ensures rows[0].id < rest[j].id
        ensures (rows[0].clientId, rows[0].productId) != (rest[j].clientId, rest[j].productId)
      {
        assert rest[j] in tail;
        var k :| 0 <= k < |tail| && tail[k] == rest[j];
        assert rows[k + 1] == rest[j];
      }
    }
  }

  /** With the unique index in place, a pair matches at most one row. */
  lemma {:induction false} PairMatchesAtMostOne(rows: seq<Favorite>, clientId: int, productId: int)
    requires UniquePairs(rows)
    ensures |Filter(rows, PairIs(clientId, productId), true)| <= 1
    ensures |Filter(rows, PairIs(clientId, productId), true)| == 1 <==> (clientId, productId) in PairsOf(rows)
  {
    if rows != [] {
      var tail := rows[1..];
      PairMatchesAtMostOne(tail, clientId, productId);
      if Matches(PairIs(clientId, productId), rows[0]) && Filter(tail, PairIs(clientId, productId), true) != [] {
        assert false;
      }
      assert PairsOf(rows) == {(rows[0].clientId, rows[0].productId)} + PairsOf(tail);
    }
  }

  class ClientFavoriteProductsRepository {
    /** The table's rows, in primary-key order. */
    var rows: seq<Favorite>
    /** The next auto-increment key. */
    var nextId: nat

    ghost predicate Valid()
      reads this
    {
      && UniquePairs(rows)
      && Ascending(rows)
      && forall f :: f in rows ==> f.id < nextId
    }

    ghost function Pairs(): set<(int, int)>
      reads this
    {
      PairsOf(rows)
    }

    constructor ()
      ensures Valid() && rows == []
    {
      rows := [];
      nextId := 1;
    }

    /**
     * `store(['client_id' => ..., 'product_id' => ...])`: inserts a row. The
     * insert fails (`ok` is false, nothing changes) when the unique index
     * already holds the pair.
     */
    method Store(clientId: int, productId: int) returns (ok: bool)
      requires Valid()
      modifies this
      ensures Valid()
      ensures ok <==> (clientId, productId) !in old(Pairs())
      ensures ok ==> rows == old(rows) + [Favorite(old(nextId), clientId, productId)]
      ensures ok ==> Pairs() == old(Pairs()) + {(clientId, productId)}
      ensures !ok ==> rows == old(rows)
    {
      ok := forall i | 0 <= i < |rows| :: (rows[i].clientId, rows[i].productId) != (clientId, productId);
      if ok {
        rows := rows + [Favorite(nextId, clientId, productId)];
        nextId := nextId + 1;
        assert PairsOf(rows) == old(PairsOf(rows)) + {(clientId, productId)} by {
          assert rows[|rows| - 1] == Favorite(old(nextId), clientId, productId);
        }
      } else {
        var i :| 0 <= i < |rows| && (rows[i].clientId, rows[i].productId) == (clientId, productId);
        assert rows[i] in rows;
      }
    }

    /** `showFavoriteProducts($clientId)`: the client's rows, and no others, in primary-key order. */
    method ShowFavoriteProducts(clientId: int) returns (favorites: seq<Favorite>)
      requires Valid()
      ensures favorites == Filter(rows, ClientIs(clientId), true)
      ensures forall f :: f in favorites <==> f in rows && f.clientId == clientId
      ensures UniquePairs(favorites) && Ascending(favorites)
    {
      favorites := Filter(rows, ClientIs(clientId), true);
      FilterMembers(rows, ClientIs(clientId), true);
      FilterKeepsTable(rows, ClientIs(clientId), true);
    }

    /** `checkIfProductIsFavorite($clientId, $productId)`: `exists()` on the pair; reads only. */
    method CheckIfProductIsFavorite(clientId: int, productId: int) returns (isFavorite: bool)
      requires Valid()
      ensures isFavorite <==> (clientId, productId) in Pairs()
    {
      isFavorite := exists i | 0 <= i < |rows| :: rows[i].clientId == clientId && rows[i].productId == productId;
      if isFavorite {
        var i :| 0 <= i < |rows| && rows[i].clientId == clientId && rows[i].productId == productId;
        assert rows[i] in rows;
      }
    }

    /** `deleteByClientId($clientId)`: every row of the client goes, every other row stays. */
    method DeleteByClientId(clientId: int)
      requires Valid()
      modifies this
      ensures Valid()
      ensures rows == Filter(old(rows), ClientIs(clientId), false)
      ensures forall f :: f in rows <==> f in old(rows) && f.clientId != clientId
      ensures nextId == old(nextId)
    {
      FilterMembers(rows, ClientIs(clientId), false);
      FilterKeepsTable(rows, ClientIs(clientId), false);
      rows := Filter(rows, ClientIs(clientId), false);
    }

    /**
     * `deleteByClientIdAndProductId($clientId, $productId)`: removes the
     * pair's row and reports whether a row was deleted.
     */
    method DeleteByClientIdAndProductId(clientId: int, productId: int) returns (deleted: bool)
      requires Valid()
      modifies this
      ensures Valid()
      ensures deleted <==> (clientId, productId) in old(Pairs())
      ensures rows == Filter(old(rows), PairIs(clientId, productId), false)
      ensures Pairs() == old(Pairs()) - {(clientId, productId)}
      ensures nextId == old(nextId)
    {
      var count := |Filter(rows, PairIs(clientId, productId), true)|;
      PairMatchesAtMostOne(rows, clientId, productId);
      FilterMembers(rows, PairIs(clientId, productId), false);
      FilterKeepsTable(rows, PairIs(clientId, productId), false);
      ghost var before := rows;
      rows := Filter(rows, PairIs(clientId, productId), false);
      deleted := count > 0;
      assert PairsOf(rows) == PairsOf(before) - {(clientId, productId)} by {
        forall x | x in PairsOf(before) && x != (clientId, productId) ensures x in PairsOf(rows) {
          var f :| f in before && (f.clientId, f.productId) == x;
          assert f in rows;
        }
      }
    }

    /** `getByClientIdAndProductId($clientId, $productId)`: `first()` of the pair, or null. */
    method GetByClientIdAndProductId(clientId: int, productId: int) returns (favorite: Option<Favorite>)
      requires Valid()
      ensures favorite.Some? <==> (clientId, productId) in Pairs()
      ensures favorite.Some? ==> favorite.value in rows
      ensures favorite.Some? ==> favorite.value.clientId == clientId && favorite.value.productId == productId
    {
      var matching := Filter(rows, PairIs(clientId, productId), true);
      FilterMembers(rows, PairIs(clientId, productId), true);
      PairMatchesAtMostOne(rows, clientId, productId);
      if matching == [] {
        favorite := None;
      } else {
        favorite := Some(matching[0]);
      }
    }
  }
}
