/**
 * The response shapes of the API: a client, a favourite product as read
 * from the catalogue, and a client with its favourites. PHP associative
 * arrays become `map<string, Value>`.
 */
module Dtos {
  import opened Json

  /** The response keys of a client. */
  const ClientKeys: set<string> := {"id", "nome", "email"}

  datatype ClientDto = ClientDto(id: int, name: string, email: string)
  {
    /** `toArray()`: the client under the response keys `id`, `nome` and `email`. */
    function ToArray(): (a: map<string, Value>)
      ensures a.Keys == ClientKeys
      ensures a["id"] == Int(id) && a["nome"] == Str(name) && a["email"] == Str(email)
    {
      map["id" := Int(id), "nome" := Str(name), "email" := Str(email)]
    }
  }

  /** Nothing of a client is lost in its response: different clients give different arrays. */
  lemma ClientArrayDeterminesClient(c: ClientDto, d: ClientDto)
    requires c.ToArray() == d.ToArray()
    ensures c == d
  {
  }

  /**
   * The renaming a favourite product goes through: each pair is a response
   * key and the catalogue field it is read from.
   */
  const Renames: seq<(string, string)> :=
    [("id", "id"), ("titulo", "title"), ("imagem", "image"), ("preco", "price"), ("descricao", "description")]

  /** The response keys of a favourite product. */
  const ProductKeys: set<string> := {"id", "titulo", "imagem", "preco", "descricao"}

  datatype FavoriteProductDto = FavoriteProductDto(product: map<string, Value>)
  {
    /**
     * `toArray()`: exactly the five response keys, each holding the renamed
     * catalogue field, or null when the field is missing.
     */
    function ToArray(): (a: map<string, Value>)
      ensures a.Keys == ProductKeys
      ensures forall i :: 0 <= i < |Renames| ==> a[Renames[i].0] == Coalesce(product, Renames[i].1)
      ensures forall k :: k in a ==> a[k] == Null || a[k] in product.Values
    {
      map["id" := Coalesce(product, "id"),
          "titulo" := Coalesce(product, "title"),
          "imagem" := Coalesce(product, "image"),
          "preco" := Coalesce(product, "price"),
          "descricao" := Coalesce(product, "description")]
    }
  }

  /** Catalogue fields other than the five renamed ones do not reach the response. */
  lemma {:induction false} ProductArrayIgnoresOtherFields(p: map<string, Value>, q: map<string, Value>)
    requires forall i :: 0 <= i < |Renames| ==> Coalesce(p, Renames[i].1) == Coalesce(q, Renames[i].1)
    ensures FavoriteProductDto(p).ToArray() == FavoriteProductDto(q).ToArray()
  {
    var a, b := FavoriteProductDto(p).ToArray(), FavoriteProductDto(q).ToArray();
    forall i | 0 <= i < |Renames| ensures a[Renames[i].0] == b[Renames[i].0] { }
    assert Renames[0].0 == "id" && Renames[1].0 == "titulo" && Renames[2].0 == "imagem";
    assert Renames[3].0 == "preco" && Renames[4].0 == "descricao";
  }

  datatype ClientWithFavoritesDto = ClientWithFavoritesDto(client: ClientDto, favoriteProducts: seq<Value>)
  {
    /**
     * `toArray()`: the client under `cliente` and, under
     * `produtos_favoritos`, every favourite in order, cast to an array and
     * reshaped as a favourite product.
     */
    method ToArray() returns (a: map<string, Value>)
      ensures a.Keys == {"cliente", "produtos_favoritos"}
      ensures a["cliente"] == Obj(client.ToArray())
      ensures a["produtos_favoritos"].Arr?
      ensures var products := a["produtos_favoritos"].items;
              && |products| == |favoriteProducts|
              && forall i :: 0 <= i < |products| ==>
                   products[i] == Obj(FavoriteProductDto(AsArray(favoriteProducts[i])).ToArray())
    {
      var products: seq<Value> := [];
      var i := 0;
      while i < |favoriteProducts|
        invariant 0 <= i <= |favoriteProducts|
        invariant |products| == i
        invariant forall j :: 0 <= j < i ==>
                    products[j] == Obj(FavoriteProductDto(AsArray(favoriteProducts[j])).ToArray())
      {
        var productArray := AsArray(favoriteProducts[i]);
        products := products + [Obj(FavoriteProductDto(productArray).ToArray())];
        i := i + 1;
      }
      a := map["cliente" := Obj(client.ToArray()), "produtos_favoritos" := Arr(products)];
    }
  }
}
