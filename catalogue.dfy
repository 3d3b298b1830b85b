/**
 * The external product catalogue, reached with a Guzzle client by
 * `GET {api_products.url}products/{id}`. The catalogue is an oracle: what
 * it answers for each product id is fixed when the client is built. Every
 * request is recorded in a ghost log, so that contracts can say when a
 * request is made and when none is.
 */
module Catalogue {

  /**
   * What one request yields: the body's contents, or a Guzzle exception
   * (a transport error, or a 4xx/5xx status, which Guzzle raises by default).
   */
  datatype Response = Ok(body: string) | Failed

  /** PHP's `empty($productData)` on a string: true for "" and for "0". */
  predicate EmptyBody(body: string)
  {
    body == "" || body == "0"
  }

  class ProductsApi {
    /** The catalogue's answer for every product id. */
    const responses: int -> Response
    /** Product ids requested so far, oldest first. */
    ghost var requests: seq<int>

    constructor (responses: int -> Response)
      ensures this.responses == responses && requests == []
    {
      this.responses := responses;
      requests := [];
    }

    /** `$this->client->get($this->getProductsUrl . '/' . $productId)`. */
    method Get(productId: int) returns (response: Response)
      modifies this
      ensures response == responses(productId)
      ensures requests == old(requests) + [productId]
    {
      response := responses(productId);
      requests := requests + [productId];
    }
  }
}
