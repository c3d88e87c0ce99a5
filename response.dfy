/** The JSON bodies the API layer sends back. */
module Response {
  import opened Domain

  /** An error body: one text field describing the error. */
  datatype ErrorResponse = ErrorResponse(errorDescription: string)

  /** Body of a successful `GET /api/v1/products/{id}`. */
  datatype GetProductByIdResponse = GetProductByIdResponse(id: int, name: string, price: real, discount: real, store: string) {

    /** Copies the product's five fields; the receiver itself is never read. */
    function ToResponse(product: Product): (r: GetProductByIdResponse)
      ensures r.id == product.id && r.name == product.name && r.price == product.price
      ensures r.discount == product.discount && r.store == product.store
    {
      GetProductByIdResponse(product.id, product.name, product.price, product.discount, product.store)
    }
  }

  /** One entry of the list returned by `GET /api/v1/products`. */
  datatype GetAllProductsResponse = GetAllProductsResponse(id: int, name: string, price: real, discount: real, store: string) {

    /** Copies the product's five fields; the receiver itself is never read. */
    function ToResponse(product: Product): (r: GetAllProductsResponse)
      ensures r.id == product.id && r.name == product.name && r.price == product.price
      ensures r.discount == product.discount && r.store == product.store
    {
      GetAllProductsResponse(product.id, product.name, product.price, product.discount, product.store)
    }
  }

  /** Go's zero values `GetProductByIdResponse{}` and `GetAllProductsResponse{}`, the receivers used by the API layer. */
  const EmptyByIdResponse := GetProductByIdResponse(0, "", 0.0, 0.0, "")
  const EmptyListEntry := GetAllProductsResponse(0, "", 0.0, 0.0, "")

  /** The result of either conversion does not depend on the receiver. */
  lemma ToResponseIgnoresReceiver(a: GetProductByIdResponse, b: GetProductByIdResponse,
                                  c: GetAllProductsResponse, d: GetAllProductsResponse, product: Product)
    ensures a.ToResponse(product) == b.ToResponse(product)
    ensures c.ToResponse(product) == d.ToResponse(product)
  {
  }

  /** For one product, the single-product and list-entry responses agree field by field. */
  lemma ResponseShapesAgree(product: Product)
    ensures var single := EmptyByIdResponse.ToResponse(product);
            var entry := EmptyListEntry.ToResponse(product);
            single.id == entry.id && single.name == entry.name && single.price == entry.price &&
            single.discount == entry.discount && single.store == entry.store
  {
  }

  /** A product can be read back from its response: the conversion loses nothing. */
  lemma ToResponseInjective(p: Product, q: Product)
    ensures EmptyListEntry.ToResponse(p) == EmptyListEntry.ToResponse(q) ==> p == q
    ensures EmptyByIdResponse.ToResponse(p) == EmptyByIdResponse.ToResponse(q) ==> p == q
  {
  }
}
