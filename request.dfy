/** The JSON bodies the API layer binds, and their conversion to the service's shapes. */
module Request {
  import opened Model

  /** Body of `POST /api/v1/products`. */
  datatype AddProductRequest = AddProductRequest(name: string, price: real, discount: real, store: string) {

    /** Every field is copied unchanged; nothing is validated. */
    function ToModel(): (m: ProductCreate)
      ensures m.name == name && m.price == price && m.discount == discount && m.store == store
    {
      ProductCreate(name, price, discount, store)
    }
  }

  /** Body of `PUT /api/v1/products`. */
  datatype UpdateProductRequest = UpdateProductRequest(id: int, name: string, price: real, discount: real, store: string) {

    /** The identifier and every field are copied unchanged. */
    function ToModel(): (m: ProductUpdate)
      ensures m.id == id
      ensures m.name == name && m.price == price && m.discount == discount && m.store == store
    {
      ProductUpdate(id, name, price, discount, store)
    }
  }

  /** No field is dropped: distinct create requests give distinct models. */
  lemma AddToModelInjective(a: AddProductRequest, b: AddProductRequest)
    ensures a.ToModel() == b.ToModel() ==> a == b
  {
  }

  /** No field is dropped: distinct update requests give distinct models. */
  lemma UpdateToModelInjective(a: UpdateProductRequest, b: UpdateProductRequest)
    ensures a.ToModel() == b.ToModel() ==> a == b
  {
  }
}
