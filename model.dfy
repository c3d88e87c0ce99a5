/** The service layer's input shapes: a product to create (no identifier yet) and one to update. */
module Model {

  datatype ProductCreate = ProductCreate(name: string, price: real, discount: real, store: string)

  datatype ProductUpdate = ProductUpdate(id: int, name: string, price: real, discount: real, store: string)
}
