/**
 * The HTTP handlers of the product API as decision tables: each takes what the
 * web framework would have produced (the raw path or query text, a bound or
 * failed request body) and the service's answer as a function of its argument,
 * and yields the service call it makes, if any, together with the response
 * status and body. The service layer itself is not part of this model.
 */
module Controller {
  import opened Wrappers
  import opened Format
  import opened Domain
  import opened Model
  import opened Request
  import opened Response
  import Persistence

  const StatusOK := 200
  const StatusCreated := 201
  const StatusNoContent := 204
  const StatusBadRequest := 400
  const StatusNotFound := 404
  const StatusUnprocessableEntity := 422

  datatype Body =
    | Error(error: ErrorResponse)
    | Single(product: GetProductByIdResponse)
    | List(products: seq<GetAllProductsResponse>)

  /** A JSON reply, or a reply with a status and no body. */
  datatype HttpResponse = JsonResponse(status: int, body: Body) | NoContent(status: int)

  /** The service operation a handler invoked, with its argument. */
  datatype ServiceCall =
    | GetById(id: int)
    | GetAll
    | GetByStore(store: string)
    | Add(create: ProductCreate)
    | Update(update: ProductUpdate)
    | DeleteById(id: int)

  /** The outcome of decoding a JSON request body into `T`. */
  datatype Bind<T> = Bound(value: T) | BindFailed(message: string)

  /** What a handler did: the service call it made (`None` when it made none) and its reply. */
  datatype Handled = Handled(call: Option<ServiceCall>, response: HttpResponse)

  /** The reply's fields are the product's fields. */
  predicate Mirrors(r: GetProductByIdResponse, p: Product) {
    r.id == p.id && r.name == p.name && r.price == p.price && r.discount == p.discount && r.store == p.store
  }

  predicate EntryMirrors(r: GetAllProductsResponse, p: Product) {
    r.id == p.id && r.name == p.name && r.price == p.price && r.discount == p.discount && r.store == p.store
  }

  function ErrorReply(status: int, message: string): HttpResponse {
    JsonResponse(status, Error(ErrorResponse(message)))
  }

  /** The `:id` path parameter as the handlers read it: its decimal value, or 0 when it is not a number. */
  function ParsePathId(text: string): (n: int)
    ensures Atoi(text).None? ==> n == 0
  {
    Atoi(text).GetOr(0)
  }

  /** Every identifier survives the trip through its decimal path text. */
  lemma ParsePathIdOfIntToString(n: int)
    ensures ParsePathId(IntToString(n)) == n
  {
    AtoiOfIntToString(n);
  }

  /** Text that is not a decimal integer reaches the service as identifier 0. */
  lemma NonNumericPathIdIsZero()
    ensures ParsePathId("abc") == 0 && ParsePathId("") == 0 && ParsePathId("-") == 0 && ParsePathId("1x") == 0
  {
    assert "abc"[0] == 'a' && "1x"[1] == 'x' && "-"[1..] == "";
    assert !AllDigits("abc") && !AllDigits("1x");
  }

  /** `GET /api/v1/products/:id`: a service error is 404 with its text, otherwise 200 with the product. */
  function GetProductById(idParam: string, service: int -> Result<Product, string>): (h: Handled)
    ensures h.call == Some(GetById(ParsePathId(idParam)))
    ensures h.response.JsonResponse?
    ensures var reply := service(ParsePathId(idParam));
            (h.response.status == StatusNotFound <==> reply.Err?) &&
            (h.response.status == StatusOK <==> reply.Ok?) &&
            (reply.Err? ==> h.response.body == Error(ErrorResponse(reply.error))) &&
            (reply.Ok? ==> h.response.body.Single? && Mirrors(h.response.body.product, reply.value))
  {
    var productId := ParsePathId(idParam);
    var call := Some(GetById(productId));
    match service(productId)
    case Err(e) => Handled(call, ErrorReply(StatusNotFound, e))
    case Ok(product) => Handled(call, JsonResponse(StatusOK, Single(EmptyByIdResponse.ToResponse(product))))
  }

  /** The list-entry reply for each product, in order. */
  method ToResponses(products: seq<Product>) returns (rs: seq<GetAllProductsResponse>)
    ensures |rs| == |products|
    ensures forall i :: 0 <= i < |products| ==> EntryMirrors(rs[i], products[i])
  {
    rs := [];
    var i := 0;
    while i < |products|
      invariant 0 <= i <= |products|
      invariant |rs| == i
      invariant forall j :: 0 <= j < i ==> EntryMirrors(rs[j], products[j])
    {
      rs := rs + [EmptyListEntry.ToResponse(products[i])];
      i := i + 1;
    }
  }

  /**
   * `GET /api/v1/products[?store=...]`: a non-empty `store` query asks the
   * service for that store's products, an empty or absent one for all of
   * them; the reply is always 200 with one entry per product, in order.
   */
  method GetAllProducts(store: string, byStore: string -> seq<Product>, all: seq<Product>) returns (h: Handled)
    ensures h.call == Some(if store != "" then GetByStore(store) else GetAll)
    ensures h.response.JsonResponse? && h.response.status == StatusOK && h.response.body.List?
    ensures var source := if store != "" then byStore(store) else all;
            |h.response.body.products| == |source| &&
            forall i :: 0 <= i < |source| ==> EntryMirrors(h.response.body.products[i], source[i])
  {
    if store != "" {
      var responseProducts := ToResponses(byStore(store));
      return Handled(Some(GetByStore(store)), JsonResponse(StatusOK, List(responseProducts)));
    }
    var responseProducts := ToResponses(all);
    return Handled(Some(GetAll), JsonResponse(StatusOK, List(responseProducts)));
  }

  /** `POST /api/v1/products`: 400 when the body does not bind, 422 when the service fails, else 201 without body. */
  function AddProduct(bind: Bind<AddProductRequest>, service: ProductCreate -> Option<string>): (h: Handled)
    ensures h.call.None? <==> bind.BindFailed?
    ensures bind.BindFailed? ==> h.response == ErrorReply(StatusBadRequest, bind.message)
    ensures bind.Bound? ==> h.call == Some(Add(bind.value.ToModel()))
    ensures bind.Bound? && service(bind.value.ToModel()).Some? ==>
              h.response == ErrorReply(StatusUnprocessableEntity, service(bind.value.ToModel()).value)
    ensures h.response == NoContent(StatusCreated) <==> bind.Bound? && service(bind.value.ToModel()).None?
  {
    match bind
    case BindFailed(message) => Handled(None, ErrorReply(StatusBadRequest, message))
    case Bound(request) =>
      var create := request.ToModel();
      match service(create)
      case Some(e) => Handled(Some(Add(create)), ErrorReply(StatusUnprocessableEntity, e))
      case None => Handled(Some(Add(create)), NoContent(StatusCreated))
  }

  /** `PUT /api/v1/products`: 400 when the body does not bind, 422 when the service fails, else 204. */
  function UpdateProduct(bind: Bind<UpdateProductRequest>, service: ProductUpdate -> Option<string>): (h: Handled)
    ensures h.call.None? <==> bind.BindFailed?
    ensures bind.BindFailed? ==> h.response == ErrorReply(StatusBadRequest, bind.message)
    ensures bind.Bound? ==> h.call == Some(Update(bind.value.ToModel()))
    ensures bind.Bound? && service(bind.value.ToModel()).Some? ==>
              h.response == ErrorReply(StatusUnprocessableEntity, service(bind.value.ToModel()).value)
    ensures h.response == NoContent(StatusNoContent) <==> bind.Bound? && service(bind.value.ToModel()).None?
  {
    match bind
    case BindFailed(message) => Handled(None, ErrorReply(StatusBadRequest, message))
    case Bound(request) =>
      var update := request.ToModel();
      match service(update)
      case Some(e) => Handled(Some(Update(update)), ErrorReply(StatusUnprocessableEntity, e))
      case None => Handled(Some(Update(update)), NoContent(StatusNoContent))
  }

  /** `DELETE /api/v1/products/:id`: any service error is 404 with its text, otherwise 204. */
  function DeleteProductById(idParam: string, service: int -> Option<string>): (h: Handled)
    ensures h.call == Some(DeleteById(ParsePathId(idParam)))
    ensures var reply := service(ParsePathId(idParam));
            (reply.Some? ==> h.response == ErrorReply(StatusNotFound, reply.value)) &&
            (h.response == NoContent(StatusNoContent) <==> reply.None?)
  {
    var productId := ParsePathId(idParam);
    match service(productId)
    case Some(e) => Handled(Some(DeleteById(productId)), ErrorReply(StatusNotFound, e))
    case None => Handled(Some(DeleteById(productId)), NoContent(StatusNoContent))
  }

  /**
   * Over a service that hands the repository's answer through, a path id the
   * table does not hold is answered 404 with the repository's not-found text,
   * both by the get and by the delete handler.
   */
  lemma MissingIdThroughRepository(table: seq<Product>, idParam: string, exec: Persistence.ExecOutcome)
    requires forall j :: 0 <= j < |table| ==> table[j].id != ParsePathId(idParam)
    ensures GetProductById(idParam, id => Persistence.GetProductById(id, Persistence.LookupRow(table, id))).response
            == ErrorReply(StatusNotFound, Persistence.NotFoundMessage(ParsePathId(idParam)))
    ensures DeleteProductById(idParam, id => Persistence.DeleteProductById(id, Persistence.LookupRow(table, id), exec).error).response
            == ErrorReply(StatusNotFound, Persistence.NotFoundMessage(ParsePathId(idParam)))
  {
    Persistence.AbsentIdIsNotFound(table, ParsePathId(idParam), exec);
  }

  /**
   * Over the in-memory test table, which never fails a lookup, a missing id is
   * answered 200 with a product whose fields are all zero.
   */
  lemma MissingIdThroughTestTable(products: seq<Product>, idParam: string)
    requires forall j :: 0 <= j < |products| ==> products[j].id != ParsePathId(idParam)
    ensures GetProductById(idParam, id => Ok(Lookup(products, id))).response
            == JsonResponse(StatusOK, Single(GetProductByIdResponse(0, "", 0.0, 0.0, "")))
  {
    assert FindFirst(products, ParsePathId(idParam)).None?;
  }
}
