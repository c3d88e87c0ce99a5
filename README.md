# product-app: repository, test table, handlers and transfer objects

A model of the core of a small Go product API, which stores products in
PostgreSQL and serves them over HTTP. The model covers five parts.

- **`ProductRepository`** (module `Persistence`). It builds the SQL statements
  and classifies errors. The database is an injected oracle: each call is
  handed the single-row outcome (`Found`, `NoRows`, `RowFailed`), the result
  set (`QueryFailed` or a sequence of per-row scan outcomes) or the exec outcome
  it would get. Each mutating operation reports the statement it issued, if
  any, together with its error text. The partial UPDATE is built by an
  imperative method (`BuildUpdate`). It grows the text with `+=`, appends the
  arguments and advances a running placeholder counter, then drops the last
  character. It is proved equal to a reference definition (`UpdateSql`,
  `UpdateArgs`) built by joining the given fields.
- **`FakeProductRepository`** (module `FakeRepository`). This is the in-memory
  table used by the service tests: a class whose `products` field the methods
  append to, splice and overwrite. Delete and update are proved against the
  recursive reference functions `RemoveFirst` and `ReplaceFirst`, and the
  by-id lookup against `Lookup`; add is stated directly as the old table
  plus the renumbered product. Lemmas state what the reference functions
  keep and change.
- **`ProductController`** (module `Controller`). Each handler maps what the web
  framework hands it (path text, query text, bound or failed body) and the
  service's answer to the service call it makes and the status and body it
  replies with.
- **Request and response objects** (modules `Request`, `Response`, `Model`).
  These are total field copies.
- **Shared pieces.** `Domain` holds the `Product` record, first-match search
  and store filtering. `Format` holds `%d` rendering and `strconv.Atoi`
  parsing. `Wrappers` holds `Option` and `Result`.

Go's `int64` is an unbounded `int`. The `float32` price and discount are
`real`s, which are only copied or compared with zero. An `error` is its
message text, since the handlers forward `err.Error()`. `domain.Product` is not
part of this model's sources. Its five fields are those the repository builds
at persistence/product_repository.go:98.

## Model

| member | source | states |
|---|---|---|
| Persistence.GetProductById | persistence/product_repository.go:74-100 | Success iff a row was found, and then exactly the scanned fields. No row gives "Product with id N not found". Any other failure gives "Error while getting product with id N not found". |
| Persistence.CheckProductExists | persistence/product_repository.go:193-202 | No error iff the lookup succeeds. Every lookup failure, of either kind, becomes the not-found message. |
| Persistence.AddProduct | persistence/product_repository.go:58-72 | The INSERT is always sent, bound to name, price, discount and store, never the id. The database's own error is returned unchanged, and there is none iff the exec succeeds. |
| Persistence.DeleteProductById | persistence/product_repository.go:102-121 | No statement iff the existence check fails, and then its not-found error. Otherwise `DELETE ... WHERE id = $1` bound to the id. An exec failure gives "Error while deleting product with id N", success gives no error. |
| Persistence.UpdateProduct | persistence/product_repository.go:123-169 | No statement iff the existence check fails, and then its not-found error. Otherwise the UPDATE text and args of the reference definition. An exec failure gives "Error while updating product with id N", success gives no error. |
| Persistence.BuildUpdate | persistence/product_repository.go:131-158 | The text and args built step by step equal the reference UPDATE text and argument list. |
| Persistence.AddIfGiven | persistence/product_repository.go:135-154 | One field block: when the field is given, it appends `col = $argId,` and the value, and advances the counter. The builder invariant is kept. |
| Persistence.SetFieldsCharacterized | persistence/product_repository.go:135-154 | The SET list has an assignment for a column iff that field is set (non-empty text, non-zero number). Each assignment carries its field's value. Columns appear in the order name, price, discount, store. |
| Persistence.SetListPieces | persistence/product_repository.go:136-151 | Split at its commas, the SET list is exactly the assignments in order, the i-th numbered k+i. Placeholders are therefore consecutive from $1. |
| Persistence.UpdateArgsMatchPlaceholders | persistence/product_repository.go:132-158 | The arguments are the set fields' values in SET order, then the id. The text ends in ` WHERE id = $n` where n is the final argument count. |
| Persistence.NoFieldUpdate | persistence/product_repository.go:131-158 | With nothing set, the text is `UPDATE products SET WHERE id = $1` and the args are just the id. |
| Persistence.AllFieldsUpdate | persistence/product_repository.go:131-158 | With everything set, the text is `UPDATE products SET name = $1,price = $2,discount = $3,store = $4 WHERE id = $5` with the five values in that order. |
| Persistence.FourAssignmentsText | persistence/product_repository.go:136-151 | Four assignments in column order join to `name = $1,price = $2,discount = $3,store = $4`. |
| Persistence.UpdateSql | persistence/product_repository.go:131-158 | The reference UPDATE text always begins with `UPDATE products SET`. |
| Persistence.UpdateArgs | persistence/product_repository.go:131-158 | The reference argument list has one entry per set field plus one, and ends with the id. |
| Persistence.ApplyAll | persistence/product_repository.go:131-158 | Applying SET assignments to a stored row never changes its id. |
| Persistence.UpdateOverwritesGivenFields | persistence/product_repository.go:135-158 | Applied to a stored row, the UPDATE overwrites exactly the set fields and keeps the id and every unset field. A zero price or an empty name leaves the stored value in place. |
| Persistence.NameOnlyUpdate | persistence/product_repository.go:135-139 | An update giving only a name changes only the name. |
| Persistence.ScanAll | persistence/product_repository.go:180-187 | A product list iff every row scans, holding one product per row in row order. |
| Persistence.ExtractProductsForRows | persistence/product_repository.go:171-191 | The loop yields every row's product in order, or the empty list as soon as a scan fails. |
| Persistence.GetAllProducts | persistence/product_repository.go:31-41 | Issues `SELECT * FROM products`. The empty list when the query fails, otherwise the extracted rows. |
| Persistence.GetAllProductsByStore | persistence/product_repository.go:43-56 | Issues the by-store SELECT with the store bound to $1. The empty list when the query fails, otherwise the extracted rows. |
| Persistence.NotFoundMessageInjective | persistence/product_repository.go:193-199 | Different ids give different not-found messages. |
| Persistence.NotFoundIsDistinguishable | persistence/product_repository.go:89-164 | The not-found message never equals a lookup, delete or update failure message. |
| Persistence.NotFoundMessageExample | persistence/product_repository.go:90 | For id 5 the message is "Product with id 5 not found". |
| Persistence.HealthyReadIsIdentity | persistence/product_repository.go:31-41 | Against a table that does not fail, reading all products gives the table itself. |
| Persistence.AbsentIdIsNotFound | persistence/product_repository.go:74-121 | Against a table without the id, get and delete both report not found, and delete issues nothing. |
| Persistence.PresentIdIsFound | persistence/product_repository.go:74-100 | Against a table holding the id, get succeeds with a product of that id. |
| Persistence.SplitCommasJoin | persistence/product_repository.go:136-151 | Splitting `a,b` where b has no comma gives a's pieces followed by b. |
| Persistence.AssignmentTextHasNoComma | persistence/product_repository.go:136-151 | A single `col = $k` assignment contains no comma. |
| Format.NatToString | persistence/product_repository.go:90 | `%d` of a natural: a non-empty digit string with a leading zero only for 0. |
| Format.IntToString | persistence/product_repository.go:90 | `%d` of an integer: non-empty, with a leading `-` iff negative. |
| Format.Atoi | controller/product_controller.go:32 | Some value iff the text is an optional sign followed by at least one digit; none for empty text; non-negative unless the text starts with `-`. |
| Format.DigitsValueOfNatToString | persistence/product_repository.go:90 | Reading the digits of `%d` back gives the number. |
| Format.AtoiOfIntToString | controller/product_controller.go:32 | `strconv.Atoi` inverts `%d`. |
| Format.IntToStringInjective | persistence/product_repository.go:90 | Different ids render differently. |
| Domain.FindFirst | test/service/fake_product_repository.go:41-45 | The least index carrying the id, and none iff no element carries it. |
| Domain.Lookup | test/service/fake_product_repository.go:40-47 | The product at the first match, or the zero product when none matches. |
| Domain.FilterByStore | test/service/fake_product_repository.go:22-32 | No longer than the input. A product is in the result iff it is in the input and belongs to the store. |
| Domain.FilterByStoreAppend | test/service/fake_product_repository.go:25-29 | Filtering distributes over concatenation, so stored order is kept. |
| Domain.CountIdAppend | test/service/fake_product_repository.go:50-58 | The count of an id is additive over concatenation. |
| Domain.CountIdAbsent | test/service/fake_product_repository.go:50-58 | An id no product carries counts zero. |
| FakeRepository.FakeProductRepository.constructor | test/service/fake_product_repository.go:12-16 | The table starts as the given products. |
| FakeRepository.FakeProductRepository.GetAllProducts | test/service/fake_product_repository.go:18-20 | Returns the stored table and changes nothing. |
| FakeRepository.FakeProductRepository.GetAllProductsByStore | test/service/fake_product_repository.go:22-32 | The loop returns exactly the store's products in stored order and changes nothing. |
| FakeRepository.FakeProductRepository.AddProduct | test/service/fake_product_repository.go:34-38 | The new table is the old one plus the argument numbered old length + 1. Never an error. |
| FakeRepository.FakeProductRepository.GetProductById | test/service/fake_product_repository.go:40-47 | The first product carrying the id, else the zero product. Never an error. |
| FakeRepository.FakeProductRepository.DeleteProductById | test/service/fake_product_repository.go:50-58 | The new table drops the first product carrying the id (unchanged if none). Never an error. |
| FakeRepository.FakeProductRepository.UpdateProduct | test/service/fake_product_repository.go:61-69 | The new table has the first product carrying the argument's id replaced by the whole argument (unchanged if none). Never an error. |
| FakeRepository.RemoveFirst | test/service/fake_product_repository.go:50-58 | Deleting shortens the table by at most one and introduces no product. |
| FakeRepository.ReplaceFirst | test/service/fake_product_repository.go:61-69 | Updating keeps the length, and every position holds either its old product or the argument. |
| FakeRepository.RemoveFirstIsSplice | test/service/fake_product_repository.go:51-54 | At the first match, removal is the splice `s[:i] + s[i+1:]`, which keeps the rest in order. |
| FakeRepository.RemoveFirstAbsent | test/service/fake_product_repository.go:58 | With no match, nothing is removed. |
| FakeRepository.RemoveFirstCounts | test/service/fake_product_repository.go:50-58 | A present id loses exactly one occurrence and the table shrinks by one. An absent id changes nothing. Every other id's count is unchanged. |
| FakeRepository.ReplaceFirstIsUpdate | test/service/fake_product_repository.go:62-65 | At the first match, replacement is the single assignment `s[i] = product`. |
| FakeRepository.ReplaceFirstAbsent | test/service/fake_product_repository.go:69 | With no match, nothing is replaced. |
| FakeRepository.ReplaceFirstThenLookup | test/service/fake_product_repository.go:61-69 | The length is kept. After replacing a present id, looking it up gives the whole new product, so it is a full overwrite, not a merge. |
| FakeRepository.ReplaceFirstKeepsOtherLookups | test/service/fake_product_repository.go:61-69 | Lookups of every other id are unchanged. |
| FakeRepository.LookupAppendOther | test/service/fake_product_repository.go:34-38 | Adding a product does not change the lookup of any other id. |
| FakeRepository.LookupAppendNew | test/service/fake_product_repository.go:34-47 | An added product is found under its new id when no earlier product carries that id. |
| FakeRepository.AddAfterDeleteCanReuseId | test/service/fake_product_repository.go:34-58 | Numbering by length + 1 can give a new product the id of one still stored. |
| Controller.ParsePathId | controller/product_controller.go:31-32 | A path id that does not parse as an integer becomes 0. |
| Controller.ParsePathIdOfIntToString | controller/product_controller.go:31-32 | The decimal text of any id reaches the service as that id. |
| Controller.NonNumericPathIdIsZero | controller/product_controller.go:31-32 | "abc", "", "-" and "1x" all reach the service as 0. |
| Controller.GetProductById | controller/product_controller.go:30-43 | Calls the service with the parsed id. Status 404 iff the service fails, with its text. Status 200 iff it succeeds, with a body whose fields equal the product's. |
| Controller.ToResponses | controller/product_controller.go:49-65 | One list entry per product, in order, each with the product's fields. |
| Controller.GetAllProducts | controller/product_controller.go:45-66 | A non-empty store asks for that store's products, an empty one for all. The reply is always 200 with a list of equal length, in order, with equal fields (empty, never absent, with no products). |
| Controller.AddProduct | controller/product_controller.go:68-85 | No service call iff binding fails, and then 400 with the bind error. Otherwise the service gets the converted request. A service error gives 422 with its text. 201 with no body iff binding and the service succeed. |
| Controller.UpdateProduct | controller/product_controller.go:87-103 | No service call iff binding fails, and then 400 with the bind error. Otherwise the service gets the converted request. A service error gives 422 with its text. 204 with no body iff binding and the service succeed. |
| Controller.DeleteProductById | controller/product_controller.go:105-116 | Calls the service with the parsed id. Any service error gives 404 with its text. 204 with no body iff it succeeds. |
| Controller.MissingIdThroughRepository | controller/product_controller.go:30-116 | Over a service that passes the repository's answer through, an id the table lacks gets 404 with "Product with id N not found" from both get and delete. |
| Controller.MissingIdThroughTestTable | controller/product_controller.go:30-43 | Over the in-memory test table, a missing id gets 200 with an all-zero product, not 404. |
| Request.AddProductRequest.ToModel | controller/request/request.go:12-19 | Copies name, price, discount and store unchanged. |
| Request.UpdateProductRequest.ToModel | controller/request/request.go:29-37 | Copies the id and the four fields unchanged. |
| Request.AddToModelInjective | controller/request/request.go:12-19 | Distinct add requests give distinct models. |
| Request.UpdateToModelInjective | controller/request/request.go:29-37 | Distinct update requests give distinct models. |
| Response.GetProductByIdResponse.ToResponse | controller/response/response.go:17-25 | Copies the product's five fields. |
| Response.GetAllProductsResponse.ToResponse | controller/response/response.go:35-43 | Copies the product's five fields. |
| Response.ToResponseIgnoresReceiver | controller/response/response.go:17-35 | The result does not depend on the receiver value. |
| Response.ResponseShapesAgree | controller/response/response.go:9-43 | For one product, the single and list-entry replies agree on every field. |
| Response.ToResponseInjective | controller/response/response.go:17-43 | Distinct products give distinct replies. |

## Left out

- The pgx pool, `context.Background()` and row iteration are replaced by the injected outcomes above. The effect of INSERT and DELETE on the stored table is not modelled. The effect of UPDATE is modelled only by `Persistence.UpdateOverwritesGivenFields`.
- `common.NOT_FOUND`: its value is not part of the sources. The row outcome `NoRows` stands for the error whose text equals it. `RowFailed` stands for every other scan error.
- On an error, the repository's `GetProductById` also returns `domain.Product{}`. The model returns only the error.
- Logging (`log.Error`, `log.Info`) is a side effect only and is dropped.
- Echo plumbing is not modelled: route registration, `c.Bind` JSON decoding (an input `Bind` here), `c.JSON` and `NoContent` serialisation, and the `error` those return.
- The service layer is not part of this model's sources. Handlers take the service's answer as a function of the argument they pass it. The end-to-end lemmas state how that service is assumed to forward the repository's answer.
- Format.Atoi: does not model `strconv.Atoi`'s out-of-range error, so an over-long digit string parses to its exact value instead of the int64 bound Go clamps it to (the handlers discard the error and pass that bound on).
- Persistence.GetProductById: `int64` wrap-around of ids is not modelled, since the ids are unbounded integers.
- Persistence.BuildUpdate: `float32` is not modelled; price and discount are exact reals tested against zero, so -0 and NaN are not distinguished.
- FakeRepository.FakeProductRepository.DeleteProductById: does not model the Go splice writing into the caller's backing array, because `products` is a value sequence.
- FakeRepository.FakeProductRepository.UpdateProduct: does not model that `products[i] = product` writes into the backing array shared with the caller's `initialProducts`, because `products` is a value sequence.
- FakeRepository.FakeProductRepository.GetAllProducts: returns a value, so a later update or delete does not show through a result the caller already holds, as it does with Go's shared slice.
- Nil and empty slices are both the empty sequence. This covers the nil result of the fake's `GetAllProductsByStore` with no match, the nil result of `extractProductsForRows` with zero rows, and the `[]domain.Product{}` returned on a query or scan failure.
- Persistence.UpdateProduct: the exec outcome is an input not tied to the statement text. So the malformed no-field statement `UPDATE products SET WHERE id = $1` is allowed to succeed, although a real database rejects it and the call then ends in "Error while updating product with id N".
- The Go source writes the four field blocks of the UPDATE builder out one by one. Here they are one helper method, `Persistence.AddIfGiven`, called four times with a flag saying whether the field is given.
