/**
 * The product record shared by the repository, the service and the API layer.
 * Go's int64 identifier is an unbounded `int`; the float32 price and discount
 * are `real`s, only ever copied or compared with zero.
 */
module Domain {
  import opened Wrappers

  datatype Product = Product(id: int, name: string, price: real, discount: real, store: string)

  /** Go's zero value `domain.Product{}`. */
  const ZeroProduct := Product(0, "", 0.0, 0.0, "")

  /** The position of the first product carrying `id`, if any. */
  function FindFirst(s: seq<Product>, id: int): (r: Option<nat>)
    ensures r.Some? ==> r.value < |s| && s[r.value].id == id
    ensures r.Some? ==> forall j :: 0 <= j < r.value ==> s[j].id != id
    ensures r.None? <==> forall j :: 0 <= j < |s| ==> s[j].id != id
  {
    if s == [] then None
    else if s[0].id == id then Some(0)
    else match FindFirst(s[1..], id)
      case None => None
      case Some(k) => Some(k + 1)
  }

  /** The first product carrying `id`, or the zero product when none does. */
  function Lookup(s: seq<Product>, id: int): (r: Product)
    ensures FindFirst(s, id).Some? ==> r == s[FindFirst(s, id).value]
    ensures FindFirst(s, id).None? ==> r == ZeroProduct
  {
    if s == [] then ZeroProduct
    else if s[0].id == id then s[0]
    else Lookup(s[1..], id)
  }

  /** The products of `s` whose store is `store`, in the order of `s`. */
  function FilterByStore(s: seq<Product>, store: string): (r: seq<Product>)
    ensures |r| <= |s|
    ensures forall p :: p in r <==> p in s && p.store == store
  {
    if s == [] then []
    else (if s[0].store == store then [s[0]] else []) + FilterByStore(s[1..], store)
  }

  /** How many products of `s` carry `id`. */
  function CountId(s: seq<Product>, id: int): nat {
    if s == [] then 0 else (if s[0].id == id then 1 else 0) + CountId(s[1..], id)
  }

  /** Filtering distributes over concatenation, so it keeps the relative order. */
  lemma {:induction false} FilterByStoreAppend(a: seq<Product>, b: seq<Product>, store: string)
    ensures FilterByStore(a + b, store) == FilterByStore(a, store) + FilterByStore(b, store)
  {
    if a != [] {
      assert (a + b)[1..] == a[1..] + b;
      FilterByStoreAppend(a[1..], b, store);
    } else {
      assert a + b == b;
    }
  }

  lemma {:induction false} CountIdAppend(a: seq<Product>, b: seq<Product>, id: int)
    ensures CountId(a + b, id) == CountId(a, id) + CountId(b, id)
  {
    if a != [] {
      assert (a + b)[1..] == a[1..] + b;
      CountIdAppend(a[1..], b, id);
    } else {
      assert a + b == b;
    }
  }

  /** An identifier no product carries is counted zero times. */
  lemma {:induction false} CountIdAbsent(s: seq<Product>, id: int)
    requires forall j :: 0 <= j < |s| ==> s[j].id != id
    ensures CountId(s, id) == 0
  {
    if s != [] {
      CountIdAbsent(s[1..], id);
    }
  }
}
