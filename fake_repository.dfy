/**
 * The in-memory product table used by the service tests: a slice of products
 * that is filtered, appended to, searched, spliced and overwritten in place.
 * The slice is a value sequence here, so sharing its backing array with the
 * caller (the splice and the indexed write, and the live slice handed out by
 * GetAllProducts) is not modelled.
 */
module FakeRepository {
  import opened Wrappers
  import opened Domain

  /** `s` without its first product carrying `id`; `s` itself when there is none. */
  function RemoveFirst(s: seq<Product>, id: int): (r: seq<Product>)
    ensures |s| - 1 <= |r| <= |s|
    ensures forall q :: q in r ==> q in s
  {
    if s == [] then []
    else if s[0].id == id then s[1..]
    else [s[0]] + RemoveFirst(s[1..], id)
  }

  /** `s` with its first product carrying `product.id` replaced by `product`. */
  function ReplaceFirst(s: seq<Product>, product: Product): (r: seq<Product>)
    ensures |r| == |s|
    ensures forall i :: 0 <= i < |s| ==> r[i] == s[i] || r[i] == product
  {
    if s == [] then []
    else if s[0].id == product.id then [product] + s[1..]
    else [s[0]] + ReplaceFirst(s[1..], product)
  }

  /** Removing at the first match is cutting that one position out of the slice. */
  lemma {:induction false} RemoveFirstIsSplice(s: seq<Product>, id: int, i: nat)
    requires i < |s| && s[i].id == id
    requires forall j :: 0 <= j < i ==> s[j].id != id
    ensures RemoveFirst(s, id) == s[..i] + s[i + 1..]
  {
    if i > 0 {
      RemoveFirstIsSplice(s[1..], id, i - 1);
      assert s[..i] == [s[0]] + s[1..][..i - 1];
      assert s[i + 1..] == s[1..][i..];
    }
  }

  /** With no product carrying `id` nothing is removed. */
  lemma {:induction false} RemoveFirstAbsent(s: seq<Product>, id: int)
    requires forall j :: 0 <= j < |s| ==> s[j].id != id
    ensures RemoveFirst(s, id) == s
  {
    if s != [] {
      RemoveFirstAbsent(s[1..], id);
      assert s == [s[0]] + s[1..];
    }
  }

  /** Replacing at the first match is one indexed assignment. */
  lemma {:induction false} ReplaceFirstIsUpdate(s: seq<Product>, product: Product, i: nat)
    requires i < |s| && s[i].id == product.id
    requires forall j :: 0 <= j < i ==> s[j].id != product.id
    ensures ReplaceFirst(s, product) == s[i := product]
  {
    if i > 0 {
      ReplaceFirstIsUpdate(s[1..], product, i - 1);
      assert s[i := product] == [s[0]] + s[1..][i - 1 := product];
    } else {
      assert s[i := product] == [product] + s[1..];
    }
  }

  /** With no product carrying `product.id` nothing is replaced. */
  lemma {:induction false} ReplaceFirstAbsent(s: seq<Product>, product: Product)
    requires forall j :: 0 <= j < |s| ==> s[j].id != product.id
    ensures ReplaceFirst(s, product) == s
  {
    if s != [] {
      ReplaceFirstAbsent(s[1..], product);
      assert s == [s[0]] + s[1..];
    }
  }

  /**
   * Deleting removes exactly one occurrence of `id` when there is one, so the
   * table shrinks by one, and leaves the count of every other id unchanged.
   */
  lemma {:induction false} RemoveFirstCounts(s: seq<Product>, id: int, other: int)
    requires other != id
    ensures CountId(s, id) > 0 ==> CountId(RemoveFirst(s, id), id) == CountId(s, id) - 1 && |RemoveFirst(s, id)| == |s| - 1
    ensures CountId(s, id) == 0 ==> RemoveFirst(s, id) == s
    ensures CountId(RemoveFirst(s, id), other) == CountId(s, other)
  {
    if s != [] {
      RemoveFirstCounts(s[1..], id, other);
      if s[0].id != id {
        CountIdAppend([s[0]], RemoveFirst(s[1..], id), id);
        CountIdAppend([s[0]], RemoveFirst(s[1..], id), other);
        assert ([s[0]] + RemoveFirst(s[1..], id))[1..] == RemoveFirst(s[1..], id);
      }
    }
  }

  /** Replacing keeps the length; afterwards looking the id up yields the new product. */
  lemma {:induction false} ReplaceFirstThenLookup(s: seq<Product>, product: Product)
    ensures |ReplaceFirst(s, product)| == |s|
    ensures FindFirst(s, product.id).Some? ==> Lookup(ReplaceFirst(s, product), product.id) == product
    ensures FindFirst(s, product.id).None? ==> ReplaceFirst(s, product) == s
  {
    if s != [] && s[0].id != product.id {
      ReplaceFirstThenLookup(s[1..], product);
      assert ([s[0]] + ReplaceFirst(s[1..], product))[1..] == ReplaceFirst(s[1..], product);
    }
  }

  /** A replacement is a full overwrite that no other id can observe. */
  lemma {:induction false} ReplaceFirstKeepsOtherLookups(s: seq<Product>, product: Product, other: int)
    requires other != product.id
    ensures Lookup(ReplaceFirst(s, product), other) == Lookup(s, other)
  {
    if s != [] {
      ReplaceFirstKeepsOtherLookups(s[1..], product, other);
      var r := ReplaceFirst(s, product);
      if s[0].id == product.id {
        assert r[1..] == s[1..];
      } else {
        assert r[1..] == ReplaceFirst(s[1..], product);
      }
    }
  }

  /** Appending a product does not change what any other id looks up to. */
  lemma {:induction false} LookupAppendOther(s: seq<Product>, q: Product, id: int)
    requires q.id != id
    ensures Lookup(s + [q], id) == Lookup(s, id)
  {
    if s == [] {
      assert ([q])[1..] == [];
    } else {
      LookupAppendOther(s[1..], q, id);
      assert (s + [q])[1..] == s[1..] + [q];
    }
  }

  /** An appended product is found under its id when no earlier product carries that id. */
  lemma {:induction false} LookupAppendNew(s: seq<Product>, q: Product)
    requires forall j :: 0 <= j < |s| ==> s[j].id != q.id
    ensures Lookup(s + [q], q.id) == q
  {
    if s == [] {
      assert [q][0] == q;
    } else {
      LookupAppendNew(s[1..], q);
      assert (s + [q])[1..] == s[1..] + [q];
    }
  }

  /**
   * Because new ids are `length + 1`, an id freed by a delete can be handed out
   * again while another product still carries it.
   */
  lemma AddAfterDeleteCanReuseId()
    ensures var s := [ZeroProduct.(id := 1), ZeroProduct.(id := 2)];
            var afterDelete := RemoveFirst(s, 1);
            var afterAdd := afterDelete + [ZeroProduct.(id := |afterDelete| + 1)];
            CountId(afterAdd, 2) == 2
  {
    var s := [ZeroProduct.(id := 1), ZeroProduct.(id := 2)];
    var kept := ZeroProduct.(id := 2);
    assert s[1..] == [kept];
    assert RemoveFirst(s, 1) == [kept];
    var afterAdd := [kept, kept];
    assert afterAdd[1..] == [kept] && [kept][1..] == [];
    assert CountId([kept], 2) == 1;
  }

  class FakeProductRepository {
    var products: seq<Product>

    constructor (initialProducts: seq<Product>)
      ensures products == initialProducts
    {
      products := initialProducts;
    }

    /** The stored table, as it is. */
    method GetAllProducts() returns (r: seq<Product>)
      ensures r == products
    {
      r := products;
    }

    /** The stored products of one store, in stored order. */
    method GetAllProductsByStore(storeName: string) returns (r: seq<Product>)
      ensures r == FilterByStore(products, storeName)
    {
      r := [];
      var i := 0;
      while i < |products|
        invariant 0 <= i <= |products|
        invariant r == FilterByStore(products[..i], storeName)
      {
        var product := products[i];
        if product.store == storeName {
          r := r + [product];
        }
        FilterByStoreAppend(products[..i], [product], storeName);
        assert products[..i + 1] == products[..i] + [product];
        i := i + 1;
      }
      assert products[..i] == products;
    }

    /** Appends the product under the id `length + 1`; never fails. */
    method AddProduct(product: Product) returns (err: Option<string>)
      modifies this
      ensures products == old(products) + [product.(id := |old(products)| + 1)]
      ensures err == None
    {
      var numbered := product.(id := |products| + 1);
      products := products + [numbered];
      err := None;
    }

    /** The first product carrying the id, or the zero product; never fails. */
    method GetProductById(productId: int) returns (product: Product, err: Option<string>)
      ensures product == Lookup(products, productId)
      ensures err == None
    {
      var i := 0;
      while i < |products|
        invariant 0 <= i <= |products|
        invariant forall j :: 0 <= j < i ==> products[j].id != productId
      {
        if products[i].id == productId {
          assert FindFirst(products, productId) == Some(i);
          return products[i], None;
        }
        i := i + 1;
      }
      return ZeroProduct, None;
    }

    /** Cuts the first product carrying the id out of the table; never fails. */
    method DeleteProductById(productId: int) returns (err: Option<string>)
      modifies this
      ensures products == RemoveFirst(old(products), productId)
      ensures err == None
    {
      var i := 0;
      while i < |products|
        invariant 0 <= i <= |products|
        invariant forall j :: 0 <= j < i ==> products[j].id != productId
      {
        if products[i].id == productId {
          RemoveFirstIsSplice(products, productId, i);
          products := products[..i] + products[i + 1..];
          return None;
        }
        i := i + 1;
      }
      RemoveFirstAbsent(products, productId);
      return None;
    }

    /** Overwrites the first product carrying the argument's id with the whole argument; never fails. */
    method UpdateProduct(product: Product) returns (err: Option<string>)
      modifies this
      ensures products == ReplaceFirst(old(products), product)
      ensures err == None
    {
      var i := 0;
      while i < |products|
        invariant 0 <= i <= |products|
        invariant forall j :: 0 <= j < i ==> products[j].id != product.id
      {
        if products[i].id == product.id {
          ReplaceFirstIsUpdate(products, product, i);
          products := products[i := product];
          return None;
        }
        i := i + 1;
      }
      ReplaceFirstAbsent(products, product);
      return None;
    }
  }
}
