/** The marketplace product filters of the products service: the same SKU
    split as `processApiResponse`, emitted in the service's own product
    shape for one store. */
module LazadaProducts {

  import opened Wrappers
  import opened ProductModels
  import opened ProductsService

  /** The service product built for a marketplace product before its SKUs
      are chosen: the store id argument, name and description from the
      attributes, the product images, no SKUs, zero quantity. */
  function ToProduct(p: ApiProduct, storeId: int): (r: Product)
    ensures r.itemId == p.itemId && r.storeId == storeId
    ensures r.name == p.attributes.name && r.description == p.attributes.description
    ensures r.images == p.images && r.skus == [] && r.quantity == 0
  {
    Product(p.itemId, storeId, p.attributes.name, p.attributes.description, p.images, [], 0)
  }

  /** What one product contributes to the mapped filter's output. */
  function LazadaMappedPart(p: ApiProduct, storeId: int, skusToRemove: map<string, bool>): seq<Product> {
    var removed := RemovedSkus(p.skus, skusToRemove);
    if |removed| > 0 then [ToProduct(p, storeId).(skus := removed)] else []
  }

  /** What one product contributes to the unmapped filter's output. */
  function LazadaUnmappedPart(p: ApiProduct, storeId: int, skusToRemove: map<string, bool>): seq<Product> {
    var remaining := RemainingSkus(p.skus, skusToRemove);
    if |remaining| > 0 then [ToProduct(p, storeId).(skus := remaining)] else []
  }

  function LazadaMapped(ps: seq<ApiProduct>, storeId: int, skusToRemove: map<string, bool>): seq<Product> {
    if ps == [] then []
    else LazadaMapped(ps[..|ps| - 1], storeId, skusToRemove) + LazadaMappedPart(ps[|ps| - 1], storeId, skusToRemove)
  }

  function LazadaUnmapped(ps: seq<ApiProduct>, storeId: int, skusToRemove: map<string, bool>): seq<Product> {
    if ps == [] then []
    else LazadaUnmapped(ps[..|ps| - 1], storeId, skusToRemove) + LazadaUnmappedPart(ps[|ps| - 1], storeId, skusToRemove)
  }

  /** One more product extends the mapped output by its own part. */
  lemma LazadaMappedStep(ps: seq<ApiProduct>, i: nat, storeId: int, skusToRemove: map<string, bool>)
    requires i < |ps|
    ensures LazadaMapped(ps[..i + 1], storeId, skusToRemove)
         == LazadaMapped(ps[..i], storeId, skusToRemove) + LazadaMappedPart(ps[i], storeId, skusToRemove)
  {
    assert ps[..i + 1][..i] == ps[..i];
  }

  /** One more product extends the unmapped output by its own part. */
  lemma LazadaUnmappedStep(ps: seq<ApiProduct>, i: nat, storeId: int, skusToRemove: map<string, bool>)
    requires i < |ps|
    ensures LazadaUnmapped(ps[..i + 1], storeId, skusToRemove)
         == LazadaUnmapped(ps[..i], storeId, skusToRemove) + LazadaUnmappedPart(ps[i], storeId, skusToRemove)
  {
    assert ps[..i + 1][..i] == ps[..i];
  }

  /** The SKU loop of the mapped filter: the SKUs the set maps to true, in order. */
  method KeepMappedSkus(skus: seq<Sku>, skusToRemove: map<string, bool>) returns (removedSkus: seq<Sku>)
    ensures removedSkus == RemovedSkus(skus, skusToRemove)
  {
    removedSkus := [];
    for j := 0 to |skus|
      invariant removedSkus == RemovedSkus(skus[..j], skusToRemove)
    {
      assert skus[..j + 1][..j] == skus[..j];
      if IsMapped(skusToRemove, skus[j]) {
        removedSkus := removedSkus + [skus[j]];
      }
    }
    assert skus[..|skus|] == skus;
  }

  /** The SKU loop of the unmapped filter: the other SKUs, in order. */
  method KeepUnmappedSkus(skus: seq<Sku>, skusToRemove: map<string, bool>) returns (remainingSkus: seq<Sku>)
    ensures remainingSkus == RemainingSkus(skus, skusToRemove)
  {
    remainingSkus := [];
    for j := 0 to |skus|
      invariant remainingSkus == RemainingSkus(skus[..j], skusToRemove)
    {
      assert skus[..j + 1][..j] == skus[..j];
      if !IsMapped(skusToRemove, skus[j]) {
        remainingSkus := remainingSkus + [skus[j]];
      }
    }
    assert skus[..|skus|] == skus;
  }

  /** The product loop of `filterLazadaMappedProducts`: each product with at least one
      SKU left contributes itself with its SKUs the set maps to true, and a list nothing is
      appended to stays nil. */
  method CollectMappedProducts(products: seq<ApiProduct>, storeId: int, skusToRemove: map<string, bool>)
    returns (mappedProducts: GoSlice<Product>)
    ensures mappedProducts == Appended(LazadaMapped(products, storeId, skusToRemove))
  {
    mappedProducts := Nil;
    for i := 0 to |products|
      invariant mappedProducts.Elems() == LazadaMapped(products[..i], storeId, skusToRemove)
      invariant mappedProducts.Nil? <==> mappedProducts.Elems() == []
    {
      var lazadaProduct := products[i];
      var product := ToProduct(lazadaProduct, storeId);
      var removedSkus := KeepMappedSkus(lazadaProduct.skus, skusToRemove);
      LazadaMappedStep(products, i, storeId, skusToRemove);
      if |removedSkus| > 0 {
        mappedProducts := Slice(mappedProducts.Elems() + [product.(skus := removedSkus)]);
      }
    }
    assert products[..|products|] == products;
  }

  /** `filterLazadaMappedProducts`. `marshalError` is the error re-encoding the response
      raised, if any; `decoded` is the product list decoded from that
      encoding, or the decoder's message. The result list is declared
      without a value, so it stays nil when no product qualifies. */
  method FilterLazadaMappedProducts(marshalError: Option<string>, decoded: Result<seq<ApiProduct>>, storeId: int,
                                     skusToRemove: map<string, bool>)
    returns (r: Result<GoSlice<Product>>)
    ensures marshalError.Some? ==> r == Err("failed to marshal response: " + marshalError.value)
    ensures marshalError.None? && decoded.Err? ==> r == Err("failed to unmarshal response: " + decoded.msg)
    ensures marshalError.None? && decoded.Ok? ==> r == Ok(Appended(LazadaMapped(decoded.value, storeId, skusToRemove)))
  {
    if marshalError.Some? {
      return Err("failed to marshal response: " + marshalError.value);
    }
    if decoded.Err? {
      return Err("failed to unmarshal response: " + decoded.msg);
    }
    var mappedProducts := CollectMappedProducts(decoded.value, storeId, skusToRemove);
    return Ok(mappedProducts);
  }

  /** The product loop of `filterLazadaUnmappedProducts`: each product with at least one
      SKU left contributes itself with its other SKUs, and a list nothing is
      appended to stays nil. */
  method CollectUnmappedProducts(products: seq<ApiProduct>, storeId: int, skusToRemove: map<string, bool>)
    returns (unmappedProducts: GoSlice<Product>)
    ensures unmappedProducts == Appended(LazadaUnmapped(products, storeId, skusToRemove))
  {
    unmappedProducts := Nil;
    for i := 0 to |products|
      invariant unmappedProducts.Elems() == LazadaUnmapped(products[..i], storeId, skusToRemove)
      invariant unmappedProducts.Nil? <==> unmappedProducts.Elems() == []
    {
      var lazadaProduct := products[i];
      var product := ToProduct(lazadaProduct, storeId);
      var remainingSkus := KeepUnmappedSkus(lazadaProduct.skus, skusToRemove);
      LazadaUnmappedStep(products, i, storeId, skusToRemove);
      if |remainingSkus| > 0 {
        unmappedProducts := Slice(unmappedProducts.Elems() + [product.(skus := remainingSkus)]);
      }
    }
    assert products[..|products|] == products;
  }

  /** `filterLazadaUnmappedProducts`. `marshalError` is the error re-encoding the response
      raised, if any; `decoded` is the product list decoded from that
      encoding, or the decoder's message. The result list is declared
      without a value, so it stays nil when no product qualifies. */
  method FilterLazadaUnmappedProducts(marshalError: Option<string>, decoded: Result<seq<ApiProduct>>, storeId: int,
                                     skusToRemove: map<string, bool>)
    returns (r: Result<GoSlice<Product>>)
    ensures marshalError.Some? ==> r == Err("failed to marshal response: " + marshalError.value)
    ensures marshalError.None? && decoded.Err? ==> r == Err("failed to unmarshal response: " + decoded.msg)
    ensures marshalError.None? && decoded.Ok? ==> r == Ok(Appended(LazadaUnmapped(decoded.value, storeId, skusToRemove)))
  {
    if marshalError.Some? {
      return Err("failed to marshal response: " + marshalError.value);
    }
    if decoded.Err? {
      return Err("failed to unmarshal response: " + decoded.msg);
    }
    var unmappedProducts := CollectUnmappedProducts(decoded.value, storeId, skusToRemove);
    return Ok(unmappedProducts);
  }

  // ---- properties ----

  /** Re-shapes marketplace products as the store's products, keeping
      their SKU lists. */
  function AsStoreProducts(xs: seq<ApiProduct>, storeId: int): seq<Product> {
    if xs == [] then []
    else AsStoreProducts(xs[..|xs| - 1], storeId) + [ToProduct(xs[|xs| - 1], storeId).(skus := xs[|xs| - 1].skus)]
  }

  lemma {:induction false} AsStoreProductsAppend(a: seq<ApiProduct>, b: seq<ApiProduct>, storeId: int)
    ensures AsStoreProducts(a + b, storeId) == AsStoreProducts(a, storeId) + AsStoreProducts(b, storeId)
    decreases |b|
  {
    if b == [] {
      assert a + b == a;
    } else {
      var n := |b| - 1;
      AsStoreProductsAppend(a, b[..n], storeId);
      assert (a + b)[..|a + b| - 1] == a + b[..n];
    }
  }

  /** The two filters emit exactly the products `processApiResponse` puts
      on the same side, in the same order, re-shaped for the store. */
  lemma {:induction false} FiltersAgreeWithPartition(ps: seq<ApiProduct>, storeId: int, skusToRemove: map<string, bool>)
    ensures LazadaMapped(ps, storeId, skusToRemove) == AsStoreProducts(MappedProducts(ps, skusToRemove), storeId)
    ensures LazadaUnmapped(ps, storeId, skusToRemove) == AsStoreProducts(UnmappedProducts(ps, skusToRemove), storeId)
  {
    if ps != [] {
      var n := |ps| - 1;
      var p := ps[n];
      FiltersAgreeWithPartition(ps[..n], storeId, skusToRemove);
      AsStoreProductsAppend(MappedProducts(ps[..n], skusToRemove), MappedPart(p, skusToRemove), storeId);
      AsStoreProductsAppend(UnmappedProducts(ps[..n], skusToRemove), UnmappedPart(p, skusToRemove), storeId);
      assert AsStoreProducts(MappedPart(p, skusToRemove), storeId) == LazadaMappedPart(p, storeId, skusToRemove) by {
        if MappedPart(p, skusToRemove) != [] {
          assert MappedPart(p, skusToRemove)[..0] == [];
        }
      }
      assert AsStoreProducts(UnmappedPart(p, skusToRemove), storeId) == LazadaUnmappedPart(p, storeId, skusToRemove) by {
        if UnmappedPart(p, skusToRemove) != [] {
          assert UnmappedPart(p, skusToRemove)[..0] == [];
        }
      }
    }
  }

  /** Every emitted product carries the store id and the attributes of a
      product of the response, and at least one of that product's SKUs,
      all of them in the set. */
  lemma {:induction false} MappedEmitted(ps: seq<ApiProduct>, storeId: int, skusToRemove: map<string, bool>, x: Product)
    requires x in LazadaMapped(ps, storeId, skusToRemove)
    ensures x.storeId == storeId && x.skus != []
    ensures exists i :: 0 <= i < |ps| && x == ToProduct(ps[i], storeId).(skus := RemovedSkus(ps[i].skus, skusToRemove))
    ensures forall s :: s in x.skus ==> IsMapped(skusToRemove, s)
  {
    var n := |ps| - 1;
    if x in LazadaMapped(ps[..n], storeId, skusToRemove) {
      MappedEmitted(ps[..n], storeId, skusToRemove, x);
      var i :| 0 <= i < n && x == ToProduct(ps[..n][i], storeId).(skus := RemovedSkus(ps[..n][i].skus, skusToRemove));
      assert ps[..n][i] == ps[i];
    } else {
      assert x == ToProduct(ps[n], storeId).(skus := RemovedSkus(ps[n].skus, skusToRemove));
      forall s | s in x.skus ensures IsMapped(skusToRemove, s) {
        RemovedSkusMembers(ps[n].skus, skusToRemove, s);
      }
    }
  }

  /** The same for the unmapped filter: all emitted SKUs are outside the set. */
  lemma {:induction false} UnmappedEmitted(ps: seq<ApiProduct>, storeId: int, skusToRemove: map<string, bool>, x: Product)
    requires x in LazadaUnmapped(ps, storeId, skusToRemove)
    ensures x.storeId == storeId && x.skus != []
    ensures exists i :: 0 <= i < |ps| && x == ToProduct(ps[i], storeId).(skus := RemainingSkus(ps[i].skus, skusToRemove))
    ensures forall s :: s in x.skus ==> !IsMapped(skusToRemove, s)
  {
    var n := |ps| - 1;
    if x in LazadaUnmapped(ps[..n], storeId, skusToRemove) {
      UnmappedEmitted(ps[..n], storeId, skusToRemove, x);
      var i :| 0 <= i < n && x == ToProduct(ps[..n][i], storeId).(skus := RemainingSkus(ps[..n][i].skus, skusToRemove));
      assert ps[..n][i] == ps[i];
    } else {
      assert x == ToProduct(ps[n], storeId).(skus := RemainingSkus(ps[n].skus, skusToRemove));
      forall s | s in x.skus ensures !IsMapped(skusToRemove, s) {
        RemainingSkusMembers(ps[n].skus, skusToRemove, s);
      }
    }
  }

  /** All SKUs of a list of service products, product by product. */
  function ProductSkus(ps: seq<Product>): seq<Sku> {
    if ps == [] then [] else ProductSkus(ps[..|ps| - 1]) + ps[|ps| - 1].skus
  }

  lemma {:induction false} AsStoreProductsSkus(xs: seq<ApiProduct>, storeId: int)
    ensures ProductSkus(AsStoreProducts(xs, storeId)) == SkusOf(xs)
  {
    if xs != [] {
      var n := |xs| - 1;
      AsStoreProductsSkus(xs[..n], storeId);
      var ys := AsStoreProducts(xs, storeId);
      assert ys[..|ys| - 1] == AsStoreProducts(xs[..n], storeId);
    }
  }

  /** Between them the two filters emit every SKU of the response exactly
      as often as it occurs there. */
  lemma FilterSkusPreserved(ps: seq<ApiProduct>, storeId: int, skusToRemove: map<string, bool>)
    ensures multiset(ProductSkus(LazadaUnmapped(ps, storeId, skusToRemove)))
            + multiset(ProductSkus(LazadaMapped(ps, storeId, skusToRemove)))
            == multiset(SkusOf(ps))
  {
    FiltersAgreeWithPartition(ps, storeId, skusToRemove);
    AsStoreProductsSkus(UnmappedProducts(ps, skusToRemove), storeId);
    AsStoreProductsSkus(MappedProducts(ps, skusToRemove), storeId);
    SkusPreserved(ps, skusToRemove);
  }
}
