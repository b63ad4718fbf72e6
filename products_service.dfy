/** The products service: splitting each marketplace product's SKUs into
    those already mapped to a store product (their `ShopSku` is in the
    store's SKU set) and those not yet mapped, and validating an insert
    request. */
module ProductsService {

  import opened Wrappers
  import opened ProductModels

  /** `skusToRemove[sku.ShopSku]`: a missing key reads as false. */
  predicate IsMapped(skusToRemove: map<string, bool>, sku: Sku) {
    sku.shopSku in skusToRemove && skusToRemove[sku.shopSku]
  }

  /** The SKUs in the set, in order. */
  function RemovedSkus(skus: seq<Sku>, skusToRemove: map<string, bool>): seq<Sku> {
    if skus == [] then []
    else RemovedSkus(skus[..|skus| - 1], skusToRemove)
         + (if IsMapped(skusToRemove, skus[|skus| - 1]) then [skus[|skus| - 1]] else [])
  }

  /** The SKUs not in the set, in order. */
  function RemainingSkus(skus: seq<Sku>, skusToRemove: map<string, bool>): seq<Sku> {
    if skus == [] then []
    else RemainingSkus(skus[..|skus| - 1], skusToRemove)
         + (if IsMapped(skusToRemove, skus[|skus| - 1]) then [] else [skus[|skus| - 1]])
  }

  /** What one product contributes to `unmapped_products`. */
  function UnmappedPart(p: ApiProduct, skusToRemove: map<string, bool>): seq<ApiProduct> {
    var remaining := RemainingSkus(p.skus, skusToRemove);
    if |remaining| > 0 then [p.(skus := remaining)] else []
  }

  /** What one product contributes to `mapped_products`. */
  function MappedPart(p: ApiProduct, skusToRemove: map<string, bool>): seq<ApiProduct> {
    var removed := RemovedSkus(p.skus, skusToRemove);
    if |removed| > 0 then [p.(skus := removed)] else []
  }

  function UnmappedProducts(ps: seq<ApiProduct>, skusToRemove: map<string, bool>): seq<ApiProduct> {
    if ps == [] then []
    else UnmappedProducts(ps[..|ps| - 1], skusToRemove) + UnmappedPart(ps[|ps| - 1], skusToRemove)
  }

  function MappedProducts(ps: seq<ApiProduct>, skusToRemove: map<string, bool>): seq<ApiProduct> {
    if ps == [] then []
    else MappedProducts(ps[..|ps| - 1], skusToRemove) + MappedPart(ps[|ps| - 1], skusToRemove)
  }

  /** The two lists `processApiResponse` returns under "unmapped_products"
      and "mapped_products". */
  datatype Partition = Partition(unmappedProducts: GoSlice<ApiProduct>, mappedProducts: GoSlice<ApiProduct>)

  /** One more product extends each output list by that product's part. */
  lemma PartitionStep(ps: seq<ApiProduct>, i: nat, skusToRemove: map<string, bool>)
    requires i < |ps|
    ensures UnmappedProducts(ps[..i + 1], skusToRemove) == UnmappedProducts(ps[..i], skusToRemove) + UnmappedPart(ps[i], skusToRemove)
    ensures MappedProducts(ps[..i + 1], skusToRemove) == MappedProducts(ps[..i], skusToRemove) + MappedPart(ps[i], skusToRemove)
  {
    assert ps[..i + 1][..i] == ps[..i];
  }

  /** The inner loop of `processApiResponse`: each SKU of a product goes to
      the removed list when the set maps it to true, otherwise to the
      remaining list. */
  method SplitSkus(skus: seq<Sku>, skusToRemove: map<string, bool>) returns (remainingSkus: seq<Sku>, removedSkus: seq<Sku>)
    ensures remainingSkus == RemainingSkus(skus, skusToRemove)
    ensures removedSkus == RemovedSkus(skus, skusToRemove)
  {
    remainingSkus, removedSkus := [], [];
    for j := 0 to |skus|
      invariant remainingSkus == RemainingSkus(skus[..j], skusToRemove)
      invariant removedSkus == RemovedSkus(skus[..j], skusToRemove)
    {
      var sku := skus[j];
      assert skus[..j + 1][..j] == skus[..j];
      if sku.shopSku in skusToRemove && skusToRemove[sku.shopSku] {
        removedSkus := removedSkus + [sku];
      } else {
        remainingSkus := remainingSkus + [sku];
      }
    }
    assert skus[..|skus|] == skus;
  }

  /** The product loop of `processApiResponse`: each product contributes its
      remaining SKUs to the first list and its removed SKUs to the second,
      and a list nothing is appended to stays nil. */
  method PartitionProducts(products: seq<ApiProduct>, skusToRemove: map<string, bool>)
    returns (unmappedProducts: GoSlice<ApiProduct>, mappedProducts: GoSlice<ApiProduct>)
    ensures unmappedProducts == Appended(UnmappedProducts(products, skusToRemove))
    ensures mappedProducts == Appended(MappedProducts(products, skusToRemove))
  {
    unmappedProducts, mappedProducts := Nil, Nil;
    for i := 0 to |products|
      invariant unmappedProducts.Elems() == UnmappedProducts(products[..i], skusToRemove)
      invariant unmappedProducts.Nil? <==> unmappedProducts.Elems() == []
      invariant mappedProducts.Elems() == MappedProducts(products[..i], skusToRemove)
      invariant mappedProducts.Nil? <==> mappedProducts.Elems() == []
    {
      var product := products[i];
      var remainingSkus, removedSkus := SplitSkus(product.skus, skusToRemove);
      PartitionStep(products, i, skusToRemove);
      if |remainingSkus| > 0 {
        unmappedProducts := Slice(unmappedProducts.Elems() + [product.(skus := remainingSkus)]);
      }
      if |removedSkus| > 0 {
        mappedProducts := Slice(mappedProducts.Elems() + [product.(skus := removedSkus)]);
      }
    }
    assert products[..|products|] == products;
  }

  /** `processApiResponse`. `marshalError` is the error re-encoding the
      response raised, if any; `decoded` is the product list decoded from
      that encoding, or the decoder's message. Both lists are declared
      without a value, so a list no product contributes to stays nil. */
  method ProcessApiResponse(marshalError: Option<string>, decoded: Result<seq<ApiProduct>>,
                            skusToRemove: map<string, bool>)
    returns (r: Result<Partition>)
    ensures marshalError.Some? ==> r == Err("failed to marshal response: " + marshalError.value)
    ensures marshalError.None? && decoded.Err? ==> r == Err("failed to unmarshal response: " + decoded.msg)
    ensures marshalError.None? && decoded.Ok? ==>
              r == Ok(Partition(Appended(UnmappedProducts(decoded.value, skusToRemove)),
                                Appended(MappedProducts(decoded.value, skusToRemove))))
  {
    if marshalError.Some? {
      return Err("failed to marshal response: " + marshalError.value);
    }
    if decoded.Err? {
      return Err("failed to unmarshal response: " + decoded.msg);
    }
    var unmappedProducts, mappedProducts := PartitionProducts(decoded.value, skusToRemove);
    return Ok(Partition(unmappedProducts, mappedProducts));
  }

  // ---- properties of the partition ----

  /** Every SKU goes to exactly one side, and together the sides hold each
      SKU as often as the product does. */
  lemma {:induction false} SkuPartition(skus: seq<Sku>, skusToRemove: map<string, bool>)
    ensures multiset(RemainingSkus(skus, skusToRemove)) + multiset(RemovedSkus(skus, skusToRemove)) == multiset(skus)
  {
    if skus != [] {
      var init, last := skus[..|skus| - 1], skus[|skus| - 1];
      SkuPartition(init, skusToRemove);
      assert skus == init + [last];
      assert multiset(skus) == multiset(init) + multiset{last};
    }
  }

  /** A SKU is removed exactly when it is in the set. */
  lemma {:induction false} RemovedSkusMembers(skus: seq<Sku>, skusToRemove: map<string, bool>, s: Sku)
    ensures s in RemovedSkus(skus, skusToRemove) <==> s in skus && IsMapped(skusToRemove, s)
  {
    if skus != [] {
      var init, last := skus[..|skus| - 1], skus[|skus| - 1];
      RemovedSkusMembers(init, skusToRemove, s);
      assert skus == init + [last];
    }
  }

  /** A SKU remains exactly when it is not in the set. */
  lemma {:induction false} RemainingSkusMembers(skus: seq<Sku>, skusToRemove: map<string, bool>, s: Sku)
    ensures s in RemainingSkus(skus, skusToRemove) <==> s in skus && !IsMapped(skusToRemove, s)
  {
    if skus != [] {
      var init, last := skus[..|skus| - 1], skus[|skus| - 1];
      RemainingSkusMembers(init, skusToRemove, s);
      assert skus == init + [last];
    }
  }

  /** A product appears in `unmapped_products` exactly when one of its SKUs
      is not in the set, and in `mapped_products` exactly when one is. */
  lemma ProductSides(p: ApiProduct, skusToRemove: map<string, bool>)
    ensures UnmappedPart(p, skusToRemove) != [] <==> exists s :: s in p.skus && !IsMapped(skusToRemove, s)
    ensures MappedPart(p, skusToRemove) != [] <==> exists s :: s in p.skus && IsMapped(skusToRemove, s)
  {
    var remaining := RemainingSkus(p.skus, skusToRemove);
    var removed := RemovedSkus(p.skus, skusToRemove);
    forall s ensures s in remaining <==> s in p.skus && !IsMapped(skusToRemove, s) {
      RemainingSkusMembers(p.skus, skusToRemove, s);
    }
    forall s ensures s in removed <==> s in p.skus && IsMapped(skusToRemove, s) {
      RemovedSkusMembers(p.skus, skusToRemove, s);
    }
    if |remaining| > 0 {
      assert remaining[0] in remaining;
    }
    if |removed| > 0 {
      assert removed[0] in removed;
    }
  }

  /** An emitted product is an input product with only its SKU list
      replaced by its non-empty remaining (or removed) SKUs. */
  lemma {:induction false} EmittedProducts(ps: seq<ApiProduct>, skusToRemove: map<string, bool>, x: ApiProduct)
    ensures x in UnmappedProducts(ps, skusToRemove) ==>
              exists i :: 0 <= i < |ps| && x == ps[i].(skus := RemainingSkus(ps[i].skus, skusToRemove)) && x.skus != []
    ensures x in MappedProducts(ps, skusToRemove) ==>
              exists i :: 0 <= i < |ps| && x == ps[i].(skus := RemovedSkus(ps[i].skus, skusToRemove)) && x.skus != []
  {
    if ps != [] {
      var n := |ps| - 1;
      EmittedProducts(ps[..n], skusToRemove, x);
      if x in UnmappedProducts(ps[..n], skusToRemove) {
        var i :| 0 <= i < n && x == ps[..n][i].(skus := RemainingSkus(ps[..n][i].skus, skusToRemove)) && x.skus != [];
        assert ps[i] == ps[..n][i];
      }
      if x in MappedProducts(ps[..n], skusToRemove) {
        var i :| 0 <= i < n && x == ps[..n][i].(skus := RemovedSkus(ps[..n][i].skus, skusToRemove)) && x.skus != [];
        assert ps[i] == ps[..n][i];
      }
    }
  }

  /** All SKUs of a product list, product by product. */
  function SkusOf(ps: seq<ApiProduct>): seq<Sku> {
    if ps == [] then [] else SkusOf(ps[..|ps| - 1]) + ps[|ps| - 1].skus
  }

  lemma PartSkus(p: ApiProduct, skusToRemove: map<string, bool>)
    ensures SkusOf(UnmappedPart(p, skusToRemove)) == RemainingSkus(p.skus, skusToRemove)
    ensures SkusOf(MappedPart(p, skusToRemove)) == RemovedSkus(p.skus, skusToRemove)
  {
    var u, m := UnmappedPart(p, skusToRemove), MappedPart(p, skusToRemove);
    if u != [] {
      assert SkusOf(u) == SkusOf(u[..0]) + u[0].skus;
    }
    if m != [] {
      assert SkusOf(m) == SkusOf(m[..0]) + m[0].skus;
    }
  }

  /** Across both outputs the SKUs are exactly the input SKUs, each as often. */
  lemma {:induction false} SkusPreserved(ps: seq<ApiProduct>, skusToRemove: map<string, bool>)
    ensures multiset(SkusOf(UnmappedProducts(ps, skusToRemove))) + multiset(SkusOf(MappedProducts(ps, skusToRemove)))
            == multiset(SkusOf(ps))
  {
    if ps != [] {
      var n := |ps| - 1;
      var p := ps[n];
      var u0, m0 := UnmappedProducts(ps[..n], skusToRemove), MappedProducts(ps[..n], skusToRemove);
      SkusPreserved(ps[..n], skusToRemove);
      SkuPartition(p.skus, skusToRemove);
      PartSkus(p, skusToRemove);
      SkusOfAppend(u0, UnmappedPart(p, skusToRemove));
      SkusOfAppend(m0, MappedPart(p, skusToRemove));
      assert SkusOf(ps) == SkusOf(ps[..n]) + p.skus;
      assert multiset(SkusOf(UnmappedProducts(ps, skusToRemove)))
             == multiset(SkusOf(u0)) + multiset(RemainingSkus(p.skus, skusToRemove));
      assert multiset(SkusOf(MappedProducts(ps, skusToRemove)))
             == multiset(SkusOf(m0)) + multiset(RemovedSkus(p.skus, skusToRemove));
    }
  }

  lemma {:induction false} SkusOfAppend(a: seq<ApiProduct>, b: seq<ApiProduct>)
    ensures SkusOf(a + b) == SkusOf(a) + SkusOf(b)
    decreases |b|
  {
    if b == [] {
      assert a + b == a;
    } else {
      var n := |b| - 1;
      SkusOfAppend(a, b[..n]);
      assert (a + b)[..|a + b| - 1] == a + b[..n];
    }
  }

  // ---- request validation ----

  /** `ParseProductRequest`: a body that does not decode is an error; a
      request without a store id or without products is rejected. */
  function ParseProductRequest(decoded: Result<ProductRequest>): (r: Result<ProductRequest>)
    ensures decoded.Err? ==> r == decoded
    ensures decoded.Ok? ==> (r.Ok? <==> decoded.value.storeId != 0 && |decoded.value.products| > 0)
    ensures r.Ok? ==> r == decoded
    ensures decoded.Ok? && r.Err? ==> r.msg == "store_id and products are required"
  {
    match decoded
    case Err(e) => Err(e)
    case Ok(req) =>
      if req.storeId == 0 || |req.products| == 0 then Err("store_id and products are required")
      else Ok(req)
  }
}
