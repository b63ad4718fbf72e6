/** The products repository over abstract tables: `storeproduct` (a
    sequence of rows in table order), `stockitem` (keyed by id) and `store`.
    Every database call that can fail is a step the `dbError` argument may
    answer with an error message. */
module ProductsRepository {

  import opened Wrappers
  import opened ProductModels

  /** A `storeproduct` row; `media_url` holds the JSON text of the image list. */
  datatype ProductRow = ProductRow(id: int, storeId: int, stockItemId: int, price: real, discountedPrice: real,
                                   sku: string, currency: string, status: string, mediaUrl: string)

  /** The `stockitem` columns the repository reads. */
  datatype StockItemRow = StockItemRow(refPrice: real, refCost: real, quantity: int)

  /** A `store` row. */
  datatype StoreRow = StoreRow(id: int, companyId: int, platform: string)

  /** The database calls that can fail, numbered by the loop iteration that
      makes them. */
  datatype DbStep =
    | Begin | Prepare | ExistsQuery(i: nat) | Marshal(i: nat) | Exec(i: nat) | RowsAffected(i: nat) | Commit
    | StoreQuery | StoreScan(i: nat) | Query | RowScan(i: nat) | RowsErr

  /** The first failing scan among rows 0 .. n-1 of a query, if any. */
  function FirstScanError(dbError: DbStep -> Option<string>, n: nat): (r: Option<string>)
    ensures r.None? <==> forall i: nat :: i < n ==> dbError(RowScan(i)).None?
  {
    if n == 0 then None
    else if FirstScanError(dbError, n - 1).Some? then FirstScanError(dbError, n - 1)
    else dbError(RowScan(n - 1))
  }

  /** The same for the store-id query that `GetProductsByCompany` runs first. */
  function FirstStoreScanError(dbError: DbStep -> Option<string>, n: nat): (r: Option<string>)
    ensures r.None? <==> forall i: nat :: i < n ==> dbError(StoreScan(i)).None?
  {
    if n == 0 then None
    else if FirstStoreScanError(dbError, n - 1).Some? then FirstStoreScanError(dbError, n - 1)
    else dbError(StoreScan(n - 1))
  }

  /** A scan that fails after error-free ones is the query's first error. */
  lemma {:induction false} ScanErrorAt(dbError: DbStep -> Option<string>, n: nat, i: nat)
    requires i < n && FirstScanError(dbError, i).None? && dbError(RowScan(i)).Some?
    ensures FirstScanError(dbError, n) == dbError(RowScan(i))
  {
    if n > i + 1 {
      ScanErrorAt(dbError, n - 1, i);
    }
  }

  lemma {:induction false} StoreScanErrorAt(dbError: DbStep -> Option<string>, n: nat, i: nat)
    requires i < n && FirstStoreScanError(dbError, i).None? && dbError(StoreScan(i)).Some?
    ensures FirstStoreScanError(dbError, n) == dbError(StoreScan(i))
  {
    if n > i + 1 {
      StoreScanErrorAt(dbError, n - 1, i);
    }
  }

  // ---- InsertProductBatch ----

  /** `SELECT EXISTS(... WHERE stock_item_id = $1 AND sku = $2)`. */
  predicate HasKey(table: seq<ProductRow>, stockItemId: int, sku: string) {
    exists i :: 0 <= i < |table| && table[i].stockItemId == stockItemId && table[i].sku == sku
  }

  /** No two rows share a `(stock_item_id, sku)` pair. */
  predicate UniqueKeys(table: seq<ProductRow>) {
    forall i, j :: 0 <= i < j < |table| ==> table[i].stockItemId != table[j].stockItemId || table[i].sku != table[j].sku
  }

  /** The row the prepared insert writes for a product. */
  function NewRow(id: int, p: StoreProduct, encodeImages: seq<string> -> string): ProductRow {
    ProductRow(id, p.storeId, p.stockItemId, p.price, p.discountedPrice, p.sku, p.currency, p.status,
               encodeImages(p.imageUrl))
  }

  /** The transaction's view of the table, the next serial id, the result
      so far and the error that ended the loop, if any. */
  datatype Batch = Batch(table: seq<ProductRow>, nextId: int, result: InsertResult, err: Option<string>)

  /** One iteration of the insert loop, for product number `i`. */
  function BatchStep(b: Batch, i: nat, p: StoreProduct, encodeImages: seq<string> -> string,
                     dbError: DbStep -> Option<string>): Batch
  {
    if b.err.Some? then b
    else if dbError(ExistsQuery(i)).Some? then b.(err := dbError(ExistsQuery(i)))
    else if HasKey(b.table, p.stockItemId, p.sku) then
      b.(result := b.result.(duplicates := b.result.duplicates + [p.sku]))
    else if dbError(Marshal(i)).Some? then b.(err := dbError(Marshal(i)))
    else if dbError(Exec(i)).Some? then b.(err := dbError(Exec(i)))
    else
      var b' := b.(table := b.table + [NewRow(b.nextId, p, encodeImages)], nextId := b.nextId + 1);
      if dbError(RowsAffected(i)).Some? then b'.(err := dbError(RowsAffected(i)))
      else b'.(result := b.result.(inserted := b.result.inserted + 1))
  }

  /** The insert loop over a batch. */
  function RunBatch(b: Batch, products: seq<StoreProduct>, encodeImages: seq<string> -> string,
                    dbError: DbStep -> Option<string>): Batch
  {
    if products == [] then b
    else BatchStep(RunBatch(b, products[..|products| - 1], encodeImages, dbError),
                   |products| - 1, products[|products| - 1], encodeImages, dbError)
  }

  /** The loop starts from the table as it is, with `Inserted = 0` and an
      empty, non-nil `Duplicates` list. */
  function StartBatch(table: seq<ProductRow>, nextId: int): (b: Batch)
    ensures b.result.inserted == 0 && b.result.duplicates == [] && b.err.None?
  {
    Batch(table, nextId, InsertResult(0, []), None)
  }

  /** A loop that ended without error handled every product once: each was
      inserted or recorded as a duplicate. Only inserts add rows, at the
      end of the table, and duplicates are only appended. */
  lemma {:induction false} BatchCounts(b: Batch, products: seq<StoreProduct>, encodeImages: seq<string> -> string,
                                       dbError: DbStep -> Option<string>)
    requires b.err.None?
    ensures var r := RunBatch(b, products, encodeImages, dbError);
      r.err.None? ==>
        r.result.inserted + |r.result.duplicates| == b.result.inserted + |b.result.duplicates| + |products|
        && |r.table| == |b.table| + r.result.inserted - b.result.inserted
    ensures var r := RunBatch(b, products, encodeImages, dbError);
      b.table <= r.table && b.result.duplicates <= r.result.duplicates
  {
    if products != [] {
      var r0 := RunBatch(b, products[..|products| - 1], encodeImages, dbError);
      BatchCounts(b, products[..|products| - 1], encodeImages, dbError);
      var r := BatchStep(r0, |products| - 1, products[|products| - 1], encodeImages, dbError);
      assert r0.table <= r.table && r0.result.duplicates <= r.result.duplicates;
    }
  }

  /** Rows are only ever added, so a key once present stays present. */
  lemma HasKeyGrows(t: seq<ProductRow>, u: seq<ProductRow>, stockItemId: int, sku: string)
    requires t <= u && HasKey(t, stockItemId, sku)
    ensures HasKey(u, stockItemId, sku)
  {
    var i :| 0 <= i < |t| && t[i].stockItemId == stockItemId && t[i].sku == sku;
    assert u[i] == t[i];
  }

  /** After a loop without error, the key of every product of the batch is
      in the transaction's table. */
  lemma {:induction false} BatchKeysPresent(b: Batch, products: seq<StoreProduct>, encodeImages: seq<string> -> string,
                                            dbError: DbStep -> Option<string>, k: nat)
    requires b.err.None? && k < |products|
    requires RunBatch(b, products, encodeImages, dbError).err.None?
    ensures HasKey(RunBatch(b, products, encodeImages, dbError).table, products[k].stockItemId, products[k].sku)
  {
    var n := |products| - 1;
    var init := products[..n];
    var r0 := RunBatch(b, init, encodeImages, dbError);
    var r := RunBatch(b, products, encodeImages, dbError);
    assert r == BatchStep(r0, n, products[n], encodeImages, dbError);
    BatchCounts(b, init, encodeImages, dbError);
    assert r0.table <= r.table;
    if k < n {
      assert init[k] == products[k];
      BatchKeysPresent(b, init, encodeImages, dbError, k);
      HasKeyGrows(r0.table, r.table, products[k].stockItemId, products[k].sku);
    } else if !HasKey(r0.table, products[n].stockItemId, products[n].sku) {
      var last := |r.table| - 1;
      assert r.table[last].stockItemId == products[n].stockItemId && r.table[last].sku == products[n].sku;
    }
  }

  /** A product whose key an earlier product of the same batch already
      carries is recorded as a duplicate and not inserted. */
  lemma RepeatIsDuplicate(b: Batch, products: seq<StoreProduct>, encodeImages: seq<string> -> string,
                          dbError: DbStep -> Option<string>, i: nat, j: nat)
    requires b.err.None? && i < j < |products|
    requires products[i].stockItemId == products[j].stockItemId && products[i].sku == products[j].sku
    requires RunBatch(b, products[..j], encodeImages, dbError).err.None? && dbError(ExistsQuery(j)).None?
    ensures var before := RunBatch(b, products[..j], encodeImages, dbError);
            RunBatch(b, products[..j + 1], encodeImages, dbError)
              == before.(result := before.result.(duplicates := before.result.duplicates + [products[j].sku]))
  {
    var before := RunBatch(b, products[..j], encodeImages, dbError);
    assert products[..j][i] == products[i];
    BatchKeysPresent(b, products[..j], encodeImages, dbError, i);
    assert products[..j + 1][..j] == products[..j];
  }

  /** A table without repeated keys keeps that property through the batch. */
  lemma {:induction false} BatchKeepsKeysUnique(b: Batch, products: seq<StoreProduct>, encodeImages: seq<string> -> string,
                                                dbError: DbStep -> Option<string>)
    requires UniqueKeys(b.table)
    ensures UniqueKeys(RunBatch(b, products, encodeImages, dbError).table)
  {
    if products != [] {
      var n := |products| - 1;
      var r0 := RunBatch(b, products[..n], encodeImages, dbError);
      BatchKeepsKeysUnique(b, products[..n], encodeImages, dbError);
      var r := BatchStep(r0, n, products[n], encodeImages, dbError);
      if |r.table| != |r0.table| {
        var p := products[n];
        assert r.table == r0.table + [NewRow(r0.nextId, p, encodeImages)];
        forall x, y | 0 <= x < y < |r.table|
          ensures r.table[x].stockItemId != r.table[y].stockItemId || r.table[x].sku != r.table[y].sku
        {
          if y == |r0.table| {
            assert r.table[x] == r0.table[x];
          }
        }
      }
    }
  }

  /** With no failing call the loop never stops early. */
  lemma {:induction false} BatchWithoutFaults(b: Batch, products: seq<StoreProduct>, encodeImages: seq<string> -> string,
                                              dbError: DbStep -> Option<string>)
    requires b.err.None?
    requires forall i: nat :: i < |products| ==>
               dbError(ExistsQuery(i)).None? && dbError(Marshal(i)).None? && dbError(Exec(i)).None?
               && dbError(RowsAffected(i)).None?
    ensures RunBatch(b, products, encodeImages, dbError).err.None?
  {
    if products != [] {
      BatchWithoutFaults(b, products[..|products| - 1], encodeImages, dbError);
    }
  }

  // ---- GetProductsByCompany ----

  /** `SELECT id FROM store WHERE company_id = $1`, in table order. */
  function CompanyStoreIds(stores: seq<StoreRow>, companyId: int): seq<int> {
    if stores == [] then []
    else CompanyStoreIds(stores[..|stores| - 1], companyId)
         + (if stores[|stores| - 1].companyId == companyId then [stores[|stores| - 1].id] else [])
  }

  /** A row of the join of `storeproduct` with `stockitem`. */
  datatype JoinedRow = JoinedRow(stockItemId: int, item: StockItemRow, product: ProductRow)

  /** The join restricted to the company's stores; the rows come back in
      table order. */
  function JoinRows(storeIds: seq<int>, table: seq<ProductRow>, stockitem: map<int, StockItemRow>): (r: seq<JoinedRow>)
    ensures forall i :: 0 <= i < |r| ==> r[i].product.storeId in storeIds && r[i].stockItemId == r[i].product.stockItemId
  {
    if table == [] then []
    else
      var row := table[|table| - 1];
      JoinRows(storeIds, table[..|table| - 1], stockitem)
      + (if row.storeId in storeIds && row.stockItemId in stockitem
         then [JoinedRow(row.stockItemId, stockitem[row.stockItemId], row)] else [])
  }

  /** The image list of a row: an empty column or text that does not decode
      gives an empty list. */
  function ImageUrls(mediaUrl: string, decodeImages: string -> Option<seq<string>>): (r: seq<string>)
    ensures mediaUrl == "" ==> r == []
    ensures decodeImages(mediaUrl).None? ==> r == []
    ensures mediaUrl != "" && decodeImages(mediaUrl).Some? ==> r == decodeImages(mediaUrl).value
  {
    if mediaUrl == "" then []
    else match decodeImages(mediaUrl)
      case Some(urls) => urls
      case None => []
  }

  /** The store product scanned from a joined row, its `StockItemID` set to
      the stock item's id. */
  function ScanStoreProduct(row: JoinedRow, decodeImages: string -> Option<seq<string>>): StoreProduct {
    StoreProduct(row.product.id, row.product.storeId, row.stockItemId, row.product.sku, row.product.currency,
                 row.product.price, row.product.discountedPrice, row.product.status,
                 ImageUrls(row.product.mediaUrl, decodeImages))
  }

  /** The first row of a stock item, if any. */
  function FirstOf(rows: seq<JoinedRow>, id: int): (r: Option<JoinedRow>)
    ensures r.Some? ==> r.value in rows && r.value.stockItemId == id
    ensures r.None? <==> forall i :: 0 <= i < |rows| ==> rows[i].stockItemId != id
  {
    if rows == [] then None
    else if FirstOf(rows[..|rows| - 1], id).Some? then FirstOf(rows[..|rows| - 1], id)
    else if rows[|rows| - 1].stockItemId == id then Some(rows[|rows| - 1])
    else None
  }

  /** The store products of a stock item, in row order. */
  function GroupOf(rows: seq<JoinedRow>, id: int, decodeImages: string -> Option<seq<string>>): seq<StoreProduct> {
    if rows == [] then []
    else GroupOf(rows[..|rows| - 1], id, decodeImages)
         + (if rows[|rows| - 1].stockItemId == id then [ScanStoreProduct(rows[|rows| - 1], decodeImages)] else [])
  }

  /** The entry of a stock item: its fields from its first row, and all its
      store products. */
  function Entry(rows: seq<JoinedRow>, id: int, decodeImages: string -> Option<seq<string>>): MergeProduct
    requires FirstOf(rows, id).Some?
  {
    var first := FirstOf(rows, id).value;
    MergeProduct(id, first.item.refPrice, first.item.refCost, first.item.quantity, GroupOf(rows, id, decodeImages))
  }

  /** `stockItemsMap` after the rows: one entry per stock item met. */
  ghost predicate IsGroupedBy(m: map<int, MergeProduct>, rows: seq<JoinedRow>, decodeImages: string -> Option<seq<string>>) {
    forall id :: (id in m <==> FirstOf(rows, id).Some?) && (id in m ==> m[id] == Entry(rows, id, decodeImages))
  }

  /** One iteration of the grouping loop keeps `IsGroupedBy`. */
  lemma GroupedAppend(m: map<int, MergeProduct>, rows: seq<JoinedRow>, row: JoinedRow,
                      decodeImages: string -> Option<seq<string>>)
    requires IsGroupedBy(m, rows, decodeImages)
    ensures var id := row.stockItemId;
            var e := if id in m then m[id] else MergeProduct(id, row.item.refPrice, row.item.refCost, row.item.quantity, []);
            IsGroupedBy(m[id := e.(storeProducts := e.storeProducts + [ScanStoreProduct(row, decodeImages)])],
                        rows + [row], decodeImages)
  {
    var rows' := rows + [row];
    assert rows'[..|rows'| - 1] == rows;
    var id0 := row.stockItemId;
    var e := if id0 in m then m[id0] else MergeProduct(id0, row.item.refPrice, row.item.refCost, row.item.quantity, []);
    var m' := m[id0 := e.(storeProducts := e.storeProducts + [ScanStoreProduct(row, decodeImages)])];
    forall id ensures (id in m' <==> FirstOf(rows', id).Some?) && (id in m' ==> m'[id] == Entry(rows', id, decodeImages))
    {
      assert GroupOf(rows', id, decodeImages)
             == GroupOf(rows, id, decodeImages) + (if id == id0 then [ScanStoreProduct(row, decodeImages)] else []);
      if id == id0 && id !in m {
        GroupOfKeys(rows, id, decodeImages);
        assert FirstOf(rows', id) == Some(row);
      }
    }
  }

  /** The listing `GetProductsByCompany` returns for the joined rows: nil
      when there are none, otherwise each stock item's entry exactly once,
      in any order. */
  ghost predicate ListsGroups(r: GoSlice<MergeProduct>, rows: seq<JoinedRow>, decodeImages: string -> Option<seq<string>>) {
    var xs := r.Elems();
    (r.Nil? <==> rows == [])
    && (forall i, j :: 0 <= i < j < |xs| ==> xs[i].stockItemId != xs[j].stockItemId)
    && (forall i :: 0 <= i < |xs| ==> FirstOf(rows, xs[i].stockItemId).Some? && xs[i] == Entry(rows, xs[i].stockItemId, decodeImages))
    && (forall id :: FirstOf(rows, id).Some? ==> exists i :: 0 <= i < |xs| && xs[i].stockItemId == id)
  }

  /** Every store product of an entry carries the entry's stock item id,
      and there is at least one. */
  lemma {:induction false} GroupOfKeys(rows: seq<JoinedRow>, id: int, decodeImages: string -> Option<seq<string>>)
    ensures forall x :: x in GroupOf(rows, id, decodeImages) ==> x.stockItemId == id
    ensures FirstOf(rows, id).Some? <==> GroupOf(rows, id, decodeImages) != []
  {
    if rows != [] {
      GroupOfKeys(rows[..|rows| - 1], id, decodeImages);
    }
  }

  /** Grouping loses no row: the entries' store products together are the
      scanned rows, each as often. */
  function ScanAll(rows: seq<JoinedRow>, decodeImages: string -> Option<seq<string>>): seq<StoreProduct> {
    if rows == [] then [] else ScanAll(rows[..|rows| - 1], decodeImages) + [ScanStoreProduct(rows[|rows| - 1], decodeImages)]
  }

  lemma {:induction false} GroupsPartitionRows(rows: seq<JoinedRow>, decodeImages: string -> Option<seq<string>>, x: StoreProduct)
    ensures multiset(GroupOf(rows, x.stockItemId, decodeImages))[x] == multiset(ScanAll(rows, decodeImages))[x]
  {
    if rows != [] {
      var init := rows[..|rows| - 1];
      GroupsPartitionRows(init, decodeImages, x);
    }
  }

  // ---- GetStoreByCompany, GetStoreSkus ----

  /** The company's stores, in table order. */
  function CompanyStores(stores: seq<StoreRow>, companyId: int): seq<StoreRow> {
    if stores == [] then []
    else CompanyStores(stores[..|stores| - 1], companyId)
         + (if stores[|stores| - 1].companyId == companyId then [stores[|stores| - 1]] else [])
  }

  lemma {:induction false} CompanyStoresMembers(stores: seq<StoreRow>, companyId: int, x: StoreRow)
    ensures x in CompanyStores(stores, companyId) <==> x in stores && x.companyId == companyId
  {
    if stores != [] {
      CompanyStoresMembers(stores[..|stores| - 1], companyId, x);
      assert stores == stores[..|stores| - 1] + [stores[|stores| - 1]];
    }
  }

  /** The store ids of the company are those of its store rows. */
  lemma {:induction false} CompanyStoreIdsAgree(stores: seq<StoreRow>, companyId: int)
    ensures CompanyStoreIds(stores, companyId) == Ids(CompanyStores(stores, companyId))
  {
    if stores != [] {
      var init := stores[..|stores| - 1];
      CompanyStoreIdsAgree(init, companyId);
      var r := CompanyStores(stores, companyId);
      if stores[|stores| - 1].companyId == companyId {
        assert r[..|r| - 1] == CompanyStores(init, companyId);
        assert Ids(r) == Ids(CompanyStores(init, companyId)) + [stores[|stores| - 1].id];
      } else {
        assert r == CompanyStores(init, companyId);
      }
      assert CompanyStoreIds(stores, companyId) == CompanyStoreIds(init, companyId)
             + (if stores[|stores| - 1].companyId == companyId then [stores[|stores| - 1].id] else []);
    }
  }

  function Ids(rows: seq<StoreRow>): seq<int> {
    if rows == [] then [] else Ids(rows[..|rows| - 1]) + [rows[|rows| - 1].id]
  }

  /** The ids of the stores on one platform, in row order. */
  function PlatformIds(rows: seq<StoreRow>, platform: string): seq<int> {
    if rows == [] then []
    else PlatformIds(rows[..|rows| - 1], platform)
         + (if rows[|rows| - 1].platform == platform then [rows[|rows| - 1].id] else [])
  }

  /** A platform has ids exactly when one of the rows is on it. */
  lemma {:induction false} PlatformIdsNonEmpty(rows: seq<StoreRow>, platform: string)
    ensures PlatformIds(rows, platform) != [] <==> exists i :: 0 <= i < |rows| && rows[i].platform == platform
  {
    if rows != [] {
      var init := rows[..|rows| - 1];
      PlatformIdsNonEmpty(init, platform);
      if exists i :: 0 <= i < |init| && init[i].platform == platform {
        var i :| 0 <= i < |init| && init[i].platform == platform;
        assert rows[i] == init[i];
      }
    }
  }

  /** `storeMap` after the rows: the platforms met, each with its ids. */
  ghost predicate IsPlatformMap(m: map<string, seq<int>>, rows: seq<StoreRow>) {
    forall p :: (p in m <==> PlatformIds(rows, p) != []) && (p in m ==> m[p] == PlatformIds(rows, p))
  }

  lemma PlatformMapStep(m: map<string, seq<int>>, rows: seq<StoreRow>, i: nat)
    requires i < |rows| && IsPlatformMap(m, rows[..i])
    ensures IsPlatformMap(m[rows[i].platform := (if rows[i].platform in m then m[rows[i].platform] else []) + [rows[i].id]],
                          rows[..i + 1])
  {
    assert rows[..i + 1][..i] == rows[..i];
  }

  /** The `storeproduct` rows of one store, in table order. */
  function StoreRows(table: seq<ProductRow>, storeId: int): seq<ProductRow> {
    if table == [] then []
    else StoreRows(table[..|table| - 1], storeId)
         + (if table[|table| - 1].storeId == storeId then [table[|table| - 1]] else [])
  }

  /** The SKUs of a list of rows. */
  function SkuSet(rows: seq<ProductRow>): set<string> {
    if rows == [] then {} else SkuSet(rows[..|rows| - 1]) + {rows[|rows| - 1].sku}
  }

  /** The store's SKU set holds exactly the SKUs of the store's rows. */
  lemma {:induction false} StoreSkusMembers(table: seq<ProductRow>, storeId: int, sku: string)
    ensures sku in SkuSet(StoreRows(table, storeId))
            <==> exists i :: 0 <= i < |table| && table[i].storeId == storeId && table[i].sku == sku
  {
    if table != [] {
      var init := table[..|table| - 1];
      StoreSkusMembers(init, storeId, sku);
      var rs := StoreRows(table, storeId);
      var last := table[|table| - 1];
      if last.storeId == storeId {
        assert rs[..|rs| - 1] == StoreRows(init, storeId);
        assert SkuSet(rs) == SkuSet(StoreRows(init, storeId)) + {last.sku};
      } else {
        assert rs == StoreRows(init, storeId);
      }
      if exists i :: 0 <= i < |init| && init[i].storeId == storeId && init[i].sku == sku {
        var i :| 0 <= i < |init| && init[i].storeId == storeId && init[i].sku == sku;
        assert table[i] == init[i];
      }
    }
  }

  // ---- DeleteMappedProductsBySKU(s) ----

  predicate Matches(row: ProductRow, storeId: int, sku: string) {
    row.storeId == storeId && row.sku == sku
  }

  /** `DELETE FROM storeproduct WHERE store_id = $1 AND sku = $2`: the rows
      left, in table order. */
  function RemoveRows(table: seq<ProductRow>, storeId: int, sku: string): seq<ProductRow> {
    if table == [] then []
    else RemoveRows(table[..|table| - 1], storeId, sku)
         + (if Matches(table[|table| - 1], storeId, sku) then [] else [table[|table| - 1]])
  }

  /** The delete keeps exactly the rows that do not match and never adds one. */
  lemma {:induction false} RemoveRowsMembers(table: seq<ProductRow>, storeId: int, sku: string, x: ProductRow)
    ensures x in RemoveRows(table, storeId, sku) <==> x in table && !Matches(x, storeId, sku)
    ensures |RemoveRows(table, storeId, sku)| <= |table|
  {
    if table != [] {
      var init := table[..|table| - 1];
      RemoveRowsMembers(init, storeId, sku, x);
      assert table == init + [table[|table| - 1]];
    }
  }

  /** The rows the delete removes, which is what `RowsAffected` reports. */
  function Affected(table: seq<ProductRow>, storeId: int, sku: string): int {
    |table| - |RemoveRows(table, storeId, sku)|
  }

  /** Some row is removed exactly when some row matches. */
  lemma {:induction false} AffectedIffMatch(table: seq<ProductRow>, storeId: int, sku: string)
    ensures Affected(table, storeId, sku) > 0 <==> exists i :: 0 <= i < |table| && Matches(table[i], storeId, sku)
    ensures Affected(table, storeId, sku) >= 0
  {
    if table != [] {
      var init := table[..|table| - 1];
      AffectedIffMatch(init, storeId, sku);
      if exists i :: 0 <= i < |init| && Matches(init[i], storeId, sku) {
        var i :| 0 <= i < |init| && Matches(init[i], storeId, sku);
        assert table[i] == init[i];
      }
    }
  }

  /** The table and the two SKU lists of the delete loop. */
  datatype Deletion = Deletion(table: seq<ProductRow>, deleted: seq<string>, failed: seq<string>)

  /** One iteration for SKU number `i`: a failed statement or a statement
      that removed nothing (including one whose affected-row count cannot
      be read) marks the SKU failed. */
  function DeleteStep(d: Deletion, i: nat, storeId: int, sku: string, dbError: DbStep -> Option<string>): Deletion {
    if dbError(Exec(i)).Some? then d.(failed := d.failed + [sku])
    else
      var table := RemoveRows(d.table, storeId, sku);
      var affected := if dbError(RowsAffected(i)).Some? then 0 else |d.table| - |table|;
      if affected > 0 then Deletion(table, d.deleted + [sku], d.failed)
      else Deletion(table, d.deleted, d.failed + [sku])
  }

  function RunDeletes(table: seq<ProductRow>, storeId: int, skus: seq<string>, dbError: DbStep -> Option<string>): Deletion {
    if skus == [] then Deletion(table, [], [])
    else DeleteStep(RunDeletes(table, storeId, skus[..|skus| - 1], dbError), |skus| - 1, storeId, skus[|skus| - 1], dbError)
  }

  /** Each input SKU lands in exactly one of the two lists, each as often
      as it was given, and the lists keep input order. */
  lemma {:induction false} DeletesPartition(table: seq<ProductRow>, storeId: int, skus: seq<string>,
                                            dbError: DbStep -> Option<string>)
    ensures var d := RunDeletes(table, storeId, skus, dbError);
            |d.deleted| + |d.failed| == |skus| && multiset(d.deleted) + multiset(d.failed) == multiset(skus)
  {
    if skus != [] {
      var init := skus[..|skus| - 1];
      DeletesPartition(table, storeId, init, dbError);
      assert skus == init + [skus[|skus| - 1]];
    }
  }

  /** The deletes only ever remove rows of the table they started from;
      rows of other stores all stay. */
  lemma {:induction false} DeletesOnlyRemove(table: seq<ProductRow>, storeId: int, skus: seq<string>,
                                             dbError: DbStep -> Option<string>, x: ProductRow)
    ensures x in RunDeletes(table, storeId, skus, dbError).table ==> x in table
    ensures x in table && x.storeId != storeId ==> x in RunDeletes(table, storeId, skus, dbError).table
  {
    if skus != [] {
      var init := skus[..|skus| - 1];
      DeletesOnlyRemove(table, storeId, init, dbError, x);
      RemoveRowsMembers(RunDeletes(table, storeId, init, dbError).table, storeId, skus[|skus| - 1], x);
    }
  }

  /** A SKU reported deleted had a row in the store when the loop began. */
  lemma {:induction false} DeletedHadRow(table: seq<ProductRow>, storeId: int, skus: seq<string>,
                                         dbError: DbStep -> Option<string>, sku: string)
    requires sku in RunDeletes(table, storeId, skus, dbError).deleted
    ensures exists i :: 0 <= i < |table| && Matches(table[i], storeId, sku)
  {
    var init := skus[..|skus| - 1];
    var d0 := RunDeletes(table, storeId, init, dbError);
    if sku in d0.deleted {
      DeletedHadRow(table, storeId, init, dbError, sku);
    } else {
      AffectedIffMatch(d0.table, storeId, sku);
      var k :| 0 <= k < |d0.table| && Matches(d0.table[k], storeId, sku);
      DeletesOnlyRemove(table, storeId, init, dbError, d0.table[k]);
      var i :| 0 <= i < |table| && table[i] == d0.table[k];
    }
  }

  /** Once a statement for a SKU has run, no row of the store carries it,
      however many deletes follow. */
  lemma {:induction false} NoRowAfterDelete(table: seq<ProductRow>, storeId: int, skus: seq<string>,
                                            dbError: DbStep -> Option<string>, i: nat)
    requires i < |skus| && dbError(Exec(i)).None?
    ensures forall x :: x in RunDeletes(table, storeId, skus, dbError).table ==> !Matches(x, storeId, skus[i])
  {
    var n := |skus| - 1;
    var init := skus[..n];
    var d0 := RunDeletes(table, storeId, init, dbError);
    var d := RunDeletes(table, storeId, skus, dbError);
    forall x | x in d.table ensures !Matches(x, storeId, skus[i]) {
      if i < n {
        assert init[i] == skus[i];
        NoRowAfterDelete(table, storeId, init, dbError, i);
      }
      RemoveRowsMembers(d0.table, storeId, skus[n], x);
    }
  }

  /** A SKU repeated in the list fails the second time if its first
      statement ran: the first one already removed its rows. */
  lemma RepeatedSkuFails(table: seq<ProductRow>, storeId: int, skus: seq<string>,
                         dbError: DbStep -> Option<string>, i: nat, j: nat)
    requires i < j < |skus| && skus[i] == skus[j] && dbError(Exec(i)).None?
    ensures var before := RunDeletes(table, storeId, skus[..j], dbError);
            var after := RunDeletes(table, storeId, skus[..j + 1], dbError);
            after.deleted == before.deleted && after.failed == before.failed + [skus[j]]
  {
    var before := RunDeletes(table, storeId, skus[..j], dbError);
    assert skus[..j][i] == skus[i];
    NoRowAfterDelete(table, storeId, skus[..j], dbError, i);
    AffectedIffMatch(before.table, storeId, skus[j]);
    assert skus[..j + 1][..j] == skus[..j];
  }

  /** A loop that has stopped on an error stays stopped. */
  lemma {:induction false} BatchErrorSticks(b: Batch, products: seq<StoreProduct>, encodeImages: seq<string> -> string,
                                            dbError: DbStep -> Option<string>, k: nat)
    requires k <= |products| && RunBatch(b, products[..k], encodeImages, dbError).err.Some?
    ensures RunBatch(b, products, encodeImages, dbError) == RunBatch(b, products[..k], encodeImages, dbError)
    decreases |products|
  {
    if k < |products| {
      var n := |products| - 1;
      assert products[..n][..k] == products[..k];
      BatchErrorSticks(b, products[..n], encodeImages, dbError, k);
    } else {
      assert products[..k] == products;
    }
  }

  /** `xs` lists the entries of `m` whose keys are not in `remaining`, each
      once. */
  ghost predicate Collected(m: map<int, MergeProduct>, remaining: set<int>, xs: seq<MergeProduct>) {
    (forall i :: 0 <= i < |xs| ==> xs[i].stockItemId in m && xs[i].stockItemId !in remaining && xs[i] == m[xs[i].stockItemId])
    && (forall i, j :: 0 <= i < j < |xs| ==> xs[i].stockItemId != xs[j].stockItemId)
    && (forall id :: id in m && id !in remaining ==> exists i :: 0 <= i < |xs| && xs[i].stockItemId == id)
  }

  lemma CollectOne(m: map<int, MergeProduct>, remaining: set<int>, xs: seq<MergeProduct>, id: int)
    requires Collected(m, remaining, xs) && id in remaining && id in m && m[id].stockItemId == id
    ensures Collected(m, remaining - {id}, xs + [m[id]])
  {
    var ys := xs + [m[id]];
    forall k | k in m && k !in remaining - {id} ensures exists i :: 0 <= i < |ys| && ys[i].stockItemId == k {
      if k == id {
        assert ys[|xs|].stockItemId == k;
      } else {
        var i :| 0 <= i < |xs| && xs[i].stockItemId == k;
        assert ys[i] == xs[i];
      }
    }
  }

  /** The `range stockItemsMap` loop: every entry of the map once, in
      whatever order the map yields them. */
  method CollectEntries(m: map<int, MergeProduct>) returns (result: GoSlice<MergeProduct>)
    requires forall id :: id in m ==> m[id].stockItemId == id
    ensures result.Nil? <==> m == map[]
    ensures Collected(m, {}, result.Elems())
  {
    result := Nil;
    var remaining := m.Keys;
    while |remaining| > 0
      invariant remaining <= m.Keys
      invariant result.Nil? <==> remaining == m.Keys
      invariant Collected(m, remaining, result.Elems())
      decreases |remaining|
    {
      if forall k :: k !in remaining {
        assert false;
      }
      var key :| key in remaining;
      CollectOne(m, remaining, result.Elems(), key);
      result := Slice(result.Elems() + [m[key]]);
      remaining := remaining - {key};
    }
  }

  lemma GroupedStep(m: map<int, MergeProduct>, rows: seq<JoinedRow>, i: nat, decodeImages: string -> Option<seq<string>>)
    requires i < |rows| && IsGroupedBy(m, rows[..i], decodeImages)
    ensures var row := rows[i];
            var e := if row.stockItemId in m then m[row.stockItemId]
                     else MergeProduct(row.stockItemId, row.item.refPrice, row.item.refCost, row.item.quantity, []);
            IsGroupedBy(m[row.stockItemId := e.(storeProducts := e.storeProducts + [ScanStoreProduct(row, decodeImages)])],
                        rows[..i + 1], decodeImages)
  {
    GroupedAppend(m, rows[..i], rows[i], decodeImages);
    assert rows[..i] + [rows[i]] == rows[..i + 1];
  }

  /** Listing the grouped map gives each stock item's entry exactly once. */
  lemma GroupsListed(m: map<int, MergeProduct>, rows: seq<JoinedRow>, decodeImages: string -> Option<seq<string>>,
                     result: GoSlice<MergeProduct>)
    requires IsGroupedBy(m, rows, decodeImages)
    requires (result.Nil? <==> m == map[]) && Collected(m, {}, result.Elems())
    ensures ListsGroups(result, rows, decodeImages)
  {
    if rows != [] {
      assert FirstOf(rows, rows[0].stockItemId).Some?;
      assert rows[0].stockItemId in m;
    } else {
      assert forall id :: id !in m;
      assert m == map[];
    }
  }

  /** Each entry of the grouped map is keyed by its own stock item id. */
  lemma GroupedKeys(m: map<int, MergeProduct>, rows: seq<JoinedRow>, decodeImages: string -> Option<seq<string>>)
    requires IsGroupedBy(m, rows, decodeImages)
    ensures forall id :: id in m ==> m[id].stockItemId == id
  {
  }

  /** The store-id loop of `GetProductsByCompany`. */
  method ScanStoreIds(stores: seq<StoreRow>, dbError: DbStep -> Option<string>) returns (r: Result<seq<int>>)
    ensures FirstStoreScanError(dbError, |stores|).Some? ==> r == Err(FirstStoreScanError(dbError, |stores|).value)
    ensures FirstStoreScanError(dbError, |stores|).None? ==> r == Ok(Ids(stores))
  {
    var storeIds: seq<int> := [];
    for i := 0 to |stores|
      invariant storeIds == Ids(stores[..i])
      invariant FirstStoreScanError(dbError, i).None?
    {
      if dbError(StoreScan(i)).Some? {
        StoreScanErrorAt(dbError, |stores|, i);
        return Err(dbError(StoreScan(i)).value);
      }
      assert stores[..i + 1][..i] == stores[..i];
      storeIds := storeIds + [stores[i].id];
    }
    assert stores[..|stores|] == stores;
    return Ok(storeIds);
  }

  /** The row loop of `GetProductsByCompany` and the listing of the map it
      builds. */
  method GroupRows(rows: seq<JoinedRow>, decodeImages: string -> Option<seq<string>>, dbError: DbStep -> Option<string>)
    returns (r: Result<GoSlice<MergeProduct>>)
    ensures FirstScanError(dbError, |rows|).Some? ==> r == Err(FirstScanError(dbError, |rows|).value)
    ensures FirstScanError(dbError, |rows|).None? ==> r.Ok? && ListsGroups(r.value, rows, decodeImages)
  {
    var stockItemsMap: map<int, MergeProduct> := map[];
    for i := 0 to |rows|
      invariant IsGroupedBy(stockItemsMap, rows[..i], decodeImages)
      invariant FirstScanError(dbError, i).None?
    {
      if dbError(RowScan(i)).Some? {
        ScanErrorAt(dbError, |rows|, i);
        return Err(dbError(RowScan(i)).value);
      }
      var row := rows[i];
      var storeProduct := ScanStoreProduct(row, decodeImages);
      var id := row.stockItemId;
      GroupedStep(stockItemsMap, rows, i, decodeImages);
      if id !in stockItemsMap {
        stockItemsMap := stockItemsMap[id := MergeProduct(id, row.item.refPrice, row.item.refCost, row.item.quantity, [])];
      }
      stockItemsMap := stockItemsMap[id := stockItemsMap[id].(storeProducts := stockItemsMap[id].storeProducts + [storeProduct])];
    }
    assert rows[..|rows|] == rows;
    GroupedKeys(stockItemsMap, rows, decodeImages);
    var result := CollectEntries(stockItemsMap);
    GroupsListed(stockItemsMap, rows, decodeImages, result);
    return Ok(result);
  }

  /** The repository over its three tables; `nextId` is the serial the next
      `storeproduct` row gets. */
  class ProductRepository {
    var storeproduct: seq<ProductRow>
    var nextId: int
    var stockitem: map<int, StockItemRow>
    var store: seq<StoreRow>

    constructor (storeproduct: seq<ProductRow>, nextId: int, stockitem: map<int, StockItemRow>, store: seq<StoreRow>)
      ensures this.storeproduct == storeproduct && this.nextId == nextId
      ensures this.stockitem == stockitem && this.store == store
    {
      this.storeproduct := storeproduct;
      this.nextId := nextId;
      this.stockitem := stockitem;
      this.store := store;
    }

    /** `InsertProductBatch`: inside one transaction, each product is
        checked for an existing `(stock_item_id, sku)` row, recorded as a
        duplicate if there is one, and inserted otherwise. Any error
        returns the partial result and rolls the transaction back. */
    method InsertProductBatch(products: seq<StoreProduct>, encodeImages: seq<string> -> string,
                              dbError: DbStep -> Option<string>)
      returns (result: InsertResult, err: Option<string>)
      modifies this
      ensures stockitem == old(stockitem) && store == old(store)
      ensures dbError(Begin).Some? || dbError(Prepare).Some? ==>
                result == StartBatch(old(storeproduct), old(nextId)).result
                && err == (if dbError(Begin).Some? then dbError(Begin) else dbError(Prepare))
                && storeproduct == old(storeproduct) && nextId == old(nextId)
      ensures dbError(Begin).None? && dbError(Prepare).None? ==>
                var b := RunBatch(StartBatch(old(storeproduct), old(nextId)), products, encodeImages, dbError);
                result == b.result
                && (b.err.Some? ==> err == b.err && storeproduct == old(storeproduct) && nextId == old(nextId))
                && (b.err.None? && dbError(Commit).Some? ==>
                      err == dbError(Commit) && storeproduct == old(storeproduct) && nextId == old(nextId))
                && (b.err.None? && dbError(Commit).None? ==> err.None? && storeproduct == b.table && nextId == b.nextId)
    {
      result := InsertResult(0, []);
      if dbError(Begin).Some? {
        return result, dbError(Begin);
      }
      var tx, txNextId := storeproduct, nextId;
      if dbError(Prepare).Some? {
        return result, dbError(Prepare);
      }
      ghost var start := StartBatch(storeproduct, nextId);
      for i := 0 to |products|
        invariant RunBatch(start, products[..i], encodeImages, dbError) == Batch(tx, txNextId, result, None)
      {
        var product := products[i];
        assert products[..i + 1][..i] == products[..i];
        if dbError(ExistsQuery(i)).Some? {
          BatchErrorSticks(start, products, encodeImages, dbError, i + 1);
          return result, dbError(ExistsQuery(i));
        }
        var found := HasKey(tx, product.stockItemId, product.sku);
        if found {
          result := result.(duplicates := result.duplicates + [product.sku]);
        } else {
          if dbError(Marshal(i)).Some? {
            BatchErrorSticks(start, products, encodeImages, dbError, i + 1);
            return result, dbError(Marshal(i));
          }
          var mediaUrl := encodeImages(product.imageUrl);
          if dbError(Exec(i)).Some? {
            BatchErrorSticks(start, products, encodeImages, dbError, i + 1);
            return result, dbError(Exec(i));
          }
          tx := tx + [ProductRow(txNextId, product.storeId, product.stockItemId, product.price, product.discountedPrice,
                                 product.sku, product.currency, product.status, mediaUrl)];
          txNextId := txNextId + 1;
          if dbError(RowsAffected(i)).Some? {
            BatchErrorSticks(start, products, encodeImages, dbError, i + 1);
            return result, dbError(RowsAffected(i));
          }
          result := result.(inserted := result.inserted + 1);
        }
      }
      assert products[..|products|] == products;
      if dbError(Commit).Some? {
        return result, dbError(Commit);
      }
      storeproduct, nextId := tx, txNextId;
      return result, None;
    }
  
    /** `GetProductsByCompany`: the company's store ids, then the joined
        rows of those stores grouped by stock item. */
    method GetProductsByCompany(companyId: int, decodeImages: string -> Option<seq<string>>,
                                dbError: DbStep -> Option<string>)
      returns (r: Result<GoSlice<MergeProduct>>)
      ensures dbError(StoreQuery).Some? ==> r == Err(dbError(StoreQuery).value)
      ensures dbError(StoreQuery).None? ==>
                var stores := CompanyStores(store, companyId);
                var scanErr := FirstStoreScanError(dbError, |stores|);
                (scanErr.Some? ==> r == Err(scanErr.value))
                && (scanErr.None? && stores == [] ==> r == Ok(Slice([])))
                && (scanErr.None? && stores != [] && dbError(Query).Some? ==> r == Err(dbError(Query).value))
      ensures dbError(StoreQuery).None? && FirstStoreScanError(dbError, |CompanyStores(store, companyId)|).None?
              && CompanyStores(store, companyId) != [] && dbError(Query).None? ==>
                var rows := JoinRows(CompanyStoreIds(store, companyId), storeproduct, stockitem);
                (FirstScanError(dbError, |rows|).Some? ==> r == Err(FirstScanError(dbError, |rows|).value))
                && (FirstScanError(dbError, |rows|).None? ==> r.Ok? && ListsGroups(r.value, rows, decodeImages))
    {
      if dbError(StoreQuery).Some? {
        return Err(dbError(StoreQuery).value);
      }
      var scanned := ScanStoreIds(CompanyStores(store, companyId), dbError);
      if scanned.Err? {
        return Err(scanned.msg);
      }
      var storeIds := scanned.value;
      CompanyStoreIdsAgree(store, companyId);
      if |storeIds| == 0 {
        return Ok(Slice([]));
      }
      if dbError(Query).Some? {
        return Err(dbError(Query).value);
      }
      r := GroupRows(JoinRows(storeIds, storeproduct, stockitem), decodeImages, dbError);
    }

    /** `GetStoreByCompany`: the company's store ids by platform, each list
        in row order. */
    method GetStoreByCompany(companyId: int, dbError: DbStep -> Option<string>)
      returns (r: Result<map<string, seq<int>>>)
      ensures dbError(Query).Some? ==> r == Err("failed to query database: " + dbError(Query).value)
      ensures dbError(Query).None? ==>
                var rows := CompanyStores(store, companyId);
                var scanErr := FirstScanError(dbError, |rows|);
                (scanErr.Some? ==> r == Err("failed to scan row: " + scanErr.value))
                && (scanErr.None? && dbError(RowsErr).Some? ==> r == Err("error iterating rows: " + dbError(RowsErr).value))
                && (scanErr.None? && dbError(RowsErr).None? ==>
                      r.Ok? && IsPlatformMap(r.value, rows))
    {
      if dbError(Query).Some? {
        return Err("failed to query database: " + dbError(Query).value);
      }
      var rows := CompanyStores(store, companyId);
      var storeMap: map<string, seq<int>> := map[];
      for i := 0 to |rows|
        invariant IsPlatformMap(storeMap, rows[..i])
        invariant FirstScanError(dbError, i).None?
      {
        if dbError(RowScan(i)).Some? {
          ScanErrorAt(dbError, |rows|, i);
          return Err("failed to scan row: " + dbError(RowScan(i)).value);
        }
        var row := rows[i];
        PlatformMapStep(storeMap, rows, i);
        var ids := if row.platform in storeMap then storeMap[row.platform] else [];
        storeMap := storeMap[row.platform := ids + [row.id]];
      }
      assert rows[..|rows|] == rows;
      if dbError(RowsErr).Some? {
        return Err("error iterating rows: " + dbError(RowsErr).value);
      }
      return Ok(storeMap);
    }

    /** `GetStoreSkus`: the SKUs of the store's rows, each mapped to true.
        An error while iterating is returned beside the set. */
    method GetStoreSkus(storeId: int, dbError: DbStep -> Option<string>)
      returns (skus: Option<map<string, bool>>, err: Option<string>)
      ensures dbError(Query).Some? ==> skus.None? && err == Some("failed to query database: " + dbError(Query).value)
      ensures dbError(Query).None? ==>
                var rows := StoreRows(storeproduct, storeId);
                var scanErr := FirstScanError(dbError, |rows|);
                (scanErr.Some? ==> skus.None? && err == Some("failed to scan row: " + scanErr.value))
                && (scanErr.None? ==> skus.Some? && skus.value.Keys == SkuSet(rows)
                                      && (forall k :: k in skus.value ==> skus.value[k]) && err == dbError(RowsErr))
    {
      if dbError(Query).Some? {
        return None, Some("failed to query database: " + dbError(Query).value);
      }
      var rows := StoreRows(storeproduct, storeId);
      var m: map<string, bool> := map[];
      for i := 0 to |rows|
        invariant m.Keys == SkuSet(rows[..i]) && forall k :: k in m ==> m[k]
        invariant FirstScanError(dbError, i).None?
      {
        if dbError(RowScan(i)).Some? {
          ScanErrorAt(dbError, |rows|, i);
          return None, Some("failed to scan row: " + dbError(RowScan(i)).value);
        }
        assert rows[..i + 1][..i] == rows[..i];
        m := m[rows[i].sku := true];
      }
      assert rows[..|rows|] == rows;
      return Some(m), dbError(RowsErr);
    }

    /** `DeleteMappedProductsBySKU`: removes the store's rows with that SKU
        and reports how many went; an unreadable count reads as 0. */
    method DeleteMappedProductsBySKU(storeId: int, sku: string, dbError: DbStep -> Option<string>)
      returns (affected: int, err: Option<string>)
      modifies this
      ensures nextId == old(nextId) && stockitem == old(stockitem) && store == old(store)
      ensures dbError(Exec(0)).Some? ==> affected == 0 && err == dbError(Exec(0)) && storeproduct == old(storeproduct)
      ensures dbError(Exec(0)).None? ==>
                err.None? && storeproduct == RemoveRows(old(storeproduct), storeId, sku)
                && affected == (if dbError(RowsAffected(0)).Some? then 0 else Affected(old(storeproduct), storeId, sku))
    {
      if dbError(Exec(0)).Some? {
        return 0, dbError(Exec(0));
      }
      var remaining := RemoveRows(storeproduct, storeId, sku);
      affected := if dbError(RowsAffected(0)).Some? then 0 else |storeproduct| - |remaining|;
      storeproduct := remaining;
      return affected, None;
    }

    /** `DeleteMappedProductsBySKUs`: one delete per SKU, outside any
        transaction; SKUs whose delete failed or removed nothing are
        reported failed. Both lists are nil exactly when empty, so they are
        plain sequences here. */
    method DeleteMappedProductsBySKUs(storeId: int, skus: seq<string>, dbError: DbStep -> Option<string>)
      returns (deleted: seq<string>, failed: seq<string>, err: Option<string>)
      modifies this
      ensures nextId == old(nextId) && stockitem == old(stockitem) && store == old(store)
      ensures skus == [] ==> deleted == [] && failed == [] && err == Some("no SKUs provided")
                             && storeproduct == old(storeproduct)
      ensures skus != [] ==> err.None? && RunDeletes(old(storeproduct), storeId, skus, dbError) == Deletion(storeproduct, deleted, failed)
    {
      if |skus| == 0 {
        return [], [], Some("no SKUs provided");
      }
      deleted, failed := [], [];
      for i := 0 to |skus|
        invariant nextId == old(nextId) && stockitem == old(stockitem) && store == old(store)
        invariant RunDeletes(old(storeproduct), storeId, skus[..i], dbError) == Deletion(storeproduct, deleted, failed)
      {
        var sku := skus[i];
        assert skus[..i + 1][..i] == skus[..i];
        assert RunDeletes(old(storeproduct), storeId, skus[..i + 1], dbError)
               == DeleteStep(Deletion(storeproduct, deleted, failed), i, storeId, sku, dbError);
        if dbError(Exec(i)).Some? {
          failed := failed + [sku];
        } else {
          var remaining := RemoveRows(storeproduct, storeId, sku);
          var rowsAffected := if dbError(RowsAffected(i)).Some? then 0 else |storeproduct| - |remaining|;
          storeproduct := remaining;
          if rowsAffected > 0 {
            deleted := deleted + [sku];
          } else {
            failed := failed + [sku];
          }
        }
      }
      assert skus[..|skus|] == skus;
      return deleted, failed, None;
    }
  }
}
