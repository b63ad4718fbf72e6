/** The product records the products service and repository exchange. */
module ProductModels {

  /** One marketplace SKU of a product. */
  datatype Sku = Sku(status: string, shopSku: string, images: seq<string>, quantity: int,
                     price: real, specialPrice: real)

  datatype Attributes = Attributes(name: string, description: string)

  /** A product as the marketplace's product listing returns it. */
  datatype ApiProduct = ApiProduct(itemId: int, images: seq<string>, skus: seq<Sku>, attributes: Attributes)

  /** The service's own product shape. */
  datatype Product = Product(itemId: int, storeId: int, name: string, description: string,
                             images: seq<string>, skus: seq<Sku>, quantity: int)

  /** A row of the `storeproduct` table, as far as the repository reads or
      writes it. */
  datatype StoreProduct = StoreProduct(
    id: int, storeId: int, stockItemId: int, sku: string, currency: string,
    price: real, discountedPrice: real, status: string, imageUrl: seq<string>)

  /** A stock item with the store products that sell it. */
  datatype MergeProduct = MergeProduct(stockItemId: int, refPrice: real, refCost: real, quantity: int,
                                       storeProducts: seq<StoreProduct>)

  datatype InsertResult = InsertResult(inserted: int, duplicates: seq<string>)

  datatype ProductRequest = ProductRequest(storeId: int, products: seq<StoreProduct>)
}
