/** The records the price-analysis service works on. Prices, ratings and
    segment keys are Go `float64` values in the service; here they are exact
    `real`s. Instants (`time.Time` and the analysis-time string) are opaque
    numbers supplied by the caller. */
module Models {

  type Timestamp = int

  /** One merchant's listing of the product, as the analysis sees it. */
  datatype Seller = Seller(
    id: string,
    name: string,
    price: real,
    rating: real,
    reviews: int,
    purchases: int,
    sku: string,
    segment: real)

  /** One offer of the marketplace payload. Fields the analysis never reads
      (master SKU and category, title, price before discount, discount,
      delivery details, preorder) are not carried. */
  datatype Offer = Offer(
    merchantId: string,
    merchantName: string,
    merchantSku: string,
    merchantReviewsQuantity: int,
    merchantRating: real,
    merchantSegmentId: real,
    purchaseCount: int,
    price: real)

  datatype ProductOffers = ProductOffers(offers: seq<Offer>, total: int, offersCount: int)

  datatype KaspiDataRequest = KaspiDataRequest(productID: string, offers: ProductOffers)

  /** A snapshot of all sellers of a product at one instant. */
  datatype ProductInfo = ProductInfo(productID: string, sellers: seq<Seller>, timestamp: Timestamp)

  /** One observed price of one seller. The storage-assigned row id is left out. */
  datatype PriceHistory = PriceHistory(productID: string, sellerID: string, price: real, timestamp: Timestamp)

  /** The result of one analysis pass. */
  datatype ProductAnalysis = ProductAnalysis(
    productID: string,
    minPrice: real,
    avgPrice: real,
    optimalPrice: real,
    dumpingSellers: seq<Seller>,
    sellers: seq<Seller>,
    totalOffers: int,
    analysisTime: Timestamp)

  /** Per-segment aggregate built during one analysis pass. */
  datatype SegmentStat = SegmentStat(count: int, total: real, min: real)
}
