/** The product service: ingestion of a marketplace offer payload, on-demand
    re-analysis of a stored snapshot, and the price analysis itself.
    AnalyzePrices and the passes it is split into are proved equal to the
    functions of PriceSpec; the other methods are proved against the
    offer-to-seller and seller-to-row mappings and the store's reads. */
module ProductsService {
  import opened Wrappers
  import opened Models
  import opened Seqs
  import opened PriceSpec
  import opened Ports

  datatype ServiceError =
    | GetProductInfoFailed(cause: RepoError)  // the store could not be read
    | NoDataFound(productID: string)          // the stored snapshot has no sellers

  /** How many price-history rows GetPriceHistory asks the store for. */
  const PriceHistoryLimit: nat := 100

  function OfferToSeller(o: Offer): Seller
  {
    Seller(o.merchantId, o.merchantName, o.price, o.merchantRating,
           o.merchantReviewsQuantity, o.purchaseCount, o.merchantSku, o.merchantSegmentId)
  }

  function SellersOf(offers: seq<Offer>): seq<Seller>
  {
    seq(|offers|, i requires 0 <= i < |offers| => OfferToSeller(offers[i]))
  }

  /** The price-history rows an ingestion records: one per seller, in order. */
  function HistoryRows(productID: string, sellers: seq<Seller>, now: Timestamp): seq<PriceHistory>
  {
    seq(|sellers|, i requires 0 <= i < |sellers| => PriceHistory(productID, sellers[i].id, sellers[i].price, now))
  }

  function HistoryWrites(rows: seq<PriceHistory>): seq<Write>
  {
    seq(|rows|, i requires 0 <= i < |rows| => SavePriceHistoryCall(rows[i]))
  }

  /** One seller per offer, at the same index, carrying the offer's merchant
      identity, name, SKU, rating, review and purchase counts, segment and price. */
  method ConvertOffers(offers: seq<Offer>) returns (sellers: seq<Seller>)
    ensures |sellers| == |offers|
    ensures forall i :: 0 <= i < |offers| ==>
              && sellers[i].id == offers[i].merchantId
              && sellers[i].name == offers[i].merchantName
              && sellers[i].price == offers[i].price
              && sellers[i].rating == offers[i].merchantRating
              && sellers[i].reviews == offers[i].merchantReviewsQuantity
              && sellers[i].purchases == offers[i].purchaseCount
              && sellers[i].sku == offers[i].merchantSku
              && sellers[i].segment == offers[i].merchantSegmentId
    ensures sellers == SellersOf(offers)
  {
    var a := new Seller[|offers|];
    for i := 0 to |offers|
      invariant forall j :: 0 <= j < i ==> a[j] == OfferToSeller(offers[j])
    {
      a[i] := OfferToSeller(offers[i]);
    }
    sellers := a[..];
  }

  /** Stores the snapshot and one price-history row per seller, then analyses
      the sellers. Storage failures are swallowed: the result is always the
      analysis, with the payload's offer total. */
  method SaveKaspiData(repo: Repository, request: KaspiDataRequest, now: Timestamp)
    returns (r: Result<ProductAnalysis, ServiceError>)
    modifies repo
    ensures var sellers := SellersOf(request.offers.offers);
            r == Success(Analysis(request.productID, sellers, now).(totalOffers := request.offers.total))
    ensures var sellers := SellersOf(request.offers.offers);
            var info := ProductInfo(request.productID, sellers, now);
            && repo.writes == old(repo.writes) + [SaveProductInfoCall(info)]
                              + HistoryWrites(HistoryRows(request.productID, sellers, now))
            && (repo.snapshots == old(repo.snapshots) || repo.snapshots == old(repo.snapshots) + [info])
    ensures repo.lookups == old(repo.lookups)
    ensures |old(repo.history)| <= |repo.history|
    ensures repo.history[..|old(repo.history)|] == old(repo.history)
    ensures SubseqOf(repo.history[|old(repo.history)|..],
                     HistoryRows(request.productID, SellersOf(request.offers.offers), now))
  {
    var sellers := ConvertOffers(request.offers.offers);
    var info := ProductInfo(request.productID, sellers, now);
    var infoErr := repo.SaveProductInfo(info);
    // A failure here is only logged.
    SavePriceHistories(repo, request.productID, sellers, now);

    var analysis := AnalyzePrices(request.productID, sellers, now);
    analysis := analysis.(totalOffers := request.offers.total, analysisTime := now);
    r := Success(analysis);
  }

  /** The price-history part of SaveKaspiData: one save per seller, in
      order; a failed save is only logged, so the rows stored are some of the
      rows attempted, in the same order. */
  method SavePriceHistories(repo: Repository, productID: string, sellers: seq<Seller>, now: Timestamp)
    modifies repo
    ensures repo.snapshots == old(repo.snapshots) && repo.lookups == old(repo.lookups)
    ensures repo.writes == old(repo.writes) + HistoryWrites(HistoryRows(productID, sellers, now))
    ensures |old(repo.history)| <= |repo.history|
    ensures repo.history[..|old(repo.history)|] == old(repo.history)
    ensures SubseqOf(repo.history[|old(repo.history)|..], HistoryRows(productID, sellers, now))
  {
    ghost var history := repo.history;
    ghost var rows := HistoryRows(productID, sellers, now);
    ghost var stored: seq<PriceHistory> := [];
    for i := 0 to |sellers|
      invariant repo.snapshots == old(repo.snapshots) && repo.lookups == old(repo.lookups)
      invariant repo.writes == old(repo.writes) + HistoryWrites(rows[..i])
      invariant repo.history == history + stored
      invariant SubseqOf(stored, rows[..i])
    {
      var row := PriceHistory(productID, sellers[i].id, sellers[i].price, now);
      var historyErr := repo.SavePriceHistory(row);
      // A failure here is only logged.
      assert rows[..i + 1] == rows[..i] + [row];
      assert HistoryWrites(rows[..i + 1]) == HistoryWrites(rows[..i]) + [SavePriceHistoryCall(row)];
      SubseqSnoc(stored, rows[..i], row);
      if historyErr.None? {
        stored := stored + [row];
      }
    }
    assert rows[..|sellers|] == rows;
    assert repo.history[..|history|] == history && repo.history[|history|..] == stored;
  }

  /** Re-analyses the latest stored snapshot of a product: an error when the
      store cannot be read or the snapshot has no sellers. */
  method AnalyzeProduct(repo: Repository, productID: string, now: Timestamp)
    returns (r: Result<ProductAnalysis, ServiceError>)
    modifies repo
    ensures repo.snapshots == old(repo.snapshots) && repo.history == old(repo.history)
    ensures repo.writes == old(repo.writes)
    ensures exists info :: repo.lookups == old(repo.lookups) + [ProductInfoRead(productID, info)]
    ensures var read, stored := repo.lookups[|repo.lookups| - 1].info, Latest(repo.snapshots, productID).sellers;
            && (read.Failure? ==> r == Failure(GetProductInfoFailed(read.error)))
            && (read.Success? && stored == [] ==> r == Failure(NoDataFound(productID)))
            && (read.Success? && stored != [] ==> r == Success(Analysis(productID, stored, now)))
  {
    var info := repo.GetProductInfo(productID);
    if info.Failure? {
      return Failure(GetProductInfoFailed(info.error));
    }
    if |info.value.sellers| == 0 {
      return Failure(NoDataFound(productID));
    }
    var analysis := AnalyzePrices(productID, info.value.sellers, now);
    r := Success(analysis.(analysisTime := now));
  }

  /** The 100 most recent price-history rows of a product, most recent first. */
  method GetPriceHistory(repo: Repository, productID: string) returns (r: Result<seq<PriceHistory>, RepoError>)
    modifies repo
    ensures repo.snapshots == old(repo.snapshots) && repo.history == old(repo.history)
    ensures repo.writes == old(repo.writes)
    ensures repo.lookups == old(repo.lookups) + [PriceHistoryRead(productID, PriceHistoryLimit, r)]
    ensures r.Success? ==> r.value == Recent(repo.history, productID, PriceHistoryLimit)
    ensures r.Success? ==> |r.value| <= 100
  {
    r := repo.GetPriceHistory(productID, PriceHistoryLimit);
  }

  /** One analysis pass: global minimum and mean price, the per-segment
      table, the dumping sellers and the recommended price. An empty seller
      list gives the all-zero analysis. */
  method AnalyzePrices(productID: string, sellers: seq<Seller>, now: Timestamp) returns (a: ProductAnalysis)
    ensures a == Analysis(productID, sellers, now)
  {
    if |sellers| == 0 {
      return ProductAnalysis(productID, 0.0, 0.0, 0.0, [], [], 0, now);
    }
    var minPrice, maxPrice, sumPrice, segmentStats := AggregatePrices(sellers);
    var avgPrice := sumPrice / |sellers| as real;
    var dumpingSellers := FindDumpingSellers(sellers, segmentStats);
    var optimalPrice := CalculateOptimalPrice(minPrice, avgPrice, sellers);
    a := ProductAnalysis(productID, minPrice, avgPrice, optimalPrice, dumpingSellers, sellers, 0, now);
  }

  /** The aggregation pass of AnalyzePrices: global least, greatest and total
      price, and the per-segment table, in one left-to-right scan. */
  method AggregatePrices(sellers: seq<Seller>)
    returns (minPrice: real, maxPrice: real, sumPrice: real, segmentStats: map<real, SegmentStat>)
    requires sellers != []
    ensures minPrice == MinOf(Prices(sellers))
    ensures maxPrice == MaxOf(Prices(sellers))
    ensures sumPrice == Sum(Prices(sellers))
    ensures segmentStats == SegmentStats(sellers)
  {
    minPrice := sellers[0].price;
    maxPrice := sellers[0].price;
    sumPrice := 0.0;
    segmentStats := map[];
    ghost var prices := Prices(sellers);

    for i := 0 to |sellers|
      invariant minPrice == if i == 0 then prices[0] else MinOf(prices[..i])
      invariant maxPrice == if i == 0 then prices[0] else MaxOf(prices[..i])
      invariant sumPrice == Sum(prices[..i])
      invariant segmentStats == SegmentStats(sellers[..i])
    {
      var seller := sellers[i];
      PrefixStep(prices, i);
      if seller.price < minPrice {
        minPrice := seller.price;
      }
      if seller.price > maxPrice {
        maxPrice := seller.price;
      }
      sumPrice := sumPrice + seller.price;

      if seller.segment in segmentStats {
        SegmentCountPositive(sellers[..i], seller.segment);
      }
      var stat := SegmentEntry(segmentStats, seller);
      assert SegmentStats(sellers[..i + 1]) == segmentStats[seller.segment := stat] by {
        SegmentStatsStep(sellers, i);
      }
      segmentStats := segmentStats[seller.segment := stat];
    }
    assert prices[..|sellers|] == prices;
    assert sellers[..|sellers|] == sellers;
  }

  /** The new table entry of a seller's segment, computed as the scan body
      does it: a missing entry reads as all zeros, the count and total grow,
      and the minimum is reset on the first member or lowered. */
  method SegmentEntry(segmentStats: map<real, SegmentStat>, seller: Seller) returns (stat: SegmentStat)
    requires seller.segment in segmentStats ==> segmentStats[seller.segment].count >= 1
    ensures stat == AddToStat(segmentStats, seller)
  {
    stat := if seller.segment in segmentStats then segmentStats[seller.segment]
            else SegmentStat(0, 0.0, 0.0);
    stat := stat.(count := stat.count + 1, total := stat.total + seller.price);
    if stat.count == 1 || seller.price < stat.min {
      stat := stat.(min := seller.price);
    }
  }

  /** The classification pass of AnalyzePrices: the sellers the dumping rule
      flags against the segment table, in input order. */
  method FindDumpingSellers(sellers: seq<Seller>, segmentStats: map<real, SegmentStat>)
    returns (dumpingSellers: seq<Seller>)
    ensures dumpingSellers == Flagged(segmentStats, sellers)
  {
    dumpingSellers := [];
    for i := 0 to |sellers|
      invariant dumpingSellers == Flagged(segmentStats, sellers[..i])
    {
      var seller := sellers[i];
      if seller.segment in segmentStats && segmentStats[seller.segment].count > 1 {
        var stat := segmentStats[seller.segment];
        var segmentAvg := stat.total / stat.count as real;
        if seller.price < segmentAvg * 0.9 || seller.price < stat.min * 1.05 {
          dumpingSellers := dumpingSellers + [seller];
        }
      }
      assert dumpingSellers == Flagged(segmentStats, sellers[..i + 1]) by {
        FlaggedStep(segmentStats, sellers, i);
      }
    }
    assert sellers[..|sellers|] == sellers;
  }

  /** The recommended price: the midpoint of the minimum and average price,
      scaled by the rating multiplier of the mean rating, rounded to a
      multiple of 1000. */
  method CalculateOptimalPrice(minPrice: real, avgPrice: real, sellers: seq<Seller>) returns (optimal: real)
    requires sellers != []
    ensures optimal == OptimalPrice(minPrice, avgPrice, sellers)
  {
    var basePrice := (minPrice + avgPrice) / 2.0;

    var totalRating := 0.0;
    ghost var ratings := Ratings(sellers);
    for i := 0 to |sellers|
      invariant totalRating == Sum(ratings[..i])
    {
      totalRating := totalRating + sellers[i].rating;
      assert ratings[..i + 1][..i] == ratings[..i];
    }
    assert ratings[..|sellers|] == ratings;
    var avgRating := totalRating / |sellers| as real;

    var ratingMultiplier := 1.0 + (avgRating - 4.0) * 0.05;
    var unrounded := basePrice * ratingMultiplier;
    assert unrounded == UnroundedOptimal(minPrice, avgPrice, sellers);
    optimal := Round(unrounded / 1000.0) as real * 1000.0;
  }
}
