# Product price analysis — a Dafny model

This project models the product service of a marketplace price monitor.
The service takes a product's offer snapshot and turns every offer into a
seller. It stores the snapshot and one price-history row per seller, and
neither store failure stops the request. It then analyses the sellers:

- the global minimum and mean price;
- a per-segment table of seller count, price total and least price;
- the sellers flagged as *dumping*, meaning priced abnormally low against
  their own segment;
- a recommended ("optimal") price, rounded to a multiple of 1000.

The service can also re-analyse the latest stored snapshot, and it returns
the 100 most recent price-history rows of a product.

Modules:

- `Models` — the records: offer, seller, snapshot, price-history row,
  analysis, segment statistic.
- `Seqs` — sums, least and greatest elements, filtering and subsequences,
  with their lemmas.
- `PriceSpec` — the analysis as functions over the whole seller list
  (`SegmentStats`, `DumpingSellers`, `OptimalPrice`, `Analysis`), and the
  properties proved about them.
- `Ports` — the store, a `Repository` class whose every call may fail. Ghost
  logs record each write the service asked for and each read it made, with
  the product read and the outcome.
- `ProductsService` — the service operations as methods with the loops of
  the original. `AnalyzePrices`, `AggregatePrices`, `FindDumpingSellers` and
  `CalculateOptimalPrice` are proved equal to the `PriceSpec` functions.
  `ConvertOffers` and `SavePriceHistories` are proved against the offer-to-seller
  and seller-to-row mappings. `GetPriceHistory` and `AnalyzeProduct` are
  proved against the store's read functions `Recent` and `Latest`.
- `Scenarios` — worked examples on two-seller lists and single-seller lists.

Prices, ratings and segment identifiers are modelled as `real`. Go's
`math.Round` is modelled as rounding to the nearest integer, with halves
going away from zero.

The dumping rule is modelled as the code writes it: `price < segmentMin * 1.05`
(products_service.go:140). So whenever a segment has another member, its
cheapest seller is flagged, as long as its price is positive
(`PriceSpec.CheapestPeerDumps`). Two sellers tied at 1000 in one segment are
therefore both flagged (`Scenarios.TiedSellersAreBothFlagged`): a tie at the
segment minimum is flagged, since 1000 < 1000 × 1.05.

## Model

| member | source | states |
|---|---|---|
| ProductsService.ConvertOffers | internal/service/products_service.go:26-38 | one seller per offer, at the same index, with id, name, price, rating, review and purchase counts, SKU and segment copied from the offer |
| ProductsService.SaveKaspiData | internal/service/products_service.go:24-70 | the result is always a success: the analysis of the converted sellers with the payload's offer total; exactly one snapshot write and one history write per seller are requested, in order; the stored snapshots gain at most that snapshot; old history is kept and the rows added are some of the attempted rows, in order |
| ProductsService.SavePriceHistories | internal/service/products_service.go:51-62 | one history write per seller, in seller order, each with the product, seller id, price and timestamp; failed saves are skipped without stopping the loop, so the stored rows are a subsequence of the attempted rows; snapshots are untouched |
| ProductsService.AnalyzeProduct | internal/service/products_service.go:72-88 | the store is read exactly once, for this product, and nothing else in it changes; a failed read gives GetProductInfoFailed with the store's error; a successful read of a snapshot without sellers gives NoDataFound for that product; a successful read of a snapshot with sellers gives the analysis of those sellers |
| ProductsService.GetPriceHistory | internal/service/products_service.go:189-191 | the store is read exactly once, for this product with limit 100, and the result is that read's outcome, failure included; on success, the product's most recent rows, at most 100 of them; nothing else in the store changes |
| ProductsService.AnalyzePrices | internal/service/products_service.go:90-158 | the analysis equals `Analysis`: all zeros for no sellers, otherwise the global minimum and mean, the segment-based dumping list and the recommendation |
| ProductsService.AggregatePrices | internal/service/products_service.go:100-129 | the single scan yields the least, greatest and total price, and a segment table equal to the one built from each segment's members |
| ProductsService.SegmentEntry | internal/service/products_service.go:122-127 | the entry the scan body writes back equals the old entry with count raised by one, the price added to the total and the minimum lowered to the price, or a fresh entry of count 1 with the price as total and minimum |
| ProductsService.FindDumpingSellers | internal/service/products_service.go:133-144 | the sellers kept are exactly those the dumping rule flags against the segment table, in input order |
| ProductsService.CalculateOptimalPrice | internal/service/products_service.go:160-187 | the result equals the midpoint of minimum and mean, scaled by the mean-rating multiplier and rounded to the nearest 1000 |
| PriceSpec.Round | internal/service/products_service.go:186 | the result is within one half of the argument, and halves round away from zero |
| PriceSpec.NearestThousand | internal/service/products_service.go:186 | the result is a multiple of 1000 within 500 of the argument; halfway values round away from zero |
| PriceSpec.OptimalPrice | internal/service/products_service.go:171-186 | the recommendation is a multiple of 1000 within 500 of the unrounded price, with halfway values rounded away from zero |
| PriceSpec.MembersSnoc | internal/service/products_service.go:121-128 | appending a seller adds it to its own segment's members and leaves other segments unchanged |
| PriceSpec.MembersExactly | internal/service/products_service.go:106-129 | a segment's members are exactly the sellers of that segment, each occurring as often as in the input |
| PriceSpec.SegmentsSnoc | internal/service/products_service.go:122-128 | appending a seller adds its segment to the set of segments present |
| PriceSpec.InSegmentsIff | internal/service/products_service.go:122 | a segment has a table entry exactly when it has at least one member |
| PriceSpec.SumSnoc | internal/service/products_service.go:124-127 | appending a price adds it to the total; the least price becomes it or the old least, whichever is lower |
| PriceSpec.StatOfSnoc | internal/service/products_service.go:122-127 | the statistic of a segment grown by one seller is the old one with the count raised by one, the price added to the total and the minimum updated |
| PriceSpec.SegmentStatsSnocAt | internal/service/products_service.go:122-128 | one scan step changes the table entry of the seller's own segment only |
| PriceSpec.SegmentStatsSnoc | internal/service/products_service.go:122-128 | one scan step updates the seller's segment entry and leaves every other entry unchanged; an absent entry starts at count 1, with the seller's price as total and minimum |
| PriceSpec.SegmentStatsStep | internal/service/products_service.go:112-129 | the same step, stated on prefixes of the seller list as the loop sees them |
| PriceSpec.SegmentCountPositive | internal/service/products_service.go:123-125 | every table entry has a positive count, so an existing entry never takes the `count == 1` branch of the minimum update |
| PriceSpec.LeastPrice | internal/service/products_service.go:125-126 | the least price of a non-empty group is at most every price in it and is the price of one of its sellers |
| PriceSpec.SegmentStatsSound | internal/service/products_service.go:105-129 | the table has an entry exactly for the segments that occur; each entry's count is the number of members (at least 1), its total is their price sum, and its minimum is the least member price, attained by a member |
| PriceSpec.FlaggedSnoc | internal/service/products_service.go:135-143 | appending a seller appends it to the dumping list exactly when the rule flags it |
| PriceSpec.FlaggedStep | internal/service/products_service.go:135-143 | the same step, stated on prefixes of the seller list as the loop sees them |
| PriceSpec.DumpingIsSubsequence | internal/service/products_service.go:134-144 | the dumping list is the input with some sellers removed, in the original order |
| PriceSpec.DumpingIff | internal/service/products_service.go:137-141 | a seller is flagged if and only if it is in the input, its segment has more than one member, and its price is below 90% of the segment mean or below 105% of the segment minimum |
| PriceSpec.MembersOfLone | internal/service/products_service.go:137 | a seller whose segment occurs at no other position is the only member of that segment |
| PriceSpec.LoneSellerNeverDumps | internal/service/products_service.go:137 | a seller alone in its segment is never flagged, whatever its price |
| PriceSpec.CheapestPeerDumps | internal/service/products_service.go:140 | a positive-priced cheapest seller of a segment with more than one member is always flagged, including a tie at the minimum |
| PriceSpec.AnalysisProperties | internal/service/products_service.go:90-158 | the analysis echoes the product and the sellers; the dumping list is a subsequence of the sellers; the recommendation is a multiple of 1000; no sellers gives all zeros and no dumping; otherwise the minimum is attained and bounds every price, the mean is the price sum over the count, and minimum ≤ mean ≤ maximum |
| Seqs.PrefixStep | internal/service/products_service.go:112-119 | one more loop step adds the price to the running sum and updates the running least and greatest price |
| Seqs.MinOfIsLowerBound | internal/service/products_service.go:113-115 | the least element is at most every element |
| Seqs.MinOfIsElement | internal/service/products_service.go:101 | the least element of a non-empty sequence occurs in it |
| Seqs.MaxOfIsUpperBound | internal/service/products_service.go:116-118 | the greatest element is at least every element |
| Seqs.MaxOfIsElement | internal/service/products_service.go:102 | the greatest element of a non-empty sequence occurs in it |
| Seqs.SumAtLeast | internal/service/products_service.go:119 | a lower bound on every element, times the length, bounds the sum from below |
| Seqs.SumAtMost | internal/service/products_service.go:119 | an upper bound on every element, times the length, bounds the sum from above |
| Seqs.MeanBetweenMinAndMax | internal/service/products_service.go:131 | the mean of a non-empty sequence lies between its least and greatest element |
| Seqs.DivideBounds | internal/service/products_service.go:131 | dividing bounds by a positive count keeps them |
| Seqs.FilterSnoc | internal/service/products_service.go:141 | filtering a sequence grown by one element appends that element exactly when it is kept |
| Seqs.FilterMultiset | internal/service/products_service.go:134-144 | filtering keeps every accepted element exactly as often as it occurs, and no other element |
| Seqs.FilterMembership | internal/service/products_service.go:134-144 | an element is in the filtered sequence if and only if it is in the input and accepted |
| Seqs.FilterIsSubseq | internal/service/products_service.go:134-144 | the filtered sequence is a subsequence of the input |
| Seqs.SubseqDropLast | internal/service/products_service.go:134-144 | a subsequence of a prefix is a subsequence of the whole |
| Seqs.SubseqSnoc | internal/service/products_service.go:52-62 | appending a row to the attempted rows alone, or to both sides, keeps the stored rows a subsequence |
| Ports.Latest | internal/repository/porstgres.go:134-165 | the snapshot returned belongs to the product asked for; it is one that was saved, or the empty snapshot |
| Ports.LatestIsLastSaved | internal/repository/porstgres.go:138-140 | the product's latest snapshot is the one at the last position holding that product |
| Ports.LatestOfUnsaved | internal/repository/porstgres.go:149-153 | a product with no saved snapshot reads back as the empty snapshot with the zero time |
| Ports.Recent | internal/repository/porstgres.go:107-132 | at most `limit` rows, all of the product and all stored; fewer only when every row of the product is included |
| Ports.RecentIsNewestFirst | internal/repository/porstgres.go:108-114 | the rows returned are the product's rows in newest-first order, cut at the limit, so no omitted row of the product is newer than a returned one |
| Seqs.Reversed | internal/repository/porstgres.go:112 | the result has the input's length and holds its elements in the opposite order |
| Ports.Repository.constructor | internal/core/ports/repository.go:8-15 | a new store holds no snapshots and no history, and has logged no writes and no reads |
| Ports.Repository.SaveProductInfo | internal/repository/porstgres.go:167-197 | the write is logged; on success a snapshot with sellers is appended and becomes the product's latest; on failure, or for a snapshot without sellers, nothing is stored; history is unchanged |
| Ports.Repository.SavePriceHistory | internal/repository/porstgres.go:93-105 | the write is logged; on success the row is appended to the history; snapshots are unchanged |
| Ports.Repository.GetProductInfo | internal/repository/porstgres.go:134-165 | the product read and the outcome are logged and the stored data is unchanged; on success, the product's latest snapshot |
| Ports.Repository.GetPriceHistory | internal/repository/porstgres.go:107-132 | the product, the limit and the outcome are logged and the stored data is unchanged; on success, the product's `limit` most recent rows |
| Scenarios.Peers | internal/service/products_service.go:100-144 | for two sellers of one segment: the single table entry, the price and rating sums, the minimum, and the dumping list built from the rule applied to each seller |
| Scenarios.TiedSellersAreBothFlagged | internal/service/products_service.go:140 | two sellers at 1000 with rating 4: minimum, mean and recommendation are 1000, and both sellers are flagged |
| Scenarios.UndercutterIsFlagged | internal/service/products_service.go:137-141 | sellers at 500 and 1000: minimum 500, mean 750, recommendation 1000, and only the seller at 500 is flagged |
| Scenarios.RatingSweep | internal/service/products_service.go:178-186 | a single seller at 10000 gets 11000 with rating 5 (10500 rounds up) and 10000 with rating 3 (9500 rounds up) |
| Scenarios.SegmentsAndMembers | internal/service/products_service.go:122-128 | when all sellers share one segment, it is the only segment and its members are all the sellers |

## Left out

- The SQL, the connection retry loop, transactions, `HealthCheck` and `Close` are left out. The store is an abstract list of snapshots and rows, and every store call may fail.
- The HTTP handlers, configuration and server start-up are not part of this model.
- The service's `GetProductInfo` pass-through (products_service.go:193-195) is not modelled separately. `Ports.Repository.GetProductInfo` is the call it forwards.
- Each `time.Now()` within one request is represented by a single `now` parameter. The RFC 3339 formatting of the analysis time is not modelled.
- Log output on swallowed store errors is left out. Store errors carry no message.
- Prices, ratings and segments are exact reals. Floating-point rounding, NaN segment keys and infinities are not modelled.
- Go returns a nil dumping list when no seller is flagged, which serialises as JSON null; the model uses the empty sequence.
- `calculateOptimalPrice` takes the segment table but never uses it, so the model drops that argument. The greatest price is computed but never exposed, as in the source.
- `analyzePrices` is split into `AggregatePrices`, `FindDumpingSellers` and `CalculateOptimalPrice`, in the order the source runs them.
- Ports.Repository.GetProductInfo: the store returns every row carrying the product's greatest timestamp. The model returns the last saved snapshot instead, so two snapshots saved at the same instant are not merged.
- Ports.Repository.GetProductInfo: the store's query has no ORDER BY, so the order of the sellers it returns is unspecified (likely seller-id order, by the primary key). The model returns them in the order they were saved. The order of the sellers and of the dumping list that `AnalyzeProduct` returns rests on that choice.
- Ports.Recent: "most recent" means the last appended. The store orders by timestamp, and its order among rows with equal timestamps is not modelled.
- Ports.Repository.SaveProductInfo: a snapshot is saved whole or not at all, as the transaction does. The per-seller row layout and the primary-key collision of two sellers with the same id at one instant are not modelled.
- The decimal column widths of the tables are not modelled. They would round stored prices, ratings and segments. A value that does not fit (a rating of 10 or more, a segment of 100 or more) makes the insert fail, and with it the whole snapshot transaction.
- Ports.Repository.GetProductInfo and Ports.Repository.GetPriceHistory: the store never checks `rows.Err()` after iterating (porstgres.go:123-131, 154-164), so an error during iteration yields a truncated list reported as a success. A successful read in the model always returns the whole of `Latest` or `Recent`.
- The store is used by one request at a time. Concurrent requests could interleave their writes; the history clauses of `SaveKaspiData` assume they do not.
- Ports.Repository.constructor: the real store opens an existing database and creates its tables only if missing (porstgres.go:20-56), so it need not start empty. The empty constructor is a convenience; no service contract relies on the store's starting state.
- Offer fields that the service never reads are not carried by `Models.Offer`: master SKU and category, title, price before discount, discount, delivery details and preorder.
- The row id the store assigns to a price-history row, which `GetPriceHistory` returns, is not part of `Models.PriceHistory`.
