/** The storage collaborator of the service. Its SQL, connection handling and
    transactions are not modelled: every call may fail, and a call that
    succeeds reads or appends the abstract store below. */
module Ports {
  import opened Wrappers
  import opened Models
  import opened Seqs

  /** A storage failure; the driver's message is not modelled. */
  datatype RepoError = StorageError

  /** A read the service made of the store: what it asked for and what came back. */
  datatype Read =
    | ProductInfoRead(productID: string, info: Result<ProductInfo, RepoError>)
    | PriceHistoryRead(productID: string, limit: nat, rows: Result<seq<PriceHistory>, RepoError>)

  /** A write the service asked the store to make, whether or not it succeeded. */
  datatype Write = SaveProductInfoCall(info: ProductInfo) | SavePriceHistoryCall(row: PriceHistory)

  /** The most recently saved snapshot of a product; a snapshot with no
      sellers (and the zero instant) when none was saved. */
  function Latest(snapshots: seq<ProductInfo>, productID: string): (info: ProductInfo)
    ensures info.productID == productID
    ensures info in snapshots || info == ProductInfo(productID, [], 0)
  {
    if snapshots == [] then ProductInfo(productID, [], 0)
    else if snapshots[|snapshots| - 1].productID == productID then snapshots[|snapshots| - 1]
    else Latest(snapshots[..|snapshots| - 1], productID)
  }

  /** The snapshot at the last position holding a product is its latest. */
  lemma {:induction false} LatestIsLastSaved(snapshots: seq<ProductInfo>, productID: string, i: int)
    requires 0 <= i < |snapshots| && snapshots[i].productID == productID
    requires forall j :: i < j < |snapshots| ==> snapshots[j].productID != productID
    ensures Latest(snapshots, productID) == snapshots[i]
  {
    var n := |snapshots| - 1;
    if i < n {
      assert snapshots[n].productID != productID;
      LatestIsLastSaved(snapshots[..n], productID, i);
    }
  }

  /** A product never saved has the empty snapshot as its latest. */
  lemma {:induction false} LatestOfUnsaved(snapshots: seq<ProductInfo>, productID: string)
    requires forall j :: 0 <= j < |snapshots| ==> snapshots[j].productID != productID
    ensures Latest(snapshots, productID) == ProductInfo(productID, [], 0)
  {
    if snapshots != [] {
      LatestOfUnsaved(snapshots[..|snapshots| - 1], productID);
    }
  }

  /** At most `limit` price-history rows of a product, most recent first;
      fewer only when the product has no more rows. */
  function Recent(history: seq<PriceHistory>, productID: string, limit: nat): (rows: seq<PriceHistory>)
    ensures |rows| <= limit
    ensures forall i :: 0 <= i < |rows| ==> rows[i].productID == productID && rows[i] in history
    ensures |rows| < limit ==> forall h :: h in history && h.productID == productID ==> h in rows
  {
    if history == [] || limit == 0 then []
    else
      var last := history[|history| - 1];
      if last.productID == productID then [last] + Recent(history[..|history| - 1], productID, limit - 1)
      else Recent(history[..|history| - 1], productID, limit)
  }

  function ForProduct(productID: string): PriceHistory -> bool
  {
    (h: PriceHistory) => h.productID == productID
  }

  /** Recent is the product's rows, newest first, cut at `limit`: no row of
      the product that it leaves out is newer than one it returns. */
  lemma {:induction false} RecentIsNewestFirst(history: seq<PriceHistory>, productID: string, limit: nat)
    ensures var all := Reversed(Filter(history, ForProduct(productID)));
            Recent(history, productID, limit) == all[..if limit < |all| then limit else |all|]
  {
    if history != [] && limit != 0 {
      var n := |history| - 1;
      var front := Reversed(Filter(history[..n], ForProduct(productID)));
      RecentIsNewestFirst(history[..n], productID, if history[n].productID == productID then limit - 1 else limit);
      if history[n].productID == productID {
        assert Reversed(Filter(history, ForProduct(productID))) == [history[n]] + front;
      } else {
        assert Filter(history, ForProduct(productID)) == Filter(history[..n], ForProduct(productID));
      }
    }
  }

  class Repository {
    /** Saved product snapshots, oldest first. A snapshot is stored as one
        row per seller, so one without sellers leaves nothing behind. */
    var snapshots: seq<ProductInfo>
    /** Saved price-history rows, oldest first. */
    var history: seq<PriceHistory>
    /** Every write requested of the store, in order. */
    ghost var writes: seq<Write>
    /** Every read made of the store, with its outcome, in order. */
    ghost var lookups: seq<Read>

    constructor ()
      ensures snapshots == [] && history == [] && writes == [] && lookups == []
    {
      snapshots, history, writes, lookups := [], [], [], [];
    }

    method SaveProductInfo(info: ProductInfo) returns (err: Option<RepoError>)
      modifies this
      ensures writes == old(writes) + [SaveProductInfoCall(info)]
      ensures history == old(history) && lookups == old(lookups)
      ensures snapshots == if err.None? && info.sellers != [] then old(snapshots) + [info] else old(snapshots)
      ensures err.None? && info.sellers != [] ==> Latest(snapshots, info.productID) == info
    {
      var failed: bool :| true;
      writes := writes + [SaveProductInfoCall(info)];
      if failed {
        err := Some(StorageError);
      } else {
        if info.sellers != [] {
          snapshots := snapshots + [info];
        }
        err := None;
      }
    }

    method SavePriceHistory(row: PriceHistory) returns (err: Option<RepoError>)
      modifies this
      ensures writes == old(writes) + [SavePriceHistoryCall(row)]
      ensures snapshots == old(snapshots) && lookups == old(lookups)
      ensures history == if err.None? then old(history) + [row] else old(history)
    {
      var failed: bool :| true;
      writes := writes + [SavePriceHistoryCall(row)];
      if failed {
        err := Some(StorageError);
      } else {
        history := history + [row];
        err := None;
      }
    }

    method GetProductInfo(productID: string) returns (r: Result<ProductInfo, RepoError>)
      modifies this
      ensures snapshots == old(snapshots) && history == old(history) && writes == old(writes)
      ensures lookups == old(lookups) + [ProductInfoRead(productID, r)]
      ensures r.Success? ==> r.value == Latest(snapshots, productID)
    {
      var failed: bool :| true;
      r := if failed then Failure(StorageError) else Success(Latest(snapshots, productID));
      lookups := lookups + [ProductInfoRead(productID, r)];
    }

    method GetPriceHistory(productID: string, limit: nat) returns (r: Result<seq<PriceHistory>, RepoError>)
      modifies this
      ensures snapshots == old(snapshots) && history == old(history) && writes == old(writes)
      ensures lookups == old(lookups) + [PriceHistoryRead(productID, limit, r)]
      ensures r.Success? ==> r.value == Recent(history, productID, limit)
    {
      var failed: bool :| true;
      r := if failed then Failure(StorageError) else Success(Recent(history, productID, limit));
      lookups := lookups + [PriceHistoryRead(productID, limit, r)];
    }
  }
}
