/** What one analysis pass over a seller list computes, stated as pure
    functions over the whole list, and the properties proved about them.
    The imperative service in ProductsService is proved equal to these. */
module PriceSpec {
  import opened Seqs
  import opened Models

  // ---------------------------------------------------------------------
  // Projections and segment membership

  function Prices(s: seq<Seller>): seq<real>
  {
    seq(|s|, i requires 0 <= i < |s| => s[i].price)
  }

  function Ratings(s: seq<Seller>): seq<real>
  {
    seq(|s|, i requires 0 <= i < |s| => s[i].rating)
  }

  function SameSegment(k: real): Seller -> bool
  {
    (x: Seller) => x.segment == k
  }

  /** The sellers of segment `k`, in input order. */
  function Members(s: seq<Seller>, k: real): seq<Seller>
  {
    Filter(s, SameSegment(k))
  }

  /** The segment keys that occur in the input. */
  function Segments(s: seq<Seller>): set<real>
  {
    set x | x in s :: x.segment
  }

  // ---------------------------------------------------------------------
  // Segment aggregates

  /** count, total price and least price of a group of sellers. */
  function StatOf(m: seq<Seller>): SegmentStat
  {
    SegmentStat(|m|, Sum(Prices(m)), MinOf(Prices(m)))
  }

  /** The per-segment table: one entry per segment that occurs, aggregating
      exactly the sellers of that segment. */
  function SegmentStats(s: seq<Seller>): map<real, SegmentStat>
  {
    map k | k in Segments(s) :: StatOf(Members(s, k))
  }

  // ---------------------------------------------------------------------
  // Dumping classification

  /** The dumping rule, read against a segment table: the seller's segment
      has more than one member, and the price is below 90% of the segment
      average or below 105% of the segment minimum. */
  predicate Dumps(stats: map<real, SegmentStat>, x: Seller)
  {
    && x.segment in stats
    && stats[x.segment].count > 1
    && (|| x.price < stats[x.segment].total / stats[x.segment].count as real * 0.9
        || x.price < stats[x.segment].min * 1.05)
  }

  function DumpsIn(stats: map<real, SegmentStat>): Seller -> bool
  {
    (x: Seller) => Dumps(stats, x)
  }

  /** The sellers of `p` that the rule flags against `stats`, in order. */
  function Flagged(stats: map<real, SegmentStat>, p: seq<Seller>): seq<Seller>
  {
    Filter(p, DumpsIn(stats))
  }

  function DumpingSellers(s: seq<Seller>): seq<Seller>
  {
    Flagged(SegmentStats(s), s)
  }

  // ---------------------------------------------------------------------
  // Price recommendation

  /** Go's math.Round: the nearest integer, halves rounded away from zero. */
  function Round(x: real): (n: int)
    ensures x >= 0.0 ==> -0.5 <= x - n as real < 0.5
    ensures x < 0.0 ==> -0.5 < x - n as real <= 0.5
  {
    if x >= 0.0 then (x + 0.5).Floor else -((-x + 0.5).Floor)
  }

  /** +5% for every rating point above 4.0, -5% for every point below. */
  function RatingMultiplier(avgRating: real): real
  {
    1.0 + (avgRating - 4.0) * 0.05
  }

  /** The recommendation before rounding: the midpoint of the minimum and the
      average price, scaled by the multiplier of the mean rating of all sellers. */
  function UnroundedOptimal(minPrice: real, avgPrice: real, s: seq<Seller>): real
    requires s != []
  {
    (minPrice + avgPrice) / 2.0 * RatingMultiplier(Sum(Ratings(s)) / |s| as real)
  }

  /** The recommendation: the multiple of 1000 nearest to the unrounded value,
      ties going away from zero. */
  function OptimalPrice(minPrice: real, avgPrice: real, s: seq<Seller>): (r: real)
    requires s != []
    ensures r == r.Floor as real && r.Floor % 1000 == 0
    ensures var u := UnroundedOptimal(minPrice, avgPrice, s);
            && (u >= 0.0 ==> -500.0 <= u - r < 500.0)
            && (u < 0.0 ==> -500.0 < u - r <= 500.0)
  {
    NearestThousand(UnroundedOptimal(minPrice, avgPrice, s))
  }

  /** `u / 1000` rounded as Go's math.Round does, times 1000. */
  function NearestThousand(u: real): (r: real)
    ensures r == r.Floor as real && r.Floor % 1000 == 0
    ensures u >= 0.0 ==> -500.0 <= u - r < 500.0
    ensures u < 0.0 ==> -500.0 < u - r <= 500.0
  {
    var n := Round(u / 1000.0);
    assert (n as real * 1000.0).Floor == n * 1000;
    n as real * 1000.0
  }

  // ---------------------------------------------------------------------
  // The whole analysis

  /** The analysis of a seller list: an all-zero result for no sellers,
      otherwise the global minimum and mean price, the recommendation and the
      dumping sellers. The offer total is not derived here (0). */
  function Analysis(productID: string, s: seq<Seller>, now: Timestamp): ProductAnalysis
  {
    if s == [] then ProductAnalysis(productID, 0.0, 0.0, 0.0, [], [], 0, now)
    else
      var minPrice := MinOf(Prices(s));
      var avgPrice := Sum(Prices(s)) / |s| as real;
      ProductAnalysis(productID, minPrice, avgPrice, OptimalPrice(minPrice, avgPrice, s),
                      DumpingSellers(s), s, 0, now)
  }

  // ---------------------------------------------------------------------
  // Lemmas: segment table

  lemma MembersSnoc(s: seq<Seller>, x: Seller, k: real)
    ensures Members(s + [x], k) == Members(s, k) + (if x.segment == k then [x] else [])
  {
    FilterSnoc(s, x, SameSegment(k));
  }

  /** Members(s, k) holds each seller of segment k exactly as often as s does,
      and nothing else. */
  lemma MembersExactly(s: seq<Seller>, k: real)
    ensures forall x :: multiset(Members(s, k))[x] == if x.segment == k then multiset(s)[x] else 0
    ensures forall x :: x in Members(s, k) <==> x in s && x.segment == k
  {
    FilterMultiset(s, SameSegment(k));
    FilterMembership(s, SameSegment(k));
  }

  lemma SegmentsSnoc(s: seq<Seller>, x: Seller)
    ensures Segments(s + [x]) == Segments(s) + {x.segment}
  {
    forall k | k in Segments(s)
      ensures k in Segments(s + [x])
    {
      var y :| y in s && y.segment == k;
      assert y in s + [x];
    }
    assert x in s + [x];
  }

  lemma InSegmentsIff(s: seq<Seller>, k: real)
    ensures k in Segments(s) <==> Members(s, k) != []
  {
    MembersExactly(s, k);
    if k in Segments(s) {
      var y :| y in s && y.segment == k;
      assert y in Members(s, k);
    }
    if Members(s, k) != [] {
      assert Members(s, k)[0] in Members(s, k);
    }
  }

  lemma SumSnoc(p: seq<real>, q: real)
    ensures Sum(p + [q]) == Sum(p) + q
    ensures MinOf(p + [q]) == if p == [] then q else Min(MinOf(p), q)
  {
    assert (p + [q])[..|p|] == p;
  }

  lemma StatOfSnoc(m: seq<Seller>, x: Seller)
    ensures StatOf(m + [x]) ==
            if m == [] then SegmentStat(1, x.price, x.price)
            else SegmentStat(|m| + 1, StatOf(m).total + x.price, Min(StatOf(m).min, x.price))
  {
    var p := Prices(m);
    assert Prices(m + [x]) == p + [x.price];
    SumSnoc(p, x.price);
  }

  /** The step of the aggregation loop, on one table entry. */
  function AddToStat(st: map<real, SegmentStat>, x: Seller): SegmentStat
  {
    if x.segment in st
    then SegmentStat(st[x.segment].count + 1, st[x.segment].total + x.price, Min(st[x.segment].min, x.price))
    else SegmentStat(1, x.price, x.price)
  }

  lemma SegmentStatsSnocAt(s: seq<Seller>, x: Seller, k: real)
    requires k in Segments(s + [x])
    ensures StatOf(Members(s + [x], k)) ==
              if k == x.segment then AddToStat(SegmentStats(s), x) else SegmentStats(s)[k]
  {
    MembersSnoc(s, x, k);
    InSegmentsIff(s, k);
    SegmentsSnoc(s, x);
    if k == x.segment {
      StatOfSnoc(Members(s, k), x);
    } else {
      assert Members(s + [x], k) == Members(s, k);
      assert k in Segments(s);
    }
  }

  /** One more seller changes exactly its own segment's entry, the way the
      aggregation loop's body does. */
  lemma SegmentStatsSnoc(s: seq<Seller>, x: Seller)
    ensures SegmentStats(s + [x]) == SegmentStats(s)[x.segment := AddToStat(SegmentStats(s), x)]
  {
    var st := SegmentStats(s)[x.segment := AddToStat(SegmentStats(s), x)];
    SegmentsSnoc(s, x);
    assert SegmentStats(s + [x]).Keys == st.Keys;
    forall k | k in st
      ensures SegmentStats(s + [x])[k] == st[k]
    {
      SegmentStatsSnocAt(s, x, k);
    }
  }

  /** SegmentStatsSnoc for a growing prefix, with the fact the loop body
      needs about an entry that is already there. */
  lemma SegmentStatsStep(s: seq<Seller>, i: int)
    requires 0 <= i < |s|
    ensures SegmentStats(s[..i + 1]) == SegmentStats(s[..i])[s[i].segment := AddToStat(SegmentStats(s[..i]), s[i])]
  {
    assert s[..i + 1] == s[..i] + [s[i]];
    SegmentStatsSnoc(s[..i], s[i]);
  }

  lemma SegmentCountPositive(s: seq<Seller>, k: real)
    requires k in SegmentStats(s)
    ensures SegmentStats(s)[k].count >= 1
  {
    InSegmentsIff(s, k);
  }

  /** MinOf(Prices(m)) is the least price in m, and some seller of m asks it. */
  lemma LeastPrice(m: seq<Seller>)
    requires m != []
    ensures forall x :: x in m ==> MinOf(Prices(m)) <= x.price
    ensures exists x :: x in m && x.price == MinOf(Prices(m))
  {
    var p := Prices(m);
    MinOfIsLowerBound(p);
    MinOfIsElement(p);
    forall x | x in m
      ensures MinOf(p) <= x.price
    {
      var i :| 0 <= i < |m| && m[i] == x;
      assert p[i] == x.price;
    }
    var i :| 0 <= i < |p| && p[i] == MinOf(p);
    assert m[i] in m;
  }

  /** The table has an entry exactly for the segments that occur; an entry
      counts the segment's sellers, totals their prices and holds the least
      of them, which some seller of the segment asks. */
  lemma SegmentStatsSound(s: seq<Seller>, k: real)
    ensures k in SegmentStats(s) <==> exists x :: x in s && x.segment == k
    ensures k in SegmentStats(s) ==>
              var st := SegmentStats(s)[k];
              && st.count == |Members(s, k)| >= 1
              && st.total == Sum(Prices(Members(s, k)))
              && (forall x :: x in s && x.segment == k ==> st.min <= x.price)
              && (exists x :: x in s && x.segment == k && x.price == st.min)
  {
    InSegmentsIff(s, k);
    if k in SegmentStats(s) {
      MembersExactly(s, k);
      LeastPrice(Members(s, k));
    }
  }

  // ---------------------------------------------------------------------
  // Lemmas: dumping classification

  lemma FlaggedSnoc(stats: map<real, SegmentStat>, p: seq<Seller>, x: Seller)
    ensures Flagged(stats, p + [x]) == Flagged(stats, p) + (if Dumps(stats, x) then [x] else [])
  {
    FilterSnoc(p, x, DumpsIn(stats));
  }

  lemma FlaggedStep(stats: map<real, SegmentStat>, s: seq<Seller>, i: int)
    requires 0 <= i < |s|
    ensures Flagged(stats, s[..i + 1]) == Flagged(stats, s[..i]) + (if Dumps(stats, s[i]) then [s[i]] else [])
  {
    assert s[..i + 1] == s[..i] + [s[i]];
    FlaggedSnoc(stats, s[..i], s[i]);
  }

  /** The dumping list keeps the input order: it is the input with some sellers deleted. */
  lemma DumpingIsSubsequence(s: seq<Seller>)
    ensures SubseqOf(DumpingSellers(s), s)
  {
    FilterIsSubseq(s, DumpsIn(SegmentStats(s)));
  }

  /** The dumping rule, stated against the seller's own segment peers. */
  lemma DumpingIff(s: seq<Seller>, x: Seller)
    ensures x in DumpingSellers(s) <==>
              var m := Members(s, x.segment);
              && x in s
              && |m| > 1
              && (|| x.price < Sum(Prices(m)) / |m| as real * 0.9
                  || x.price < MinOf(Prices(m)) * 1.05)
  {
    FilterMembership(s, DumpsIn(SegmentStats(s)));
    if x in s {
      assert x.segment in Segments(s);
    }
  }

  /** The segment of a seller that shares it with no other position holds
      just that seller. */
  lemma {:induction false} MembersOfLone(s: seq<Seller>, i: int)
    requires 0 <= i < |s|
    requires forall j :: 0 <= j < |s| && j != i ==> s[j].segment != s[i].segment
    ensures Members(s, s[i].segment) == [s[i]]
  {
    var n := |s| - 1;
    var k := s[i].segment;
    assert s == s[..n] + [s[n]];
    MembersSnoc(s[..n], s[n], k);
    if i == n {
      MembersExactly(s[..n], k);
    } else {
      MembersOfLone(s[..n], i);
    }
  }

  /** A seller whose segment has no other member is never flagged. */
  lemma LoneSellerNeverDumps(s: seq<Seller>, i: int)
    requires 0 <= i < |s|
    requires forall j :: 0 <= j < |s| && j != i ==> s[j].segment != s[i].segment
    ensures s[i] !in DumpingSellers(s)
  {
    MembersOfLone(s, i);
    DumpingIff(s, s[i]);
  }

  /** As written, the second threshold flags the cheapest seller of any
      segment that has more than one member, as long as that price is positive. */
  lemma CheapestPeerDumps(s: seq<Seller>, x: Seller)
    requires x in s && |Members(s, x.segment)| > 1
    requires forall z :: z in s && z.segment == x.segment ==> x.price <= z.price
    requires x.price > 0.0
    ensures x in DumpingSellers(s)
  {
    var m := Members(s, x.segment);
    assert MinOf(Prices(m)) == x.price by {
      MembersExactly(s, x.segment);
      LeastPrice(m);
    }
    DumpingIff(s, x);
  }

  // ---------------------------------------------------------------------
  // Lemmas: the whole analysis

  /** The properties the analysis promises for every seller list. */
  lemma AnalysisProperties(productID: string, s: seq<Seller>, now: Timestamp)
    ensures var a := Analysis(productID, s, now);
            && a.productID == productID && a.analysisTime == now && a.totalOffers == 0
            && a.sellers == s
            && SubseqOf(a.dumpingSellers, s)
            && a.optimalPrice == a.optimalPrice.Floor as real && a.optimalPrice.Floor % 1000 == 0
            && (s == [] ==> a.minPrice == 0.0 && a.avgPrice == 0.0 && a.optimalPrice == 0.0
                            && a.dumpingSellers == [])
            && (s != [] ==>
                  && (forall x :: x in s ==> a.minPrice <= x.price)
                  && (exists x :: x in s && x.price == a.minPrice)
                  && a.avgPrice == Sum(Prices(s)) / |s| as real
                  && a.minPrice <= a.avgPrice <= MaxOf(Prices(s)))
  {
    var a := Analysis(productID, s, now);
    if s != [] {
      LeastPrice(s);
      MeanBetweenMinAndMax(Prices(s));
      DumpingIsSubsequence(s);
    }
  }
}
