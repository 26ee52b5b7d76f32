/** Worked examples of the analysis on small seller lists. */
module Scenarios {
  import opened Seqs
  import opened Models
  import opened PriceSpec

  function At(id: string, price: real, rating: real, segment: real): Seller
  {
    Seller(id, id, price, rating, 0, 0, id, segment)
  }

  /** Two sellers of one segment, both at 1000, rating 4: minimum, mean and
      recommendation are 1000, and, as the rule is written, BOTH are flagged
      (1000 is below 105% of the segment minimum, 1050). */
  lemma TiedSellersAreBothFlagged()
    ensures var x, y := At("a", 1000.0, 4.0, 1.0), At("b", 1000.0, 4.0, 1.0);
            var a := Analysis("p", [x, y], 0);
            && a.minPrice == 1000.0 && a.avgPrice == 1000.0 && a.optimalPrice == 1000.0
            && a.dumpingSellers == [x, y]
  {
    var x, y := At("a", 1000.0, 4.0, 1.0), At("b", 1000.0, 4.0, 1.0);
    Peers(x, y);
  }

  /** Prices 500 and 1000 in one segment: the segment mean is 750, so 500 is
      below 675 and flagged; 1000 is above both thresholds (675 and 525). */
  lemma UndercutterIsFlagged()
    ensures var x, y := At("a", 500.0, 4.0, 1.0), At("b", 1000.0, 4.0, 1.0);
            var a := Analysis("p", [x, y], 0);
            && a.minPrice == 500.0 && a.avgPrice == 750.0 && a.optimalPrice == 1000.0
            && a.dumpingSellers == [x]
  {
    var x, y := At("a", 500.0, 4.0, 1.0), At("b", 1000.0, 4.0, 1.0);
    Peers(x, y);
  }

  /** The analysis of two sellers of one segment, field by field. */
  lemma Peers(x: Seller, y: Seller)
    requires x.segment == y.segment
    ensures var s, st := [x, y], SegmentStat(2, x.price + y.price, Min(x.price, y.price));
            && SegmentStats(s) == map[x.segment := st]
            && Sum(Prices(s)) == x.price + y.price
            && MinOf(Prices(s)) == Min(x.price, y.price)
            && Sum(Ratings(s)) == x.rating + y.rating
            && DumpingSellers(s) == (if Dumps(map[x.segment := st], x) then [x] else [])
                                    + (if Dumps(map[x.segment := st], y) then [y] else [])
  {
    var s := [x, y];
    SegmentsAndMembers(s, x.segment);
    var st := SegmentStat(2, x.price + y.price, Min(x.price, y.price));
    SumSnoc([], x.price);
    SumSnoc([x.price], y.price);
    SumSnoc([], x.rating);
    SumSnoc([x.rating], y.rating);
    assert [] + [x.price] == [x.price] && [x.price] + [y.price] == Prices(s);
    assert [] + [x.rating] == [x.rating] && [x.rating] + [y.rating] == Ratings(s);
    assert StatOf(s) == st;
    var stats := SegmentStats(s);
    assert stats.Keys == {x.segment} && stats[x.segment] == st;
    assert stats == map[x.segment := st];
    FlaggedSnoc(stats, [], x);
    FlaggedSnoc(stats, [x], y);
    assert [] + [x] == [x] && [x] + [y] == s;
  }

  /** Rating 5 gives a 5% premium, rating 3 a 5% discount; 10500 and 9500
      are halfway between multiples of 1000 and round away from zero. */
  lemma RatingSweep()
    ensures Analysis("p", [At("a", 10000.0, 5.0, 1.0)], 0).optimalPrice == 11000.0
    ensures Analysis("p", [At("a", 10000.0, 3.0, 1.0)], 0).optimalPrice == 10000.0
  {
    var x := At("a", 10000.0, 5.0, 1.0);
    var y := At("a", 10000.0, 3.0, 1.0);
    assert Prices([x]) == [10000.0] && Ratings([x]) == [5.0];
    assert Prices([y]) == [10000.0] && Ratings([y]) == [3.0];
    assert [5.0][..0] == [] && [3.0][..0] == [] && [10000.0][..0] == [];
    assert UnroundedOptimal(10000.0, 10000.0, [x]) == 10500.0;
    assert UnroundedOptimal(10000.0, 10000.0, [y]) == 9500.0;
  }

  /** In a list whose sellers all share segment k, that segment's members
      are the whole list and it is the only segment. */
  lemma {:induction false} SegmentsAndMembers(s: seq<Seller>, k: real)
    requires s != [] && forall i :: 0 <= i < |s| ==> s[i].segment == k
    ensures Segments(s) == {k}
    ensures Members(s, k) == s
  {
    var n := |s| - 1;
    assert s == s[..n] + [s[n]];
    MembersSnoc(s[..n], s[n], k);
    if n > 0 {
      SegmentsAndMembers(s[..n], k);
    } else {
      assert s[..n] == [];
    }
    assert s[n] in s;
  }
}
