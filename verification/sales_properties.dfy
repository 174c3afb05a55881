/** Properties of the sales series: how many records a run emits, what their
    keys look like, how the penetration rate behaves, and which bands the
    counts come from. */
module SalesProperties {
  import opened Options
  import opened SalesSeries
  import PeriodKey

  /** Without faults, a run emits 12 records per year and 10 in the cutoff year. */
  lemma {:induction false} PeriodCount(startYear: int, endYear: int)
    ensures |Periods(startYear, endYear, map[])| == ExpectedCount(startYear, endYear)
    decreases endYear - startYear
  {
    if endYear >= startYear {
      PeriodCount(startYear, endYear - 1);
    }
  }

  /** A fault can only shorten a run. */
  lemma {:induction false} FaultsOnlyDrop(startYear: int, endYear: int, faults: map<int, int>)
    ensures |Periods(startYear, endYear, faults)| <= ExpectedCount(startYear, endYear)
    decreases endYear - startYear
  {
    if endYear >= startYear {
      FaultsOnlyDrop(startYear, endYear - 1, faults);
    }
  }

  /** The 2015-2016 run and the default 2015-2025 run. */
  lemma ScenarioCounts()
    ensures |Periods(2015, 2016, map[])| == 24
    ensures |Periods(2015, 2025, map[])| == 130
  {
    PeriodCount(2015, 2016);
    PeriodCount(2015, 2025);
  }

  /** A fault in one year leaves every other year of the range complete. */
  lemma FaultIsolated(startYear: int, endYear: int, faults: map<int, int>, p: Period)
    requires p.year !in faults
    ensures p in Periods(startYear, endYear, faults) <==> p in Periods(startYear, endYear, map[])
  {
    PeriodsMembers(startYear, endYear, faults);
    PeriodsMembers(startYear, endYear, map[]);
  }

  /** January 2015 gets 0.055. */
  lemma FirstPenetration()
    ensures Penetration(2015, 1) == 55
  {
  }

  /** Within a year the rate rises by 0.005 a month; from December to the next
      January the unclamped rate rises by 0.035. */
  lemma PenetrationSteps(year: int, month: int)
    ensures RawPenetration(year, month + 1) == RawPenetration(year, month) + 5
    ensures RawPenetration(year + 1, 1) == RawPenetration(year, 12) + 35
  {
  }

  /** The sign of the rate: non-negative exactly when 18*(year-2015) + month >= -10.
      Every month from 2015 on is positive; every month of 2013 or earlier is negative. */
  lemma PenetrationSign(year: int, month: int)
    requires 1 <= month <= 12
    ensures Penetration(year, month) >= 0 <==> 18 * (year - 2015) + month >= -10
    ensures year >= 2015 ==> Penetration(year, month) > 0
    ensures year <= 2013 ==> Penetration(year, month) < 0
  {
  }

  /** The ceiling is reached from April 2020 onwards, and only then. */
  lemma PenetrationCapped(p: Period)
    requires ValidMonth(p)
    ensures Penetration(p.year, p.month) == PenetrationCeiling <==> Index(p) >= Index(Period(2020, 4))
  {
    if p.year <= 2019 {
      assert RawPenetration(p.year, p.month) <= RawPenetration(2019, 12);
    } else if p.year >= 2021 {
      assert RawPenetration(p.year, p.month) >= RawPenetration(2021, 1);
    }
  }

  /** A later month never has a lower rate. */
  lemma PenetrationMonotone(p: Period, q: Period)
    requires ValidMonth(p) && ValidMonth(q)
    requires Index(p) <= Index(q)
    ensures Penetration(p.year, p.month) <= Penetration(q.year, q.month)
  {
    if p.year < q.year {
      assert RawPenetration(q.year, q.month) - RawPenetration(p.year, p.month)
          == 90 * (q.year - p.year) + 5 * (q.month - p.month);
    }
  }

  /** Every record's key is the period it was built for, and reads back as that period. */
  lemma RecordKeys(startYear: int, endYear: int, faults: map<int, int>, samples: seq<SalesSample>, i: int)
    requires |samples| == |Periods(startYear, endYear, faults)|
    requires 0 <= i < |samples|
    ensures var p := Periods(startYear, endYear, faults)[i];
      var r := Records(Periods(startYear, endYear, faults), samples)[i];
      r.period == p && r.Key() == PeriodKey.Key(p.year, p.month) &&
      PeriodKey.ParseKey(r.Key()) == Some((p.year, p.month))
  {
    var p := Periods(startYear, endYear, faults)[i];
    PeriodsMembers(startYear, endYear, faults);
    assert p in Periods(startYear, endYear, faults);
    PeriodKey.KeyRoundTrip(p.year, p.month);
  }

  /** No two records of one run share a period key. */
  lemma KeysUnique(startYear: int, endYear: int, faults: map<int, int>, samples: seq<SalesSample>)
    requires |samples| == |Periods(startYear, endYear, faults)|
    ensures var r := Records(Periods(startYear, endYear, faults), samples);
      forall i, j :: 0 <= i < j < |r| ==> r[i].Key() != r[j].Key()
  {
    var ps := Periods(startYear, endYear, faults);
    var r := Records(ps, samples);
    PeriodsSorted(startYear, endYear, faults);
    PeriodsMembers(startYear, endYear, faults);
    forall i, j | 0 <= i < j < |r| ensures r[i].Key() != r[j].Key() {
      assert ps[i] in ps && ps[j] in ps;
      assert Index(ps[i]) < Index(ps[j]);
      PeriodKey.KeyInjective(ps[i].year, ps[i].month, ps[j].year, ps[j].month);
    }
  }

  /** Along one run the penetration rate never decreases. */
  lemma SeriesPenetrationMonotone(startYear: int, endYear: int, faults: map<int, int>, samples: seq<SalesSample>)
    requires |samples| == |Periods(startYear, endYear, faults)|
    ensures var r := Records(Periods(startYear, endYear, faults), samples);
      forall i, j :: 0 <= i <= j < |r| ==> r[i].penetrationMilli <= r[j].penetrationMilli
  {
    var ps := Periods(startYear, endYear, faults);
    var r := Records(ps, samples);
    PeriodsSorted(startYear, endYear, faults);
    PeriodsMembers(startYear, endYear, faults);
    forall i, j | 0 <= i <= j < |r| ensures r[i].penetrationMilli <= r[j].penetrationMilli {
      assert ps[i] in ps && ps[j] in ps;
      PenetrationMonotone(ps[i], ps[j]);
    }
  }

  /** Every record's counts lie in the bands of its year's era, given samples
      drawn from those bands, and its rate never exceeds the ceiling. */
  lemma RecordsInBands(periods: seq<Period>, samples: seq<SalesSample>)
    requires |samples| == |periods|
    requires forall i :: 0 <= i < |periods| ==> InEraBands(periods[i].year, samples[i])
    ensures var r := Records(periods, samples);
      forall i :: 0 <= i < |r| ==>
        && TotalBand(periods[i].year).Contains(r[i].total)
        && BevBand(periods[i].year).Contains(r[i].bev)
        && PhevBand(periods[i].year).Contains(r[i].phev)
        && r[i].penetrationMilli <= PenetrationCeiling
  {
  }

  /** The late-era bands start where they do: a year after 2020 draws its
      total from [100000, 800000], an earlier year from [10000, 100000]. */
  lemma EraBands(year: int)
    ensures year > 2020 ==> TotalBand(year) == Band(100000, 800000) && BevBand(year) == Band(80000, 600000)
                             && PhevBand(year) == Band(20000, 200000)
    ensures year <= 2020 ==> TotalBand(year) == Band(10000, 100000) && BevBand(year) == Band(8000, 80000)
                              && PhevBand(year) == Band(2000, 20000)
  {
  }

  /** The bands do not keep BEV + PHEV within the total: a draw the source can
      make has segment sales above the total. */
  lemma NoSegmentSumGuarantee()
    ensures exists s :: InEraBands(2021, s) && s.bev + s.phev > s.total
    ensures exists s :: InEraBands(2015, s) && s.bev + s.phev > s.total
  {
    var late := SalesSample(100000, 600000, 200000);
    assert InEraBands(2021, late) && late.bev + late.phev > late.total;
    var early := SalesSample(10000, 80000, 20000);
    assert InEraBands(2015, early) && early.bev + early.phev > early.total;
  }
}
