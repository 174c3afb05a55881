/** The monthly sales-series builder of the NEV data spider
    (`NEVDataSpider.crawl_sales_trend`).

    The builder walks every year of an inclusive range and every month 1..12,
    stops early in the hard-coded cutoff year, and appends one record per
    month: a "YYYY-MM" key, three sales counts drawn from an era-dependent band
    and a clamped penetration rate. Random draws are supplied by the caller as
    samples; an exception raised while a year is being built is supplied as a
    fault position. Rates are kept in exact thousandths. */
module SalesSeries {
  import opened Options
  import PeriodKey

  /** The year whose series stops early, whatever the requested range. */
  const CutoffYear: int := 2025
  /** The last month emitted in the cutoff year. */
  const CutoffMonth: nat := 10
  /** Years after this one draw from the late-era (larger) bands. */
  const EraThreshold: int := 2020
  /** Penetration rate ceiling, in thousandths (0.52). */
  const PenetrationCeiling: int := 520

  /** A calendar month of the series. */
  datatype Period = Period(year: int, month: nat)

  /** Months since January of year 0: the chronological order of periods. */
  function Index(p: Period): int {
    p.year * 12 + p.month - 1
  }

  predicate ValidMonth(p: Period) {
    1 <= p.month <= 12
  }

  function TotalBand(year: int): Band {
    if year > EraThreshold then Band(100000, 800000) else Band(10000, 100000)
  }

  function BevBand(year: int): Band {
    if year > EraThreshold then Band(80000, 600000) else Band(8000, 80000)
  }

  function PhevBand(year: int): Band {
    if year > EraThreshold then Band(20000, 200000) else Band(2000, 20000)
  }

  /** The three random counts of one record, as drawn by the caller. */
  datatype SalesSample = SalesSample(total: int, bev: int, phev: int)

  /** The sample could have come from the three `randint` calls of a record of `year`. */
  predicate InEraBands(year: int, s: SalesSample) {
    && TotalBand(year).Contains(s.total)
    && BevBand(year).Contains(s.bev)
    && PhevBand(year).Contains(s.phev)
  }

  /** One row of the sales table, in the source's column order: period, total
      NEV sales, BEV sales, PHEV sales, penetration rate (in thousandths). The
      period is kept as a (year, month) pair; `Key` is the text the source
      stores for it. */
  datatype SalesRecord = SalesRecord(period: Period, total: int, bev: int, phev: int, penetrationMilli: int) {
    /** The "YYYY-MM" key of the record, `f"{year}-{month:02d}"`. */
    function Key(): string {
      PeriodKey.Key(period.year, period.month)
    }
  }

  /** The unclamped rate 0.05 + (year-2015)*0.09 + month*0.005, in thousandths. */
  function RawPenetration(year: int, month: int): int {
    50 + 90 * (year - 2015) + 5 * month
  }

  /** `round(min(0.05 + (year-2015)*0.09 + month*0.005, 0.52), 3)` in thousandths.
      Every term is a whole number of thousandths, so rounding to three places
      loses nothing. */
  function Penetration(year: int, month: int): (r: int)
    ensures r <= PenetrationCeiling
  {
    Min(RawPenetration(year, month), PenetrationCeiling)
  }

  /** The last month the inner loop reaches in `year` (the `break` at the cutoff). */
  function LastMonth(year: int): (n: nat)
    ensures n <= 12
  {
    if year == CutoffYear then CutoffMonth else 12
  }

  /** How many records of `year` get appended, when `faults` maps a year to
      the month during which an exception is raised (earlier months of that
      year have already been appended and stay; the year is then abandoned). */
  function MonthsKept(year: int, faults: map<int, int>): (n: nat)
    ensures n <= LastMonth(year)
  {
    if year in faults && 1 <= faults[year] <= LastMonth(year) then faults[year] - 1
    else LastMonth(year)
  }

  /** Months 1..n of `year`, in order. */
  function YearPeriods(year: int, n: nat): (r: seq<Period>)
    ensures |r| == n
    ensures forall i :: 0 <= i < n ==> r[i] == Period(year, i + 1)
  {
    seq(n, i requires 0 <= i < n => Period(year, i + 1))
  }

  /** The periods for which a record is appended, in generation order. */
  function Periods(startYear: int, endYear: int, faults: map<int, int>): seq<Period>
    decreases endYear - startYear
  {
    if endYear < startYear then []
    else Periods(startYear, endYear - 1, faults) + YearPeriods(endYear, MonthsKept(endYear, faults))
  }

  /** Exactly the months 1..MonthsKept(y) of every year y of the range are emitted. */
  lemma {:induction false} PeriodsMembers(startYear: int, endYear: int, faults: map<int, int>)
    ensures forall p :: p in Periods(startYear, endYear, faults) <==>
      startYear <= p.year <= endYear && 1 <= p.month <= MonthsKept(p.year, faults)
    decreases endYear - startYear
  {
    if endYear >= startYear {
      PeriodsMembers(startYear, endYear - 1, faults);
      var last := YearPeriods(endYear, MonthsKept(endYear, faults));
      forall p: Period | p.year == endYear && 1 <= p.month <= MonthsKept(endYear, faults) ensures p in last {
        assert last[p.month - 1] == p;
      }
    }
  }

  /** The emitted periods are strictly increasing in time, so no period repeats. */
  lemma {:induction false} PeriodsSorted(startYear: int, endYear: int, faults: map<int, int>)
    ensures forall i, j :: 0 <= i < j < |Periods(startYear, endYear, faults)| ==>
      Index(Periods(startYear, endYear, faults)[i]) < Index(Periods(startYear, endYear, faults)[j])
    decreases endYear - startYear
  {
    if endYear >= startYear {
      PeriodsSorted(startYear, endYear - 1, faults);
      PeriodsMembers(startYear, endYear - 1, faults);
      var earlier := Periods(startYear, endYear - 1, faults);
      var last := YearPeriods(endYear, MonthsKept(endYear, faults));
      var r := earlier + last;
      forall i, j | 0 <= i < j < |r| ensures Index(r[i]) < Index(r[j]) {
        if j < |earlier| {
          assert r[i] == earlier[i] && r[j] == earlier[j];
          assert Index(earlier[i]) < Index(earlier[j]);
        } else if i < |earlier| {
          assert r[i] in earlier;
          assert r[i].year <= endYear - 1 && r[i].month <= 12;
          assert r[j] == last[j - |earlier|];
          assert r[j].year == endYear && r[j].month >= 1;
        } else {
          assert r[i] == last[i - |earlier|] && r[j] == last[j - |earlier|];
        }
      }
    }
  }

  /** The dict one month appends: its period, the three drawn counts and the
      clamped rate. */
  function MakeRecord(p: Period, s: SalesSample): (r: SalesRecord)
    ensures r.period == p && r.penetrationMilli <= PenetrationCeiling
    ensures InEraBands(p.year, s) ==>
      TotalBand(p.year).Contains(r.total) && BevBand(p.year).Contains(r.bev) && PhevBand(p.year).Contains(r.phev)
  {
    SalesRecord(p, s.total, s.bev, s.phev, Penetration(p.year, p.month))
  }

  /** The records built from the emitted periods and the samples drawn for them. */
  function Records(periods: seq<Period>, samples: seq<SalesSample>): (r: seq<SalesRecord>)
    requires |samples| == |periods|
    ensures |r| == |periods|
  {
    seq(|periods|, i requires 0 <= i < |periods| => MakeRecord(periods[i], samples[i]))
  }

  /** Number of records of a run without faults: 12 per year, 10 in the cutoff year. */
  function ExpectedCount(startYear: int, endYear: int): int {
    if endYear < startYear then 0
    else 12 * (endYear - startYear + 1) - (if startYear <= CutoffYear <= endYear then 12 - CutoffMonth else 0)
  }

  lemma {:induction false} PeriodsPrefix(startYear: int, y: int, endYear: int, faults: map<int, int>)
    requires startYear - 1 <= y <= endYear
    ensures Periods(startYear, y, faults) <= Periods(startYear, endYear, faults)
    decreases endYear - y
  {
    if y < endYear {
      PeriodsPrefix(startYear, y, endYear - 1, faults);
    }
  }

  /** The body of one year's `try` block: months 1..12, the cutoff `break`,
      and an exception at the fault month that abandons the rest of the year.
      Returns the records the year appends, record j being month j+1's, built
      from the samples from position k on. */
  method CrawlYear(year: int, faults: map<int, int>, samples: seq<SalesSample>, k: nat)
    returns (added: seq<SalesRecord>)
    requires k + MonthsKept(year, faults) <= |samples|
    ensures |added| == MonthsKept(year, faults)
    ensures forall j :: 0 <= j < |added| ==> added[j] == MakeRecord(Period(year, j + 1), samples[k + j])
  {
    added := [];
    var month := 1;
    while month <= 12
      invariant 1 <= month <= MonthsKept(year, faults) + 1
      invariant |added| == month - 1
      invariant forall j :: 0 <= j < |added| ==> added[j] == MakeRecord(Period(year, j + 1), samples[k + j])
      invariant month <= 12 ==> month - 1 < MonthsKept(year, faults) || year == CutoffYear || year in faults
    {
      if year == CutoffYear && month > CutoffMonth {
        break;
      }
      if year in faults && faults[year] == month {
        // raised inside the year's `try`; the `except` ends this year
        break;
      }
      added := added + [MakeRecord(Period(year, month), samples[k + month - 1])];
      month := month + 1;
    }
  }

  /** Appending the records of a further run of periods p2 to "old contents
      followed by the records of p1" gives the old contents followed by the
      records of p1 + p2. */
  lemma ExtendRun(existing: seq<SalesRecord>, p1: seq<Period>, p2: seq<Period>, samples: seq<SalesSample>,
                  k0: nat, k: nat, before: seq<SalesRecord>, after: seq<SalesRecord>)
    requires k0 == |p1| && k == k0 + |p2| <= |samples|
    requires before == existing + Records(p1, samples[..k0])
    requires |after| == |before| + |p2| && after[..|before|] == before
    requires forall j :: 0 <= j < |p2| ==> after[|before|..][j] == MakeRecord(p2[j], samples[k0 + j])
    ensures after == existing + Records(p1 + p2, samples[..k])
  {
    var target := existing + Records(p1 + p2, samples[..k]);
    assert |after| == |target|;
    forall i | 0 <= i < |after| ensures after[i] == target[i] {
      var n := |existing|;
      if i < n {
        assert after[..|before|][i] == before[i];
      } else if i < n + k0 {
        assert after[..|before|][i] == before[i];
        assert (p1 + p2)[i - n] == p1[i - n];
        assert samples[..k][i - n] == samples[..k0][i - n];
      } else {
        assert (p1 + p2)[i - n] == p2[i - n - k0];
        assert after[|before|..][i - n - k0] == after[i];
      }
    }
  }

  /** `crawl_sales_trend` as the source runs it: the year loop around the
      per-year `try` block, each record appended to the list the spider already
      holds. The list is never cleared, so earlier contents survive unchanged
      in front. */
  method CrawlSalesTrend(existing: seq<SalesRecord>, startYear: int, endYear: int,
                         faults: map<int, int>, samples: seq<SalesSample>)
    returns (salesData: seq<SalesRecord>)
    requires |samples| == |Periods(startYear, endYear, faults)|
    ensures salesData == existing + Records(Periods(startYear, endYear, faults), samples)
    ensures |salesData| == |existing| + |Periods(startYear, endYear, faults)|
    ensures salesData[..|existing|] == existing
  {
    salesData := existing;
    var k: nat := 0;
    var year := startYear;
    while year <= endYear
      invariant year == startYear || year <= endYear + 1
      invariant k == |Periods(startYear, year - 1, faults)| <= |samples|
      invariant salesData == existing + Records(Periods(startYear, year - 1, faults), samples[..k])
    {
      PeriodsPrefix(startYear, year, endYear, faults);
      ghost var before, k0 := salesData, k;
      ghost var thisYear := YearPeriods(year, MonthsKept(year, faults));
      var added := CrawlYear(year, faults, samples, k);
      salesData := salesData + added;
      k := k + |added|;
      assert salesData[|before|..] == added;
      ExtendRun(existing, Periods(startYear, year - 1, faults), thisYear, samples, k0, k, before, salesData);
      assert Periods(startYear, year, faults) == Periods(startYear, year - 1, faults) + thisYear;
      year := year + 1;
    }
    assert samples[..k] == samples;
  }
}
