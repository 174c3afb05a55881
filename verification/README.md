# NEV data spider — a Dafny model

This project models the deterministic core of a small data-acquisition and
charting repository about the Chinese new-energy-vehicle (NEV) market.

- **Sales series** (`NEVDataSpider.crawl_sales_trend`). For each year of an
  inclusive range and each month 1..12, the builder appends one record. Each
  record holds a `"YYYY-MM"` key, total/BEV/PHEV sales drawn from a band that
  depends on the era, and a clamped penetration rate. In 2025 the series stops
  after October, whatever `end_year` is; other years of the range get all
  twelve months. An exception inside one year abandons the rest of that year
  only.
- **Regional snapshot** (`NEVDataSpider.crawl_regional_data`). Three fixed
  parallel lists (city, tier, licence restriction) are zipped into one record
  per city. Charger and registration counts come from tier-dependent bands.
  Charger density is a value in [5.0, 35.0].
- **Table hand-off**. Both builders hand their record list to the CSV writer
  as a header plus one row per record, in generation order.
- **Policy timeline** (`get_milestone_data`, `plot_policy_timeline`). This
  covers the eleven milestones and their parallel date/name/colour lists. It
  also covers the cyclic stagger of label heights and the rule that puts a
  label above or below the axis.
- **Policy overlay** (`plot_data_with_policy`). Zero sales count as missing.
  A milestone is drawn only if its date lies in the table's date window. Its
  annotation is anchored to the nearest row that has sales, and ties go to the
  first such row.

Modelling choices:

- Random draws (`random.randint`, `random.uniform`) are caller-supplied samples.
  Lemmas assume those samples lie in the source's bands.
- The sales builder consumes one sample per emitted record, in emission order.
- An exception inside a `try` block is a caller-supplied fault position.
  - For the sales builder it is a map from a year to the month whose
    construction raises. That year's earlier months stay, and the loop
    continues with the next year.
  - For the regional builder it is the index of the city whose construction
    raises. The records already appended stay, and the loop ends.
- The penetration rate is stored in exact thousandths:
  `min(50 + 90*(year-2015) + 5*month, 520)`. Every literal of the source's
  expression is a whole number of thousandths. For years of realistic
  magnitude the accumulated float error stays below half a thousandth, so
  `round(…, 3)` gives exactly this value.
- Density is stored in tenths, in [50, 350].
- A sales record keeps its period as a (year, month) pair. Its `Key()` is the
  `"YYYY-MM"` text the source stores. The table writer emits that text, and the
  reader parses it back.
- Dates are day numbers counted from 1970-01-01, computed from the source's
  ISO dates by the proleptic Gregorian formula.

Files: `options.dfy` holds the shared Option type, `Min` and the inclusive
range `Band`. `period_key.dfy` holds the key format and its parser. `sales_series.dfy` and
`sales_properties.dfy` cover the sales builder. `regional.dfy` covers the
regional builder and `tables.dfy` the table hand-off. `policy_timeline.dfy`
and `policy_overlay.dfy` cover the two chart helpers.

Behaviour of the code that a reader might not expect, and that the model keeps:

- `sales_data` and `regional_data` are created once in `__init__` and never
  cleared. Both builders therefore take the existing list and return it
  followed by the new records, so a second call on the same spider repeats
  every period.
- The cutoff is hard-coded: year 2025 stops after month 10 whatever
  `end_year` is, and `ExpectedCount` says so.
- The penetration rate is negative before August 2014 (`PenetrationSign`).
- Nothing keeps `bev + phev <= total` (`NoSegmentSumGuarantee`).

## Model

| member | source | states |
|---|---|---|
| PeriodKey.Pad2 | scripts/data.py:45 | `{month:02d}` yields exactly two digits for every month below 100 |
| PeriodKey.KeyRoundTrip | scripts/data.py:45 | the key `f"{year}-{month:02d}"` parses back to its year and month, for any year including negative ones |
| PeriodKey.KeyInjective | scripts/data.py:45 | two periods share a key if and only if they are the same period |
| PeriodKey.Key | scripts/data.py:45 | builds `f"{year}-{month:02d}"`; its meaning is stated by KeyRoundTrip, KeyInjective and FirstKey |
| PeriodKey.FirstKey | scripts/data.py:45 | January 2015 is written "2015-01" |
| SalesSeries.Penetration | scripts/data.py:49 | the rate never exceeds the 0.52 ceiling |
| SalesSeries.Periods | scripts/data.py:26-52 | the periods one run emits, in order; see PeriodsMembers, PeriodsSorted and SalesProperties.PeriodCount |
| SalesSeries.MakeRecord | scripts/data.py:44-50 | the appended dict carries its period and a rate at most 0.52, and with in-band draws its three counts lie in the era's bands |
| SalesSeries.PeriodsMembers | scripts/data.py:26-41 | a period is emitted iff its year is in the range and its month is 1..MonthsKept(year): all 12 months, 10 in 2025, fewer in a year whose month raised |
| SalesSeries.PeriodsSorted | scripts/data.py:26-45 | the emitted periods are strictly increasing in time |
| SalesSeries.CrawlYear | scripts/data.py:34-52 | one year's `try` block appends exactly the records for months 1..MonthsKept(year), in order, each built from its period and its sample |
| SalesSeries.CrawlSalesTrend | scripts/data.py:26-52 | the result is the old list followed by one record per emitted period, in emission order; the old contents are unchanged |
| SalesProperties.PeriodCount | scripts/data.py:26-41 | without faults the run emits 12 records per year of the range and 10 for 2025 |
| SalesProperties.FaultsOnlyDrop | scripts/data.py:34-52 | an exception never adds records: the count is at most the fault-free count |
| SalesProperties.ScenarioCounts | scripts/data.py:26-41 | 2015–2016 gives 24 records and 2015–2025 gives 130 |
| SalesProperties.FaultIsolated | scripts/data.py:34-52 | a year without an exception emits the same periods as in a fault-free run |
| SalesProperties.FirstPenetration | scripts/data.py:49 | January 2015 has rate 0.055 |
| SalesProperties.PenetrationSteps | scripts/data.py:49 | the unclamped rate rises by 0.005 per month and by 0.035 from December to the next January |
| SalesProperties.PenetrationSign | scripts/data.py:49 | the rate is non-negative iff 18*(year-2015)+month >= -10; it is positive from 2015 and negative up to 2013 |
| SalesProperties.PenetrationCapped | scripts/data.py:49 | the rate equals the ceiling exactly from April 2020 on |
| SalesProperties.PenetrationMonotone | scripts/data.py:49 | a later month never has a lower rate |
| SalesProperties.RecordKeys | scripts/data.py:44-45 | record i is built for period i; its key text is `f"{year}-{month:02d}"` of that period and parses back to it |
| SalesProperties.KeysUnique | scripts/data.py:26-45 | no two records of one run share a key |
| SalesProperties.SeriesPenetrationMonotone | scripts/data.py:26-49 | along one run the rate never decreases |
| SalesProperties.RecordsInBands | scripts/data.py:46-49 | with in-band draws, every record's three counts lie in its year's era bands and its rate is at most 0.52 |
| SalesProperties.EraBands | scripts/data.py:46-48 | years after 2020 use [100000,800000]/[80000,600000]/[20000,200000]; other years use [10000,100000]/[8000,80000]/[2000,20000] |
| SalesProperties.NoSegmentSumGuarantee | scripts/data.py:46-48 | in both eras an in-band draw can have BEV + PHEV above the total |
| Regional.CityRecord | scripts/data.py:79-86 | record i carries city i, tier i and restriction i, and with in-band draws its counts lie in its tier's bands |
| Regional.CrawlRegionalData | scripts/data.py:68-90 | the result is the old list followed by the records of cities 0..k-1 in list order; k is 10 unless city k raised |
| Regional.FixedLists | scripts/data.py:75-77 | the three lists are parallel with ten entries, and no city repeats |
| Regional.ChargerBand | scripts/data.py:84 | the charger band is non-empty with a positive lower bound, so `randint` never raises; both bands contain 50000 (see ChargerBandsTouch) |
| Regional.RegistrationBand | scripts/data.py:85 | the registration band is non-empty with a positive lower bound; see RegistrationsRevealTier |
| Regional.RegistrationsRevealTier | scripts/data.py:85 | an in-band registration count is at least 200000 iff the tier is 一线 |
| Regional.ChargerBandsTouch | scripts/data.py:84 | the two charger bands share exactly 50000; above it only 一线, below it never 一线 |
| Regional.FullRun | scripts/data.py:75-87 | a run without exception yields 10 records; the fifth is 杭州, 新一线, 是, with counts in the lower bands and density in [5.0, 35.0] |
| Tables.SalesTable | scripts/data.py:54-55 | one row per record with five cells; the header is the five sales columns, or empty when there are no records |
| Tables.RegionalTable | scripts/data.py:92-93 | one row per record with six cells; the header is the six regional columns, or empty when there are no records |
| Tables.SalesRoundTrip | scripts/data.py:45-55 | reading the sales table back, with each "YYYY-MM" text parsed, gives the same records in the same order (months below 100) |
| Tables.RegionalRoundTrip | scripts/data.py:92-93 | reading the regional table back gives the same records in the same order |
| Tables.SchemaStable | scripts/data.py:54-55 | two runs of equal length give tables with the same header and row count, whatever the draws |
| PolicyTimeline.CivilDayAnchors | scripts/policy_visual.py:33 | the day-number formula gives 0 for 1970-01-01 and the known values for 2000-03-01 and 2024-10-01 |
| PolicyTimeline.DayNumber | scripts/policy_visual.py:33 | a milestone's day number counted from 1970-01-01; checked at three dates by CivilDayAnchors and at the eleven milestone dates by MilestoneDay |
| PolicyTimeline.Milestones | scripts/policy_visual.py:12-28 | eleven milestones with valid dates in strictly increasing calendar order; each colour is one of the five legend colours of lines 68-74 |
| PolicyTimeline.MilestoneDaysIncreasing | scripts/policy_visual.py:12-33 | the day numbers the chart plots for the eleven milestones strictly increase in list order |
| PolicyTimeline.MilestoneDay | scripts/policy_visual.py:12-33 | milestone k's day number is the k-th entry of the table of its days since 1970-01-01 |
| PolicyTimeline.TileAt | scripts/policy_visual.py:45 | position i of `np.tile(pattern, k)` is pattern[i mod 6] |
| PolicyTimeline.Levels | scripts/policy_visual.py:45 | one level per milestone; entry i is pattern[i mod 6] by LevelsCycle |
| PolicyTimeline.LevelsCycle | scripts/policy_visual.py:45 | `levels` has one entry per milestone, entry i is [-5,5,-3,3,-1,1][i mod 6], and none is zero |
| PolicyTimeline.LabelSide | scripts/policy_visual.py:54-56 | offset is +12 with bottom alignment iff the level is positive, otherwise -12 with top alignment |
| PolicyTimeline.Project | scripts/policy_visual.py:33-35 | dates, names and colours each have one entry per milestone |
| PolicyTimeline.ProjectionsParallel | scripts/policy_visual.py:32-35 | entry i of dates, names and colours is milestone i's day number, name and colour |
| PolicyTimeline.Timeline | scripts/policy_visual.py:45-58 | one label per milestone; its contents are stated by TimelineLabels |
| PolicyTimeline.TimelineLabels | scripts/policy_visual.py:45-58 | label i has milestone i's name, day and colour and level pattern[i mod 6]; it sits above the axis iff i is odd |
| PolicyOverlay.ZeroAsMissing | scripts/policy_visual.py:88 | a row keeps its sales iff they were present and non-zero |
| PolicyOverlay.Normalize | scripts/policy_visual.py:88 | zero-to-missing is applied to every row, keeping order and count |
| PolicyOverlay.MinDay | scripts/policy_visual.py:105 | the minimum date is one of the rows' dates and no row is earlier |
| PolicyOverlay.MaxDay | scripts/policy_visual.py:105 | the maximum date is one of the rows' dates and no row is later |
| PolicyOverlay.InWindow | scripts/policy_visual.py:105 | `min_date <= date <= max_date` over the table's dates; see InWindowIff |
| PolicyOverlay.InWindowIff | scripts/policy_visual.py:105 | a day is in the window iff some row is no later and some row no earlier; an empty table has no window |
| PolicyOverlay.IsAnchor | scripts/policy_visual.py:106-107 | `idxmin` of the distance over rows with sales, ties to the first; see AnchorUnique and NearestAnchor |
| PolicyOverlay.AnchorUnique | scripts/policy_visual.py:106-107 | at most one row satisfies the nearest-first rule |
| PolicyOverlay.NearestAnchor | scripts/policy_visual.py:106-107 | returns no row iff no row has sales; otherwise the first row with sales at minimal distance from the milestone |
| PolicyOverlay.Windowed | scripts/policy_visual.py:103-105 | every selected milestone is from the list and lies in the window |
| PolicyOverlay.WindowedMembers | scripts/policy_visual.py:103-105 | a milestone is selected iff it is in the list and its day lies in the window |
| PolicyOverlay.ZeroNeverAnchor | scripts/policy_visual.py:88-107 | a row whose sales were zero or missing is never the anchor |
| PolicyOverlay.DrawsAllSnoc | scripts/policy_visual.py:103-111 | drawing one more milestone at its anchor extends a correct annotation list |
| PolicyOverlay.PlaceAnnotations | scripts/policy_visual.py:101-114 | fails iff some milestone is in the window and no row has sales; otherwise it annotates exactly the in-window milestones in order, each at its nearest row's sales value |

## Left out

- The CSV write itself (`DataFrame`, `to_csv`, the UTF-8 signature and the file names). The model stops at the header and row sequence handed to the writer.
- The pseudo-random generators. Draws are parameters, and the band requirements appear as lemma premises.
- `time.sleep`, `requests`, `BeautifulSoup`, the headers and the URLs. These are network politeness plumbing, and the fetch code is commented out.
- Every `print`, and the text of the caught exceptions. They only log.
- All matplotlib rendering and font setup: figure, axes, lines, scatter, legend and `savefig`. The model keeps only the values the rendering consumes.
- Date-string parsing (`mdates.datestr2num`, `pd.to_datetime` with `%b-%y`). Milestone dates are calendar triples turned into day numbers. Table rows arrive with their day number already parsed.
- `df.sort_values('日期')`. pandas' default sort is not stable, so `PlaceAnnotations` takes the rows in their sorted order.
- Float rounding of the penetration rate for years astronomically far from 2015, where the accumulated float error can exceed half a thousandth. The model's integer rate is exact.
- Overlay sales values are integers in the model; the source casts the column to float. Only the zero test and the anchor's value use them.
- The production column (`NEV总产量`). It is plotted but never used for anchoring.
- The `__main__` blocks and their `try`/`except`. `PlaceAnnotations` returns `NoSalesRow` where the call would raise.
- scripts/data_analysis.py: a plotting script whose only computation is a float `pct_change` and a pandas pivot.
- scripts/plot_geo_visual.py: a constant table plus chart rendering and OS-dependent font selection.
- PolicyTimeline.CivilDayAnchors: the day-number formula is checked at three dates. It is not proved equal to matplotlib's epoch-day conversion for every date.
- PolicyTimeline.DayNumber: like CivilDayAnchors, checked at fourteen fixed dates only and not proved equal to matplotlib's day conversion for every date.
