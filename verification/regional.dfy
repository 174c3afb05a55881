/** The regional snapshot builder of the NEV data spider
    (`NEVDataSpider.crawl_regional_data`).

    Three fixed parallel lists (city, tier, licence restriction) are zipped
    into one record per city, in list order. Charger and registration counts
    are drawn from a band chosen by the tier, density from a flat range; the
    draws are supplied by the caller as samples. An exception raised inside the
    `try` block is supplied as the index of the city being built; the records
    already appended are kept. */
module Regional {
  import opened Options

  const Cities: seq<string> := ["北京", "上海", "广州", "深圳", "杭州", "成都", "郑州", "西安", "柳州", "合肥"]
  const Tiers: seq<string> := ["一线", "一线", "一线", "一线", "新一线", "新一线", "二线", "二线", "三线", "二线"]
  const Restrictions: seq<string> := ["是", "是", "是", "是", "是", "否", "否", "否", "否", "否"]

  /** The tier label that selects the higher bands. */
  const FirstTier: string := "一线"

  /** Public chargers: the higher band for 一线 cities. The band is non-empty
      and positive, so the draw never raises and every count is positive. */
  function ChargerBand(tier: string): (b: Band)
    ensures 0 < b.lo <= b.hi
    ensures b.Contains(50000)
  {
    if tier == FirstTier then Band(50000, 150000) else Band(10000, 50000)
  }

  /** 2024 NEV registrations: the higher band for 一线 cities. Non-empty and
      positive like the charger band. */
  function RegistrationBand(tier: string): (b: Band)
    ensures 0 < b.lo <= b.hi
  {
    if tier == FirstTier then Band(200000, 400000) else Band(50000, 150000)
  }

  /** `round(random.uniform(5, 35), 1)` in tenths. */
  const DensityBand: Band := Band(50, 350)

  /** The random values of one city's record, as drawn by the caller. */
  datatype RegionalSample = RegionalSample(chargers: int, registrations: int, densityTenths: int)

  predicate InTierBands(tier: string, s: RegionalSample) {
    && ChargerBand(tier).Contains(s.chargers)
    && RegistrationBand(tier).Contains(s.registrations)
    && DensityBand.Contains(s.densityTenths)
  }

  /** One row of the regional table, in the source's column order: city, tier,
      licence restriction ("是"/"否"), public chargers, 2024 NEV registrations,
      charger density per km² (in tenths). */
  datatype RegionalRecord = RegionalRecord(city: string, tier: string, restricted: string,
                                           chargers: int, registrations: int, densityTenths: int)

  /** The record of the city at `i` of the fixed lists. */
  function CityRecord(i: nat, s: RegionalSample): (r: RegionalRecord)
    requires i < |Cities|
    ensures r.city == Cities[i] && r.tier == Tiers[i] && r.restricted == Restrictions[i]
    ensures InTierBands(Tiers[i], s) ==>
      ChargerBand(r.tier).Contains(r.chargers) && RegistrationBand(r.tier).Contains(r.registrations)
      && DensityBand.Contains(r.densityTenths)
  {
    RegionalRecord(Cities[i], Tiers[i], Restrictions[i], s.chargers, s.registrations, s.densityTenths)
  }

  /** How many cities get a record: all of them, or those before the one
      whose construction raised. */
  function CitiesBuilt(failAt: Option<nat>): (n: nat)
    ensures n <= |Cities|
  {
    match failAt
    case Some(k) => if k < |Cities| then k else |Cities|
    case None => |Cities|
  }

  /** `crawl_regional_data`: the `enumerate(city_list)` loop inside one `try`,
      appending to the list the spider already holds (never cleared). */
  method CrawlRegionalData(existing: seq<RegionalRecord>, failAt: Option<nat>, samples: seq<RegionalSample>)
    returns (regionalData: seq<RegionalRecord>)
    requires |samples| == |Cities|
    ensures |regionalData| == |existing| + CitiesBuilt(failAt)
    ensures regionalData[..|existing|] == existing
    ensures forall i :: 0 <= i < CitiesBuilt(failAt) ==>
      regionalData[|existing| + i] == CityRecord(i, samples[i])
  {
    regionalData := existing;
    var i := 0;
    while i < |Cities|
      invariant 0 <= i <= CitiesBuilt(failAt)
      invariant |regionalData| == |existing| + i
      invariant regionalData[..|existing|] == existing
      invariant forall j :: 0 <= j < i ==> regionalData[|existing| + j] == CityRecord(j, samples[j])
    {
      if failAt == Some(i) {
        // raised inside the `try`; the `except` ends the whole loop
        break;
      }
      regionalData := regionalData + [CityRecord(i, samples[i])];
      i := i + 1;
    }
  }

  /** The three input lists are parallel, ten entries each, and no city repeats. */
  lemma FixedLists()
    ensures |Cities| == |Tiers| == |Restrictions| == 10
    ensures forall i, j :: 0 <= i < j < |Cities| ==> Cities[i] != Cities[j]
  {
  }

  /** The registration bands are disjoint, so an in-band registration count
      tells first-tier cities apart from all others. */
  lemma RegistrationsRevealTier(tier: string, s: RegionalSample)
    requires InTierBands(tier, s)
    ensures s.registrations >= 200000 <==> tier == FirstTier
  {
  }

  /** The charger bands share exactly one value, 50000; above it only a
      first-tier city, below it only another tier. */
  lemma ChargerBandsTouch(tier: string, s: RegionalSample)
    requires InTierBands(tier, s)
    ensures s.chargers > 50000 ==> tier == FirstTier
    ensures s.chargers < 50000 ==> tier != FirstTier
    ensures ChargerBand(FirstTier).Contains(50000) && ChargerBand("新一线").Contains(50000)
  {
  }

  /** A run without an exception: ten records, in list order, each carrying its
      list entries; Hangzhou, fifth, is a new-first-tier city and draws from the
      lower bands. */
  lemma FullRun(existing: seq<RegionalRecord>, samples: seq<RegionalSample>, out: seq<RegionalRecord>)
    requires |samples| == |Cities|
    requires forall i :: 0 <= i < |Cities| ==> InTierBands(Tiers[i], samples[i])
    requires |out| == |existing| + CitiesBuilt(None)
    requires forall i :: 0 <= i < CitiesBuilt(None) ==> out[|existing| + i] == CityRecord(i, samples[i])
    ensures |out| - |existing| == 10
    ensures var h := out[|existing| + 4];
      h.city == "杭州" && h.tier == "新一线" && h.restricted == "是"
      && 10000 <= h.chargers <= 50000 && 50000 <= h.registrations <= 150000
      && 50 <= h.densityTenths <= 350
  {
    assert out[|existing| + 4] == CityRecord(4, samples[4]);
  }
}
