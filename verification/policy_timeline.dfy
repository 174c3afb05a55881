/** The policy timeline chart (`get_milestone_data`, `plot_policy_timeline`):
    the fixed milestone list, its projection into parallel date/name/colour
    lists, the cyclic stagger of label heights, and the rule that puts a label
    above or below the axis. Dates are day numbers counted from 1970-01-01. */
module PolicyTimeline {

  /** Day number of a proleptic Gregorian date, counted from 1970-01-01. */
  function CivilDay(y: int, m: int, d: int): int
    requires 1 <= m <= 12
  {
    var y' := if m <= 2 then y - 1 else y;
    var era := y' / 400;
    var yoe := y' - era * 400;
    var mp := if m > 2 then m - 3 else m + 9;
    var doy := (153 * mp + 2) / 5 + d - 1;
    var doe := yoe * 365 + yoe / 4 - yoe / 100 + doy;
    era * 146097 + doe - 719468
  }

  lemma CivilDayAnchors()
    ensures CivilDay(1970, 1, 1) == 0
    ensures CivilDay(2000, 3, 1) == 11017
    ensures CivilDay(2024, 10, 1) == 19997
  {
  }

  /** A calendar date as the source writes it ("YYYY-MM-DD"). */
  datatype Date = Date(year: int, month: int, day: int) {
    predicate Valid() {
      1 <= month <= 12 && 1 <= day <= 31
    }

    /** Strictly earlier in the calendar. */
    predicate Before(other: Date) {
      || year < other.year
      || (year == other.year && month < other.month)
      || (year == other.year && month == other.month && day < other.day)
    }
  }

  /** `mdates.datestr2num` / `pd.to_datetime` on a date, as a day number. */
  function DayNumber(d: Date): int
    requires d.Valid()
  {
    CivilDay(d.year, d.month, d.day)
  }

  /** The legend's five categories: support policy, subsidy cut, market event,
      regulation or crisis, milestone. */
  const LegendColors: seq<string> := ["green", "orange", "blue", "red", "purple"]

  datatype Milestone = Milestone(name: string, date: Date, color: string)

  /** `get_milestone_data`: the eleven policy and market events, in the source's
      order, which is also calendar order. */
  function Milestones(): (ms: seq<Milestone>)
    ensures |ms| == 11
    ensures forall i :: 0 <= i < |ms| ==> ms[i].color in LegendColors && ms[i].date.Valid()
    ensures forall i, j :: 0 <= i < j < |ms| ==> ms[i].date.Before(ms[j].date)
  {
    [
      Milestone("补贴政策启动", Date(2013, 9, 1), "green"),
      Milestone("免征购置税启动", Date(2014, 7, 1), "green"),
      Milestone("骗补大核查", Date(2016, 1, 1), "red"),
      Milestone("双积分政策发布", Date(2017, 9, 1), "green"),
      Milestone("特斯拉上海建厂", Date(2018, 7, 10), "blue"),
      Milestone("补贴大幅退坡", Date(2019, 6, 25), "orange"),
      Milestone("新冠疫情爆发", Date(2020, 1, 23), "red"),
      Milestone("产业发展规划(2035)", Date(2020, 11, 2), "green"),
      Milestone("国补正式退出", Date(2023, 1, 1), "orange"),
      Milestone("以旧换新政策", Date(2024, 4, 26), "green"),
      Milestone("月度渗透率突破50%", Date(2024, 10, 1), "purple")
    ]
  }

  /** Day numbers of milestones 1-3; the asserts give the solver the
      quotients the formula takes. */
  lemma MilestoneDays1()
    ensures CivilDay(2013, 9, 1) == 15949
    ensures CivilDay(2014, 7, 1) == 16252
    ensures CivilDay(2016, 1, 1) == 16801
  {
    assert 2013 / 400 == 5 && (153 * 6 + 2) / 5 == 184 && 13 / 4 == 3 && 13 / 100 == 0;
    assert 2014 / 400 == 5 && (153 * 4 + 2) / 5 == 122 && 14 / 4 == 3 && 14 / 100 == 0;
    assert 2015 / 400 == 5 && (153 * 10 + 2) / 5 == 306 && 15 / 4 == 3 && 15 / 100 == 0;
  }

  /** Day numbers of milestones 4-6; the asserts give the solver the
      quotients the formula takes. */
  lemma MilestoneDays2()
    ensures CivilDay(2017, 9, 1) == 17410
    ensures CivilDay(2018, 7, 10) == 17722
    ensures CivilDay(2019, 6, 25) == 18072
  {
    assert 2017 / 400 == 5 && (153 * 6 + 2) / 5 == 184 && 17 / 4 == 4 && 17 / 100 == 0;
    assert 2018 / 400 == 5 && (153 * 4 + 2) / 5 == 122 && 18 / 4 == 4 && 18 / 100 == 0;
    assert 2019 / 400 == 5 && (153 * 3 + 2) / 5 == 92 && 19 / 4 == 4 && 19 / 100 == 0;
  }

  /** Day numbers of milestones 7-9; the asserts give the solver the
      quotients the formula takes. */
  lemma MilestoneDays3()
    ensures CivilDay(2020, 1, 23) == 18284
    ensures CivilDay(2020, 11, 2) == 18568
    ensures CivilDay(2023, 1, 1) == 19358
  {
    assert 2019 / 400 == 5 && (153 * 10 + 2) / 5 == 306 && 19 / 4 == 4 && 19 / 100 == 0;
    assert 2020 / 400 == 5 && (153 * 8 + 2) / 5 == 245 && 20 / 4 == 5 && 20 / 100 == 0;
    assert 2022 / 400 == 5 && (153 * 10 + 2) / 5 == 306 && 22 / 4 == 5 && 22 / 100 == 0;
  }

  /** Day numbers of milestones 10-11; the asserts give the solver the
      quotients the formula takes. */
  lemma MilestoneDays4()
    ensures CivilDay(2024, 4, 26) == 19839
    ensures CivilDay(2024, 10, 1) == 19997
  {
    assert 2024 / 400 == 5 && (153 * 1 + 2) / 5 == 31 && 24 / 4 == 6 && 24 / 100 == 0;
    assert 2024 / 400 == 5 && (153 * 7 + 2) / 5 == 214 && 24 / 4 == 6 && 24 / 100 == 0;
  }

  /** The day numbers the chart plots are strictly increasing too, so the
      timeline is drawn left to right in list order. */
  lemma MilestoneDaysIncreasing()
    ensures forall i, j :: 0 <= i < j < |Milestones()| ==>
      DayNumber(Milestones()[i].date) < DayNumber(Milestones()[j].date)
  {
    ChainIncreasing(MilestoneDayList);
    forall i, j | 0 <= i < j < |Milestones()|
      ensures DayNumber(Milestones()[i].date) < DayNumber(Milestones()[j].date)
    {
      MilestoneDay(i);
      MilestoneDay(j);
    }
  }

  /** The day numbers of the eleven milestones, in list order. */
  const MilestoneDayList: seq<int> := [15949, 16252, 16801, 17410, 17722, 18072, 18284, 18568, 19358, 19839, 19997]

  lemma MilestoneDay(k: nat)
    requires k < |Milestones()|
    ensures DayNumber(Milestones()[k].date) == MilestoneDayList[k]
  {
    if k < 3 {
      MilestoneDays1();
    } else if k < 6 {
      MilestoneDays2();
    } else if k < 9 {
      MilestoneDays3();
    } else {
      MilestoneDays4();
    }
  }

  /** A sequence whose neighbours increase is strictly increasing throughout. */
  lemma {:induction false} ChainIncreasing(xs: seq<int>)
    requires forall k :: 0 <= k < |xs| - 1 ==> xs[k] < xs[k + 1]
    ensures forall i, j :: 0 <= i < j < |xs| ==> xs[i] < xs[j]
    decreases |xs|
  {
    if |xs| > 1 {
      ChainIncreasing(xs[1..]);
      forall i, j | 0 <= i < j < |xs|
        ensures xs[i] < xs[j]
      {
        if i > 0 {
          assert xs[i] == xs[1..][i - 1] && xs[j] == xs[1..][j - 1];
        } else if j > 1 {
          assert xs[1] == xs[1..][0] && xs[j] == xs[1..][j - 1];
        }
      }
    }
  }

  /** The label heights cycle through this pattern. */
  const Pattern: seq<int> := [-5, 5, -3, 3, -1, 1]

  /** `np.tile(p, k)`: k copies of p, one after another. */
  function Tile(p: seq<int>, k: nat): (r: seq<int>)
    ensures |r| == k * |p|
  {
    if k == 0 then [] else p + Tile(p, k - 1)
  }

  /** `np.tile(Pattern, ceil(n/6))[:n]`: the stagger height of each of n labels. */
  function Levels(n: nat): (levels: seq<int>)
    ensures |levels| == n
  {
    var reps := (n + 5) / 6;
    assert |Tile(Pattern, reps)| >= n;
    Tile(Pattern, reps)[..n]
  }

  /** Position i of the tiled pattern is Pattern[i mod 6]. */
  lemma {:induction false} TileAt(k: nat, i: nat)
    requires i < |Tile(Pattern, k)|
    ensures Tile(Pattern, k)[i] == Pattern[i % 6]
  {
    if i >= 6 {
      TileAt(k - 1, i - 6);
    }
  }

  /** Levels has one entry per label, entry i is Pattern[i mod 6], and none is zero. */
  lemma LevelsCycle(n: nat)
    ensures |Levels(n)| == n
    ensures forall i :: 0 <= i < n ==> Levels(n)[i] == Pattern[i % 6] && Levels(n)[i] != 0
  {
    forall i | 0 <= i < n ensures Levels(n)[i] == Pattern[i % 6] && Levels(n)[i] != 0 {
      TileAt((n + 5) / 6, i);
    }
  }

  datatype VAlign = Bottom | Top

  /** Where a label goes relative to its stem: `xytext=(0, 12 if level > 0 else -12)`
      and `va="bottom" if level > 0 else "top"`. */
  function LabelSide(level: int): (side: (int, VAlign))
    ensures side.0 == 12 || side.0 == -12
    ensures side.0 > 0 <==> level > 0
    ensures side.1 == Bottom <==> level > 0
  {
    if level > 0 then (12, Bottom) else (-12, Top)
  }

  /** The parallel lists `dates`, `names`, `colors` built from the milestones. */
  function Project(ms: seq<Milestone>): (p: (seq<int>, seq<string>, seq<string>))
    requires forall i :: 0 <= i < |ms| ==> ms[i].date.Valid()
    ensures |p.0| == |ms| && |p.1| == |ms| && |p.2| == |ms|
  {
    (seq(|ms|, i requires 0 <= i < |ms| => DayNumber(ms[i].date)),
     seq(|ms|, i requires 0 <= i < |ms| => ms[i].name),
     seq(|ms|, i requires 0 <= i < |ms| => ms[i].color))
  }

  /** One annotated event of the timeline. */
  datatype Label = Label(name: string, day: int, level: int, offset: int, va: VAlign, color: string)

  /** The `zip(dates, names, levels)` annotation loop with `colors[i]`. */
  function Timeline(ms: seq<Milestone>): (labels: seq<Label>)
    requires forall i :: 0 <= i < |ms| ==> ms[i].date.Valid()
    ensures |labels| == |ms|
  {
    var (dates, names, colors) := Project(ms);
    var levels := Levels(|ms|);
    seq(|ms|, i requires 0 <= i < |ms| =>
      var side := LabelSide(levels[i]);
      Label(names[i], dates[i], levels[i], side.0, side.1, colors[i]))
  }

  /** Label i carries milestone i's name, day and colour and the stagger
      height Pattern[i mod 6]; labels at odd positions sit above the axis
      (offset +12, bottom-aligned), those at even positions below it
      (offset -12, top-aligned). */
  lemma TimelineLabels(ms: seq<Milestone>)
    requires forall i :: 0 <= i < |ms| ==> ms[i].date.Valid()
    ensures var labels := Timeline(ms);
      forall i :: 0 <= i < |ms| ==>
        && labels[i].name == ms[i].name
        && labels[i].day == DayNumber(ms[i].date)
        && labels[i].color == ms[i].color
        && labels[i].level == Pattern[i % 6]
        && labels[i].level != 0
        && (labels[i].offset == 12 && labels[i].va == Bottom <==> i % 2 == 1)
        && (labels[i].offset == -12 && labels[i].va == Top <==> i % 2 == 0)
  {
    LevelsCycle(|ms|);
  }

  /** Putting the three projections back together gives the milestone list
      again: they are the same length and in the same order. */
  lemma ProjectionsParallel(ms: seq<Milestone>)
    requires forall i :: 0 <= i < |ms| ==> ms[i].date.Valid()
    ensures var (dates, names, colors) := Project(ms);
      forall i :: 0 <= i < |ms| ==>
        dates[i] == DayNumber(ms[i].date) && names[i] == ms[i].name && colors[i] == ms[i].color
  {
  }
}
