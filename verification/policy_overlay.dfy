/** The sales chart with policy annotations (`plot_data_with_policy`): rows
    whose zero sales count as missing, the date window a milestone must fall in
    to be drawn, and the row its annotation is anchored to, the one nearest in
    time among rows that have sales. Dates are day numbers. */
module PolicyOverlay {
  import opened Options
  import PolicyTimeline

  /** One row of the sales table once its date is parsed; `None` is a missing value. */
  datatype Row = Row(day: int, sales: Option<int>)

  predicate HasSales(r: Row) {
    r.sales.Some?
  }

  /** `replace(0, np.nan)` on the sales column: a zero becomes missing. */
  function ZeroAsMissing(r: Row): (r': Row)
    ensures r'.day == r.day
    ensures HasSales(r') <==> HasSales(r) && r.sales.value != 0
    ensures HasSales(r') ==> r'.sales == r.sales
  {
    if r.sales == Some(0) then Row(r.day, None) else r
  }

  function Normalize(rows: seq<Row>): (rows': seq<Row>)
    ensures |rows'| == |rows|
    ensures forall i :: 0 <= i < |rows| ==> rows'[i] == ZeroAsMissing(rows[i])
  {
    seq(|rows|, i requires 0 <= i < |rows| => ZeroAsMissing(rows[i]))
  }

  /** `df['日期'].min()` */
  function MinDay(rows: seq<Row>): (m: int)
    requires |rows| > 0
    ensures exists i :: 0 <= i < |rows| && rows[i].day == m
    ensures forall i :: 0 <= i < |rows| ==> m <= rows[i].day
  {
    if |rows| == 1 then rows[0].day
    else
      var rest := MinDay(rows[1..]);
      assert forall i :: 1 <= i < |rows| ==> rows[i] == rows[1..][i - 1];
      if rows[0].day <= rest then rows[0].day else rest
  }

  /** `df['日期'].max()` */
  function MaxDay(rows: seq<Row>): (m: int)
    requires |rows| > 0
    ensures exists i :: 0 <= i < |rows| && rows[i].day == m
    ensures forall i :: 0 <= i < |rows| ==> rows[i].day <= m
  {
    if |rows| == 1 then rows[0].day
    else
      var rest := MaxDay(rows[1..]);
      assert forall i :: 1 <= i < |rows| ==> rows[i] == rows[1..][i - 1];
      if rows[0].day >= rest then rows[0].day else rest
  }

  /** `dt >= df['日期'].min() and dt <= df['日期'].max()`. Over an empty table
      both bounds are missing and every comparison is false. */
  predicate InWindow(rows: seq<Row>, day: int) {
    |rows| > 0 && MinDay(rows) <= day <= MaxDay(rows)
  }

  /** A day is in the window exactly when some row is no later and some row no earlier. */
  lemma InWindowIff(rows: seq<Row>, day: int)
    ensures InWindow(rows, day) <==>
      (exists i :: 0 <= i < |rows| && rows[i].day <= day) && (exists j :: 0 <= j < |rows| && day <= rows[j].day)
  {
    if (exists i :: 0 <= i < |rows| && rows[i].day <= day) && (exists j :: 0 <= j < |rows| && day <= rows[j].day) {
      var i :| 0 <= i < |rows| && rows[i].day <= day;
      var j :| 0 <= j < |rows| && day <= rows[j].day;
      assert MinDay(rows) <= rows[i].day && rows[j].day <= MaxDay(rows);
    }
  }

  function Dist(a: int, b: int): nat {
    if a >= b then a - b else b - a
  }

  /** Row k is where `(valid_df['日期'] - dt).abs().idxmin()` lands: it has sales,
      no row with sales is closer, and every earlier row with sales is farther. */
  predicate IsAnchor(rows: seq<Row>, day: int, k: int) {
    && 0 <= k < |rows|
    && HasSales(rows[k])
    && (forall j :: 0 <= j < |rows| && HasSales(rows[j]) ==> Dist(rows[k].day, day) <= Dist(rows[j].day, day))
    && (forall j :: 0 <= j < k && HasSales(rows[j]) ==> Dist(rows[k].day, day) < Dist(rows[j].day, day))
  }

  /** At most one row satisfies the anchor rule: ties go to the first. */
  lemma AnchorUnique(rows: seq<Row>, day: int, k1: int, k2: int)
    requires IsAnchor(rows, day, k1) && IsAnchor(rows, day, k2)
    ensures k1 == k2
  {
  }

  /** The nearest-row search over the rows that have sales; `None` where the
      source's `idxmin` on an empty selection raises. */
  method NearestAnchor(rows: seq<Row>, day: int) returns (k: Option<nat>)
    ensures k.None? <==> forall j :: 0 <= j < |rows| ==> !HasSales(rows[j])
    ensures k.Some? ==> IsAnchor(rows, day, k.value)
  {
    k := None;
    var i := 0;
    while i < |rows|
      invariant 0 <= i <= |rows|
      invariant k.None? <==> forall j :: 0 <= j < i ==> !HasSales(rows[j])
      invariant k.Some? ==> k.value < i && IsAnchor(rows[..i], day, k.value)
    {
      if HasSales(rows[i]) {
        if k.None? || Dist(rows[i].day, day) < Dist(rows[k.value].day, day) {
          k := Some(i);
        }
      }
      i := i + 1;
    }
    assert rows[..i] == rows;
  }

  /** The milestones whose day falls in the table's window, in order. */
  function Windowed(rows: seq<Row>, ms: seq<PolicyTimeline.Milestone>): (w: seq<PolicyTimeline.Milestone>)
    requires forall i :: 0 <= i < |ms| ==> ms[i].date.Valid()
    ensures |w| <= |ms|
    ensures forall t :: 0 <= t < |w| ==>
      w[t] in ms && w[t].date.Valid() && InWindow(rows, PolicyTimeline.DayNumber(w[t].date))
  {
    if |ms| == 0 then []
    else
      var last := ms[|ms| - 1];
      Windowed(rows, ms[..|ms| - 1]) + (if InWindow(rows, PolicyTimeline.DayNumber(last.date)) then [last] else [])
  }

  /** One drawn annotation: the event, its day, the anchor row and the sales
      value the arrow points at. */
  datatype Annotation = Annotation(name: string, day: int, anchor: nat, y: int, color: string)

  datatype Overlay = Drawn(annotations: seq<Annotation>) | NoSalesRow

  predicate NoneHaveSales(rows: seq<Row>) {
    forall j :: 0 <= j < |rows| ==> !HasSales(rows[j])
  }

  /** Annotation a draws milestone m at its nearest row with sales. */
  predicate Draws(rows: seq<Row>, m: PolicyTimeline.Milestone, a: Annotation)
    requires m.date.Valid()
  {
    && a.name == m.name
    && a.color == m.color
    && a.day == PolicyTimeline.DayNumber(m.date)
    && IsAnchor(rows, a.day, a.anchor)
    && Some(a.y) == rows[a.anchor].sales
  }

  /** The annotations draw the milestones of `w`, one each, in order. */
  predicate DrawsAll(rows: seq<Row>, w: seq<PolicyTimeline.Milestone>, drawn: seq<Annotation>)
    requires forall t :: 0 <= t < |w| ==> w[t].date.Valid()
  {
    |drawn| == |w| && forall t :: 0 <= t < |w| ==> Draws(rows, w[t], drawn[t])
  }

  lemma DrawsAllSnoc(rows: seq<Row>, w: seq<PolicyTimeline.Milestone>, drawn: seq<Annotation>,
                     m: PolicyTimeline.Milestone, a: Annotation)
    requires forall t :: 0 <= t < |w| ==> w[t].date.Valid()
    requires m.date.Valid()
    requires DrawsAll(rows, w, drawn) && Draws(rows, m, a)
    ensures DrawsAll(rows, w + [m], drawn + [a])
  {
    var w', drawn' := w + [m], drawn + [a];
    forall t | 0 <= t < |w'| ensures Draws(rows, w'[t], drawn'[t]) {
      if t < |w| {
        assert w'[t] == w[t] && drawn'[t] == drawn[t];
      }
    }
  }

  /** How the windowed list grows by one milestone. */
  lemma WindowedStep(rows: seq<Row>, ms: seq<PolicyTimeline.Milestone>, i: nat)
    requires forall t :: 0 <= t < |ms| ==> ms[t].date.Valid()
    requires i < |ms|
    ensures Windowed(rows, ms[..i + 1]) ==
      Windowed(rows, ms[..i]) + (if InWindow(rows, PolicyTimeline.DayNumber(ms[i].date)) then [ms[i]] else [])
  {
    assert ms[..i + 1][..i] == ms[..i];
  }

  /** The annotation loop of `plot_data_with_policy` over normalized rows.
      A milestone inside the window is anchored to its nearest row with sales;
      when there is none, `idxmin` raises and the chart is abandoned. */
  method PlaceAnnotations(raw: seq<Row>, ms: seq<PolicyTimeline.Milestone>) returns (out: Overlay)
    requires forall i :: 0 <= i < |ms| ==> ms[i].date.Valid()
    ensures out.NoSalesRow? <==> |Windowed(Normalize(raw), ms)| > 0 && NoneHaveSales(Normalize(raw))
    ensures out.Drawn? ==> DrawsAll(Normalize(raw), Windowed(Normalize(raw), ms), out.annotations)
  {
    var rows := Normalize(raw);
    var drawn: seq<Annotation> := [];
    var i := 0;
    while i < |ms|
      invariant 0 <= i <= |ms|
      invariant DrawsAll(rows, Windowed(rows, ms[..i]), drawn)
      invariant |Windowed(rows, ms[..i])| > 0 ==> !NoneHaveSales(rows)
    {
      var m := ms[i];
      var day := PolicyTimeline.DayNumber(m.date);
      WindowedStep(rows, ms, i);
      if InWindow(rows, day) {
        var k := NearestAnchor(rows, day);
        if k.None? {
          WindowedGrows(rows, ms, i);
          return NoSalesRow;
        }
        var a := Annotation(m.name, day, k.value, rows[k.value].sales.value, m.color);
        DrawsAllSnoc(rows, Windowed(rows, ms[..i]), drawn, m, a);
        drawn := drawn + [a];
      }
      i := i + 1;
    }
    assert ms[..i] == ms;
    out := Drawn(drawn);
  }

  /** A windowed milestone at position i keeps the windowed list non-empty for any longer prefix. */
  lemma {:induction false} WindowedGrows(rows: seq<Row>, ms: seq<PolicyTimeline.Milestone>, i: nat)
    requires forall t :: 0 <= t < |ms| ==> ms[t].date.Valid()
    requires i < |ms| && InWindow(rows, PolicyTimeline.DayNumber(ms[i].date))
    ensures |Windowed(rows, ms)| > 0
    decreases |ms|
  {
    if i < |ms| - 1 {
      var init := ms[..|ms| - 1];
      assert init[i] == ms[i];
      WindowedGrows(rows, init, i);
    }
  }

  /** A milestone is drawn exactly when it is one of the list and its day lies in the window. */
  lemma {:induction false} WindowedMembers(rows: seq<Row>, ms: seq<PolicyTimeline.Milestone>, m: PolicyTimeline.Milestone)
    requires forall t :: 0 <= t < |ms| ==> ms[t].date.Valid()
    ensures m in Windowed(rows, ms) <==> m in ms && m.date.Valid() && InWindow(rows, PolicyTimeline.DayNumber(m.date))
    decreases |ms|
  {
    if |ms| > 0 {
      var init := ms[..|ms| - 1];
      WindowedMembers(rows, init, m);
      assert ms == init + [ms[|ms| - 1]];
    }
  }

  /** A row whose sales were zero or missing in the table is never an anchor. */
  lemma ZeroNeverAnchor(raw: seq<Row>, day: int, k: int)
    requires 0 <= k < |raw|
    requires raw[k].sales == Some(0) || raw[k].sales == None
    ensures !IsAnchor(Normalize(raw), day, k)
  {
  }
}
