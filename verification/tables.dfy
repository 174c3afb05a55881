/** The table handed to the CSV writer: a header of column names and one row
    of cells per record, in generation order. pandas builds the columns from
    the records' keys, so an empty record list yields a table without columns.
    The readers exist to state that the table loses nothing. */
module Tables {
  import opened Options
  import SalesSeries
  import PeriodKey
  import Regional

  /** A table cell: text, a whole number, or a decimal with `places` digits
      after the point held as an integer count of 10^-places. */
  datatype Cell = Text(s: string) | Whole(n: int) | Fixed(scaled: int, places: nat)

  datatype Table = Table(header: seq<string>, rows: seq<seq<Cell>>)

  const SalesColumns: seq<string> := ["日期", "NEV总销量", "BEV销量", "PHEV销量", "渗透率"]
  const RegionalColumns: seq<string> := ["城市", "城市等级", "是否限牌", "公共充电桩数量", "2024年NEV注册量", "充电桩密度(个/km²)"]

  /** Reads every row with `read`, failing if any row fails. */
  function ReadAll<T>(rows: seq<seq<Cell>>, read: seq<Cell> -> Option<T>): (r: Option<seq<T>>)
    ensures r.Some? ==> |r.value| == |rows|
  {
    if |rows| == 0 then Some([])
    else match (read(rows[0]), ReadAll(rows[1..], read))
      case (Some(x), Some(xs)) => Some([x] + xs)
      case _ => None
  }

  /** Rows that each read back as the matching record read back, together, as
      all the records in order. */
  lemma {:induction false} ReadAllInverse<T>(rows: seq<seq<Cell>>, xs: seq<T>, read: seq<Cell> -> Option<T>)
    requires |rows| == |xs|
    requires forall i :: 0 <= i < |xs| ==> read(rows[i]) == Some(xs[i])
    ensures ReadAll(rows, read) == Some(xs)
  {
    if |xs| > 0 {
      assert read(rows[0]) == Some(xs[0]);
      ReadAllInverse(rows[1..], xs[1..], read);
      assert [xs[0]] + xs[1..] == xs;
    }
  }

  function SalesRow(r: SalesSeries.SalesRecord): seq<Cell> {
    [Text(r.Key()), Whole(r.total), Whole(r.bev), Whole(r.phev), Fixed(r.penetrationMilli, 3)]
  }

  function ReadSalesRow(row: seq<Cell>): Option<SalesSeries.SalesRecord> {
    if |row| == 5 && row[0].Text? && row[1].Whole? && row[2].Whole? && row[3].Whole?
       && row[4].Fixed? && row[4].places == 3
    then
      match PeriodKey.ParseKey(row[0].s)
      case Some((y, m)) => Some(SalesSeries.SalesRecord(SalesSeries.Period(y, m), row[1].n, row[2].n, row[3].n, row[4].scaled))
      case None => None
    else None
  }

  function RegionalRow(r: Regional.RegionalRecord): seq<Cell> {
    [Text(r.city), Text(r.tier), Text(r.restricted), Whole(r.chargers), Whole(r.registrations),
     Fixed(r.densityTenths, 1)]
  }

  function ReadRegionalRow(row: seq<Cell>): Option<Regional.RegionalRecord> {
    if |row| == 6 && row[0].Text? && row[1].Text? && row[2].Text? && row[3].Whole? && row[4].Whole?
       && row[5].Fixed? && row[5].places == 1
    then Some(Regional.RegionalRecord(row[0].s, row[1].s, row[2].s, row[3].n, row[4].n, row[5].scaled))
    else None
  }

  /** The table `pd.DataFrame(records)` describes: the fixed column order when
      there is at least one record, no columns otherwise; one row per record. */
  function SalesTable(records: seq<SalesSeries.SalesRecord>): (t: Table)
    ensures |t.rows| == |records|
    ensures t.header == (if |records| == 0 then [] else SalesColumns)
    ensures forall i :: 0 <= i < |records| ==> |t.rows[i]| == |SalesColumns|
  {
    Table(if |records| == 0 then [] else SalesColumns,
          seq(|records|, i requires 0 <= i < |records| => SalesRow(records[i])))
  }

  function RegionalTable(records: seq<Regional.RegionalRecord>): (t: Table)
    ensures |t.rows| == |records|
    ensures t.header == (if |records| == 0 then [] else RegionalColumns)
    ensures forall i :: 0 <= i < |records| ==> |t.rows[i]| == |RegionalColumns|
  {
    Table(if |records| == 0 then [] else RegionalColumns,
          seq(|records|, i requires 0 <= i < |records| => RegionalRow(records[i])))
  }

  /** Reading a sales table back: the header must be the sales columns (or
      absent for an empty table) and every row must have the sales shape. */
  function ReadSalesTable(t: Table): Option<seq<SalesSeries.SalesRecord>> {
    if t.header == SalesColumns || (t.header == [] && t.rows == []) then ReadAll(t.rows, ReadSalesRow)
    else None
  }

  function ReadRegionalTable(t: Table): Option<seq<Regional.RegionalRecord>> {
    if t.header == RegionalColumns || (t.header == [] && t.rows == []) then ReadAll(t.rows, ReadRegionalRow)
    else None
  }

  /** Writing the sales records and reading them back gives the same records,
      in the same order; the period text reads back as its (year, month). */
  lemma SalesRoundTrip(records: seq<SalesSeries.SalesRecord>)
    requires forall i :: 0 <= i < |records| ==> records[i].period.month < 100
    ensures ReadSalesTable(SalesTable(records)) == Some(records)
  {
    var rows := SalesTable(records).rows;
    forall i | 0 <= i < |records| ensures ReadSalesRow(rows[i]) == Some(records[i]) {
      PeriodKey.KeyRoundTrip(records[i].period.year, records[i].period.month);
    }
    ReadAllInverse(rows, records, ReadSalesRow);
  }

  lemma RegionalRoundTrip(records: seq<Regional.RegionalRecord>)
    ensures ReadRegionalTable(RegionalTable(records)) == Some(records)
  {
    var rows := RegionalTable(records).rows;
    forall i | 0 <= i < |records| ensures ReadRegionalRow(rows[i]) == Some(records[i]) {
    }
    ReadAllInverse(rows, records, ReadRegionalRow);
  }

  /** Two runs that emit the same number of records produce tables with the
      same header and row count, whatever the sampled values. */
  lemma SchemaStable(a: seq<SalesSeries.SalesRecord>, b: seq<SalesSeries.SalesRecord>)
    requires |a| == |b|
    ensures SalesTable(a).header == SalesTable(b).header
    ensures |SalesTable(a).rows| == |SalesTable(b).rows|
  {
  }
}
