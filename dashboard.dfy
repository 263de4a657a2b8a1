/**
 * The aggregations and filters the dashboard draws from the cleaned collision
 * table: accidents per (Borough, Year), the top-3 vehicle types and
 * contributing factors with their borough tables, the year / borough /
 * street / factor filter chain, accidents per (Borough, Hour), the heat-map
 * point list, and the merge of the per-borough counts with borough polygons.
 */
module Dashboard {
  import opened Wrappers
  import opened Sequences
  import opened Grouping
  import opened Frame

  /** A row of the cleaned table, with the cells cleaning guarantees present. */
  datatype Row = Row(
    latitude: real,
    longitude: real,
    borough: string,
    street: string,
    factor: string,
    vehicle: Option<string>,
    injured: int,
    year: Option<int>,
    hour: Option<Hour>)

  function ToRow(r: Record): Row
    requires IsClean(r)
  {
    Row(r.latitude.value, r.longitude.value, r.borough.value, r.street.value, r.factor.value,
        r.vehicle, r.injured.value, r.year, r.hour)
  }

  /** The cleaned table as the charts read it. */
  function Rows(rs: seq<Record>): seq<Row>
    requires forall r :: r in rs ==> IsClean(r)
  {
    seq(|rs|, i requires 0 <= i < |rs| => ToRow(rs[i]))
  }

  /**
   * The rows the charts see are the located raw rows, in order: their
   * coordinates, the sentinels in place of missing borough, street and factor,
   * injuries defaulted to 0, and the year and hour parsed from the raw cells.
   */
  lemma LoadedRows(raw: seq<Record>, parse: string -> Option<Date>)
    requires CleanSpec(raw, parse).Some?
    ensures forall r :: r in CleanSpec(raw, parse).value ==> IsClean(r)
    ensures var t := Rows(CleanSpec(raw, parse).value);
      var kept := Located(raw);
      && |t| == |kept|
      && forall i :: 0 <= i < |t| ==>
        && kept[i].latitude == Some(t[i].latitude) && kept[i].longitude == Some(t[i].longitude)
        && t[i].borough == kept[i].borough.GetOr("Unknown")
        && t[i].street == kept[i].street.GetOr("Unspecified")
        && t[i].factor == kept[i].factor.GetOr("Unspecified")
        && t[i].vehicle == kept[i].vehicle
        && t[i].injured == kept[i].injured.GetOr(0)
        && t[i].year == RawYear(kept[i].date, parse)
        && t[i].hour == RawHour(kept[i].time)
  {
    CleanSpecRows(raw, parse);
  }

  // ---------------------------------------------------------------------------
  // Keys that may be missing

  /** The values of `key` over the rows where it is not missing, in row order. */
  function Present<K>(rows: seq<Row>, key: Row -> Option<K>): seq<K> {
    if rows == [] then []
    else
      var last := rows[|rows| - 1];
      Present(rows[..|rows| - 1], key) + (if key(last).Some? then [key(last).value] else [])
  }

  lemma {:induction false} PresentFilter<K(!new)>(rows: seq<Row>, key: Row -> Option<K>, pk: K -> bool, p: Row -> bool)
    requires forall r :: p(r) == (key(r).Some? && pk(key(r).value))
    ensures |Filter(Present(rows, key), pk)| == |Filter(rows, p)|
  {
    if rows != [] {
      var rows' := rows[..|rows| - 1];
      var last := rows[|rows| - 1];
      PresentFilter(rows', key, pk, p);
      FilterOfConcat(Present(rows', key), if key(last).Some? then [key(last).value] else [], pk);
    }
  }

  lemma PresentCount<K(!new)>(rows: seq<Row>, key: Row -> Option<K>, k: K, p: Row -> bool)
    requires forall r :: p(r) == (key(r) == Some(k))
    ensures multiset(Present(rows, key))[k] == |Filter(rows, p)|
  {
    var isK := (x: K) => x == k;
    PresentFilter(rows, key, isK, p);
    FilterEqualsCount(Present(rows, key), isK, k);
  }

  lemma {:induction false} PresentMembership<K>(rows: seq<Row>, key: Row -> Option<K>, k: K)
    ensures k in Present(rows, key) <==> exists r :: r in rows && key(r) == Some(k)
  {
    if rows != [] {
      var rows' := rows[..|rows| - 1];
      assert rows == rows' + [rows[|rows| - 1]];
      PresentMembership(rows', key, k);
    }
  }

  // ---------------------------------------------------------------------------
  // Masks

  function YearIs(y: int): Row -> bool {
    (r: Row) => r.year == Some(y)
  }

  function BoroughIs(b: string): Row -> bool {
    (r: Row) => r.borough == b
  }

  function StreetAndFactorAre(s: string, f: string): Row -> bool {
    (r: Row) => r.street == s && r.factor == f
  }

  function BoroughAndStreetAre(b: string, s: string): Row -> bool {
    (r: Row) => r.borough == b && r.street == s
  }

  function StreetIs(s: string): Row -> bool {
    (r: Row) => r.street == s
  }

  function FactorIs(f: string): Row -> bool {
    (r: Row) => r.factor == f
  }

  // ---------------------------------------------------------------------------
  // The filter chain

  /** Line 38: `filtered_df`, the rows of the selected year in order (a NaN year matches nothing). */
  function YearRows(rows: seq<Row>, y: int): (out: seq<Row>)
    ensures forall r :: multiset(out)[r] == if r.year == Some(y) then multiset(rows)[r] else 0
  {
    FilterSelects(rows, YearIs(y));
    Filter(rows, YearIs(y))
  }

  /** Line 93: `filtered_borough_data`, the rows of the selected borough. */
  function BoroughRows(rows: seq<Row>, b: string): (out: seq<Row>)
    ensures forall r :: multiset(out)[r] == if r.borough == b then multiset(rows)[r] else 0
  {
    FilterSelects(rows, BoroughIs(b));
    Filter(rows, BoroughIs(b))
  }

  /** Lines 103-104: `filtered_data`, the rows of the selected street and factor. */
  function StreetFactorRows(rows: seq<Row>, s: string, f: string): (out: seq<Row>)
    ensures forall r :: multiset(out)[r] == if r.street == s && r.factor == f then multiset(rows)[r] else 0
  {
    FilterSelects(rows, StreetAndFactorAre(s, f));
    Filter(rows, StreetAndFactorAre(s, f))
  }

  /** Lines 124-125: `filtered_borough_mapa`, the rows of the selected borough and street. */
  function BoroughStreetRows(rows: seq<Row>, b: string, s: string): (out: seq<Row>)
    ensures forall r :: multiset(out)[r] == if r.borough == b && r.street == s then multiset(rows)[r] else 0
  {
    FilterSelects(rows, BoroughAndStreetAre(b, s));
    Filter(rows, BoroughAndStreetAre(b, s))
  }

  /**
   * The filter chain only narrows: `filtered_data` is an order-preserving part
   * of both `filtered_borough_mapa` and `filtered_borough_data`, which are parts
   * of `filtered_df`, itself a part of the cleaned table; each stage's rows meet
   * every predicate applied so far, and no stage is larger than the one before.
   */
  lemma FilterChain(rows: seq<Row>, y: int, b: string, s: string, f: string)
    ensures var yearRows := YearRows(rows, y);
      var boroughRows := BoroughRows(yearRows, b);
      var data := StreetFactorRows(boroughRows, s, f);
      var mapa := BoroughStreetRows(yearRows, b, s);
      && IsSubsequence(data, mapa) && IsSubsequence(mapa, boroughRows)
      && IsSubsequence(boroughRows, yearRows) && IsSubsequence(yearRows, rows)
      && IsSubsequence(data, boroughRows)
      && |data| <= |mapa| <= |boroughRows| <= |yearRows| <= |rows|
      && (forall r :: r in data ==> r.year == Some(y) && r.borough == b && r.street == s && r.factor == f)
      && (forall r :: r in mapa ==> r.year == Some(y) && r.borough == b && r.street == s)
  {
    var yearRows := YearRows(rows, y);
    var boroughRows := BoroughRows(yearRows, b);
    var data := StreetFactorRows(boroughRows, s, f);
    var mapa := BoroughStreetRows(yearRows, b, s);
    FilterIsSubsequence(rows, YearIs(y));
    FilterIsSubsequence(yearRows, BoroughIs(b));
    MapRowsNarrowBoroughRows(yearRows, b, s);
    FilterIsSubsequence(boroughRows, StreetIs(s));
    HourRowsNarrowMapRows(yearRows, b, s, f);
    FilterIsSubsequence(mapa, FactorIs(f));
    SubsequenceTransitive(data, mapa, boroughRows);
  }

  /** `filtered_borough_mapa` is `filtered_borough_data` narrowed to the selected street. */
  lemma MapRowsNarrowBoroughRows(yearRows: seq<Row>, b: string, s: string)
    ensures BoroughStreetRows(yearRows, b, s) == Filter(BoroughRows(yearRows, b), StreetIs(s))
  {
    FilterFuse(yearRows, BoroughIs(b), StreetIs(s), BoroughAndStreetAre(b, s));
  }

  /** `filtered_data` is `filtered_borough_mapa` narrowed to the selected factor. */
  lemma HourRowsNarrowMapRows(yearRows: seq<Row>, b: string, s: string, f: string)
    ensures StreetFactorRows(BoroughRows(yearRows, b), s, f) == Filter(BoroughStreetRows(yearRows, b, s), FactorIs(f))
  {
    var all3 := (r: Row) => r.borough == b && r.street == s && r.factor == f;
    FilterFuse(yearRows, BoroughIs(b), StreetAndFactorAre(s, f), all3);
    FilterFuse(yearRows, BoroughAndStreetAre(b, s), FactorIs(f), all3);
  }

  // ---------------------------------------------------------------------------
  // Accidents per borough and year (line 30)

  function BoroughYearKey(r: Row): Option<(string, int)> {
    if r.year.Some? then Some((r.borough, r.year.value)) else None
  }

  /** Line 30: `df.groupby(['Borough', 'Year']).size()`; rows with a NaN year form no group. */
  function AccidentsPerBorough(rows: seq<Row>): seq<Group<(string, int)>> {
    GroupSizes(Present(rows, BoroughYearKey))
  }

  function BoroughAndYearAre(b: string, y: int): Row -> bool {
    (r: Row) => r.borough == b && r.year == Some(y)
  }

  /**
   * Each (Borough, Year) group counts exactly the rows with that borough and
   * year; a pair has a group exactly when some row has it, so no group is empty.
   */
  lemma AccidentsPerBoroughCounts(rows: seq<Row>, b: string, y: int)
    ensures SizeOf(AccidentsPerBorough(rows), (b, y)) == |Filter(rows, BoroughAndYearAre(b, y))|
    ensures (b, y) in KeysOf(AccidentsPerBorough(rows)) <==> exists r :: r in rows && r.borough == b && r.year == Some(y)
    ensures forall i :: 0 <= i < |AccidentsPerBorough(rows)| ==> AccidentsPerBorough(rows)[i].size >= 1
  {
    var ks := Present(rows, BoroughYearKey);
    GroupSizeIsCount(ks, (b, y));
    PresentCount(rows, BoroughYearKey, (b, y), BoroughAndYearAre(b, y));
    PresentMembership(rows, BoroughYearKey, (b, y));
  }

  function GroupYearIs(y: int): Group<(string, int)> -> bool {
    (g: Group<(string, int)>) => g.key.1 == y
  }

  /** For a fixed year, the per-borough counts add up to the number of rows of that year. */
  lemma AccidentsPerYearConserved(rows: seq<Row>, y: int)
    ensures Sum(SizesOf(Filter(AccidentsPerBorough(rows), GroupYearIs(y)))) == |YearRows(rows, y)|
  {
    var ks := Present(rows, BoroughYearKey);
    var keyYearIs := (k: (string, int)) => k.1 == y;
    GroupSizesConserve(ks, keyYearIs, GroupYearIs(y));
    PresentFilter(rows, BoroughYearKey, keyYearIs, YearIs(y));
  }

  // ---------------------------------------------------------------------------
  // Top-3 values of a column (lines 67, 79, 96, 97)

  datatype Category = VehicleType | ContributingFactor | StreetName

  function CategoryOf(r: Row, c: Category): Option<string> {
    match c
    case VehicleType => r.vehicle
    case ContributingFactor => Some(r.factor)
    case StreetName => Some(r.street)
  }

  function CategoryKey(c: Category): Row -> Option<string> {
    (r: Row) => CategoryOf(r, c)
  }

  function HasValue(c: Category, v: string): Row -> bool {
    (r: Row) => CategoryOf(r, c) == Some(v)
  }

  /** The number of rows whose column `c` holds `v`. */
  function Frequency(rows: seq<Row>, c: Category, v: string): nat {
    |Filter(rows, HasValue(c, v))|
  }

  /** The distinct non-missing values of column `c`. */
  function ValuesOf(rows: seq<Row>, c: Category): set<string> {
    Elements(Present(rows, CategoryKey(c)))
  }

  /**
   * `value_counts()`: the values counted are exactly those some row holds in
   * column `c`, and each is counted once per row holding it.
   */
  lemma ValueCounts(rows: seq<Row>, c: Category)
    ensures forall v :: v in ValuesOf(rows, c) <==> exists r :: r in rows && CategoryOf(r, c) == Some(v)
    ensures forall v :: multiset(Present(rows, CategoryKey(c)))[v] == Frequency(rows, c, v)
  {
    var vals := Present(rows, CategoryKey(c));
    forall v ensures v in ValuesOf(rows, c) <==> exists r :: r in rows && CategoryOf(r, c) == Some(v) {
      PresentMembership(rows, CategoryKey(c), v);
    }
    forall v ensures multiset(vals)[v] == Frequency(rows, c, v) {
      PresentCount(rows, CategoryKey(c), v, HasValue(c, v));
    }
  }

  /** A value of column `c` is held by some row. */
  lemma ValueHolder(rows: seq<Row>, c: Category, v: string) returns (r: Row)
    requires v in ValuesOf(rows, c)
    ensures r in rows && CategoryOf(r, c) == Some(v)
  {
    PresentMembership(rows, CategoryKey(c), v);
    r :| r in rows && CategoryKey(c)(r) == Some(v);
  }

  /**
   * `rows[c].value_counts().nlargest(3).index.tolist()`: min(3, number of
   * distinct non-missing values) distinct values that occur, most frequent
   * first, and no value left out is more frequent than one selected. Missing
   * cells are never counted or selected.
   */
  function Top3(rows: seq<Row>, c: Category): (top: seq<string>)
    ensures NoDuplicates(top)
    ensures |top| == if 3 < |ValuesOf(rows, c)| then 3 else |ValuesOf(rows, c)|
    ensures forall v :: v in top ==> v in ValuesOf(rows, c)
    ensures forall i, j :: 0 <= i < j < |top| ==> Frequency(rows, c, top[i]) >= Frequency(rows, c, top[j])
    ensures forall v, i :: v in ValuesOf(rows, c) && v !in top && 0 <= i < |top| ==>
      Frequency(rows, c, v) <= Frequency(rows, c, top[i])
  {
    var top := TopK(Present(rows, CategoryKey(c)), 3);
    RankingByFrequency(rows, c, top);
    top
  }

  /** A ranking by occurrences among the column's values is a ranking by row frequency. */
  lemma RankingByFrequency(rows: seq<Row>, c: Category, top: seq<string>)
    requires forall x :: x in top ==> x in Present(rows, CategoryKey(c))
    requires forall i, j :: 0 <= i < j < |top| ==>
      multiset(Present(rows, CategoryKey(c)))[top[i]] >= multiset(Present(rows, CategoryKey(c)))[top[j]]
    requires forall x, i :: x in Present(rows, CategoryKey(c)) && x !in top && 0 <= i < |top| ==>
      multiset(Present(rows, CategoryKey(c)))[x] <= multiset(Present(rows, CategoryKey(c)))[top[i]]
    ensures forall i, j :: 0 <= i < j < |top| ==> Frequency(rows, c, top[i]) >= Frequency(rows, c, top[j])
    ensures forall v, i :: v in ValuesOf(rows, c) && v !in top && 0 <= i < |top| ==>
      Frequency(rows, c, v) <= Frequency(rows, c, top[i])
  {
    var vals := Present(rows, CategoryKey(c));
    ValueCounts(rows, c);
    forall i, j | 0 <= i < j < |top| ensures Frequency(rows, c, top[i]) >= Frequency(rows, c, top[j]) {
      assert multiset(vals)[top[i]] >= multiset(vals)[top[j]];
    }
    forall v, i | v in ValuesOf(rows, c) && v !in top && 0 <= i < |top|
      ensures Frequency(rows, c, v) <= Frequency(rows, c, top[i])
    {
      assert v in vals;
      assert multiset(vals)[v] <= multiset(vals)[top[i]];
    }
  }

  // ---------------------------------------------------------------------------
  // Borough tables of the top-3 values (lines 68-69, 80-81)

  function InTop(c: Category, top: seq<string>): Row -> bool {
    (r: Row) => CategoryOf(r, c).Some? && CategoryOf(r, c).value in top
  }

  /** Lines 68 and 80: `df[df[c].isin(top)]`; a missing cell is never in the list. */
  function TopRestricted(rows: seq<Row>, c: Category, top: seq<string>): seq<Row> {
    Filter(rows, InTop(c, top))
  }

  function BoroughCategoryKey(c: Category): Row -> Option<(string, string)> {
    (r: Row) => if CategoryOf(r, c).Some? then Some((r.borough, CategoryOf(r, c).value)) else None
  }

  /**
   * Lines 67-69 and 79-81: the rows of the top-3 values of column `c`, counted
   * per borough and value, unstacked with 0 for absent combinations.
   */
  function CategoryTable(rows: seq<Row>, c: Category): Table<string, string> {
    var top := Top3(rows, c);
    Unstack(GroupSizes(Present(TopRestricted(rows, c, top), BoroughCategoryKey(c))))
  }

  function BoroughAndValueAre(b: string, c: Category, v: string): Row -> bool {
    (r: Row) => r.borough == b && CategoryOf(r, c) == Some(v)
  }

  lemma InTopRows(rows: seq<Row>, c: Category, top: seq<string>, r: Row)
    ensures r in TopRestricted(rows, c, top) <==> r in rows && InTop(c, top)(r)
  {
    FilterMultiplicity(rows, InTop(c, top), r);
  }

  /** The first labels of the present keys are those of the rows that have a key. */
  lemma PresentFirsts<A, B>(rows: seq<Row>, key: Row -> Option<(A, B)>, a: A)
    ensures a in Firsts(Present(rows, key)) <==> exists r :: r in rows && key(r).Some? && key(r).value.0 == a
  {
    var ks := Present(rows, key);
    FirstsMembership(ks, a);
    if a in Firsts(ks) {
      var b :| (a, b) in ks;
      PresentMembership(rows, key, (a, b));
    }
    if exists r :: r in rows && key(r).Some? && key(r).value.0 == a {
      var r :| r in rows && key(r).Some? && key(r).value.0 == a;
      PresentMembership(rows, key, key(r).value);
    }
  }

  /** The second labels of the present keys are those of the rows that have a key. */
  lemma PresentSeconds<A, B>(rows: seq<Row>, key: Row -> Option<(A, B)>, b: B)
    ensures b in Seconds(Present(rows, key)) <==> exists r :: r in rows && key(r).Some? && key(r).value.1 == b
  {
    var ks := Present(rows, key);
    SecondsMembership(ks, b);
    if b in Seconds(ks) {
      var a :| (a, b) in ks;
      PresentMembership(rows, key, (a, b));
    }
    if exists r :: r in rows && key(r).Some? && key(r).value.1 == b {
      var r :| r in rows && key(r).Some? && key(r).value.1 == b;
      PresentMembership(rows, key, key(r).value);
    }
  }

  /** The columns of a borough table are exactly the top-3 values of its column. */
  lemma CategoryTableColumns(rows: seq<Row>, c: Category, v: string)
    ensures v in CategoryTable(rows, c).columns <==> v in Top3(rows, c)
  {
    var top := Top3(rows, c);
    var restricted := TopRestricted(rows, c, top);
    var key := BoroughCategoryKey(c);
    UnstackCells(Present(restricted, key));
    PresentSeconds(restricted, key, v);
    if v in top {
      var r := ValueHolder(rows, c, v);
      InTopRows(rows, c, top, r);
      assert key(r).Some? && key(r).value.1 == v;
    }
    if v in CategoryTable(rows, c).columns {
      var r :| r in restricted && key(r).Some? && key(r).value.1 == v;
      InTopRows(rows, c, top, r);
    }
  }

  /** The rows of a borough table are exactly the boroughs with a row holding a top-3 value. */
  lemma CategoryTableIndex(rows: seq<Row>, c: Category, b: string)
    ensures b in CategoryTable(rows, c).index <==>
      exists r :: r in rows && r.borough == b && InTop(c, Top3(rows, c))(r)
  {
    var top := Top3(rows, c);
    var restricted := TopRestricted(rows, c, top);
    var key := BoroughCategoryKey(c);
    UnstackCells(Present(restricted, key));
    PresentFirsts(restricted, key, b);
    if b in CategoryTable(rows, c).index {
      var r :| r in restricted && key(r).Some? && key(r).value.0 == b;
      InTopRows(rows, c, top, r);
    }
    if exists r :: r in rows && r.borough == b && InTop(c, top)(r) {
      var r :| r in rows && r.borough == b && InTop(c, top)(r);
      InTopRows(rows, c, top, r);
      assert key(r).Some? && key(r).value.0 == b;
    }
  }

  /**
   * Each cell of a borough table is the number of rows (of the table it was
   * computed from) with that borough and that value; the labels are distinct.
   */
  lemma CategoryTableCell(rows: seq<Row>, c: Category, i: nat, j: nat)
    requires i < |CategoryTable(rows, c).index| && j < |CategoryTable(rows, c).columns|
    ensures var t := CategoryTable(rows, c);
      && NoDuplicates(t.index) && NoDuplicates(t.columns)
      && t.cells[i][j] == |Filter(rows, BoroughAndValueAre(t.index[i], c, t.columns[j]))|
  {
    var top := Top3(rows, c);
    var restricted := TopRestricted(rows, c, top);
    var key := BoroughCategoryKey(c);
    var t := CategoryTable(rows, c);
    UnstackCells(Present(restricted, key));
    var b, v := t.index[i], t.columns[j];
    CategoryTableColumns(rows, c, v);
    PresentCount(restricted, key, (b, v), BoroughAndValueAre(b, c, v));
    RestrictedCount(rows, c, top, b, v);
  }

  /** Restricting to the top values loses no row holding one of them. */
  lemma RestrictedCount(rows: seq<Row>, c: Category, top: seq<string>, b: string, v: string)
    requires v in top
    ensures |Filter(TopRestricted(rows, c, top), BoroughAndValueAre(b, c, v))| == |Filter(rows, BoroughAndValueAre(b, c, v))|
  {
    var cell := BoroughAndValueAre(b, c, v);
    var both := (r: Row) => InTop(c, top)(r) && cell(r);
    FilterFuse(rows, InTop(c, top), cell, both);
    FilterExt(rows, both, cell);
  }

  /** The borough table holds every row of the top-3 values exactly once. */
  lemma CategoryTableTotal(rows: seq<Row>, c: Category)
    ensures Total(CategoryTable(rows, c)) == |TopRestricted(rows, c, Top3(rows, c))|
  {
    var top := Top3(rows, c);
    var restricted := TopRestricted(rows, c, top);
    var key := BoroughCategoryKey(c);
    var ks := Present(restricted, key);
    UnstackTotal(ks);
    var always := (k: (string, string)) => true;
    var hasKey := (r: Row) => key(r).Some?;
    PresentFilter(restricted, key, always, hasKey);
    FilterAll(ks, always);
    forall r | r in restricted ensures hasKey(r) {
      InTopRows(rows, c, top, r);
    }
    FilterAll(restricted, hasKey);
  }

  // ---------------------------------------------------------------------------
  // Accidents per borough and hour (line 107)

  function HourKey(r: Row): Option<(string, Hour)> {
    if r.hour.Some? then Some((r.borough, r.hour.value)) else None
  }

  /** Line 107: `groupby(['Borough', 'Hour']).size().unstack(fill_value=0)`. */
  function HourTable(rows: seq<Row>): Table<string, Hour> {
    Unstack(GroupSizes(Present(rows, HourKey)))
  }

  function BoroughAndHourAre(b: string, h: Hour): Row -> bool {
    (r: Row) => r.borough == b && r.hour == Some(h)
  }

  function BoroughWithHour(b: string): Row -> bool {
    (r: Row) => r.borough == b && r.hour.Some?
  }

  function HasHour(r: Row): bool {
    r.hour.Some?
  }

  /**
   * The per-hour table has one row per borough that has a row with an hour and
   * one column per hour that occurs.
   */
  lemma HourTableLabels(rows: seq<Row>, b: string, h: Hour)
    ensures b in HourTable(rows).index <==> exists r :: r in rows && r.borough == b && r.hour.Some?
    ensures h in HourTable(rows).columns <==> exists r :: r in rows && r.hour == Some(h)
  {
    UnstackCells(Present(rows, HourKey));
    PresentFirsts(rows, HourKey, b);
    PresentSeconds(rows, HourKey, h);
  }

  /** Each cell of the per-hour table counts the rows with that borough and hour. */
  lemma HourTableCell(rows: seq<Row>, i: nat, j: nat)
    requires i < |HourTable(rows).index| && j < |HourTable(rows).columns|
    ensures var t := HourTable(rows);
      && NoDuplicates(t.index) && NoDuplicates(t.columns)
      && t.cells[i][j] == |Filter(rows, BoroughAndHourAre(t.index[i], t.columns[j]))|
  {
    var t := HourTable(rows);
    UnstackCells(Present(rows, HourKey));
    PresentCount(rows, HourKey, (t.index[i], t.columns[j]), BoroughAndHourAre(t.index[i], t.columns[j]));
  }

  /** A borough's hourly counts add up to that borough's rows with an hour. */
  lemma HourTableRowSum(rows: seq<Row>, i: nat)
    requires i < |HourTable(rows).index|
    ensures RowSums(HourTable(rows))[i] == |Filter(rows, BoroughWithHour(HourTable(rows).index[i]))|
  {
    var ks := Present(rows, HourKey);
    UnstackRowSum(ks, i);
    var b := HourTable(rows).index[i];
    var firstIs := (k: (string, Hour)) => k.0 == b;
    FilterByFirst(ks, firstIs, b);
    PresentFilter(rows, HourKey, firstIs, BoroughWithHour(b));
  }

  /** The per-hour table counts every row that has an hour, once. */
  lemma HourTableTotal(rows: seq<Row>)
    ensures Total(HourTable(rows)) == |Filter(rows, HasHour)|
  {
    var ks := Present(rows, HourKey);
    UnstackTotal(ks);
    var always := (k: (string, Hour)) => true;
    PresentFilter(rows, HourKey, always, HasHour);
    FilterAll(ks, always);
  }

  /** When every row has an hour, each borough's hourly counts add up to that borough's rows. */
  lemma HourTableMatchesBoroughs(rows: seq<Row>)
    requires forall r :: r in rows ==> r.hour.Some?
    ensures var t := HourTable(rows);
      && (forall i :: 0 <= i < |t.index| ==> RowSums(t)[i] == |BoroughRows(rows, t.index[i])|)
      && Total(t) == |rows|
  {
    var t := HourTable(rows);
    forall i | 0 <= i < |t.index| ensures RowSums(t)[i] == |BoroughRows(rows, t.index[i])| {
      HourTableRowSum(rows, i);
      FilterExt(rows, BoroughWithHour(t.index[i]), BoroughIs(t.index[i]));
    }
    HourTableTotal(rows);
    FilterAll(rows, HasHour);
  }

  // ---------------------------------------------------------------------------
  // Heat-map points (line 132)

  /** Line 132: one (latitude, longitude) pair per row, in row order. */
  function HeatData(rows: seq<Row>): (points: seq<(real, real)>)
    ensures |points| == |rows|
    ensures forall i :: 0 <= i < |rows| ==> points[i] == (rows[i].latitude, rows[i].longitude)
  {
    seq(|rows|, i requires 0 <= i < |rows| => (rows[i].latitude, rows[i].longitude))
  }

  function YearBoroughStreetAre(y: int, b: string, s: string): Row -> bool {
    (r: Row) => r.year == Some(y) && r.borough == b && r.street == s
  }

  /**
   * The heat map plots exactly the coordinates of the cleaned rows of the
   * selected year, borough and street, in row order.
   */
  lemma HeatDataOfSelection(rows: seq<Row>, y: int, b: string, s: string)
    ensures HeatData(BoroughStreetRows(YearRows(rows, y), b, s)) == HeatData(Filter(rows, YearBoroughStreetAre(y, b, s)))
  {
    FilterFuse(rows, YearIs(y), BoroughAndStreetAre(b, s), YearBoroughStreetAre(y, b, s));
  }

  // ---------------------------------------------------------------------------
  // Borough polygons joined with the per-borough counts (lines 31-32, 39)

  /** A polygon of the borough boundary file: its `boro_name` and its outline. */
  datatype Boundary = Boundary(name: string, outline: seq<(real, real)>)

  /** A row of the merged table: a polygon with one (Borough, Year) group of the same name. */
  datatype BoroughArea = BoroughArea(outline: seq<(real, real)>, borough: string, year: int, accidents: nat)

  function NameIs(n: string): Group<(string, int)> -> bool {
    (g: Group<(string, int)>) => g.key.0 == n
  }

  /** One merged row per group, all carrying the polygon `p`. */
  function AreasOf(p: Boundary, gs: seq<Group<(string, int)>>): (areas: seq<BoroughArea>)
    ensures |areas| == |gs|
  {
    seq(|gs|, i requires 0 <= i < |gs| => BoroughArea(p.outline, gs[i].key.0, gs[i].key.1, gs[i].size))
  }

  /** The merged rows of one polygon: the groups whose borough is its name. */
  function Matches(p: Boundary, gs: seq<Group<(string, int)>>): seq<BoroughArea> {
    AreasOf(p, Filter(gs, NameIs(p.name)))
  }

  /**
   * Line 32: the inner merge of the polygons with the groups on
   * `boro_name == Borough`, polygon by polygon.
   */
  function Merge(polys: seq<Boundary>, gs: seq<Group<(string, int)>>): seq<BoroughArea> {
    if polys == [] then []
    else Merge(polys[..|polys| - 1], gs) + Matches(polys[|polys| - 1], gs)
  }

  function AreaYearIs(y: int): BoroughArea -> bool {
    (a: BoroughArea) => a.year == y
  }

  /** Line 39: the merged rows of the selected year, which the year bar chart draws. */
  function YearAreas(merged: seq<BoroughArea>, y: int): seq<BoroughArea> {
    Filter(merged, AreaYearIs(y))
  }

  function AccidentsOf(areas: seq<BoroughArea>): seq<nat> {
    seq(|areas|, i requires 0 <= i < |areas| => areas[i].accidents)
  }

  function Names(polys: seq<Boundary>): seq<string> {
    seq(|polys|, i requires 0 <= i < |polys| => polys[i].name)
  }

  /**
   * A merged row is exactly a polygon paired with a group of the same borough
   * name, carrying the polygon's outline and the group's year and count.
   */
  lemma {:induction false} MergeRows(polys: seq<Boundary>, gs: seq<Group<(string, int)>>, a: BoroughArea)
    ensures a in Merge(polys, gs) <==>
      exists p, g :: p in polys && g in gs && g.key.0 == p.name &&
        a == BoroughArea(p.outline, g.key.0, g.key.1, g.size)
  {
    if polys != [] {
      var polys' := polys[..|polys| - 1];
      var p := polys[|polys| - 1];
      assert polys == polys' + [p];
      MergeRows(polys', gs, a);
      MatchesRows(p, gs, a);
    }
  }

  /** The merged rows of one polygon are exactly its pairings with the groups of its borough. */
  lemma MatchesRows(p: Boundary, gs: seq<Group<(string, int)>>, a: BoroughArea)
    ensures a in Matches(p, gs) <==>
      exists g :: g in gs && g.key.0 == p.name && a == BoroughArea(p.outline, g.key.0, g.key.1, g.size)
  {
    var fs := Filter(gs, NameIs(p.name));
    if a in Matches(p, gs) {
      var i :| 0 <= i < |fs| && Matches(p, gs)[i] == a;
      assert fs[i] in fs;
    }
    if exists g :: g in gs && g.key.0 == p.name && a == BoroughArea(p.outline, g.key.0, g.key.1, g.size) {
      var g :| g in gs && g.key.0 == p.name && a == BoroughArea(p.outline, g.key.0, g.key.1, g.size);
      FilterMultiplicity(gs, NameIs(p.name), g);
      assert multiset(fs)[g] > 0;
      var i :| 0 <= i < |fs| && fs[i] == g;
      assert Matches(p, gs)[i] == a;
    }
  }

  /** A borough without a polygon (such as the "Unknown" sentinel) has no merged row. */
  lemma UnmatchedBoroughVanishes(polys: seq<Boundary>, gs: seq<Group<(string, int)>>, b: string, a: BoroughArea)
    requires b !in Names(polys)
    requires a in Merge(polys, gs)
    ensures a.borough != b
  {
    MergeRows(polys, gs, a);
    var p, g :| p in polys && g in gs && g.key.0 == p.name && a == BoroughArea(p.outline, g.key.0, g.key.1, g.size);
    var i :| 0 <= i < |polys| && polys[i] == p;
    assert Names(polys)[i] == p.name;
  }

  lemma {:induction false} FilterAreasOf(p: Boundary, gs: seq<Group<(string, int)>>, y: int)
    ensures Filter(AreasOf(p, gs), AreaYearIs(y)) == AreasOf(p, Filter(gs, GroupYearIs(y)))
  {
    if gs != [] {
      var gs' := gs[..|gs| - 1];
      FilterAreasOf(p, gs', y);
      assert AreasOf(p, gs)[..|gs| - 1] == AreasOf(p, gs');
      var rest := Filter(gs', GroupYearIs(y));
      var g := gs[|gs| - 1];
      if g.key.1 == y {
        assert AreasOf(p, rest + [g]) == AreasOf(p, rest) + [AreasOf(p, gs)[|gs| - 1]];
      }
    }
  }

  lemma AccidentsOfConcat(a: seq<BoroughArea>, b: seq<BoroughArea>)
    ensures AccidentsOf(a + b) == AccidentsOf(a) + AccidentsOf(b)
  {
  }

  function GroupKeyIs(k: (string, int)): Group<(string, int)> -> bool {
    (g: Group<(string, int)>) => g.key == k
  }

  /** One polygon's merged rows of year `y` come from the group of its borough and that year. */
  lemma YearMatches(p: Boundary, gs: seq<Group<(string, int)>>, y: int)
    ensures YearAreas(Matches(p, gs), y) == AreasOf(p, Filter(gs, GroupKeyIs((p.name, y))))
  {
    FilterAreasOf(p, Filter(gs, NameIs(p.name)), y);
    FilterFuse(gs, NameIs(p.name), GroupYearIs(y), GroupKeyIs((p.name, y)));
  }

  lemma AccidentsOfAreas(p: Boundary, gs: seq<Group<(string, int)>>)
    ensures AccidentsOf(AreasOf(p, gs)) == SizesOf(gs)
  {
  }

  /** The (Borough, Year) group of `k` has as many rows as the table has rows with that borough and year. */
  lemma GroupOfKey(rows: seq<Row>, k: (string, int))
    ensures Sum(SizesOf(Filter(AccidentsPerBorough(rows), GroupKeyIs(k)))) == |Filter(rows, BoroughAndYearAre(k.0, k.1))|
  {
    var ks := Present(rows, BoroughYearKey);
    var keyIs := (x: (string, int)) => x == k;
    GroupSizesConserve(ks, keyIs, GroupKeyIs(k));
    FilterEqualsCount(ks, keyIs, k);
    PresentCount(rows, BoroughYearKey, k, BoroughAndYearAre(k.0, k.1));
  }

  /** The merged rows of one polygon in year `y` add up to that borough's rows of year `y`. */
  lemma MatchesInYear(p: Boundary, rows: seq<Row>, y: int)
    ensures Sum(AccidentsOf(YearAreas(Matches(p, AccidentsPerBorough(rows)), y))) ==
      |Filter(rows, BoroughAndYearAre(p.name, y))|
  {
    var gs := AccidentsPerBorough(rows);
    YearMatches(p, gs, y);
    AccidentsOfAreas(p, Filter(gs, GroupKeyIs((p.name, y))));
    GroupOfKey(rows, (p.name, y));
  }

  function InYearAndNamed(y: int, names: seq<string>): Row -> bool {
    (r: Row) => r.year == Some(y) && r.borough in names
  }

  /**
   * When the boundary file names each borough once, the counts the year bar
   * chart draws for year `y` add up to the rows of year `y` whose borough has a
   * polygon: rows of any other borough are silently left off the chart.
   */
  lemma {:induction false} ChartConservesCounts(rows: seq<Row>, polys: seq<Boundary>, y: int)
    requires NoDuplicates(Names(polys))
    ensures Sum(AccidentsOf(YearAreas(Merge(polys, AccidentsPerBorough(rows)), y))) ==
      |Filter(rows, InYearAndNamed(y, Names(polys)))|
  {
    var gs := AccidentsPerBorough(rows);
    if polys == [] {
      FilterNone(rows, InYearAndNamed(y, Names(polys)));
    } else {
      var polys' := polys[..|polys| - 1];
      var p := polys[|polys| - 1];
      assert Names(polys) == Names(polys') + [p.name];
      assert Names(polys') == Names(polys)[..|polys| - 1];
      assert NoDuplicates(Names(polys'));
      ChartConservesCounts(rows, polys', y);
      FilterOfConcat(Merge(polys', gs), Matches(p, gs), AreaYearIs(y));
      AccidentsOfConcat(YearAreas(Merge(polys', gs), y), YearAreas(Matches(p, gs), y));
      SumOfConcat(AccidentsOf(YearAreas(Merge(polys', gs), y)), AccidentsOf(YearAreas(Matches(p, gs), y)));
      MatchesInYear(p, rows, y);
      forall i | 0 <= i < |polys'| ensures Names(polys')[i] != p.name {
        assert Names(polys)[i] != Names(polys)[|polys| - 1];
      }
      FilterDisjointUnion(rows, InYearAndNamed(y, Names(polys)), InYearAndNamed(y, Names(polys')), BoroughAndYearAre(p.name, y));
    }
  }

  // ---------------------------------------------------------------------------
  // Widget selections (lines 35, 90, 99-100)

  datatype Selection = Selection(year: int, borough: string, street: string, factor: string)

  /**
   * With a street of the selected year and borough (in particular any of the
   * top 3 the street box offers, see `Top3`), the heat map has at least one
   * point, so the mean that centres the map is defined.
   */
  lemma OfferedStreetHasMapPoints(rows: seq<Row>, sel: Selection)
    requires sel.street in ValuesOf(BoroughRows(YearRows(rows, sel.year), sel.borough), StreetName)
    ensures |HeatData(BoroughStreetRows(YearRows(rows, sel.year), sel.borough, sel.street))| > 0
  {
    var boroughRows := BoroughRows(YearRows(rows, sel.year), sel.borough);
    var r := ValueHolder(boroughRows, StreetName, sel.street);
    SelectedRowIsMapped(rows, sel.year, sel.borough, sel.street, r);
  }

  lemma SelectedRowIsMapped(rows: seq<Row>, y: int, b: string, s: string, r: Row)
    requires r in BoroughRows(YearRows(rows, y), b) && r.street == s
    ensures |BoroughStreetRows(YearRows(rows, y), b, s)| > 0
  {
    var yearRows := YearRows(rows, y);
    assert multiset(BoroughRows(yearRows, b))[r] > 0;
    assert multiset(yearRows)[r] > 0;
    assert multiset(BoroughStreetRows(yearRows, b, s))[r] > 0;
  }

  /**
   * The data behind every chart of one redraw: the year chart's merged rows,
   * the two borough tables, the offered top-3 lists, the per-hour table and
   * the heat map's points.
   */
  datatype Outputs = Outputs(
    yearAreas: seq<BoroughArea>,
    vehicleTable: Table<string, string>,
    factorTable: Table<string, string>,
    topStreets: seq<string>,
    topFactors: seq<string>,
    hourTable: Table<string, Hour>,
    heatData: seq<(real, real)>)

  /**
   * One redraw for the selection, over the cleaned rows and the borough
   * polygons. The per-hour table never counts more rows than the heat map has
   * points.
   */
  function Render(rows: seq<Row>, polys: seq<Boundary>, sel: Selection): (out: Outputs)
    ensures |out.heatData| == |Filter(rows, YearBoroughStreetAre(sel.year, sel.borough, sel.street))|
    ensures Total(out.hourTable) <= |out.heatData|
  {
    var yearRows := YearRows(rows, sel.year);
    var boroughRows := BoroughRows(yearRows, sel.borough);
    var data := StreetFactorRows(boroughRows, sel.street, sel.factor);
    var mapa := BoroughStreetRows(yearRows, sel.borough, sel.street);
    HeatDataOfSelection(rows, sel.year, sel.borough, sel.street);
    FilterChain(rows, sel.year, sel.borough, sel.street, sel.factor);
    HourTableTotal(data);
    Outputs(
      YearAreas(Merge(polys, AccidentsPerBorough(rows)), sel.year),
      CategoryTable(yearRows, VehicleType),
      CategoryTable(yearRows, ContributingFactor),
      Top3(boroughRows, StreetName),
      Top3(boroughRows, ContributingFactor),
      HourTable(data),
      HeatData(mapa))
  }
}
