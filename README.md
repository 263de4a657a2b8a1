# NYC collisions dashboard: cleaning and aggregation model

This project models the data side of a Streamlit dashboard over New York City
motor-vehicle collision records, `avance3_10.py`. The dashboard loads a CSV
of collisions and a borough boundary file. It cleans the collision table once,
in place:

- it drops rows without coordinates;
- it fills a missing borough with `Unknown`, and a missing street or
  contributing factor with `Unspecified`;
- it parses `Date`, and parses `Time` with `%H:%M:%S`;
- it defaults `Persons Injured` to 0;
- it derives `Year` and `Hour`.

It then draws:

- accidents per (Borough, Year), merged with the borough polygons and
  filtered to the selected year;
- for the selected year, the top-3 vehicle types and top-3 contributing
  factors, each unstacked into a borough × value count table;
- for the selected borough, its top-3 streets and factors, which the street
  and factor select boxes offer;
- accidents per (Borough, Hour) for the selected street and factor;
- a heat map of the coordinates of the selected borough and street.

The model has five modules:

- `Frame`, file `frame.dfy`:
  - the raw and cleaned collision record;
  - the concrete `%H:%M:%S` time parser;
  - the cleaning pass as a class `CollisionFrame`, whose methods rewrite its
    `rows` field in the order of the source statements. Each method is proved
    against a function on the old rows.
- `Grouping`, file `grouping.dfy`, with generic keys:
  - `groupby(...).size()`;
  - `unstack(fill_value=0)`;
  - `value_counts().nlargest(k)`.
- `Sequences`, file `sequences.dfy`: boolean-mask row selection (`Filter`),
  order-preserving subsequences, multiplicities and sums.
- `Dashboard`, file `dashboard.dfy`: the cleaned row and every aggregation,
  filter and join the charts read.
- `Wrappers`, file `wrappers.dfy`: the `Option` type of a cell that may be
  missing.

Missing cells (NaN) are `None` of `Option`. A missing date or time (NaT) is
`DateMissing` or `TimeMissing`, which is also what a date or time text spelled
as NaT (`NaT`, `nat`, `NAT`, `nan`, `NaN`, `NAN` or empty) becomes on parsing.
NaT propagates to `Year` and `Hour`, and rows with a missing grouping key form
no group, as pandas' `groupby` drops NaN keys.

The proofs establish the following:

- The cleaned table is the located raw rows in order, with the sentinels,
  defaults and parsed fields in place.
- In the model, loading fails exactly when a located row has a date or time
  text that does not parse and is not a NaT spelling. The texts `now` and
  `today` count as unparseable times; see "Left out".
- Every count table counts exactly the rows with its labels. Its rows and
  columns are exactly the labels that occur, and its total is the number of
  rows it was computed from whose keys are present: rows with a missing hour
  (or, for the top-3 tables, a missing value) are not counted.
- The top-3 lists are ranked by frequency and no omitted value outranks a
  chosen one.
- The filter chain only narrows, and preserves order.
- When the boundary file names each borough once, the year chart's counts add
  up to the rows of that year whose borough has a polygon. Rows of a borough without a polygon, such as the `Unknown`
  sentinel, never reach the chart.
- Any street the street box can offer gives the heat map at least one point,
  so the map centre (a mean) is defined.

## Model

| member | source | states |
|---|---|---|
| Frame.CollisionFrame.DropMissingCoordinates | avance3_10.py:19 | the rows become exactly the rows having both a latitude and a longitude, in their original order |
| Frame.CollisionFrame.FillText | avance3_10.py:20-22 | every row gets the sentinel in the given text column where that cell was missing; present cells and other columns are unchanged |
| Frame.CollisionFrame.ParseDates | avance3_10.py:23 | succeeds exactly when every date text is a NaT spelling or parses; then a NaT spelling becomes NaT, every other text its timestamp, and NaT stays NaT; on failure the table is unchanged |
| Frame.CollisionFrame.ParseTimes | avance3_10.py:24 | succeeds exactly when every time text is a NaT spelling or matches `%H:%M:%S`; then a NaT spelling becomes NaT and every other text its time of day; on failure the table is unchanged (`now`/`today` fail, see Left out) |
| Frame.CollisionFrame.FillInjured | avance3_10.py:25 | missing injury counts become 0, present ones are kept |
| Frame.CollisionFrame.DeriveYear | avance3_10.py:26 | each row's year is its date's year, or missing where the date is NaT |
| Frame.CollisionFrame.DeriveHour | avance3_10.py:27 | each row's hour is its time's hour, or missing where the time is NaT |
| Frame.CollisionFrame.Clean | avance3_10.py:19-27 | the cleaning statements in order: succeeds exactly when the cleaning specification does, and then leaves its rows |
| Frame.Field | avance3_10.py:24 | a `%H`/`%M`/`%S` field that parses never exceeds its maximum |
| Frame.ClockRoundTrip | avance3_10.py:24 | parsing any time of day written as `HH:MM:SS` gives that time back |
| Frame.ParseClockExample | avance3_10.py:24 | "14:32:00" parses to 14 h 32 min 0 s |
| Frame.ParseClock | avance3_10.py:24 | `pd.to_datetime(format='%H:%M:%S')` on one text; its contract is stated by `Field`, `ClockRoundTrip`, `ParseClockExample` and `ParseClockRejectsHour24` |
| Frame.ParseClockRejectsHour24 | avance3_10.py:24 | "24:00:00" does not parse; a located row holding it makes the load fail, by `CleanSpecFails` |
| Frame.FillCellSpec | avance3_10.py:20-22 | filling a column sets it to its old value or the sentinel and leaves the other text columns unchanged |
| Frame.CleanSpec | avance3_10.py:19-27 | the cleaning statements as one function on the raw rows; its contract is stated by `CleanSpecRows`, `CleanSpecFails` and `NaTTextsLoad` |
| Frame.NaTTextsLoad | avance3_10.py:23-24 | a located row whose date and time texts are NaT spellings loads, with a missing year and hour |
| Frame.CleanSpecRows | avance3_10.py:19-27 | a successful cleaning gives one clean row per located raw row, in order, each holding the raw coordinates, the sentinels for missing borough/factor/street, injuries defaulted to 0, and the year and hour of the raw date and time |
| Frame.CleanSpecFails | avance3_10.py:23-24 | cleaning fails if and only if some row with coordinates has a date or time text that is neither a NaT spelling nor parseable; rows dropped for missing coordinates never cause a failure |
| Frame.TimesFail | avance3_10.py:24 | after the dates parsed, time parsing fails exactly when some located row has a bad date or time text |
| Frame.LocatedRows | avance3_10.py:19 | the coordinate filter keeps, in order and with their multiplicities, exactly the rows with coordinates |
| Grouping.GroupSizes | avance3_10.py:30 | one group per distinct key that occurs, no group empty |
| Grouping.GroupSizeIsCount | avance3_10.py:30 | the size stored for a key is the number of its occurrences, 0 for an absent key |
| Grouping.GroupSizesConserve | avance3_10.py:30 | the sizes of the groups whose key satisfies a predicate add up to the number of keys satisfying it |
| Grouping.GroupSizesTotal | avance3_10.py:30 | all group sizes add up to the number of keys |
| Grouping.Unstack | avance3_10.py:69 | the unstacked table is rectangular: one cell per row label and column label |
| Grouping.UnstackCells | avance3_10.py:69 | row and column labels are distinct and exactly those occurring; each cell counts the keys with that pair, 0 when the pair never occurs |
| Grouping.UnstackRowSum | avance3_10.py:107 | a row of the unstacked table adds up to the number of keys with that row label |
| Grouping.UnstackTotal | avance3_10.py:69 | the unstacked table adds up to the number of keys |
| Grouping.MostFrequent | avance3_10.py:67 | the chosen candidate occurs at least as often as every other candidate |
| Grouping.TopK | avance3_10.py:67 | min(k, number of distinct values) distinct values that occur, in non-increasing frequency, none left out more frequent than one chosen |
| Grouping.Without | avance3_10.py:67 | removing every copy of the most frequent value leaves the other values with their counts and one distinct value fewer |
| Grouping.TopKCons | avance3_10.py:67 | the most frequent value followed by a ranking of the rest is a ranking of the whole |
| Dashboard.LoadedRows | avance3_10.py:19-27 | the table the charts read is the located raw rows in order, with raw coordinates, sentinels, injuries defaulted to 0 and the parsed year and hour |
| Dashboard.YearRows | avance3_10.py:38 | keeps each row of the selected year as often as it occurs and no other row (a missing year never matches) |
| Dashboard.BoroughRows | avance3_10.py:93 | keeps each row of the selected borough as often as it occurs and no other row |
| Dashboard.StreetFactorRows | avance3_10.py:103-104 | keeps each row of the selected street and factor as often as it occurs and no other row |
| Dashboard.BoroughStreetRows | avance3_10.py:124-125 | keeps each row of the selected borough and street as often as it occurs and no other row |
| Dashboard.FilterChain | avance3_10.py:93-125 | the hour chart's rows are a part of the map's rows, which are a part of the borough's rows and of the year's rows; every stage keeps row order, meets all filters applied so far and is no larger than the one before |
| Dashboard.MapRowsNarrowBoroughRows | avance3_10.py:93-125 | the map's rows are the selected borough's rows narrowed to the selected street |
| Dashboard.HourRowsNarrowMapRows | avance3_10.py:103-125 | the hour chart's rows are the map's rows narrowed to the selected factor |
| Dashboard.AccidentsPerBorough | avance3_10.py:30 | `groupby(['Borough', 'Year']).size()`; its contract is stated by `AccidentsPerBoroughCounts` and `AccidentsPerYearConserved` |
| Dashboard.AccidentsPerBoroughCounts | avance3_10.py:30 | each (Borough, Year) count is the number of rows with that borough and year; a pair has a group exactly when a row has it |
| Dashboard.AccidentsPerYearConserved | avance3_10.py:30 | for a year, the per-borough counts add up to the rows of that year |
| Dashboard.ValueCounts | avance3_10.py:67 | a value is counted exactly when some row holds it in the column, and it is counted once per row holding it |
| Dashboard.ValueHolder | avance3_10.py:67 | every counted value is held by some row |
| Dashboard.Top3 | avance3_10.py:96-97 | up to three distinct non-missing values of the column, most frequent first, none left out more frequent than one chosen |
| Dashboard.RankingByFrequency | avance3_10.py:96-97 | a ranking by occurrences among the column's non-missing cells is a ranking by the number of rows holding each value |
| Dashboard.TopRestricted | avance3_10.py:68 | `filtered_df[filtered_df[c].isin(top)]`; its contract is stated by `InTopRows` and `RestrictedCount` |
| Dashboard.InTopRows | avance3_10.py:68 | `isin(top)` keeps a row exactly when its value is present and among the top list |
| Dashboard.CategoryTable | avance3_10.py:67-69 | the borough × top-3 value count table (also lines 79-81); its contract is stated by `CategoryTableColumns`, `CategoryTableIndex`, `CategoryTableCell` and `CategoryTableTotal` |
| Dashboard.CategoryTableColumns | avance3_10.py:67-69 | the columns of a borough table are exactly the top-3 values |
| Dashboard.CategoryTableIndex | avance3_10.py:79-81 | the rows of a borough table are exactly the boroughs having a row with a top-3 value |
| Dashboard.CategoryTableCell | avance3_10.py:67-69 | each cell is the number of rows of that year with that borough and value; labels are distinct |
| Dashboard.RestrictedCount | avance3_10.py:68 | restricting to the top values keeps every row holding a top value, so the count of a (borough, top value) pair is unchanged |
| Dashboard.CategoryTableTotal | avance3_10.py:79-81 | a borough table counts every row holding a top-3 value exactly once |
| Dashboard.HourTable | avance3_10.py:107 | the borough × hour count table; its contract is stated by `HourTableLabels`, `HourTableCell`, `HourTableRowSum`, `HourTableTotal` and `HourTableMatchesBoroughs` |
| Dashboard.HourTableLabels | avance3_10.py:107 | the per-hour table's rows are the boroughs having a row with an hour, its columns the hours that occur |
| Dashboard.HourTableCell | avance3_10.py:107 | each cell is the number of rows with that borough and hour |
| Dashboard.HourTableRowSum | avance3_10.py:107 | a borough's hourly counts add up to its rows with an hour |
| Dashboard.HourTableTotal | avance3_10.py:107 | the per-hour table counts every row with an hour once |
| Dashboard.HourTableMatchesBoroughs | avance3_10.py:107 | when every row has an hour, each borough's hourly counts add up to all of that borough's rows |
| Dashboard.HeatData | avance3_10.py:132 | one (latitude, longitude) point per row, in row order |
| Dashboard.HeatDataOfSelection | avance3_10.py:124-132 | the heat map plots exactly the coordinates of the rows with the selected year, borough and street, in order |
| Dashboard.Merge | avance3_10.py:31-32 | the inner merge of the polygons with the group sizes on Borough; its contract is stated by `MergeRows`, `MatchesRows` and `UnmatchedBoroughVanishes` |
| Dashboard.YearAreas | avance3_10.py:39 | `ny[ny['Year'] == selected_year]`; its contract is stated by `YearMatches`, `MatchesInYear` and `ChartConservesCounts` |
| Dashboard.MergeRows | avance3_10.py:31-32 | a merged row is exactly a polygon paired with a group of the same borough, carrying its outline, year and count |
| Dashboard.MatchesRows | avance3_10.py:32 | one polygon's merged rows are exactly that polygon paired with each group of its borough |
| Dashboard.UnmatchedBoroughVanishes | avance3_10.py:32 | a borough with no polygon (such as `Unknown`) has no merged row |
| Dashboard.YearMatches | avance3_10.py:39 | selecting one polygon's merged rows by year selects the groups of that year |
| Dashboard.GroupOfKey | avance3_10.py:30 | the group sizes with a given borough and year add up to that pair's row count |
| Dashboard.MatchesInYear | avance3_10.py:32-39 | one polygon's merged rows of a year add up to that borough's rows of that year |
| Dashboard.ChartConservesCounts | avance3_10.py:30-39 | with each borough named once in the boundary file, the year chart's counts add up to the rows of that year whose borough has a polygon |
| Dashboard.SelectedRowIsMapped | avance3_10.py:124-125 | a row of the selected borough and year with the selected street puts at least one row on the map |
| Dashboard.OfferedStreetHasMapPoints | avance3_10.py:96-128 | for any street of the selected year and borough, in particular any top-3 street the street box offers, the heat map has a point, so the map centre is defined |
| Dashboard.Render | avance3_10.py:30-132 | one redraw, including the year chart's merged rows of the selected year: the heat map has one point per row of the selected year, borough and street, and the hour chart counts no more rows than the map has points |

## Left out

- Reading the CSV and the boundary file (lines 12, 15) is I/O. The raw table and the polygons are parameters.
- Dropping `Cross Street` (line 18) changes nothing the dashboard reads, so the record has no such column.
- General date parsing (line 23): pandas' date inference is a parameter `parse`. Only the `%H:%M:%S` time format is modelled concretely.
- Frame.CollisionFrame.ParseDates: a date text is NaT when it is one of pandas' NaT spellings (`NaT`, `nat`, `NAT`, `nan`, `NaN`, `NAN`, empty). Any other text goes to the parser parameter `parse`. Other texts that some pandas version reads as NaT (such as `none`) are not modelled as NaT.
- Frame.CollisionFrame.ParseTimes: NaT spellings are handled as for dates. A time text `now` or `today` fails the load here, whereas recent pandas versions check for these two texts before applying the format and give the current time. The clock is I/O, so that outcome is not modelled. The parser's own gaps are on the next line.
- Frame.ParseClock: `%H`, `%M` and `%S` take only ASCII digits, although the regular expression's `\d` also matches other decimal digits. A second of 60 or 61, which `%S` matches, is refused, because a `Clock` holds seconds up to 59. How pandas carries a leap second into the timestamp is not modelled. `now` and `today` are rejected as any other non-matching text.
- Frame.CollisionFrame.Clean: a load that fails stops the script, so the model does not say what the table holds after a failed parse.
- Frame.CollisionFrame.FillInjured: `astype(int)` truncating a fractional injury count is not modelled; injury counts are integers from the start.
- Widgets (lines 35, 90, 99-100) are parameters `y`, `b`, `s`, `f` and `Selection`. A NaN year among the offered years is not a selection the model can make.
- Dashboard.OfferedStreetHasMapPoints: only the street is constrained. The factor box is not needed for the map, and an offered factor need not occur with the offered street, so the hour chart can be empty.
- Colours, sorting by count for display, and plotting (lines 41-63, 71-75, 83-87, 109-121) are presentation only.
- Dashboard.HeatData: the map centre mean (line 128) and the folium rendering (lines 129-137) are floating point and UI. The model proves the point list non-empty instead.
- Grouping.GroupSizes: groups and unstacked labels come in first-occurrence order, whereas pandas sorts group keys. Every contract is stated per label, so it holds in either order.
- Grouping.TopK: the order among values of equal frequency is not promised, since pandas does not fix it either. Only the ranking by frequency is stated.
- Dashboard.MergeRows: polygon geometry is an opaque outline carried unchanged. Column renaming (line 31) is folded into matching `name` against `Borough`.
