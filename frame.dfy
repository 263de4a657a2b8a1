/**
 * The collision table as loaded from the CSV file and the in-place cleaning
 * pass that runs once before any chart is drawn: drop rows without
 * coordinates, fill missing text cells with sentinels, parse dates and
 * `HH:MM:SS` times, default injuries to 0, and derive `Year` and `Hour`.
 */
module Frame {
  import opened Wrappers
  import opened Sequences

  type Hour = h: int | 0 <= h < 24
  type Minute = m: int | 0 <= m < 60
  type Second = s: int | 0 <= s < 60

  /** A calendar date as produced by the date parser. */
  datatype Date = Date(year: int, month: int, day: int)

  /** A wall-clock time of day (pandas keeps only valid times in a timestamp). */
  datatype Clock = Clock(hour: Hour, minute: Minute, second: Second)

  /** The `Date` column: text as read, a parsed timestamp, or NaT. */
  datatype DateCell = DateText(text: string) | DateStamp(date: Date) | DateMissing

  /** The `Time` column: text as read, a parsed timestamp, or NaT. */
  datatype TimeCell = TimeText(text: string) | TimeStamp(clock: Clock) | TimeMissing

  /**
   * One row of the collision table; `None` is a missing cell. `year` and
   * `hour` stand for the derived `Year` and `Hour` columns and are `None`
   * until they are derived (and stay `None` where the date or time is NaT).
   */
  datatype Record = Record(
    latitude: Option<real>,
    longitude: Option<real>,
    borough: Option<string>,
    street: Option<string>,
    factor: Option<string>,
    vehicle: Option<string>,
    date: DateCell,
    time: TimeCell,
    injured: Option<int>,
    year: Option<int>,
    hour: Option<Hour>)

  /** The text columns whose missing cells the cleaning fills with a sentinel. */
  datatype TextColumn = BoroughColumn | FactorColumn | StreetColumn

  function Text(r: Record, c: TextColumn): Option<string> {
    match c
    case BoroughColumn => r.borough
    case FactorColumn => r.factor
    case StreetColumn => r.street
  }

  function WithText(r: Record, c: TextColumn, v: Option<string>): Record {
    match c
    case BoroughColumn => r.(borough := v)
    case FactorColumn => r.(factor := v)
    case StreetColumn => r.(street := v)
  }

  predicate HasCoordinates(r: Record) {
    r.latitude.Some? && r.longitude.Some?
  }

  // ---------------------------------------------------------------------------
  // Parsing a time of day with the format %H:%M:%S

  predicate IsDigit(ch: char) {
    '0' <= ch <= '9'
  }

  predicate AllDigits(s: string) {
    forall i :: 0 <= i < |s| ==> IsDigit(s[i])
  }

  function DigitsValue(s: string): nat
    requires AllDigits(s)
  {
    if s == [] then 0 else 10 * DigitsValue(s[..|s| - 1]) + (s[|s| - 1] as int - '0' as int)
  }

  /** One `%H`, `%M` or `%S` field: one or two digits whose value is at most `max`. */
  function Field(s: string, max: nat): (r: Option<nat>)
    ensures r.Some? ==> r.value <= max
  {
    if 1 <= |s| <= 2 && AllDigits(s) && DigitsValue(s) <= max then Some(DigitsValue(s)) else None
  }

  /** The pieces of `s` between occurrences of `sep` (Python's `str.split(sep)`). */
  function SplitOn(s: string, sep: char): (parts: seq<string>)
    ensures |parts| >= 1
  {
    if s == [] then [[]]
    else
      var rest := SplitOn(s[1..], sep);
      if s[0] == sep then [[]] + rest else [[s[0]] + rest[0]] + rest[1..]
  }

  /**
   * `pd.to_datetime(text, format='%H:%M:%S')` on one cell that is not a NaT
   * spelling: three colon-separated fields of one or two ASCII digits, an hour
   * up to 23, minutes up to 59. Seconds are taken up to 59, the range of a
   * `Clock`; a second of 60 or 61 is refused.
   */
  function ParseClock(t: string): Option<Clock> {
    var parts := SplitOn(t, ':');
    if |parts| != 3 then None
    else
      match (Field(parts[0], 23), Field(parts[1], 59), Field(parts[2], 59))
      case (Some(h), Some(m), Some(s)) => Some(Clock(h, m, s))
      case _ => None
  }

  function TwoDigits(n: nat): string
    requires n < 100
  {
    [(48 + n / 10) as char, (48 + n % 10) as char]
  }

  /** A time of day written as `HH:MM:SS`, as the CSV file stores it. */
  function FormatClock(c: Clock): string {
    TwoDigits(c.hour) + (":" + (TwoDigits(c.minute) + (":" + TwoDigits(c.second))))
  }

  // ---------------------------------------------------------------------------
  // The cleaning steps, one function per statement of the source

  /** Line 19: the rows that have both a latitude and a longitude. */
  function Located(rs: seq<Record>): seq<Record> {
    Filter(rs, HasCoordinates)
  }

  /**
   * The texts `pd.to_datetime` turns into NaT instead of parsing them, with or
   * without a format: the empty text and pandas' NaT spellings.
   */
  predicate IsNaTText(t: string) {
    t in {"", "NaT", "nat", "NAT", "nan", "NaN", "NAN"}
  }

  function FillCell(r: Record, c: TextColumn, v: string): Record {
    WithText(r, c, Some(Text(r, c).GetOr(v)))
  }

  /** Lines 20-22: column `c` with its missing cells replaced by `v`. */
  function FilledText(rs: seq<Record>, c: TextColumn, v: string): seq<Record> {
    seq(|rs|, i requires 0 <= i < |rs| => FillCell(rs[i], c, v))
  }

  /** A date text that is no NaT spelling and that the date parser rejects. */
  predicate DateFails(r: Record, parse: string -> Option<Date>) {
    r.date.DateText? && !IsNaTText(r.date.text) && parse(r.date.text).None?
  }

  function ParseDateCell(r: Record, parse: string -> Option<Date>): Record
    requires !DateFails(r, parse)
  {
    if !r.date.DateText? then r
    else if IsNaTText(r.date.text) then r.(date := DateMissing)
    else r.(date := DateStamp(parse(r.date.text).value))
  }

  /** Line 23: every date text parsed, or a failure of the whole column. */
  function ParsedDates(rs: seq<Record>, parse: string -> Option<Date>): Option<seq<Record>> {
    if exists i :: 0 <= i < |rs| && DateFails(rs[i], parse) then None
    else Some(seq(|rs|, i requires 0 <= i < |rs| && !DateFails(rs[i], parse) => ParseDateCell(rs[i], parse)))
  }

  /** A time text that is no NaT spelling and does not match `%H:%M:%S`. */
  predicate TimeFails(r: Record) {
    r.time.TimeText? && !IsNaTText(r.time.text) && ParseClock(r.time.text).None?
  }

  function ParseTimeCell(r: Record): Record
    requires !TimeFails(r)
  {
    if !r.time.TimeText? then r
    else if IsNaTText(r.time.text) then r.(time := TimeMissing)
    else r.(time := TimeStamp(ParseClock(r.time.text).value))
  }

  /** Line 24: every time text parsed with `%H:%M:%S`, or a failure of the whole column. */
  function ParsedTimes(rs: seq<Record>): Option<seq<Record>> {
    if exists i :: 0 <= i < |rs| && TimeFails(rs[i]) then None
    else Some(seq(|rs|, i requires 0 <= i < |rs| && !TimeFails(rs[i]) => ParseTimeCell(rs[i])))
  }

  /** Line 25: missing injury counts become 0. */
  function FilledInjured(rs: seq<Record>): seq<Record> {
    seq(|rs|, i requires 0 <= i < |rs| => rs[i].(injured := Some(rs[i].injured.GetOr(0))))
  }

  /** `.dt.year`: the year of a timestamp; NaT gives NaN. */
  function YearOf(d: DateCell): Option<int> {
    if d.DateStamp? then Some(d.date.year) else None
  }

  /** `.dt.hour`: the hour of a timestamp; NaT gives NaN. */
  function HourOf(t: TimeCell): Option<Hour> {
    if t.TimeStamp? then Some(t.clock.hour) else None
  }

  /** Line 26. */
  function WithYears(rs: seq<Record>): seq<Record> {
    seq(|rs|, i requires 0 <= i < |rs| => rs[i].(year := YearOf(rs[i].date)))
  }

  /** Line 27. */
  function WithHours(rs: seq<Record>): seq<Record> {
    seq(|rs|, i requires 0 <= i < |rs| => rs[i].(hour := HourOf(rs[i].time)))
  }

  /** Lines 19-27 in order; `None` when parsing a date or a time raises. */
  function CleanSpec(rs: seq<Record>, parse: string -> Option<Date>): Option<seq<Record>> {
    var filled := FilledText(FilledText(FilledText(Located(rs),
      BoroughColumn, "Unknown"), FactorColumn, "Unspecified"), StreetColumn, "Unspecified");
    match ParsedDates(filled, parse)
    case None => None
    case Some(dated) =>
      match ParsedTimes(dated)
      case None => None
      case Some(timed) => Some(WithHours(WithYears(FilledInjured(timed))))
  }

  /** What every row of the cleaned table satisfies. */
  predicate IsClean(r: Record) {
    && HasCoordinates(r)
    && r.borough.Some? && r.street.Some? && r.factor.Some?
    && r.injured.Some?
    && !r.date.DateText? && !r.time.TimeText?
    && r.year == YearOf(r.date)
    && r.hour == HourOf(r.time)
  }

  /** The year a raw date cell ends up with, given the date parser. */
  function RawYear(d: DateCell, parse: string -> Option<Date>): Option<int> {
    match d
    case DateText(t) => if !IsNaTText(t) && parse(t).Some? then Some(parse(t).value.year) else None
    case DateStamp(x) => Some(x.year)
    case DateMissing => None
  }

  /** The hour a raw time cell ends up with. */
  function RawHour(t: TimeCell): Option<Hour> {
    match t
    case TimeText(s) => if !IsNaTText(s) && ParseClock(s).Some? then Some(ParseClock(s).value.hour) else None
    case TimeStamp(c) => Some(c.hour)
    case TimeMissing => None
  }

  /** How one kept row `r` of the raw table is related to its cleaned version `c`. */
  predicate CleanedFrom(c: Record, r: Record, parse: string -> Option<Date>) {
    && c.latitude == r.latitude && c.longitude == r.longitude
    && c.borough == Some(r.borough.GetOr("Unknown"))
    && c.factor == Some(r.factor.GetOr("Unspecified"))
    && c.street == Some(r.street.GetOr("Unspecified"))
    && c.vehicle == r.vehicle
    && c.injured == Some(r.injured.GetOr(0))
    && c.year == RawYear(r.date, parse)
    && c.hour == RawHour(r.time)
  }

  /** The table, mutated in place by the cleaning statements. */
  class CollisionFrame {
    var rows: seq<Record>

    constructor (loaded: seq<Record>)
      ensures rows == loaded
    {
      rows := loaded;
    }

    /** `df.dropna(subset=['Latitude', 'Longitude'], inplace=True)` */
    method DropMissingCoordinates()
      modifies this
      ensures rows == Located(old(rows))
    {
      var kept: seq<Record> := [];
      var i := 0;
      while i < |rows|
        invariant 0 <= i <= |rows|
        invariant kept == Filter(rows[..i], HasCoordinates)
      {
        assert rows[..i + 1][..i] == rows[..i];
        if HasCoordinates(rows[i]) {
          kept := kept + [rows[i]];
        }
        i := i + 1;
      }
      assert rows[..|rows|] == rows;
      rows := kept;
    }

    /** `df[c] = df[c].fillna(v)` */
    method FillText(c: TextColumn, v: string)
      modifies this
      ensures rows == FilledText(old(rows), c, v)
    {
      var filled: seq<Record> := [];
      for i := 0 to |rows|
        invariant |filled| == i
        invariant forall j :: 0 <= j < i ==> filled[j] == FillCell(rows[j], c, v)
      {
        filled := filled + [FillCell(rows[i], c, v)];
      }
      rows := filled;
    }

    /** `df['Date'] = pd.to_datetime(df['Date'])`; `ok` is false where pandas raises. */
    method ParseDates(parse: string -> Option<Date>) returns (ok: bool)
      modifies this
      ensures ok == ParsedDates(old(rows), parse).Some?
      ensures ok ==> rows == ParsedDates(old(rows), parse).value
      ensures !ok ==> rows == old(rows)
    {
      var parsed: seq<Record> := [];
      for i := 0 to |rows|
        invariant |parsed| == i
        invariant forall j :: 0 <= j < i ==> !DateFails(rows[j], parse) && parsed[j] == ParseDateCell(rows[j], parse)
      {
        if DateFails(rows[i], parse) {
          return false;
        }
        parsed := parsed + [ParseDateCell(rows[i], parse)];
      }
      rows := parsed;
      return true;
    }

    /** `df['Time'] = pd.to_datetime(df['Time'], format='%H:%M:%S')`; `ok` is false where pandas raises. */
    method ParseTimes() returns (ok: bool)
      modifies this
      ensures ok == ParsedTimes(old(rows)).Some?
      ensures ok ==> rows == ParsedTimes(old(rows)).value
      ensures !ok ==> rows == old(rows)
    {
      var parsed: seq<Record> := [];
      for i := 0 to |rows|
        invariant |parsed| == i
        invariant forall j :: 0 <= j < i ==> !TimeFails(rows[j]) && parsed[j] == ParseTimeCell(rows[j])
      {
        if TimeFails(rows[i]) {
          return false;
        }
        parsed := parsed + [ParseTimeCell(rows[i])];
      }
      rows := parsed;
      return true;
    }

    /** `df['Persons Injured'] = df['Persons Injured'].fillna(0).astype(int)` */
    method FillInjured()
      modifies this
      ensures rows == FilledInjured(old(rows))
    {
      var filled: seq<Record> := [];
      for i := 0 to |rows|
        invariant |filled| == i
        invariant forall j :: 0 <= j < i ==> filled[j] == rows[j].(injured := Some(rows[j].injured.GetOr(0)))
      {
        filled := filled + [rows[i].(injured := Some(rows[i].injured.GetOr(0)))];
      }
      rows := filled;
    }

    /** `df['Year'] = df['Date'].dt.year` */
    method DeriveYear()
      modifies this
      ensures rows == WithYears(old(rows))
    {
      var derived: seq<Record> := [];
      for i := 0 to |rows|
        invariant |derived| == i
        invariant forall j :: 0 <= j < i ==> derived[j] == rows[j].(year := YearOf(rows[j].date))
      {
        derived := derived + [rows[i].(year := YearOf(rows[i].date))];
      }
      rows := derived;
    }

    /** `df['Hour'] = df['Time'].dt.hour` */
    method DeriveHour()
      modifies this
      ensures rows == WithHours(old(rows))
    {
      var derived: seq<Record> := [];
      for i := 0 to |rows|
        invariant |derived| == i
        invariant forall j :: 0 <= j < i ==> derived[j] == rows[j].(hour := HourOf(rows[j].time))
      {
        derived := derived + [rows[i].(hour := HourOf(rows[i].time))];
      }
      rows := derived;
    }

    /** Lines 19-27 in order; `ok` is false where pandas raises and the dashboard stops. */
    method Clean(parse: string -> Option<Date>) returns (ok: bool)
      modifies this
      ensures ok == CleanSpec(old(rows), parse).Some?
      ensures ok ==> rows == CleanSpec(old(rows), parse).value
    {
      DropMissingCoordinates();
      FillText(BoroughColumn, "Unknown");
      FillText(FactorColumn, "Unspecified");
      FillText(StreetColumn, "Unspecified");
      ok := ParseDates(parse);
      if !ok {
        return;
      }
      ok := ParseTimes();
      if !ok {
        return;
      }
      FillInjured();
      DeriveYear();
      DeriveHour();
    }
  }

  // ---------------------------------------------------------------------------
  // Properties of the time parser

  lemma {:induction false} SplitOnPrefix(a: string, tail: string, sep: char)
    requires sep !in a
    ensures SplitOn(a + tail, sep) == [a + SplitOn(tail, sep)[0]] + SplitOn(tail, sep)[1..]
  {
    if a == [] {
      var t := SplitOn(tail, sep);
      assert a + tail == tail;
      assert a + t[0] == t[0];
      assert [t[0]] + t[1..] == t;
    } else {
      var t := SplitOn(tail, sep);
      assert (a + tail)[0] == a[0] != sep;
      assert (a + tail)[1..] == a[1..] + tail;
      SplitOnPrefix(a[1..], tail, sep);
      var rest := SplitOn(a[1..] + tail, sep);
      assert rest == [a[1..] + t[0]] + t[1..];
      assert SplitOn(a + tail, sep) == [[a[0]] + rest[0]] + rest[1..];
      assert [a[0]] + (a[1..] + t[0]) == a + t[0];
    }
  }

  lemma SplitOnLeadingSep(rest: string, sep: char)
    ensures SplitOn([sep] + rest, sep) == [[]] + SplitOn(rest, sep)
  {
    assert ([sep] + rest)[1..] == rest;
  }

  lemma SplitOnNone(s: string, sep: char)
    requires sep !in s
    ensures SplitOn(s, sep) == [s]
  {
    SplitOnPrefix(s, [], sep);
    assert s + [] == s;
  }

  lemma SplitOnPiece(a: string, rest: string, sep: char)
    requires sep !in a
    ensures SplitOn(a + ([sep] + rest), sep) == [a] + SplitOn(rest, sep)
  {
    SplitOnLeadingSep(rest, sep);
    SplitOnPrefix(a, [sep] + rest, sep);
    assert a + [] == a;
  }

  lemma SplitOnThree(h: string, m: string, s: string, sep: char)
    requires sep !in h && sep !in m && sep !in s
    ensures SplitOn(h + ([sep] + (m + ([sep] + s))), sep) == [h, m, s]
  {
    SplitOnNone(s, sep);
    SplitOnPiece(m, s, sep);
    SplitOnPiece(h, m + ([sep] + s), sep);
  }

  lemma TwoDigitsValue(n: nat)
    requires n < 100
    ensures AllDigits(TwoDigits(n)) && DigitsValue(TwoDigits(n)) == n
  {
    var t := TwoDigits(n);
    var hi, lo := t[0], t[1];
    assert hi as int - '0' as int == n / 10;
    assert lo as int - '0' as int == n % 10;
    assert t[..1] == [hi];
    assert [hi][..0] == [];
    assert DigitsValue([hi]) == n / 10;
    assert t[..|t| - 1] == [hi];
    assert DigitsValue(t) == 10 * (n / 10) + n % 10;
  }

  /** Parsing a time written as `HH:MM:SS` gives that time back. */
  lemma ClockRoundTrip(c: Clock)
    ensures ParseClock(FormatClock(c)) == Some(c)
  {
    var h, m, s := TwoDigits(c.hour), TwoDigits(c.minute), TwoDigits(c.second);
    TwoDigitsValue(c.hour);
    TwoDigitsValue(c.minute);
    TwoDigitsValue(c.second);
    SplitOnThree(h, m, s, ':');
    assert FormatClock(c) == h + ([':'] + (m + ([':'] + s)));
  }

  /** Example: "14:32:00" is 14 hours, 32 minutes. */
  lemma ParseClockExample()
    ensures ParseClock("14:32:00") == Some(Clock(14, 32, 0))
  {
    ClockRoundTrip(Clock(14, 32, 0));
    assert FormatClock(Clock(14, 32, 0)) == "14:32:00";
  }

  /** An hour of 24 is not a time of day: `%H` does not match "24". */
  lemma ParseClockRejectsHour24()
    ensures ParseClock("24:00:00") == None
  {
    SplitOnThree("24", "00", "00", ':');
    assert "24:00:00" == "24" + ([':'] + ("00" + ([':'] + "00")));
    assert DigitsValue("24") == 24 by {
      assert "24"[..1] == "2";
      assert "2"[..0] == [];
    }
  }

  // ---------------------------------------------------------------------------
  // Properties of the cleaning

  /**
   * A located row whose date and time are NaT spellings loads: it keeps its
   * place with a missing year and hour, and never makes the load fail.
   */
  lemma NaTTextsLoad(r: Record, parse: string -> Option<Date>)
    requires HasCoordinates(r)
    requires r.date.DateText? && IsNaTText(r.date.text)
    requires r.time.TimeText? && IsNaTText(r.time.text)
    ensures CleanSpec([r], parse).Some?
    ensures |CleanSpec([r], parse).value| == 1
    ensures CleanSpec([r], parse).value[0].year == None && CleanSpec([r], parse).value[0].hour == None
  {
    assert Located([r]) == [r] by {
      assert [r] == [] + [r];
      assert Filter([r], HasCoordinates) == Filter([], HasCoordinates) + [r];
    }
    CleanSpecFails([r], parse);
    CleanSpecRows([r], parse);
  }

  lemma FillCellSpec(r: Record, c: TextColumn, v: string)
    ensures Text(FillCell(r, c, v), c) == Some(Text(r, c).GetOr(v))
    ensures forall c' :: c' != c ==> Text(FillCell(r, c, v), c') == Text(r, c')
  {
  }

  /**
   * The cleaned table has one row per located raw row, in the same order, and
   * each is clean: coordinates present, sentinels in place of missing borough,
   * factor and street (present values untouched), injuries defaulted to 0, and
   * `Year`/`Hour` taken from the parsed date and time.
   */
  lemma CleanSpecRows(rs: seq<Record>, parse: string -> Option<Date>)
    requires CleanSpec(rs, parse).Some?
    ensures var out := CleanSpec(rs, parse).value;
      var kept := Located(rs);
      && |out| == |kept|
      && forall i :: 0 <= i < |out| ==> IsClean(out[i]) && CleanedFrom(out[i], kept[i], parse)
  {
    var kept := Located(rs);
    var filled := FilledText(FilledText(FilledText(kept,
      BoroughColumn, "Unknown"), FactorColumn, "Unspecified"), StreetColumn, "Unspecified");
    var dated := ParsedDates(filled, parse).value;
    var timed := ParsedTimes(dated).value;
    var out := CleanSpec(rs, parse).value;
    assert out == WithHours(WithYears(FilledInjured(timed)));
    forall i | 0 <= i < |out| ensures IsClean(out[i]) && CleanedFrom(out[i], kept[i], parse) {
      assert HasCoordinates(kept[i]) by {
        assert kept[i] in kept;
      }
      assert !DateFails(filled[i], parse);
      assert !TimeFails(dated[i]);
      assert filled[i].date == kept[i].date && filled[i].time == kept[i].time;
      assert dated[i] == ParseDateCell(filled[i], parse);
      assert timed[i] == ParseTimeCell(dated[i]);
    }
  }

  /**
   * Loading fails exactly when some row that survives the coordinate filter
   * has a date or a time text that does not parse; rows dropped for missing
   * coordinates are never parsed.
   */
  lemma CleanSpecFails(rs: seq<Record>, parse: string -> Option<Date>)
    ensures CleanSpec(rs, parse).None? <==>
      exists r :: r in Located(rs) && (DateFails(r, parse) || TimeFails(r))
  {
    var kept := Located(rs);
    var filled := FilledText(FilledText(FilledText(kept,
      BoroughColumn, "Unknown"), FactorColumn, "Unspecified"), StreetColumn, "Unspecified");
    assert |filled| == |kept|;
    assert forall i :: 0 <= i < |kept| ==> filled[i].date == kept[i].date && filled[i].time == kept[i].time;
    if ParsedDates(filled, parse).Some? {
      var dated := ParsedDates(filled, parse).value;
      TimesFail(kept, dated, parse);
    } else {
      var i :| 0 <= i < |filled| && DateFails(filled[i], parse);
      assert kept[i] in kept && DateFails(kept[i], parse);
    }
  }

  /** Once every date has parsed, loading fails exactly on a time text that does not parse. */
  lemma TimesFail(kept: seq<Record>, dated: seq<Record>, parse: string -> Option<Date>)
    requires |dated| == |kept|
    requires forall i :: 0 <= i < |kept| ==> !DateFails(kept[i], parse) && dated[i].time == kept[i].time
    ensures ParsedTimes(dated).None? <==> exists r :: r in kept && (DateFails(r, parse) || TimeFails(r))
  {
    if ParsedTimes(dated).None? {
      var i :| 0 <= i < |dated| && TimeFails(dated[i]);
      assert kept[i] in kept && TimeFails(kept[i]);
    }
    if exists r :: r in kept && (DateFails(r, parse) || TimeFails(r)) {
      var r :| r in kept && (DateFails(r, parse) || TimeFails(r));
      var i :| 0 <= i < |kept| && kept[i] == r;
      assert TimeFails(dated[i]);
    }
  }

  /** The coordinate filter keeps the located rows, as often as they occur, in their original order. */
  lemma LocatedRows(rs: seq<Record>)
    ensures IsSubsequence(Located(rs), rs)
    ensures forall r :: r in Located(rs) ==> HasCoordinates(r)
    ensures forall r :: multiset(Located(rs))[r] == if HasCoordinates(r) then multiset(rs)[r] else 0
  {
    FilterIsSubsequence(rs, HasCoordinates);
    forall r ensures multiset(Located(rs))[r] == if HasCoordinates(r) then multiset(rs)[r] else 0 {
      FilterMultiplicity(rs, HasCoordinates, r);
    }
  }
}
