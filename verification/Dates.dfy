/**
  Dates of service (`parse_date` in utils/map_to_fm.py): a date string is
  tried against four layouts in a fixed order and the first that yields a
  real calendar date wins; an empty string, or one that fits no layout,
  gives no date. Dates are compared as day numbers of the proleptic
  Gregorian calendar, so the difference of two day numbers is the number
  of days between the dates.
 */
module Dates {
  import opened Base
  import opened Text

  datatype Date = Date(year: int, month: int, day: int)

  predicate IsLeap(y: int)
  {
    y % 4 == 0 && (y % 100 != 0 || y % 400 == 0)
  }

  function DaysInMonth(y: int, m: int): (n: int)
    requires 1 <= m <= 12
    ensures 28 <= n <= 31
  {
    if m == 2 then (if IsLeap(y) then 29 else 28)
    else if m == 4 || m == 6 || m == 9 || m == 11 then 30
    else 31
  }

  /** A date Python's `datetime` accepts: years 1 to 9999. */
  predicate ValidDate(d: Date)
  {
    && 1 <= d.year <= 9999
    && 1 <= d.month <= 12
    && 1 <= d.day <= DaysInMonth(d.year, d.month)
  }

  function DaysBeforeYear(y: int): int
    requires y >= 1
  {
    var p := y - 1;
    p * 365 + p / 4 - p / 100 + p / 400
  }

  function DaysBeforeMonth(y: int, m: int): int
    requires 1 <= m <= 12
  {
    if m == 1 then 0 else DaysBeforeMonth(y, m - 1) + DaysInMonth(y, m - 1)
  }

  function DaysInYear(y: int): int
  {
    if IsLeap(y) then 366 else 365
  }

  /** The day number of a date; 1 January of year 1 is day 1 (Python's
      `date.toordinal()`). */
  function DayNumber(d: Date): int
    requires ValidDate(d)
  {
    DaysBeforeYear(d.year) + DaysBeforeMonth(d.year, d.month) + d.day
  }

  /** The calendar day after `d`. */
  function NextDay(d: Date): Date
    requires ValidDate(d)
  {
    if d.day < DaysInMonth(d.year, d.month) then Date(d.year, d.month, d.day + 1)
    else if d.month < 12 then Date(d.year, d.month + 1, 1)
    else Date(d.year + 1, 1, 1)
  }

  lemma YearLength(y: int)
    requires y >= 1
    ensures DaysBeforeYear(y + 1) == DaysBeforeYear(y) + DaysInYear(y)
  {
    var p := y - 1;
    assert (p + 1) / 4 == p / 4 + (if y % 4 == 0 then 1 else 0);
    assert (p + 1) / 100 == p / 100 + (if y % 100 == 0 then 1 else 0);
    assert (p + 1) / 400 == p / 400 + (if y % 400 == 0 then 1 else 0);
  }

  lemma MonthsOfYear(y: int)
    ensures DaysBeforeMonth(y, 12) + DaysInMonth(y, 12) == DaysInYear(y)
  {
    assert DaysBeforeMonth(y, 2) == 31;
    assert DaysBeforeMonth(y, 3) == 31 + DaysInMonth(y, 2);
    assert DaysBeforeMonth(y, 4) == 31 + DaysInMonth(y, 2) + 31;
    assert DaysBeforeMonth(y, 5) == 31 + DaysInMonth(y, 2) + 31 + 30;
    assert DaysBeforeMonth(y, 6) == 31 + DaysInMonth(y, 2) + 31 + 30 + 31;
    assert DaysBeforeMonth(y, 7) == 31 + DaysInMonth(y, 2) + 31 + 30 + 31 + 30;
    assert DaysBeforeMonth(y, 8) == 31 + DaysInMonth(y, 2) + 31 + 30 + 31 + 30 + 31;
    assert DaysBeforeMonth(y, 9) == 31 + DaysInMonth(y, 2) + 31 + 30 + 31 + 30 + 31 + 31;
    assert DaysBeforeMonth(y, 10) == 31 + DaysInMonth(y, 2) + 31 + 30 + 31 + 30 + 31 + 31 + 30;
    assert DaysBeforeMonth(y, 11) == 31 + DaysInMonth(y, 2) + 31 + 30 + 31 + 30 + 31 + 31 + 30 + 31;
    assert DaysBeforeMonth(y, 12) == 31 + DaysInMonth(y, 2) + 31 + 30 + 31 + 30 + 31 + 31 + 30 + 31 + 30;
  }

  /** Consecutive calendar days have consecutive day numbers, so the
      difference of two day numbers counts the days between them. */
  lemma NextDayNumber(d: Date)
    requires ValidDate(d) && ValidDate(NextDay(d))
    ensures DayNumber(NextDay(d)) == DayNumber(d) + 1
  {
    if d.day == DaysInMonth(d.year, d.month) && d.month == 12 {
      YearLength(d.year);
      MonthsOfYear(d.year);
    }
  }

  /** Every date but the last has a next day. */
  lemma NextDayValid(d: Date)
    requires ValidDate(d) && d != Date(9999, 12, 31)
    ensures ValidDate(NextDay(d))
  {
  }

  // ---------------------------------------------------------------------
  // Parsing
  // ---------------------------------------------------------------------

  /** The four layouts, in the order they are tried:
      `%Y-%m-%d`, `%m/%d/%Y`, `%Y%m%d`, `%m-%d-%Y`. */
  datatype Layout = IsoDashed | UsSlashed | IsoCompact | UsDashed

  const Layouts: seq<Layout> := [IsoDashed, UsSlashed, IsoCompact, UsDashed]

  /** The number written with exactly `n` digits at `s[i..i+n]`, if they are digits. */
  function DigitsAt(s: string, i: nat, n: nat): (r: Option<nat>)
    requires i + n <= |s|
    ensures r.Some? <==> AllDigits(s[i..i + n])
  {
    if AllDigits(s[i..i + n]) then Some(ParseDigits(s[i..i + n])) else None
  }

  /** A calendar date from its fields, if `datetime` would accept it. */
  function MakeDate(y: Option<nat>, m: Option<nat>, d: Option<nat>): (r: Option<Date>)
    ensures r.Some? ==> ValidDate(r.value)
  {
    if y.Some? && m.Some? && d.Some? && ValidDate(Date(y.value, m.value, d.value))
    then Some(Date(y.value, m.value, d.value))
    else None
  }

  /** `datetime.strptime(s, layout)`, with fixed-width fields:
      four-digit years, two-digit months and days. */
  function TryLayout(f: Layout, s: string): (r: Option<Date>)
    ensures r.Some? ==> ValidDate(r.value)
  {
    match f
    case IsoDashed =>
      if |s| == 10 && s[4] == '-' && s[7] == '-'
      then MakeDate(DigitsAt(s, 0, 4), DigitsAt(s, 5, 2), DigitsAt(s, 8, 2)) else None
    case UsSlashed =>
      if |s| == 10 && s[2] == '/' && s[5] == '/'
      then MakeDate(DigitsAt(s, 6, 4), DigitsAt(s, 0, 2), DigitsAt(s, 3, 2)) else None
    case IsoCompact =>
      if |s| == 8
      then MakeDate(DigitsAt(s, 0, 4), DigitsAt(s, 4, 2), DigitsAt(s, 6, 2)) else None
    case UsDashed =>
      if |s| == 10 && s[2] == '-' && s[5] == '-'
      then MakeDate(DigitsAt(s, 6, 4), DigitsAt(s, 0, 2), DigitsAt(s, 3, 2)) else None
  }

  /** The result of the first layout in `fs` that accepts `s`. */
  function FirstParse(fs: seq<Layout>, s: string): (r: Option<Date>)
    ensures r.None? ==> forall i :: 0 <= i < |fs| ==> TryLayout(fs[i], s).None?
    ensures r.Some? ==> exists i :: 0 <= i < |fs| && TryLayout(fs[i], s) == r &&
                                    forall j :: 0 <= j < i ==> TryLayout(fs[j], s).None?
  {
    if fs == [] then None
    else match TryLayout(fs[0], s)
      case Some(d) => Some(d)
      case None =>
        var r := FirstParse(fs[1..], s);
        assert r.Some? ==> exists i :: 1 <= i < |fs| && TryLayout(fs[i], s) == r &&
                                       forall j :: 0 <= j < i ==> TryLayout(fs[j], s).None? by {
          if r.Some? {
            var i :| 0 <= i < |fs[1..]| && TryLayout(fs[1..][i], s) == r &&
                     forall j :: 0 <= j < i ==> TryLayout(fs[1..][j], s).None?;
            assert forall j :: 0 <= j < i + 1 ==> TryLayout(fs[j], s).None? by {
              forall j | 0 <= j < i + 1 ensures TryLayout(fs[j], s).None? {
                if j > 0 { assert fs[j] == fs[1..][j - 1]; }
              }
            }
            assert TryLayout(fs[i + 1], s) == r;
          }
        }
        r
  }

  /** `parse_date(s)`: no date for the empty string; otherwise the date
      given by the first layout, in the fixed order, that accepts `s`,
      and no date when none does. */
  function ParseDate(s: string): (r: Option<Date>)
    ensures s == "" ==> r == None
    ensures r.Some? ==> ValidDate(r.value)
    ensures s != "" && (forall i :: 0 <= i < |Layouts| ==> TryLayout(Layouts[i], s).None?) ==> r == None
    ensures r.None? ==> s == "" || forall i :: 0 <= i < |Layouts| ==> TryLayout(Layouts[i], s).None?
    ensures r.Some? ==> exists i :: 0 <= i < |Layouts| && TryLayout(Layouts[i], s) == r &&
                                    forall j :: 0 <= j < i ==> TryLayout(Layouts[j], s).None?
  {
    if s == "" then None else FirstParse(Layouts, s)
  }

  /** No string fits two layouts, so the order in which they are tried
      never decides the outcome. */
  lemma LayoutsExclusive(f: Layout, g: Layout, s: string)
    requires TryLayout(f, s).Some? && TryLayout(g, s).Some?
    ensures f == g
  {
    if |s| == 10 {
      if f == IsoDashed || g == IsoDashed {
        assert AllDigits(s[0..4]);
        assert s[0..4][2] == s[2];
      }
    }
  }

  // ---------------------------------------------------------------------
  // Rendering, the inverse of parsing
  // ---------------------------------------------------------------------

  /** `d` written in layout `f`. */
  function Render(f: Layout, d: Date): (s: string)
    requires ValidDate(d)
  {
    var y, m, dd := ZeroPad(d.year, 4), ZeroPad(d.month, 2), ZeroPad(d.day, 2);
    match f
    case IsoDashed => y + "-" + m + "-" + dd
    case UsSlashed => m + "/" + dd + "/" + y
    case IsoCompact => y + m + dd
    case UsDashed => m + "-" + dd + "-" + y
  }

  lemma PadWidths(d: Date)
    requires ValidDate(d)
    ensures |ZeroPad(d.year, 4)| == 4 && |ZeroPad(d.month, 2)| == 2 && |ZeroPad(d.day, 2)| == 2
  {
    NatToStringLength(d.year, 4);
    NatToStringLength(d.month, 2);
    NatToStringLength(d.day, 2);
  }

  lemma RenderIsoDashed(d: Date)
    requires ValidDate(d)
    ensures TryLayout(IsoDashed, Render(IsoDashed, d)) == Some(d)
  {
    PadWidths(d);
    var s := Render(IsoDashed, d);
    assert s[0..4] == ZeroPad(d.year, 4) && s[5..7] == ZeroPad(d.month, 2) && s[8..10] == ZeroPad(d.day, 2);
  }

  lemma RenderUsSlashed(d: Date)
    requires ValidDate(d)
    ensures TryLayout(UsSlashed, Render(UsSlashed, d)) == Some(d)
  {
    PadWidths(d);
    var s := Render(UsSlashed, d);
    assert s[0..2] == ZeroPad(d.month, 2) && s[3..5] == ZeroPad(d.day, 2) && s[6..10] == ZeroPad(d.year, 4);
  }

  lemma RenderIsoCompact(d: Date)
    requires ValidDate(d)
    ensures TryLayout(IsoCompact, Render(IsoCompact, d)) == Some(d)
  {
    PadWidths(d);
    var s := Render(IsoCompact, d);
    assert s[0..4] == ZeroPad(d.year, 4) && s[4..6] == ZeroPad(d.month, 2) && s[6..8] == ZeroPad(d.day, 2);
  }

  lemma RenderUsDashed(d: Date)
    requires ValidDate(d)
    ensures TryLayout(UsDashed, Render(UsDashed, d)) == Some(d)
  {
    PadWidths(d);
    var s := Render(UsDashed, d);
    assert s[0..2] == ZeroPad(d.month, 2) && s[3..5] == ZeroPad(d.day, 2) && s[6..10] == ZeroPad(d.year, 4);
  }

  /** Each layout reads back what it writes. */
  lemma RenderTryLayout(f: Layout, d: Date)
    requires ValidDate(d)
    ensures TryLayout(f, Render(f, d)) == Some(d)
  {
    match f
    case IsoDashed => RenderIsoDashed(d);
    case UsSlashed => RenderUsSlashed(d);
    case IsoCompact => RenderIsoCompact(d);
    case UsDashed => RenderUsDashed(d);
  }

  /** Every layout is reachable: a date written in any of the four layouts
      parses back to itself, whatever the order of the layouts. */
  lemma ParseRender(f: Layout, d: Date)
    requires ValidDate(d)
    ensures ParseDate(Render(f, d)) == Some(d)
  {
    var s := Render(f, d);
    RenderTryLayout(f, d);
    PadWidths(d);
    assert s != "";
    var k := match f case IsoDashed => 0 case UsSlashed => 1 case IsoCompact => 2 case UsDashed => 3;
    assert TryLayout(Layouts[k], s).Some?;
    var r := ParseDate(s);
    var i :| 0 <= i < |Layouts| && TryLayout(Layouts[i], s) == r;
    LayoutsExclusive(Layouts[i], f, s);
  }
}
