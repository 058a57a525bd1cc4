/** The records of models.py (User, Project, TimeEntry) and the two display
    helpers of TimeEntry: the French month label and the fallback chain that
    picks which stored date to show. */
module Models {
  import opened Common

  // ---------------------------------------------------------------------
  // Records
  // ---------------------------------------------------------------------

  /** A Python `datetime.date`. */
  datatype Date = Date(year: int, month: int, day: int)

  predicate IsLeapYear(year: int) {
    year % 4 == 0 && (year % 100 != 0 || year % 400 == 0)
  }

  function DaysInMonth(year: int, month: int): int
    requires 1 <= month <= 12
  {
    if month == 2 then (if IsLeapYear(year) then 29 else 28)
    else if month == 4 || month == 6 || month == 9 || month == 11 then 30
    else 31
  }

  /** What every `datetime.date` object satisfies. */
  predicate ValidDate(d: Date) {
    1 <= d.year <= 9999 && 1 <= d.month <= 12 && 1 <= d.day <= DaysInMonth(d.year, d.month)
  }

  /** The value `generate_password_hash` stores. Hashing is kept abstract:
      the record remembers which password it stands for. */
  datatype PasswordHash = HashOf(password: string)

  datatype User = User(username: string, passwordHash: PasswordHash, isAdmin: bool)

  /** The column default of `Project.color`. */
  const DEFAULT_PROJECT_COLOR: string := "#2563EB"

  datatype Project = Project(name: string, description: string, color: string, createdById: int)

  /** A row of `time_entries`. `month` and `year` are the current columns;
      the three dates are the older, nullable ones kept for compatibility. */
  datatype TimeEntry = TimeEntry(
    userId: int,
    projectId: int,
    hours: real,
    month: int,
    year: int,
    startDate: Option<Date>,
    endDate: Option<Date>,
    date: Option<Date>,
    notes: string)

  predicate ValidOptionalDate(d: Option<Date>) {
    d.Some? ==> ValidDate(d.value)
  }

  predicate DatesValid(e: TimeEntry) {
    ValidOptionalDate(e.startDate) && ValidOptionalDate(e.endDate) && ValidOptionalDate(e.date)
  }

  // ---------------------------------------------------------------------
  // Numbers as text: Python's str(int) and strftime fields
  // ---------------------------------------------------------------------

  predicate IsDigit(c: char) {
    '0' <= c <= '9'
  }

  predicate AllDigits(s: string) {
    forall i :: 0 <= i < |s| ==> IsDigit(s[i])
  }

  function DigitValue(c: char): int
    requires IsDigit(c)
  {
    c as int - '0' as int
  }

  function DigitChar(d: int): (c: char)
    requires 0 <= d <= 9
    ensures IsDigit(c) && DigitValue(c) == d
  {
    ('0' as int + d) as char
  }

  /** Python's `str(n)` for a non-negative `n`: decimal digits, no padding. */
  function NatToString(n: nat): (s: string)
    ensures |s| >= 1 && AllDigits(s)
    ensures n < 10 <==> |s| == 1
    ensures n >= 10 ==> s[0] != '0'
    decreases n
  {
    if n < 10 then [DigitChar(n)] else NatToString(n / 10) + [DigitChar(n % 10)]
  }

  /** The value of a string of decimal digits. */
  function ParseDigits(s: string): nat
    requires AllDigits(s)
  {
    if s == [] then 0 else 10 * ParseDigits(s[..|s| - 1]) + DigitValue(s[|s| - 1])
  }

  /** Reading back the digits of `n` gives `n`. */
  lemma {:induction false} ParseNatToString(n: nat)
    ensures ParseDigits(NatToString(n)) == n
    decreases n
  {
    if n >= 10 {
      var s := NatToString(n);
      assert s[..|s| - 1] == NatToString(n / 10);
      ParseNatToString(n / 10);
    }
  }

  /** Python's `str(n)` (an f-string field) for any integer. */
  function IntToString(n: int): (s: string)
  {
    if n < 0 then "-" + NatToString(-n) else NatToString(n)
  }

  /** The inverse of IntToString: an optional minus sign and at least one
      digit. */
  function ParseInt(s: string): Option<int>
  {
    if |s| >= 2 && s[0] == '-' && AllDigits(s[1..]) then Some(0 - ParseDigits(s[1..]))
    else if |s| >= 1 && AllDigits(s) then Some(ParseDigits(s))
    else None
  }

  lemma IntToStringRoundTrip(n: int)
    ensures ParseInt(IntToString(n)) == Some(n)
    ensures |IntToString(n)| >= 1 && ' ' !in IntToString(n)
  {
    var s := IntToString(n);
    if n < 0 {
      assert s[1..] == NatToString(-n);
      ParseNatToString(-n);
      assert forall i :: 1 <= i < |s| ==> s[i] == s[1..][i - 1];
    } else {
      ParseNatToString(n);
      assert IsDigit(s[0]) && s[0] != '-';
    }
  }

  /** `%d` and `%m` of strftime: two digits, zero-padded. */
  function Pad2(n: int): (s: string)
    requires 0 <= n <= 99
    ensures |s| == 2 && AllDigits(s) && ParseDigits(s) == n
  {
    var s := [DigitChar(n / 10), DigitChar(n % 10)];
    assert s[..1] == [s[0]] && s[..1][..0] == [];
    assert ParseDigits(s[..1]) == n / 10;
    assert ParseDigits(s) == 10 * (n / 10) + n % 10;
    s
  }

  /** `date.strftime('%d/%m/%Y')`. The model writes `%Y` as the year in
      decimal without padding; only years below 1000 are affected by that
      choice. */
  function FormatDate(d: Date): (s: string)
    requires ValidDate(d)
    ensures |s| >= 7 && ' ' !in s
  {
    Pad2(d.day) + "/" + Pad2(d.month) + "/" + NatToString(d.year)
  }

  /** Reads a `dd/mm/Y` string back into a date. */
  function ParseDate(s: string): Option<Date>
  {
    if |s| >= 7 && s[2] == '/' && s[5] == '/'
       && AllDigits(s[..2]) && AllDigits(s[3..5]) && AllDigits(s[6..])
    then Some(Date(ParseDigits(s[6..]), ParseDigits(s[3..5]), ParseDigits(s[..2])))
    else None
  }

  lemma FormatDateRoundTrip(d: Date)
    requires ValidDate(d)
    ensures ParseDate(FormatDate(d)) == Some(d)
  {
    var s := FormatDate(d);
    assert s[..2] == Pad2(d.day);
    assert s[3..5] == Pad2(d.month);
    assert s[6..] == NatToString(d.year);
    ParseNatToString(d.year);
  }

  // ---------------------------------------------------------------------
  // get_display_month
  // ---------------------------------------------------------------------

  /** The `months` dictionary of get_display_month. */
  function MonthName(month: int): Option<string>
  {
    if month == 1 then Some("Janvier")
    else if month == 2 then Some("Février")
    else if month == 3 then Some("Mars")
    else if month == 4 then Some("Avril")
    else if month == 5 then Some("Mai")
    else if month == 6 then Some("Juin")
    else if month == 7 then Some("Juillet")
    else if month == 8 then Some("Août")
    else if month == 9 then Some("Septembre")
    else if month == 10 then Some("Octobre")
    else if month == 11 then Some("Novembre")
    else if month == 12 then Some("Décembre")
    else None
  }

  /** The default of `months.get(self.month, 'Inconnu')`. */
  const UNKNOWN_MONTH: string := "Inconnu"

  /** The dictionary holds exactly the months 1..12, under twelve different
      names, none of which contains a space or is the fallback label. */
  lemma MonthNamesDistinct(m1: int, m2: int)
    ensures MonthName(m1).Some? <==> 1 <= m1 <= 12
    ensures MonthName(m1).Some? ==> MonthName(m1).value != UNKNOWN_MONTH && ' ' !in MonthName(m1).value
    ensures MonthName(m1).Some? && MonthName(m2).Some? && m1 != m2 ==> MonthName(m1).value != MonthName(m2).value
  {
  }

  /** The reverse lookup: which month a label names. */
  function MonthNumber(name: string): (r: Option<int>)
    ensures r.Some? ==> MonthName(r.value) == Some(name)
    ensures r.None? ==> forall m :: MonthName(m) != Some(name)
  {
    if name == "Janvier" then Some(1)
    else if name == "Février" then Some(2)
    else if name == "Mars" then Some(3)
    else if name == "Avril" then Some(4)
    else if name == "Mai" then Some(5)
    else if name == "Juin" then Some(6)
    else if name == "Juillet" then Some(7)
    else if name == "Août" then Some(8)
    else if name == "Septembre" then Some(9)
    else if name == "Octobre" then Some(10)
    else if name == "Novembre" then Some(11)
    else if name == "Décembre" then Some(12)
    else None
  }

  /** `months.get(month, 'Inconnu')`. */
  function MonthLabel(month: int): string
  {
    match MonthName(month) case Some(name) => name case None => UNKNOWN_MONTH
  }

  /** The label has no space; for 1..12 the reverse lookup recovers the
      month, and every other month gets the fallback label. */
  lemma MonthLabelFacts(month: int)
    ensures ' ' !in MonthLabel(month)
    ensures 1 <= month <= 12 ==> MonthLabel(month) != UNKNOWN_MONTH && MonthNumber(MonthLabel(month)) == Some(month)
    ensures !(1 <= month <= 12) ==> MonthLabel(month) == UNKNOWN_MONTH
  {
  }

  /** `TimeEntry.get_display_month`: for a month in 1..12 its French name,
      otherwise "Inconnu"; then a space and the year. */
  function DisplayMonth(month: int, year: int): (r: string)
    ensures 1 <= month <= 12 ==> r == MonthName(month).value + " " + IntToString(year)
    ensures !(1 <= month <= 12) ==> r == UNKNOWN_MONTH + " " + IntToString(year)
  {
    MonthLabel(month) + " " + IntToString(year)
  }

  // ---------------------------------------------------------------------
  // get_display_date
  // ---------------------------------------------------------------------

  /** `TimeEntry.get_display_date`: month/year when both are non-zero (Python
      truthiness), otherwise the start date (with the end date when it is set
      and different), otherwise the legacy `date`, otherwise "". */
  function DisplayDate(e: TimeEntry): (r: string)
    requires DatesValid(e)
    ensures e.month != 0 && e.year != 0 ==> r == DisplayMonth(e.month, e.year)
    ensures r == "" <==> (e.month == 0 || e.year == 0) && e.startDate.None? && e.date.None?
  {
    if e.month != 0 && e.year != 0 then DisplayMonth(e.month, e.year)
    else if e.startDate.Some? then
      if e.endDate.Some? && e.endDate != e.startDate
      then FormatDate(e.startDate.value) + " - " + FormatDate(e.endDate.value)
      else FormatDate(e.startDate.value)
    else if e.date.Some? then FormatDate(e.date.value)
    else ""
  }

  /** What a display string stands for. */
  datatype Period =
    | MonthOf(month: Option<int>, year: int)   // None: a month outside 1..12
    | Range(from: Date, to: Date)
    | Day(day: Date)
    | NoDate

  /** Which of an entry's stored fields get_display_date shows. */
  function ShownPeriod(e: TimeEntry): Period
  {
    if e.month != 0 && e.year != 0 then
      MonthOf(if 1 <= e.month <= 12 then Some(e.month) else None, e.year)
    else if e.startDate.Some? then
      if e.endDate.Some? && e.endDate != e.startDate then Range(e.startDate.value, e.endDate.value)
      else Day(e.startDate.value)
    else if e.date.Some? then Day(e.date.value)
    else NoDate
  }

  /** The index of the first `c` in `s`. */
  function IndexOf(s: string, c: char): (r: Option<nat>)
    ensures r.Some? ==> r.value < |s| && s[r.value] == c && c !in s[..r.value]
    ensures r.None? ==> c !in s
  {
    if s == [] then None
    else if s[0] == c then Some(0)
    else match IndexOf(s[1..], c)
      case Some(i) => (assert s[..i + 1] == [s[0]] + s[1..][..i]; Some(i + 1))
      case None => None
  }

  /** A reader for display strings: it splits at the first space and
      recognises a month label, a date range or a single date. */
  function ReadDisplay(r: string): Option<Period>
  {
    if r == "" then Some(NoDate)
    else match IndexOf(r, ' ')
      case None =>
        (match ParseDate(r) case Some(d) => Some(Day(d)) case None => None)
      case Some(i) =>
        if i + 3 <= |r| && r[i..i + 3] == " - " then
          match (ParseDate(r[..i]), ParseDate(r[i + 3..]))
          case (Some(a), Some(b)) => Some(Range(a, b))
          case _ => None
        else
          match ParseInt(r[i + 1..])
          case None => None
          case Some(y) =>
            if r[..i] == UNKNOWN_MONTH then Some(MonthOf(None, y))
            else match MonthNumber(r[..i])
              case Some(m) => Some(MonthOf(Some(m), y))
              case None => None
  }

  lemma {:induction false} IndexOfSplit(a: string, b: string, c: char)
    requires c !in a
    ensures IndexOf(a + [c] + b, c) == Some(|a|)
  {
    var s := a + [c] + b;
    var r := IndexOf(s, c);
    assert s[|a|] == c;
  }

  /** Reading "<label> <year>" splits at the space after the label. */
  lemma ReadMonthForm(name: string, year: int)
    requires ' ' !in name
    ensures ReadDisplay(name + " " + IntToString(year))
         == if name == UNKNOWN_MONTH then Some(MonthOf(None, year))
            else match MonthNumber(name)
              case Some(m) => Some(MonthOf(Some(m), year))
              case None => None
  {
    var digits := IntToString(year);
    IntToStringRoundTrip(year);
    var r := name + " " + digits;
    assert r == name + [' '] + digits;
    IndexOfSplit(name, digits, ' ');
    var i := |name|;
    assert r[..i] == name;
    assert r[i + 1..] == digits;
    assert i + 3 <= |r| ==> r[i..i + 3][2] == digits[1] && digits[1] != ' ';
    assert !(i + 3 <= |r| && r[i..i + 3] == " - ");
  }

  /** The month label can be read back: the year always, the month when it
      is one of 1..12. */
  lemma DisplayMonthRoundTrip(month: int, year: int)
    ensures ReadDisplay(DisplayMonth(month, year)) == Some(MonthOf(if 1 <= month <= 12 then Some(month) else None, year))
  {
    MonthLabelFacts(month);
    ReadMonthForm(MonthLabel(month), year);
  }

  /** Two month labels are equal only for the same year and the same month
      (all months outside 1..12 share the label "Inconnu"). */
  lemma DisplayMonthInjective(m1: int, y1: int, m2: int, y2: int)
    requires DisplayMonth(m1, y1) == DisplayMonth(m2, y2)
    ensures y1 == y2
    ensures (1 <= m1 <= 12 || 1 <= m2 <= 12) ==> m1 == m2
  {
    DisplayMonthRoundTrip(m1, y1);
    DisplayMonthRoundTrip(m2, y2);
  }

  lemma ReadRange(a: Date, b: Date)
    requires ValidDate(a) && ValidDate(b)
    ensures ReadDisplay(FormatDate(a) + " - " + FormatDate(b)) == Some(Range(a, b))
  {
    var fa, fb := FormatDate(a), FormatDate(b);
    FormatDateRoundTrip(a);
    FormatDateRoundTrip(b);
    var r := fa + " - " + fb;
    assert r == fa + [' '] + ("- " + fb);
    IndexOfSplit(fa, "- " + fb, ' ');
    assert r[..|fa|] == fa;
    assert r[|fa|..|fa| + 3] == " - ";
    assert r[|fa| + 3..] == fb;
  }

  lemma ReadDay(d: Date)
    requires ValidDate(d)
    ensures ReadDisplay(FormatDate(d)) == Some(Day(d))
  {
    FormatDateRoundTrip(d);
  }

  /** The display string of an entry determines which stored fields were
      shown, and their values. */
  lemma DisplayDateRoundTrip(e: TimeEntry)
    requires DatesValid(e)
    ensures ReadDisplay(DisplayDate(e)) == Some(ShownPeriod(e))
  {
    var r := DisplayDate(e);
    if e.month != 0 && e.year != 0 {
      DisplayMonthRoundTrip(e.month, e.year);
    } else if e.startDate.Some? {
      if e.endDate.Some? && e.endDate != e.startDate {
        ReadRange(e.startDate.value, e.endDate.value);
      } else {
        ReadDay(e.startDate.value);
      }
    } else if e.date.Some? {
      ReadDay(e.date.value);
    }
  }
}
