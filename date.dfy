/** The text shown for a class's date: "Hoje, HH:mm", "Amanhã, HH:mm" or
    "DD/MM/YY às HH:mm". The current instant is an input. */
module DateText {
  import opened Types
  import opened Text

  predicate IsLeapYear(y: nat) {
    y % 4 == 0 && (y % 100 != 0 || y % 400 == 0)
  }

  function DaysInMonth(y: nat, m: nat): (n: nat)
    requires 1 <= m <= 12
    ensures 28 <= n <= 31
  {
    if m == 2 then (if IsLeapYear(y) then 29 else 28)
    else if m == 4 || m == 6 || m == 9 || m == 11 then 30
    else 31
  }

  /** The instants a JavaScript `Date` can denote (years from 0 on). */
  predicate ValidDate(d: DateTime) {
    1 <= d.month <= 12 && 1 <= d.day <= DaysInMonth(d.year, d.month) && d.hour < 24 && d.minute < 60
  }

  /** `add(1, 'day')`: the same time of day on the following calendar day. */
  function NextDay(d: DateTime): (r: DateTime)
    requires ValidDate(d)
    ensures ValidDate(r) && r.hour == d.hour && r.minute == d.minute
  {
    if d.day < DaysInMonth(d.year, d.month) then d.(day := d.day + 1)
    else if d.month < 12 then d.(month := d.month + 1, day := 1)
    else d.(year := d.year + 1, month := 1, day := 1)
  }

  /** The same time of day on the previous calendar day. */
  function PrevDay(d: DateTime): (r: DateTime)
    requires ValidDate(d) && (d.year > 0 || d.month > 1 || d.day > 1)
    ensures ValidDate(r)
  {
    if d.day > 1 then d.(day := d.day - 1)
    else if d.month > 1 then d.(month := d.month - 1, day := DaysInMonth(d.year, d.month - 1))
    else d.(year := d.year - 1, month := 12, day := 31)
  }

  /** Stepping a day forward and back returns to the same instant. */
  lemma PrevDayOfNextDay(d: DateTime)
    requires ValidDate(d)
    ensures PrevDay(NextDay(d)) == d
  {
  }

  /** Today and tomorrow never share a day of month (every month has at least
      28 days), so the two tests cannot both hold and their order does not
      change the result. */
  lemma NextDayChangesDayOfMonth(d: DateTime)
    requires ValidDate(d)
    ensures NextDay(d).day != d.day
  {
  }

  predicate StartsWith(s: string, p: string) {
    |p| <= |s| && s[..|p|] == p
  }

  /** The two word forms are told apart by their first letter. */
  lemma WordFormsDiffer(x: string)
    ensures !StartsWith("Hoje, " + x, "Amanhã, ")
    ensures !StartsWith("Amanhã, " + x, "Hoje, ")
  {
    assert ("Hoje, " + x)[0] == 'H';
    assert ("Amanhã, " + x)[0] == 'A';
  }

  /** `format('HH:mm')`. */
  function Clock(d: DateTime): (s: string)
    requires ValidDate(d)
    ensures |s| == 5 && s[2] == ':'
  {
    Pad2(d.hour) + ":" + Pad2(d.minute)
  }

  /** `format('DD/MM/YY [às] HH:mm')`. */
  function FullDate(d: DateTime): (s: string)
    requires ValidDate(d)
    ensures |s| == 17 && s[2] == '/' && s[5] == '/' && IsDigitChar(s[0])
    ensures s[8..12] == " às " && s[12..] == Clock(d)
  {
    Pad2(d.day) + "/" + Pad2(d.month) + "/" + Pad2(d.year % 100) + " às " + Clock(d)
  }

  /** Every form ends in the clock time of the date. */
  lemma ClockReadsBack(d: DateTime, s: string)
    requires ValidDate(d) && |s| >= 5 && s[|s| - 5..] == Clock(d)
    ensures ParseDecimal(s[|s| - 5..|s| - 3]) == d.hour
    ensures ParseDecimal(s[|s| - 2..]) == d.minute
  {
    assert s[|s| - 5..|s| - 3] == Pad2(d.hour);
    assert s[|s| - 2..] == Pad2(d.minute);
    ParsePad2(d.hour);
    ParsePad2(d.minute);
  }

  /** The full form carries day, month and two-digit year, in that order. */
  lemma FullDateReadsBack(d: DateTime)
    requires ValidDate(d)
    ensures ParseDecimal(FullDate(d)[0..2]) == d.day
    ensures ParseDecimal(FullDate(d)[3..5]) == d.month
    ensures ParseDecimal(FullDate(d)[6..8]) == d.year % 100
    ensures ParseDecimal(FullDate(d)[12..14]) == d.hour
    ensures ParseDecimal(FullDate(d)[15..17]) == d.minute
  {
    var s := FullDate(d);
    assert s[0..2] == Pad2(d.day);
    assert s[3..5] == Pad2(d.month);
    assert s[6..8] == Pad2(d.year % 100);
    assert s[12..17] == Clock(d);
    ParsePad2(d.day);
    ParsePad2(d.month);
    ParsePad2(d.year % 100);
    ClockReadsBack(d, s);
  }

  /** `formatDateToText` as written: only the day of month of the date is
      compared with today's and tomorrow's. */
  function FormatDateToText(date: DateTime, now: DateTime): (r: string)
    requires ValidDate(date) && ValidDate(now)
    ensures StartsWith(r, "Hoje, ") <==> date.day == now.day
    ensures StartsWith(r, "Amanhã, ") <==> date.day == NextDay(now).day
    ensures !StartsWith(r, "Hoje, ") && !StartsWith(r, "Amanhã, ") ==> r == FullDate(date)
    ensures date.day == now.day ==> r == "Hoje, " + Clock(date)
    ensures date.day != now.day && date.day == NextDay(now).day ==> r == "Amanhã, " + Clock(date)
    ensures r[|r| - 5..] == Clock(date)
  {
    NextDayChangesDayOfMonth(now);
    var isToday := date.day == now.day;
    var isTomorrow := date.day == NextDay(now).day;
    WordFormsDiffer(Clock(date));
    if isToday then
      "Hoje, " + Clock(date)
    else if isTomorrow then
      "Amanhã, " + Clock(date)
    else
      var r := FullDate(date);
      assert r[0] != "Hoje, "[0] && r[0] != "Amanhã, "[0];
      r
  }

  /** The day of month alone decides: a date a month away that falls on the
      same day number is shown as today. */
  lemma FormatDateToTextMatchesOtherMonth()
    ensures var now := DateTime(2025, 8, 4, 9, 0);
            var date := DateTime(2025, 9, 4, 10, 30);
            && !SameDay(date, now)
            && FormatDateToText(date, now) == "Hoje, 10:30"
  {
  }

  /** The form that compares whole calendar days, as "today" and "tomorrow"
      evidently mean. */
  function FormatDateToTextByCalendarDay(date: DateTime, now: DateTime): (r: string)
    requires ValidDate(date) && ValidDate(now)
    ensures StartsWith(r, "Hoje, ") <==> SameDay(date, now)
    ensures StartsWith(r, "Amanhã, ") <==> SameDay(date, NextDay(now))
    ensures !StartsWith(r, "Hoje, ") && !StartsWith(r, "Amanhã, ") ==> r == FullDate(date)
    ensures SameDay(date, now) ==> r == "Hoje, " + Clock(date)
    ensures !SameDay(date, now) && SameDay(date, NextDay(now)) ==> r == "Amanhã, " + Clock(date)
    ensures r[|r| - 5..] == Clock(date)
  {
    NextDayChangesDayOfMonth(now);
    WordFormsDiffer(Clock(date));
    if SameDay(date, now) then
      "Hoje, " + Clock(date)
    else if SameDay(date, NextDay(now)) then
      "Amanhã, " + Clock(date)
    else
      var r := FullDate(date);
      assert r[0] != "Hoje, "[0] && r[0] != "Amanhã, "[0];
      r
  }

  /** On today's and tomorrow's dates the two forms agree; they differ only
      for dates further away that share a day number with either. */
  lemma CalendarDayAgreesNearNow(date: DateTime, now: DateTime)
    requires ValidDate(date) && ValidDate(now)
    requires SameDay(date, now) || SameDay(date, NextDay(now))
    ensures FormatDateToTextByCalendarDay(date, now) == FormatDateToText(date, now)
  {
    NextDayChangesDayOfMonth(now);
  }
}
