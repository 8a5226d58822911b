/** Calendar dates from epoch seconds, as the worker computes them for its log names and stamps. */
module Calendar {
  import opened Decimal

  predicate IsLeap(y: nat) { (y % 4 == 0 && y % 100 != 0) || y % 400 == 0 }

  function YearLength(y: nat): nat { if IsLeap(y) then 366 else 365 }

  function MonthLengths(y: nat): (r: seq<nat>)
    ensures |r| == 12
  {
    [31, if IsLeap(y) then 29 else 28, 31, 30, 31, 30, 31, 31, 30, 31, 30, 31]
  }

  // ---------- the Gregorian calendar, in closed form ----------

  /** Days from 1970-01-01 to the first day of year `y`. */
  function DaysBeforeYear(y: nat): int
    requires y >= 1970
  {
    365 * (y - 1970) + ((y - 1) / 4 - (y - 1) / 100 + (y - 1) / 400) - (1969 / 4 - 1969 / 100 + 1969 / 400)
  }

  /** Days of year `y` before its month `m`; the thirteenth stands for the next year. */
  function DaysBeforeMonth(y: nat, m: nat): nat
    requires 1 <= m <= 13
  {
    [0, 31, 59, 90, 120, 151, 181, 212, 243, 273, 304, 334, 365][m - 1] + if m > 2 && IsLeap(y) then 1 else 0
  }

  datatype Date = Date(y: nat, m: nat, d: nat)

  predicate ValidDate(date: Date) {
    date.y >= 1970 && 1 <= date.m <= 12 && 1 <= date.d <= MonthLengths(date.y)[date.m - 1]
  }

  function DaysFromEpoch(date: Date): int
    requires ValidDate(date)
  {
    DaysBeforeYear(date.y) + DaysBeforeMonth(date.y, date.m) + date.d - 1
  }

  lemma NextBy4(y: nat)
    requires y >= 1
    ensures y / 4 == (y - 1) / 4 + if y % 4 == 0 then 1 else 0
  {
  }

  lemma NextBy100(y: nat)
    requires y >= 1
    ensures y / 100 == (y - 1) / 100 + if y % 100 == 0 then 1 else 0
  {
  }

  lemma NextBy400(y: nat)
    requires y >= 1
    ensures y / 400 == (y - 1) / 400 + if y % 400 == 0 then 1 else 0
  {
  }

  lemma HundredsBy4(y: nat, k: nat)
    requires y == 100 * k
    ensures y % 4 == 0
  {
    assert y == 4 * (25 * k);
  }

  lemma FourHundredsBy100(y: nat, k: nat)
    requires y == 400 * k
    ensures y % 100 == 0
  {
    assert y == 100 * (4 * k);
  }

  lemma Divisors(y: nat)
    ensures y % 400 == 0 ==> y % 100 == 0
    ensures y % 100 == 0 ==> y % 4 == 0
  {
    if y % 400 == 0 {
      FourHundredsBy100(y, y / 400);
    }
    if y % 100 == 0 {
      HundredsBy4(y, y / 100);
    }
  }

  lemma NextYear(y: nat)
    requires y >= 1970
    ensures DaysBeforeYear(y + 1) == DaysBeforeYear(y) + YearLength(y)
  {
    NextBy4(y);
    NextBy100(y);
    NextBy400(y);
    Divisors(y);
  }

  lemma NextMonth(y: nat, m: nat)
    requires 1 <= m <= 12
    ensures DaysBeforeMonth(y, m + 1) == DaysBeforeMonth(y, m) + MonthLengths(y)[m - 1]
  {
  }

  lemma WithinYear(date: Date)
    requires ValidDate(date)
    ensures DaysBeforeMonth(date.y, date.m) + date.d <= YearLength(date.y)
  {
    NextMonth(date.y, date.m);
  }

  /** The date of a number of days since the epoch. */
  method CivilDate(days: nat) returns (date: Date)
    ensures ValidDate(date) && DaysFromEpoch(date) == days
  {
    var y, rem: int := 1970, days;
    while rem >= YearLength(y)
      invariant y >= 1970 && rem >= 0 && rem + DaysBeforeYear(y) == days
      decreases rem
    {
      NextYear(y);
      rem := rem - YearLength(y);
      y := y + 1;
    }
    var mdays, m := MonthLengths(y), 0;
    ghost var inYear := rem;
    for i := 0 to 12
      invariant m == 0 && rem >= 0 && rem + DaysBeforeMonth(y, i + 1) == inYear < YearLength(y)
    {
      if rem < mdays[i] {
        m := i + 1;
        break;
      }
      NextMonth(y, i + 1);
      rem := rem - mdays[i];
    }
    date := Date(y, m, rem + 1);
  }

  // ---------- the calendar is a bijection that keeps order ----------

  predicate Earlier(a: Date, b: Date) {
    a.y < b.y || (a.y == b.y && (a.m < b.m || (a.m == b.m && a.d < b.d)))
  }

  lemma {:induction false} YearsApart(y: nat, z: nat)
    requires 1970 <= y < z
    ensures DaysBeforeYear(y) + YearLength(y) <= DaysBeforeYear(z)
    decreases z - y
  {
    NextYear(y);
    if y + 1 < z {
      YearsApart(y + 1, z);
    }
  }

  lemma MonthsApart(y: nat, m: nat, n: nat)
    requires 1 <= m < n <= 12
    ensures DaysBeforeMonth(y, m) + MonthLengths(y)[m - 1] <= DaysBeforeMonth(y, n)
    decreases n - m
  {
    NextMonth(y, m);
    if m + 1 < n {
      MonthsApart(y, m + 1, n);
    }
  }

  lemma EarlierHasFewerDays(a: Date, b: Date)
    requires ValidDate(a) && ValidDate(b) && Earlier(a, b)
    ensures DaysFromEpoch(a) < DaysFromEpoch(b)
  {
    if a.y < b.y {
      YearsApart(a.y, b.y);
      WithinYear(a);
    } else if a.m < b.m {
      MonthsApart(a.y, a.m, b.m);
    }
  }

  /** Dates compare as their day numbers do; in particular a day number has one date. */
  lemma DaysOrderDates(a: Date, b: Date)
    requires ValidDate(a) && ValidDate(b)
    ensures DaysFromEpoch(a) < DaysFromEpoch(b) <==> Earlier(a, b)
    ensures DaysFromEpoch(a) == DaysFromEpoch(b) <==> a == b
  {
    if Earlier(a, b) {
      EarlierHasFewerDays(a, b);
    } else if Earlier(b, a) {
      EarlierHasFewerDays(b, a);
    }
  }

  /** Four digits suffice exactly up to the last second of 9999. */
  lemma FourDigitYears(date: Date)
    requires ValidDate(date)
    ensures date.y <= 9999 <==> DaysFromEpoch(date) < 253402300800 / 86400
  {
    assert DaysBeforeYear(10000) == 2932897;
    var first := Date(10000, 1, 1);
    DaysOrderDates(date, first);
  }

  // ---------- the calendar by another rule ----------

  // Counted from March the leap day comes last, and the months follow one line.
  function FromMarch(date: Date): int {
    var y, m := if date.m <= 2 then date.y - 1 else date.y, (date.m + 9) % 12;
    365 * y + y / 4 - y / 100 + y / 400 + (153 * m + 2) / 5 + date.d - 719469
  }

  lemma MonthsFromMarch(y: nat, m: nat)
    requires 1 <= m <= 12
    ensures DaysBeforeMonth(y, m) ==
            (153 * ((m + 9) % 12) + 2) / 5 - (if m <= 2 then 306 else -59 - if IsLeap(y) then 1 else 0)
  {
  }

  lemma LeapDays(y: nat)
    requires y >= 1
    ensures y / 4 - y / 100 + y / 400 == (y - 1) / 4 - (y - 1) / 100 + (y - 1) / 400 + if IsLeap(y) then 1 else 0
  {
    NextBy4(y);
    NextBy100(y);
    NextBy400(y);
    Divisors(y);
  }

  /** The day number of a date is that of the usual formula for the Gregorian calendar. */
  lemma DayNumberFormula(date: Date)
    requires ValidDate(date)
    ensures DaysFromEpoch(date) == FromMarch(date)
  {
    MonthsFromMarch(date.y, date.m);
    LeapDays(date.y);
  }

  // ---------- the texts ----------

  datatype Moment = Moment(date: Date, h: nat, mi: nat, s: nat, ms: nat)

  predicate ValidMoment(t: Moment) {
    ValidDate(t.date) && t.h < 24 && t.mi < 60 && t.s < 60 && t.ms < 1000
  }

  function Instant(t: Moment): int
    requires ValidMoment(t)
  {
    (DaysFromEpoch(t.date) * 86400 + t.h * 3600 + t.mi * 60 + t.s) * 1000 + t.ms
  }

  function TimeText(t: Moment): string {
    Digits(t.h, 2) + (":" + (Digits(t.mi, 2) + (":" + (Digits(t.s, 2) + ("." + (Digits(t.ms, 3) + "Z"))))))
  }

  function IsoText(t: Moment): string {
    Digits(t.date.y, 4) + ("-" + (Digits(t.date.m, 2) + ("-" + (Digits(t.date.d, 2) + ("T" + TimeText(t))))))
  }

  function DayText(date: Date): string {
    Digits(date.y, 4) + (Digits(date.m, 2) + Digits(date.d, 2))
  }

  /** The stamp of the control log. */
  method IsoNow(totalSecs: nat, millis: nat) returns (text: string)
    requires millis < 1000
    ensures exists t :: ValidMoment(t) && Instant(t) == totalSecs * 1000 + millis && text == IsoText(t)
  {
    var daySecs := totalSecs % 86400;
    var h, mi, s := daySecs / 3600, (daySecs % 3600) / 60, daySecs % 60;
    var date := CivilDate(totalSecs / 86400);
    ghost var t := Moment(date, h, mi, s, millis);
    text := Digits(date.y, 4) + ("-" + (Digits(date.m, 2) + ("-" + (Digits(date.d, 2) + ("T" +
            (Digits(h, 2) + (":" + (Digits(mi, 2) + (":" + (Digits(s, 2) + ("." + (Digits(millis, 3) + "Z"))))))))))));
    DaySplit(totalSecs);
    assert ValidMoment(t) && Instant(t) == totalSecs * 1000 + millis && text == IsoText(t);
  }

  lemma DaySplit(totalSecs: nat)
    ensures var daySecs := totalSecs % 86400;
      && totalSecs == totalSecs / 86400 * 86400 + daySecs
      && daySecs == daySecs / 3600 * 3600 + (daySecs % 3600) / 60 * 60 + daySecs % 60
      && daySecs / 3600 < 24 && (daySecs % 3600) / 60 < 60
  {
  }

  /** The day in the name of the control log. */
  method TodayYyyymmdd(totalSecs: nat) returns (text: string)
    ensures exists date :: ValidDate(date) && DaysFromEpoch(date) == totalSecs / 86400 && text == DayText(date)
  {
    var date := CivilDate(totalSecs / 86400);
    text := Digits(date.y, 4) + (Digits(date.m, 2) + Digits(date.d, 2));
    assert text == DayText(date);
  }

  /** The name of a conversation log: day, hour, and what is left of the session id. */
  method QaLogName(totalSecs: nat, suffix: string) returns (text: string)
    ensures exists date :: ValidDate(date) && DaysFromEpoch(date) == totalSecs / 86400 &&
                           text == LogName(date, totalSecs % 86400 / 3600, suffix)
  {
    var date := CivilDate(totalSecs / 86400);
    var hour := (totalSecs % 86400) / 3600;
    text := "qa_claude_" + (Digits(date.y, 4) + (Digits(date.m, 2) + Digits(date.d, 2)))
            + "_" + Digits(hour, 2) + suffix + ".log";
    assert text == LogName(date, hour, suffix);
  }

  function LogName(date: Date, hour: nat, suffix: string): string {
    "qa_claude_" + DayText(date) + "_" + Digits(hour, 2) + suffix + ".log"
  }

  // ---------- what stands where in the texts ----------

  lemma FieldReads(n: nat, width: nat)
    requires width >= 1 && n < Pow10(width)
    ensures |Digits(n, width)| == width && AllDigits(Digits(n, width)) && ValueOf(Digits(n, width)) == n
  {
    FixedWidth(n, width);
    ReadsBack(n, width);
  }

  // A field of digits, a separator, and what follows.
  lemma FieldThen(n: nat, width: nat, sep: char, rest: string)
    requires width >= 1 && n < Pow10(width)
    ensures var text := Digits(n, width) + ([sep] + rest);
      && |text| == width + 1 + |rest| && text[..width] == Digits(n, width)
      && text[width] == sep && text[width + 1..] == rest
  {
    FieldReads(n, width);
  }

  lemma Within(s: string, from: nat, i: nat, j: nat)
    requires from + i <= from + j <= |s|
    ensures s[from..][i..j] == s[from + i..from + j]
  {
  }

  lemma CharWithin(s: string, from: nat, i: nat)
    requires from + i < |s|
    ensures s[from..][i] == s[from + i]
  {
  }

  function SecondsText(t: Moment): string { Digits(t.s, 2) + ("." + (Digits(t.ms, 3) + "Z")) }

  lemma SecondsLayout(t: Moment)
    requires ValidMoment(t)
    ensures var text := SecondsText(t);
      |text| == 7 && text[2] == '.' && text[6] == 'Z' && text[..2] == Digits(t.s, 2) && text[3..6] == Digits(t.ms, 3)
  {
    Powers();
    var text, ms := SecondsText(t), Digits(t.ms, 3) + "Z";
    FieldThen(t.ms, 3, 'Z', "");
    assert "Z" + "" == "Z";
    FieldThen(t.s, 2, '.', ms);
    Within(text, 3, 0, 3);
    CharWithin(text, 3, 3);
  }

  lemma TimeLayout(t: Moment)
    requires ValidMoment(t)
    ensures var text := TimeText(t);
      && |text| == 13 && text[2] == text[5] == ':' && text[6..] == SecondsText(t)
      && text[..2] == Digits(t.h, 2) && text[3..5] == Digits(t.mi, 2)
  {
    Powers();
    SecondsLayout(t);
    var text, minutes := TimeText(t), Digits(t.mi, 2) + (":" + SecondsText(t));
    FieldThen(t.mi, 2, ':', SecondsText(t));
    FieldThen(t.h, 2, ':', minutes);
    Within(text, 3, 0, 2);
    CharWithin(text, 3, 2);
    Within(text, 3, 3, 10);
  }

  lemma DateLayout(date: Date, rest: string)
    requires ValidDate(date) && date.y <= 9999
    ensures var text := Digits(date.y, 4) + ("-" + (Digits(date.m, 2) + ("-" + (Digits(date.d, 2) + ("T" + rest)))));
      && |text| == 11 + |rest| && text[4] == text[7] == '-' && text[10] == 'T' && text[11..] == rest
      && text[..4] == Digits(date.y, 4) && text[5..7] == Digits(date.m, 2) && text[8..10] == Digits(date.d, 2)
  {
    Powers();
    MonthLengthBound(date);
    var day := Digits(date.d, 2) + ("T" + rest);
    var month := Digits(date.m, 2) + ("-" + day);
    FieldThen(date.d, 2, 'T', rest);
    FieldThen(date.m, 2, '-', day);
    FieldThen(date.y, 4, '-', month);
    var text := Digits(date.y, 4) + ("-" + month);
    Within(text, 5, 0, 2);
    Within(text, 5, 3, 5);
    Within(month, 3, 0, 2);
  }

  /** Up to year 9999 a stamp reads year, month, day, hour, minute, second and milliseconds in their
      places, RFC 3339 section 5.6. */
  lemma IsoLayout(t: Moment)
    requires ValidMoment(t) && t.date.y <= 9999
    ensures var text := IsoText(t);
      && |text| == 24
      && text[4] == text[7] == '-' && text[10] == 'T' && text[13] == text[16] == ':'
      && text[19] == '.' && text[23] == 'Z'
      && text[..4] == Digits(t.date.y, 4) && text[5..7] == Digits(t.date.m, 2) && text[8..10] == Digits(t.date.d, 2)
      && text[11..13] == Digits(t.h, 2) && text[14..16] == Digits(t.mi, 2) && text[17..19] == Digits(t.s, 2)
      && text[20..23] == Digits(t.ms, 3)
  {
    var text, time := IsoText(t), TimeText(t);
    DateLayout(t.date, time);
    TimeLayout(t);
    SecondsLayout(t);
    HoursAt(text, time);
    SecondsAt(text, time, SecondsText(t));
  }

  lemma HoursAt(text: string, time: string)
    requires |text| == 24 && text[11..] == time && |time| == 13
    ensures text[11..13] == time[..2] && text[13] == time[2] && text[14..16] == time[3..5] && text[16] == time[5]
  {
  }

  lemma SecondsAt(text: string, time: string, seconds: string)
    requires |text| == 24 && text[11..] == time && |time| == 13 && time[6..] == seconds
    ensures text[17..19] == seconds[..2] && text[19] == seconds[2]
    ensures text[20..23] == seconds[3..6] && text[23] == seconds[6]
  {
    assert seconds == text[17..];
  }

  /** And a log name reads "qa_claude_", the day, the hour and the suffix. */
  lemma LogNameLayout(date: Date, hour: nat, suffix: string)
    requires ValidDate(date) && date.y <= 9999 && hour < 24
    ensures var name := LogName(date, hour, suffix);
      && |name| == 25 + |suffix| && name[..10] == "qa_claude_" && name[18] == '_'
      && name[10..14] == Digits(date.y, 4) && name[14..16] == Digits(date.m, 2) && name[16..18] == Digits(date.d, 2)
      && name[19..21] == Digits(hour, 2) && name[21..21 + |suffix|] == suffix && name[21 + |suffix|..] == ".log"
  {
    Powers();
    MonthLengthBound(date);
    FieldReads(date.y, 4);
    FieldReads(date.m, 2);
    FieldReads(date.d, 2);
    FieldReads(hour, 2);
  }

  // ---------- texts sort chronologically ----------

  lemma Powers()
    ensures Pow10(2) == 100 && Pow10(3) == 1000 && Pow10(4) == 10000
  {
    assert Pow10(1) == 10;
  }

  lemma SeparatedFields(m: nat, n: nat, width: nat, sep: string, x: string, y: string)
    requires width >= 1 && m < Pow10(width) && n < Pow10(width)
    ensures TextLess(Digits(m, width) + (sep + x), Digits(n, width) + (sep + y)) <==>
            m < n || (m == n && TextLess(x, y))
  {
    FieldOrder(m, n, width, sep + x, sep + y);
    LessConcat(sep, sep, x, y);
    NotBelowItself(sep);
  }

  function MillisOfDay(t: Moment): nat { ((t.h * 60 + t.mi) * 60 + t.s) * 1000 + t.ms }

  lemma TimeOrder(t: Moment, u: Moment)
    requires ValidMoment(t) && ValidMoment(u)
    ensures TextLess(TimeText(t), TimeText(u)) <==> MillisOfDay(t) < MillisOfDay(u)
  {
    Powers();
    FieldOrder(t.ms, u.ms, 3, "Z", "Z");
    NotBelowItself("Z");
    SeparatedFields(t.s, u.s, 2, ".", Digits(t.ms, 3) + "Z", Digits(u.ms, 3) + "Z");
    var x := Digits(t.s, 2) + ("." + (Digits(t.ms, 3) + "Z"));
    var y := Digits(u.s, 2) + ("." + (Digits(u.ms, 3) + "Z"));
    SeparatedFields(t.mi, u.mi, 2, ":", x, y);
    SeparatedFields(t.h, u.h, 2, ":", Digits(t.mi, 2) + (":" + x), Digits(u.mi, 2) + (":" + y));
    MillisLexicographic(t, u);
  }

  lemma MillisLexicographic(t: Moment, u: Moment)
    requires ValidMoment(t) && ValidMoment(u)
    ensures MillisOfDay(t) < MillisOfDay(u) <==>
      t.h < u.h || (t.h == u.h && (t.mi < u.mi || (t.mi == u.mi && (t.s < u.s || (t.s == u.s && t.ms < u.ms)))))
  {
  }

  lemma MonthLengthBound(date: Date)
    requires ValidDate(date)
    ensures date.d <= 31
  {
  }

  lemma IsoFields(t: Moment, u: Moment)
    requires ValidMoment(t) && ValidMoment(u) && t.date.y <= 9999 && u.date.y <= 9999
    ensures TextLess(IsoText(t), IsoText(u)) <==>
            Earlier(t.date, u.date) || (t.date == u.date && TextLess(TimeText(t), TimeText(u)))
  {
    Powers();
    MonthLengthBound(t.date);
    MonthLengthBound(u.date);
    SeparatedFields(t.date.d, u.date.d, 2, "T", TimeText(t), TimeText(u));
    var x := Digits(t.date.d, 2) + ("T" + TimeText(t));
    var y := Digits(u.date.d, 2) + ("T" + TimeText(u));
    SeparatedFields(t.date.m, u.date.m, 2, "-", x, y);
    SeparatedFields(t.date.y, u.date.y, 4, "-", Digits(t.date.m, 2) + ("-" + x), Digits(u.date.m, 2) + ("-" + y));
  }

  lemma InstantSplit(t: Moment)
    requires ValidMoment(t)
    ensures Instant(t) == DaysFromEpoch(t.date) * 86400000 + MillisOfDay(t) && MillisOfDay(t) < 86400000
  {
  }

  /** Up to year 9999 stamps sort as texts exactly as the moments they name. */
  lemma IsoOrder(t: Moment, u: Moment)
    requires ValidMoment(t) && ValidMoment(u) && t.date.y <= 9999 && u.date.y <= 9999
    ensures TextLess(IsoText(t), IsoText(u)) <==> Instant(t) < Instant(u)
  {
    IsoFields(t, u);
    TimeOrder(t, u);
    DaysOrderDates(t.date, u.date);
    InstantSplit(t);
    InstantSplit(u);
  }

  /** From the first second of 10000 on they do not. */
  lemma FiveDigitYearSortsFirst()
    ensures var t := Moment(Date(9999, 12, 31), 23, 59, 59, 999);
            var u := Moment(Date(10000, 1, 1), 0, 0, 0, 0);
      && ValidMoment(t) && ValidMoment(u) && Instant(u) == Instant(t) + 1 && TextLess(IsoText(u), IsoText(t))
  {
    NextYear(9999);
    assert Digits(9999, 4)[0] == '9' by {
      assert Digits(9, 1) == "9";
      assert Digits(99, 2) == "99";
      assert Digits(999, 3) == "999";
    }
    assert Digits(10000, 4)[0] == '1' by {
      assert Digits(1, 0) == "1";
      assert Digits(10, 1) == "10";
      assert Digits(100, 2) == "100";
      assert Digits(1000, 3) == "1000";
    }
  }

  /** The copies of the computation agree: at one moment the day in a log name is the day of the
      stamp, and nothing but the day. */
  lemma CopiesAgree(t: Moment, date: Date)
    requires ValidMoment(t) && ValidDate(date) && DaysFromEpoch(date) == Instant(t) / 1000 / 86400
    ensures date == t.date
    ensures t.date.y <= 9999 ==>
              && |DayText(date)| == 8 && |IsoText(t)| == 24
              && DayText(date) == IsoText(t)[..4] + IsoText(t)[5..7] + IsoText(t)[8..10]
  {
    InstantSplit(t);
    assert Instant(t) / 1000 / 86400 == DaysFromEpoch(t.date);
    DaysOrderDates(date, t.date);
    if t.date.y <= 9999 {
      Powers();
      MonthLengthBound(date);
      FixedWidth(date.y, 4);
      FixedWidth(date.m, 2);
      FixedWidth(date.d, 2);
      FixedWidth(t.h, 2);
      FixedWidth(t.mi, 2);
      FixedWidth(t.s, 2);
      FixedWidth(t.ms, 3);
    }
  }
}
