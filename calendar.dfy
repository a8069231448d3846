/**
 * The slice of Python's `datetime` that the window selection uses: a start
 * time read with `strptime(s, '%Y-%m-%d_%H-%M')`, `start + timedelta(minutes=d)`
 * with carries into hour, day, month and year under Gregorian leap rules, and
 * the `strftime` renderings `'%Y-%m-%d'` and `'%Y_%m_%d__%H_%M_%S'`.
 *
 * Minute addition is defined one carry step at a time (`NextMinute`) and is
 * proved to agree with CPython's own arithmetic, which goes through the
 * proleptic Gregorian ordinal (`MinuteOrdinal` below).
 */
module Calendar {
  import opened Optional
  import opened Text

  /** `datetime.MINYEAR` and `datetime.MAXYEAR`. */
  const MinYear: int := 1
  const MaxYear: int := 9999

  datatype DateTime = DateTime(year: int, month: int, day: int, hour: int, minute: int, second: int)

  predicate IsLeapYear(y: int)
  {
    y % 4 == 0 && (y % 100 != 0 || y % 400 == 0)
  }

  function DaysInMonth(y: int, m: int): int
    requires 1 <= m <= 12
  {
    if m == 2 then (if IsLeapYear(y) then 29 else 28)
    else if m == 4 || m == 6 || m == 9 || m == 11 then 30
    else 31
  }

  function DaysInYear(y: int): int
  {
    if IsLeapYear(y) then 366 else 365
  }

  /** Every field within its calendar range; the year is at least 1 but not bounded above. */
  predicate WellFormed(t: DateTime)
  {
    MinYear <= t.year && 1 <= t.month <= 12 && 1 <= t.day <= DaysInMonth(t.year, t.month)
    && 0 <= t.hour < 24 && 0 <= t.minute < 60 && 0 <= t.second < 60
  }

  /** A value Python's `datetime` can represent: a well-formed time no later than year 9999. */
  predicate InRange(t: DateTime)
  {
    WellFormed(t) && t.year <= MaxYear
  }

  // ---------------------------------------------------------------------------
  // Minute arithmetic
  // ---------------------------------------------------------------------------

  /** One minute later, carrying into the hour, the day, the month and the year. */
  function NextMinute(t: DateTime): (u: DateTime)
    requires WellFormed(t)
    ensures WellFormed(u) && u.second == t.second
  {
    if t.minute < 59 then t.(minute := t.minute + 1)
    else if t.hour < 23 then t.(hour := t.hour + 1, minute := 0)
    else if t.day < DaysInMonth(t.year, t.month) then t.(day := t.day + 1, hour := 0, minute := 0)
    else if t.month < 12 then t.(month := t.month + 1, day := 1, hour := 0, minute := 0)
    else t.(year := t.year + 1, month := 1, day := 1, hour := 0, minute := 0)
  }

  /** `t + timedelta(minutes=n)`, ignoring the upper year bound (see `InRange`). */
  function AddMinutes(t: DateTime, n: nat): (u: DateTime)
    requires WellFormed(t)
    ensures WellFormed(u) && u.second == t.second
    decreases n
  {
    if n == 0 then t else NextMinute(AddMinutes(t, n - 1))
  }

  // ---------------------------------------------------------------------------
  // Reference: CPython's proleptic Gregorian ordinal (`_ymd2ord`), counted in minutes
  // ---------------------------------------------------------------------------

  /** `_days_before_year`: days in the years 1 .. y-1. */
  function DaysBeforeYear(y: int): int
    requires y >= 1
  {
    var p := y - 1;
    p * 365 + p / 4 - p / 100 + p / 400
  }

  /** `_days_before_month`: days in the months before `m` of year `y`. */
  function DaysBeforeMonth(y: int, m: int): int
    requires 1 <= m <= 12
  {
    [0, 31, 59, 90, 120, 151, 181, 212, 243, 273, 304, 334][m - 1]
    + (if m > 2 && IsLeapYear(y) then 1 else 0)
  }

  /** Minutes elapsed from 0001-01-01 00:00 to `t` (seconds ignored). */
  function MinuteOrdinal(t: DateTime): int
    requires WellFormed(t)
  {
    ((DaysBeforeYear(t.year) + DaysBeforeMonth(t.year, t.month) + t.day - 1) * 24 + t.hour) * 60 + t.minute
  }

  lemma YearStep(y: int)
    requires y >= 1
    ensures DaysBeforeYear(y + 1) == DaysBeforeYear(y) + DaysInYear(y)
  {
    DivStep(y, 4);
    DivStep(y, 100);
    DivStep(y, 400);
  }

  /** Going from `y - 1` to `y` adds one multiple of `k` exactly when `k` divides `y`. */
  lemma DivStep(y: int, k: int)
    requires y >= 1 && k >= 1
    ensures y / k == (y - 1) / k + (if y % k == 0 then 1 else 0)
  {
    var q, r := (y - 1) / k, (y - 1) % k;
    if r + 1 == k {
      DivUnique(y, k, q + 1, 0);
    } else {
      DivUnique(y, k, q, r + 1);
    }
  }

  /** Euclidean division has one quotient and remainder. */
  lemma DivUnique(y: int, k: int, q: int, s: int)
    requires k >= 1 && 0 <= s < k && y == q * k + s
    ensures y / k == q && y % k == s
  {
    var q2, s2 := y / k, y % k;
    if q2 > q {
      MulMonotone(q + 1, q2, k);
    } else if q2 < q {
      MulMonotone(q2 + 1, q, k);
    }
  }

  lemma MulMonotone(a: int, b: int, k: int)
    requires a <= b && k >= 0
    ensures a * k <= b * k
  {
    assert b * k - a * k == (b - a) * k;
  }

  lemma MonthStep(y: int, m: int)
    requires 1 <= m <= 12
    ensures m < 12 ==> DaysBeforeMonth(y, m + 1) == DaysBeforeMonth(y, m) + DaysInMonth(y, m)
    ensures m == 12 ==> DaysBeforeMonth(y, m) + DaysInMonth(y, m) == DaysInYear(y)
  {
  }

  /** One carry step moves exactly one minute forward on CPython's time line. */
  lemma NextMinuteOrdinal(t: DateTime)
    requires WellFormed(t)
    ensures MinuteOrdinal(NextMinute(t)) == MinuteOrdinal(t) + 1
  {
    if t.minute == 59 && t.hour == 23 && t.day == DaysInMonth(t.year, t.month) {
      MonthStep(t.year, t.month);
      if t.month == 12 {
        YearStep(t.year);
      }
    }
  }

  /** `AddMinutes(t, n)` lies exactly `n` minutes after `t` on CPython's time line. */
  lemma {:induction false} AddMinutesOrdinal(t: DateTime, n: nat)
    requires WellFormed(t)
    ensures MinuteOrdinal(AddMinutes(t, n)) == MinuteOrdinal(t) + n
    decreases n
  {
    if n > 0 {
      AddMinutesOrdinal(t, n - 1);
      NextMinuteOrdinal(AddMinutes(t, n - 1));
    }
  }

  lemma {:induction false} YearsApart(y1: int, y2: int)
    requires 1 <= y1 < y2
    ensures DaysBeforeYear(y1) + DaysInYear(y1) <= DaysBeforeYear(y2)
    decreases y2 - y1
  {
    YearStep(y1);
    if y1 + 1 < y2 {
      YearsApart(y1 + 1, y2);
    }
  }

  lemma {:induction false} MonthsApart(y: int, m1: int, m2: int)
    requires 1 <= m1 < m2 <= 12
    ensures DaysBeforeMonth(y, m1) + DaysInMonth(y, m1) <= DaysBeforeMonth(y, m2)
    decreases m2 - m1
  {
    MonthStep(y, m1);
    if m1 + 1 < m2 {
      MonthStep(y, m1 + 1);
      MonthsApart(y, m1 + 1, m2);
    }
  }

  /** The day ordinal of a well-formed date lies within its year and its month. */
  lemma DayOrdinalBounds(t: DateTime)
    requires WellFormed(t)
    ensures DaysBeforeMonth(t.year, t.month) + t.day <= DaysInYear(t.year)
  {
    MonthStep(t.year, 12);
    if t.month < 12 {
      MonthsApart(t.year, t.month, 12);
    }
  }

  /**
   * Distinct well-formed times (with equal seconds) have distinct ordinals, so the
   * ordinal pins a time down and `AddMinutesOrdinal` fixes `AddMinutes` completely.
   */
  lemma OrdinalInjective(a: DateTime, b: DateTime)
    requires WellFormed(a) && WellFormed(b) && a.second == b.second
    requires MinuteOrdinal(a) == MinuteOrdinal(b)
    ensures a == b
  {
    var da := DaysBeforeYear(a.year) + DaysBeforeMonth(a.year, a.month) + a.day - 1;
    var db := DaysBeforeYear(b.year) + DaysBeforeMonth(b.year, b.month) + b.day - 1;
    assert da == db && a.hour == b.hour && a.minute == b.minute by {
      assert MinuteOrdinal(a) == da * 1440 + a.hour * 60 + a.minute;
      assert MinuteOrdinal(b) == db * 1440 + b.hour * 60 + b.minute;
    }
    DayOrdinalBounds(a);
    DayOrdinalBounds(b);
    if a.year < b.year {
      YearsApart(a.year, b.year);
    } else if b.year < a.year {
      YearsApart(b.year, a.year);
    }
    assert a.year == b.year;
    if a.month < b.month {
      MonthsApart(a.year, a.month, b.month);
    } else if b.month < a.month {
      MonthsApart(a.year, b.month, a.month);
    }
  }

  /**
   * Agreement with CPython: the only well-formed time `n` minutes after `t`
   * (same seconds) is `AddMinutes(t, n)`.
   */
  lemma AddMinutesIsUnique(t: DateTime, n: nat, u: DateTime)
    requires WellFormed(t) && WellFormed(u) && u.second == t.second
    requires MinuteOrdinal(u) == MinuteOrdinal(t) + n
    ensures u == AddMinutes(t, n)
  {
    AddMinutesOrdinal(t, n);
    OrdinalInjective(u, AddMinutes(t, n));
  }

  /** Different offsets from one start never name the same minute. */
  lemma AddMinutesDistinct(t: DateTime, d1: nat, d2: nat)
    requires WellFormed(t) && d1 != d2
    ensures AddMinutes(t, d1) != AddMinutes(t, d2)
  {
    AddMinutesOrdinal(t, d1);
    AddMinutesOrdinal(t, d2);
  }

  // ---------------------------------------------------------------------------
  // Renderings (strftime)
  // ---------------------------------------------------------------------------

  /**
   * The fields of `strftime('%Y_%m_%d__%H_%M_%S')`, as the pieces between its
   * underscores: the doubled underscore leaves an empty piece.
   */
  function StampFields(t: DateTime): seq<string>
    requires InRange(t)
  {
    [Pad4(t.year), Pad2(t.month), Pad2(t.day), "", Pad2(t.hour), Pad2(t.minute), Pad2(t.second)]
  }

  /** `strftime('%Y_%m_%d__%H_%M_%S')`: the timestamp label that object keys carry. */
  function StampLabel(t: DateTime): string
    requires InRange(t)
  {
    Join(StampFields(t), '_')
  }

  /** `strftime('%Y-%m-%d')`: the date segment of key prefixes. */
  function DateText(t: DateTime): (s: string)
    requires InRange(t)
    ensures |s| == 10 && '/' !in s
  {
    Pad4Value(t.year);
    Pad2Value(t.month);
    Pad2Value(t.day);
    Pad4(t.year) + "-" + Pad2(t.month) + "-" + Pad2(t.day)
  }

  /** The zero-padded `'%Y-%m-%d_%H-%M'` text of a time, one of the texts `ParseStart` reads. */
  function StartText(t: DateTime): string
    requires InRange(t)
  {
    DateText(t) + "_" + Pad2(t.hour) + "-" + Pad2(t.minute)
  }

  /** The numeric fields of a label are digits that read back as the time's own fields. */
  lemma StampFieldsValues(t: DateTime)
    requires InRange(t)
    ensures forall i | 0 <= i < |StampFields(t)| :: AllDigits(StampFields(t)[i])
    ensures NatValue(StampFields(t)[0]) == t.year && NatValue(StampFields(t)[1]) == t.month
    ensures NatValue(StampFields(t)[2]) == t.day && NatValue(StampFields(t)[4]) == t.hour
    ensures NatValue(StampFields(t)[5]) == t.minute && NatValue(StampFields(t)[6]) == t.second
  {
    Pad4Value(t.year);
    Pad2Value(t.month);
    Pad2Value(t.day);
    Pad2Value(t.hour);
    Pad2Value(t.minute);
    Pad2Value(t.second);
  }

  lemma DigitsHaveNo(s: string, c: char)
    requires AllDigits(s) && !IsDigit(c)
    ensures c !in s
  {
  }

  /** Splitting a label at its underscores gives back its fields. */
  lemma StampLabelSplit(t: DateTime)
    requires InRange(t)
    ensures Split(StampLabel(t), '_') == StampFields(t)
  {
    var fields := StampFields(t);
    StampFieldsValues(t);
    forall i | 0 <= i < |fields| ensures '_' !in fields[i] {
      if i != 3 {
        DigitsHaveNo(fields[i], '_');
      }
    }
    SplitJoin(fields, '_');
  }

  /** Distinct times have distinct labels: a label names exactly one time. */
  lemma StampLabelInjective(a: DateTime, b: DateTime)
    requires InRange(a) && InRange(b) && StampLabel(a) == StampLabel(b)
    ensures a == b
  {
    StampLabelSplit(a);
    StampLabelSplit(b);
    StampFieldsValues(a);
    StampFieldsValues(b);
    var fa, fb := StampFields(a), StampFields(b);
    assert NatValue(fa[0]) == NatValue(fb[0]);
    assert NatValue(fa[1]) == NatValue(fb[1]);
    assert NatValue(fa[2]) == NatValue(fb[2]);
    assert NatValue(fa[4]) == NatValue(fb[4]);
    assert NatValue(fa[5]) == NatValue(fb[5]);
    assert NatValue(fa[6]) == NatValue(fb[6]);
  }

  /** Every character of a label is a digit or '_'. */
  predicate StampAlphabet(s: string)
  {
    forall k | 0 <= k < |s| :: IsDigit(s[k]) || s[k] == '_'
  }

  lemma {:induction false} JoinStampAlphabet(parts: seq<string>)
    requires |parts| >= 1
    requires forall i | 0 <= i < |parts| :: AllDigits(parts[i])
    ensures StampAlphabet(Join(parts, '_'))
    decreases |parts|
  {
    if |parts| > 1 {
      JoinStampAlphabet(parts[1..]);
      var head, tail := parts[0] + ['_'], Join(parts[1..], '_');
      assert AllDigits(parts[0]);
      forall k | 0 <= k < |head + tail| ensures IsDigit((head + tail)[k]) || (head + tail)[k] == '_' {
        if k >= |head| {
          assert (head + tail)[k] == tail[k - |head|];
        }
      }
    }
  }

  /** A label is twenty characters, each a digit or '_': never '/', '-' or '.'. */
  lemma StampLabelShape(t: DateTime)
    requires InRange(t)
    ensures |StampLabel(t)| == 20 && StampAlphabet(StampLabel(t))
  {
    var f := StampFields(t);
    StampFieldsValues(t);
    JoinStampAlphabet(f);
    JoinLength(f[6..], '_');
    JoinLength(f[5..], '_');
    JoinLength(f[4..], '_');
    JoinLength(f[3..], '_');
    JoinLength(f[2..], '_');
    JoinLength(f[1..], '_');
    JoinLength(f, '_');
  }

  /** One separator joins the first piece to the rest. */
  lemma JoinLength(parts: seq<string>, sep: char)
    requires |parts| >= 1
    ensures |parts| == 1 ==> |Join(parts, sep)| == |parts[0]|
    ensures |parts| > 1 ==> |Join(parts, sep)| == |parts[0]| + 1 + |Join(parts[1..], sep)|
  {
  }

  // ---------------------------------------------------------------------------
  // strptime(s, '%Y-%m-%d_%H-%M')
  //
  // CPython matches each directive with a regular expression and then requires
  // the whole text to be consumed:
  //   %Y  \d\d\d\d
  //   %m  1[0-2]|0[1-9]|[1-9]
  //   %d  3[01]|[12]\d|0[1-9]|[1-9]| [1-9]
  //   %H  2[0-3]|[0-1]\d|\d
  //   %M  [0-5]\d|\d
  // None of these matches '-' or '_', so a text matches exactly when it splits
  // at the separators into five fields each of which its directive accepts.
  // The date is then checked (year 0 and days past the month's end are rejected).
  // ---------------------------------------------------------------------------

  /** One or two ASCII digits whose value lies in `lo..hi`. */
  predicate ShortNumber(f: string, lo: nat, hi: nat)
  {
    1 <= |f| <= 2 && AllDigits(f) && lo <= NatValue(f) <= hi
  }

  predicate YearField(f: string) { |f| == 4 && AllDigits(f) }

  predicate MonthField(f: string) { ShortNumber(f, 1, 12) }

  /** `%d` also accepts a space followed by a non-zero digit. */
  predicate DayField(f: string)
  {
    ShortNumber(f, 1, 31) || (|f| == 2 && f[0] == ' ' && IsDigit(f[1]) && f[1] != '0')
  }

  function DayValue(f: string): nat
    requires DayField(f)
  {
    if f[0] == ' ' then DigitValue(f[1]) else NatValue(f)
  }

  predicate HourField(f: string) { ShortNumber(f, 0, 23) }

  predicate MinuteField(f: string) { ShortNumber(f, 0, 59) }

  /**
   * `datetime.strptime(s, '%Y-%m-%d_%H-%M')`; `None` where Python raises
   * `ValueError`. The seconds of a parsed time are always 0.
   */
  function ParseStart(s: string): (r: Option<DateTime>)
    ensures r.Some? ==> InRange(r.value) && r.value.second == 0
  {
    var fields := Split(s, '-');
    if |fields| != 4 then None
    else
      var dayHour := Split(fields[2], '_');
      if |dayHour| != 2 then None
      else if !(YearField(fields[0]) && MonthField(fields[1]) && DayField(dayHour[0])
                && HourField(dayHour[1]) && MinuteField(fields[3])) then None
      else
        var year, month, day := NatValue(fields[0]), NatValue(fields[1]), DayValue(dayHour[0]);
        NatValueBound(fields[0]);
        if year < MinYear || day > DaysInMonth(year, month) then None
        else Some(DateTime(year, month, day, NatValue(dayHour[1]), NatValue(fields[3]), 0))
  }

  /** The rendering splits at '-' into year, month, day-and-hour and minute, and the day-and-hour at '_'. */
  lemma StartTextSplit(t: DateTime)
    requires InRange(t)
    ensures Split(StartText(t), '-') == [Pad4(t.year), Pad2(t.month), Pad2(t.day) + "_" + Pad2(t.hour), Pad2(t.minute)]
    ensures Split(Pad2(t.day) + "_" + Pad2(t.hour), '_') == [Pad2(t.day), Pad2(t.hour)]
  {
    var y, mo, d, h, mi := Pad4(t.year), Pad2(t.month), Pad2(t.day), Pad2(t.hour), Pad2(t.minute);
    Pad4Value(t.year);
    Pad2Value(t.month);
    Pad2Value(t.day);
    Pad2Value(t.hour);
    Pad2Value(t.minute);
    var dh := d + "_" + h;
    DigitsHaveNo(y, '-');
    DigitsHaveNo(mo, '-');
    DigitsHaveNo(d, '-');
    DigitsHaveNo(d, '_');
    DigitsHaveNo(h, '-');
    DigitsHaveNo(h, '_');
    DigitsHaveNo(mi, '-');
    assert '-' !in dh;
    var parts := [y, mo, dh, mi];
    assert Join(parts, '-') == StartText(t) by {
      assert Join(parts[3..], '-') == mi;
      assert Join(parts[2..], '-') == dh + "-" + mi;
      assert Join(parts[1..], '-') == mo + "-" + dh + "-" + mi;
    }
    SplitJoin(parts, '-');
    assert Join([d, h], '_') == dh;
    SplitJoin([d, h], '_');
  }

  /** Reading back the zero-padded rendering of a minute-precision time gives that time. */
  lemma ParseStartText(t: DateTime)
    requires InRange(t) && t.second == 0
    ensures ParseStart(StartText(t)) == Some(t)
  {
    StartTextSplit(t);
    Pad4Value(t.year);
    Pad2Value(t.month);
    Pad2Value(t.day);
    Pad2Value(t.hour);
    Pad2Value(t.minute);
  }

  /** A parsed start, rendered again in the zero-padded form, gives the same time. */
  lemma ParseStartNormalizes(s: string)
    requires ParseStart(s).Some?
    ensures ParseStart(StartText(ParseStart(s).value)) == ParseStart(s)
  {
    ParseStartText(ParseStart(s).value);
  }
}
