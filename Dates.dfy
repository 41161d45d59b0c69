/** Calendar dates and the date parsing of the chat controller (`parseDate`,
    `isValidFutureDate`). A date is a proleptic Gregorian (year, month, day)
    triple; the time of day is dropped, as the controller truncates every date
    to midnight before it compares or stores it. */
module Dates {
  import opened Wrappers
  import opened Strings

  datatype Date = Date(year: int, month: int, day: int)

  predicate IsLeap(y: int)
  {
    y % 4 == 0 && (y % 100 != 0 || y % 400 == 0)
  }

  function DaysInMonth(y: int, m: int): (n: int)
    requires 1 <= m <= 12
    ensures 28 <= n <= 31
  {
    if m == 2 then (if IsLeap(y) then 29 else 28)
    else if m == 4 || m == 6 || m == 9 || m == 11 then 30
    else 31
  }

  predicate ValidDate(d: Date)
  {
    1 <= d.month <= 12 && 1 <= d.day <= DaysInMonth(d.year, d.month)
  }

  /** Chronological order on dates (lexicographic on the triple). */
  predicate Before(a: Date, b: Date)
  {
    || a.year < b.year
    || (a.year == b.year && a.month < b.month)
    || (a.year == b.year && a.month == b.month && a.day < b.day)
  }

  /** The following calendar day (`setDate(getDate() + 1)`). */
  function NextDay(d: Date): (r: Date)
    requires ValidDate(d)
    ensures ValidDate(r) && Before(d, r)
  {
    if d.day < DaysInMonth(d.year, d.month) then Date(d.year, d.month, d.day + 1)
    else if d.month < 12 then Date(d.year, d.month + 1, 1)
    else Date(d.year + 1, 1, 1)
  }

  /** No valid date lies strictly between a day and the next one. */
  lemma NothingBetween(d: Date, x: Date)
    requires ValidDate(d) && ValidDate(x) && Before(d, x)
    ensures !Before(x, NextDay(d))
  {
  }

  /** The day `n` days after `d`. */
  function AddDays(d: Date, n: nat): (r: Date)
    requires ValidDate(d)
    ensures ValidDate(r)
    decreases n
  {
    if n == 0 then d else AddDays(NextDay(d), n - 1)
  }

  /** How the host's `Date` constructor composes the fields of a date-only
      ISO string ("YYYY-MM-DD"): a month outside 1..12 or a day outside 1..31
      gives an invalid date; a day past the end of its month runs on into the
      following month ("2019-02-30" is 2 March 2019). */
  function MakeDate(y: int, m: int, d: int): (r: Option<Date>)
    ensures r.Some? <==> 1 <= m <= 12 && 1 <= d <= 31
    ensures r.Some? ==> ValidDate(r.value)
    ensures 1 <= m <= 12 && 1 <= d <= DaysInMonth(y, m) ==> r == Some(Date(y, m, d))
  {
    if !(1 <= m <= 12 && 1 <= d <= 31) then None
    else if d <= DaysInMonth(y, m) then Some(Date(y, m, d))
    else if m == 12 then Some(Date(y + 1, 1, d - DaysInMonth(y, m)))
    else Some(Date(y, m + 1, d - DaysInMonth(y, m)))
  }

  lemma {:induction false} AddDaysFrom(y: int, m: int, a: int, k: nat)
    requires 1 <= m <= 12 && 1 <= a <= DaysInMonth(y, m) && a + k <= DaysInMonth(y, m) + 3
    ensures AddDays(Date(y, m, a), k) ==
      if a + k <= DaysInMonth(y, m) then Date(y, m, a + k)
      else if m == 12 then Date(y + 1, 1, a + k - DaysInMonth(y, m))
      else Date(y, m + 1, a + k - DaysInMonth(y, m))
    decreases k
  {
    if k > 0 {
      if a < DaysInMonth(y, m) {
        AddDaysFrom(y, m, a + 1, k - 1);
      } else if m == 12 {
        AddDaysFrom(y + 1, 1, 1, k - 1);
      } else {
        AddDaysFrom(y, m + 1, 1, k - 1);
      }
    }
  }

  /** The composed date is always "day d counted from the first of month m":
      the first of the month plus `d - 1` days, overflow included. */
  lemma MakeDateCountsFromFirst(y: int, m: int, d: int)
    requires 1 <= m <= 12 && 1 <= d <= 31
    ensures MakeDate(y, m, d) == Some(AddDays(Date(y, m, 1), d - 1))
  {
    AddDaysFrom(y, m, 1, d - 1);
  }

  /** `/^(\d{4})-(\d{2})-(\d{2})/`: the year, month and day of an ISO prefix. */
  function IsoPrefix(s: string): Option<(int, int, int)>
  {
    if |s| >= 10 && AllDigits(s[..4]) && s[4] == '-' && AllDigits(s[5..7]) && s[7] == '-' && AllDigits(s[8..10])
    then Some((DigitsValue(s[..4]), DigitsValue(s[5..7]), DigitsValue(s[8..10])))
    else None
  }

  predicate IsSeparator(c: char)
  {
    c == '-' || c == '/'
  }

  /** `(\d{1,2})[-\/]` at index `i`: the number and the index after the
      separator. It matches exactly when one or two digits and a separator
      start at `i`, and the number is the value of those digits. */
  function ShortField(s: string, i: nat): (r: Option<(nat, nat)>)
    ensures r.Some? <==>
              && i < |s| && IsDigit(s[i])
              && ((i + 1 < |s| && IsSeparator(s[i + 1])) || (i + 2 < |s| && IsDigit(s[i + 1]) && IsSeparator(s[i + 2])))
    ensures r.Some? ==>
              && i + 2 <= r.value.1 <= i + 3 && r.value.1 <= |s|
              && AllDigits(s[i..r.value.1 - 1]) && IsSeparator(s[r.value.1 - 1])
              && r.value.0 == DigitsValue(s[i..r.value.1 - 1]) && r.value.0 <= 99
  {
    if i < |s| && IsDigit(s[i]) then
      if i + 1 < |s| && IsSeparator(s[i + 1]) then
        assert s[i..i + 1][..0] == [];
        Some((DigitValue(s[i]), i + 2))
      else if i + 2 < |s| && IsDigit(s[i + 1]) && IsSeparator(s[i + 2]) then
        var ds := s[i..i + 2];
        assert ds[..1] == s[i..i + 1] && ds[1] == s[i + 1];
        assert s[i..i + 1][..0] == [];
        assert DigitsValue(s[i..i + 1]) == DigitValue(s[i]);
        assert DigitsValue(ds) == DigitValue(s[i]) * 10 + DigitValue(s[i + 1]);
        Some((DigitValue(s[i]) * 10 + DigitValue(s[i + 1]), i + 3))
      else None
    else None
  }

  /** `/^(\d{1,2})[-\/](\d{1,2})[-\/](\d{4})/`: the two short fields, in the
      order written, and the year. */
  function NumericDate(s: string): Option<(int, int, int)>
  {
    match ShortField(s, 0)
    case None => None
    case Some((a, i)) =>
      match ShortField(s, i)
      case None => None
      case Some((b, j)) =>
        if j + 4 <= |s| && AllDigits(s[j..j + 4]) then Some((a, b, DigitsValue(s[j..j + 4])))
        else None
  }

  /** `parseDate`, evaluated on the day `today`. `native` stands for what the
      host's own `new Date(text)` makes of the trimmed text, the last resort
      of the source, which this model does not reproduce. */
  function ParseDate(message: string, today: Date, native: Option<Date>): (r: Option<Date>)
    requires ValidDate(today)
    requires native.Some? ==> ValidDate(native.value)
    ensures r.Some? ==> ValidDate(r.value)
  {
    if message == [] then None
    else
      var s := Trim(message);
      var iso := IsoPrefix(s);
      var numeric := NumericDate(s);
      var lower := ToLower(s);
      if iso.Some? && MakeDate(iso.value.0, iso.value.1, iso.value.2).Some? then
        MakeDate(iso.value.0, iso.value.1, iso.value.2)
      // day first: "DD-MM-YYYY"
      else if numeric.Some? && MakeDate(numeric.value.2, numeric.value.1, numeric.value.0).Some? then
        MakeDate(numeric.value.2, numeric.value.1, numeric.value.0)
      // the same pattern read month first: "MM-DD-YYYY"
      else if numeric.Some? && MakeDate(numeric.value.2, numeric.value.0, numeric.value.1).Some? then
        MakeDate(numeric.value.2, numeric.value.0, numeric.value.1)
      else if Contains(lower, "today") then Some(today)
      else if Contains(lower, "tomorrow") then Some(NextDay(today))
      else if Contains(lower, "day after tomorrow") then Some(NextDay(NextDay(today)))
      else native
  }

  /** `isValidFutureDate`: the date is today or later. */
  predicate IsValidFutureDate(d: Date, today: Date)
    ensures IsValidFutureDate(d, today) <==> d == today || Before(today, d)
  {
    !Before(d, today)
  }

  /** The ISO and the numeric patterns never both match: the first needs four
      leading digits, the second a separator within the first three characters. */
  lemma IsoAndNumericExclusive(s: string)
    ensures !(IsoPrefix(s).Some? && NumericDate(s).Some?)
  {
    if IsoPrefix(s).Some? {
      assert AllDigits(s[..4]);
      assert IsDigit(s[..4][1]) && IsDigit(s[..4][2]);
    }
  }

  /** A well-formed ISO prefix decides the date, whatever follows it. */
  lemma IsoTriedFirst(message: string, today: Date, native: Option<Date>, y: int, m: int, d: int)
    requires ValidDate(today) && (native.Some? ==> ValidDate(native.value))
    requires message != [] && IsoPrefix(Trim(message)) == Some((y, m, d))
    requires 1 <= m <= 12 && 1 <= d <= 31
    ensures ParseDate(message, today, native) == MakeDate(y, m, d)
  {
  }

  /** "DD-MM-YYYY" and "MM-DD-YYYY" share one pattern and the day-first
      reading is tried first, so it wins whenever it gives a date. */
  lemma NumericIsDayFirst(message: string, today: Date, native: Option<Date>, a: int, b: int, y: int)
    requires ValidDate(today) && (native.Some? ==> ValidDate(native.value))
    requires message != [] && NumericDate(Trim(message)) == Some((a, b, y))
    requires 1 <= a <= 31 && 1 <= b <= 12
    ensures ParseDate(message, today, native) == MakeDate(y, b, a)
  {
    IsoAndNumericExclusive(Trim(message));
  }

  /** The month-first reading only fires when the day-first one is impossible,
      that is when the second field is not a month: "04-13-2030" is 13 April. */
  lemma NumericMonthFirstFallback(message: string, today: Date, native: Option<Date>, a: int, b: int, y: int)
    requires ValidDate(today) && (native.Some? ==> ValidDate(native.value))
    requires message != [] && NumericDate(Trim(message)) == Some((a, b, y))
    requires 1 <= a <= 12 && 13 <= b <= 31
    ensures ParseDate(message, today, native) == MakeDate(y, a, b)
    ensures b <= DaysInMonth(y, a) ==> ParseDate(message, today, native) == Some(Date(y, a, b))
  {
    IsoAndNumericExclusive(Trim(message));
  }

  /** Words are looked for in the order today, tomorrow, day after tomorrow;
      since "day after tomorrow" contains "tomorrow", it yields tomorrow and
      the third rule never applies. */
  lemma DayAfterTomorrowMeansTomorrow(message: string, today: Date, native: Option<Date>)
    requires ValidDate(today) && (native.Some? ==> ValidDate(native.value))
    requires message != [] && IsoPrefix(Trim(message)).None? && NumericDate(Trim(message)).None?
    requires !Contains(ToLower(Trim(message)), "today")
    requires Contains(ToLower(Trim(message)), "day after tomorrow")
    ensures ParseDate(message, today, native) == Some(NextDay(today))
  {
    DayAfterTomorrowHasTomorrow(ToLower(Trim(message)));
  }

  /** A text with "day after tomorrow" in it has "tomorrow" in it. */
  lemma DayAfterTomorrowHasTomorrow(s: string)
    ensures Contains(s, "day after tomorrow") ==> Contains(s, "tomorrow")
  {
    if Contains(s, "day after tomorrow") {
      assert OccursAt("day after tomorrow", "tomorrow", 10);
      ContainsAt("day after tomorrow", "tomorrow", 10);
      ContainsTrans(s, "day after tomorrow", "tomorrow");
    }
  }

  /** "today" is checked before the other words. */
  lemma TodayTriedFirst(message: string, today: Date, native: Option<Date>)
    requires ValidDate(today) && (native.Some? ==> ValidDate(native.value))
    requires message != [] && IsoPrefix(Trim(message)).None? && NumericDate(Trim(message)).None?
    requires Contains(ToLower(Trim(message)), "today")
    ensures ParseDate(message, today, native) == Some(today)
  {
  }

  /** A text containing "tomorrow" but not "today" is the day after today. */
  lemma TomorrowIsNextDay(message: string, today: Date, native: Option<Date>)
    requires ValidDate(today) && (native.Some? ==> ValidDate(native.value))
    requires message != [] && IsoPrefix(Trim(message)).None? && NumericDate(Trim(message)).None?
    requires !Contains(ToLower(Trim(message)), "today") && Contains(ToLower(Trim(message)), "tomorrow")
    ensures ParseDate(message, today, native) == Some(NextDay(today))
  {
  }

  /** An ISO-shaped prefix that is no date (a month outside 1..12 or a day
      outside 1..31, as in "2030-13-01 tomorrow") does not stop the parser:
      the numeric pattern cannot match such a text, so the day words and
      then the host's own reading decide. */
  lemma InvalidIsoFallsThrough(message: string, today: Date, native: Option<Date>)
    requires ValidDate(today) && (native.Some? ==> ValidDate(native.value))
    requires message != [] && IsoPrefix(Trim(message)).Some?
    requires var p := IsoPrefix(Trim(message)).value; !(1 <= p.1 <= 12 && 1 <= p.2 <= 31)
    ensures var lower := ToLower(Trim(message));
            ParseDate(message, today, native)
            == if Contains(lower, "today") then Some(today)
               else if Contains(lower, "tomorrow") then Some(NextDay(today))
               else native
  {
    IsoAndNumericExclusive(Trim(message));
    DayAfterTomorrowHasTomorrow(ToLower(Trim(message)));
  }

  /** Without a pattern or a day word, the host's own reading decides. */
  lemma NativeIsLastResort(message: string, today: Date, native: Option<Date>)
    requires ValidDate(today) && (native.Some? ==> ValidDate(native.value))
    requires message != [] && IsoPrefix(Trim(message)).None? && NumericDate(Trim(message)).None?
    requires !Contains(ToLower(Trim(message)), "today") && !Contains(ToLower(Trim(message)), "tomorrow")
    ensures ParseDate(message, today, native) == native
  {
    DayAfterTomorrowHasTomorrow(ToLower(Trim(message)));
  }
}
