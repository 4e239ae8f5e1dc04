/**
  The calendar values the catalogue reads: java.time.LocalDate (ISO proleptic calendar) and
  the time of day of java.time.LocalTime, counted in nanoseconds since midnight.
*/
module Calendar {
  import opened Wrappers
  import opened Numerals

  datatype Date = Date(year: int, month: int, day: int)

  predicate IsLeapYear(year: int) {
    year % 4 == 0 && (year % 100 != 0 || year % 400 == 0)
  }

  function MonthLength(year: int, month: int): (n: int)
    requires 1 <= month <= 12
    ensures 28 <= n <= 31
  {
    if month == 2 then (if IsLeapYear(year) then 29 else 28)
    else if month == 4 || month == 6 || month == 9 || month == 11 then 30
    else 31
  }

  /** A date LocalDate can hold. */
  predicate ValidDate(d: Date) {
    1 <= d.month <= 12 && 1 <= d.day <= MonthLength(d.year, d.month)
  }

  /** LocalTime as nanoseconds since midnight. */
  type NanoOfDay = n: int | 0 <= n < 86_400_000_000_000

  /** LocalTime.of(hour, minute). */
  function TimeOf(hour: int, minute: int): (t: NanoOfDay)
    requires 0 <= hour < 24 && 0 <= minute < 60
    ensures t % 60_000_000_000 == 0 && t / 60_000_000_000 == hour * 60 + minute
  {
    (hour * 60 + minute) * 60_000_000_000
  }

  /**
    yyyy-MM-dd, each part written with leading zeros: LocalDate.toString() for a valid date
    with a year in 0..9999, and any text of that shape otherwise.
  */
  function DateText(d: Date): (s: string)
    requires 0 <= d.year <= 9999 && 0 <= d.month <= 99 && 0 <= d.day <= 99
    ensures |s| == 10
  {
    PaddedText(d.year, 4) + "-" + PaddedText(d.month, 2) + "-" + PaddedText(d.day, 2)
  }

  /**
    LocalDate.parse(text), that is DateTimeFormatter.ISO_LOCAL_DATE with its strict resolver,
    for years written with four digits and no sign: yyyy-MM-dd, each part all digits, and the
    day must exist in that month of that year. Anything else is a DateTimeParseException,
    here None.
  */
  function ParseIsoDate(s: string): (r: Option<Date>)
    ensures r.Some? ==> ValidDate(r.value) && 0 <= r.value.year <= 9999
  {
    if |s| != 10 || s[4] != '-' || s[7] != '-' then None
    else
      var y, m, d := s[..4], s[5..7], s[8..];
      if !AllDigits(y) || !AllDigits(m) || !AllDigits(d) then None
      else
        Pow10Small();
        var date := Date(DigitsValue(y), DigitsValue(m), DigitsValue(d));
        if ValidDate(date) then Some(date) else None
  }

  /**
    LocalDate.parse of a text yyyy-MM-dd gives back the date it spells exactly when that date
    exists, and rejects it otherwise.
  */
  lemma ParseDateText(d: Date)
    requires 0 <= d.year <= 9999 && 0 <= d.month <= 99 && 0 <= d.day <= 99
    ensures ParseIsoDate(DateText(d)) == if ValidDate(d) then Some(d) else None
  {
    var s := DateText(d);
    var y, m, dd := PaddedText(d.year, 4), PaddedText(d.month, 2), PaddedText(d.day, 2);
    Pow10Small();
    PaddedTextExact(d.year, 4);
    PaddedTextExact(d.month, 2);
    PaddedTextExact(d.day, 2);
    assert s[..4] == y && s[5..7] == m && s[8..] == dd && s[4] == '-' && s[7] == '-';
  }

  lemma Pow10Small()
    ensures Pow10(2) == 100 && Pow10(4) == 10000
  {
  }

  lemma PaddedTextExact(n: nat, width: nat)
    requires n < Pow10(width)
    ensures DigitsValue(PaddedText(n, width)) == n
  {
  }

  /** The strict resolver: the 29th of February is read only in a leap year. */
  lemma LeapDayParses(year: int)
    requires 0 <= year <= 9999
    ensures ParseIsoDate(DateText(Date(year, 2, 29))).Some? <==> IsLeapYear(year)
  {
    ParseDateText(Date(year, 2, 29));
  }

  /** The strict resolver: there is never a 31st of April. */
  lemma NoThirtyFirstOfApril(year: int)
    requires 0 <= year <= 9999
    ensures ParseIsoDate(DateText(Date(year, 4, 31))) == None
  {
    ParseDateText(Date(year, 4, 31));
  }
}
