/**
 * `RSSService.formatRelativeDate`: elapsed milliseconds bucketed by floor
 * division into minutes, hours, "Yesterday", days or an absolute date. The
 * input is the elapsed time `now - date` in milliseconds, or None when the
 * date string does not parse (JavaScript's NaN). The absolute rendering comes
 * from `formatDate`, which this model does not compute: its result is passed in.
 */
module RssDates {
  import opened Wrappers

  const MsPerMinute: int := 1000 * 60
  const MsPerHour: int := 1000 * 60 * 60
  const MsPerDay: int := 1000 * 60 * 60 * 24

  /**
   * `Math.floor(a / b)` for a positive divisor. Dafny's `/` is Euclidean,
   * which rounds toward negative infinity when the divisor is positive.
   */
  function FloorDiv(a: int, b: int): (q: int)
    requires b > 0
    ensures q * b <= a < q * b + b
  {
    a / b
  }

  /** Which label the source renders; Absolute is the deferred call to `formatDate`. */
  datatype Bucket = Minutes(minutes: int) | Hours(hours: int) | Yesterday | Days(days: int) | Absolute

  /**
   * The branches of `formatRelativeDate`. For NaN every `===` and `<` test is
   * false, so the final `else` defers to `formatDate`.
   */
  function RelativeBucket(elapsed: Option<int>): (b: Bucket)
    ensures elapsed.None? ==> b == Absolute
    ensures elapsed.Some? && 0 <= elapsed.value < MsPerHour ==> b == Minutes(FloorDiv(elapsed.value, MsPerMinute))
    ensures elapsed.Some? && MsPerHour <= elapsed.value < MsPerDay ==> b == Hours(FloorDiv(elapsed.value, MsPerHour))
    ensures elapsed.Some? && MsPerDay <= elapsed.value < 2 * MsPerDay ==> b == Yesterday
    ensures elapsed.Some? && (elapsed.value < 0 || 2 * MsPerDay <= elapsed.value < 7 * MsPerDay) ==>
      b == Days(FloorDiv(elapsed.value, MsPerDay))
    ensures elapsed.Some? && 7 * MsPerDay <= elapsed.value ==> b == Absolute
  {
    match elapsed
    case None => Absolute
    case Some(e) =>
      var days := FloorDiv(e, MsPerDay);
      if days == 0 then
        var hours := FloorDiv(e, MsPerHour);
        if hours == 0 then Minutes(FloorDiv(e, MsPerMinute)) else Hours(hours)
      else if days == 1 then Yesterday
      else if days < 7 then Days(days)
      else Absolute
  }

  function Digit(d: nat): (c: char)
    requires d < 10
    ensures '0' <= c <= '9' && (c as int) - ('0' as int) == d
  {
    ['0', '1', '2', '3', '4', '5', '6', '7', '8', '9'][d]
  }

  predicate AllDigits(s: string) {
    forall i :: 0 <= i < |s| ==> '0' <= s[i] <= '9'
  }

  /** The decimal numeral of a natural number, as a JavaScript template literal prints an integer. */
  function NatToDecimal(n: nat): (s: string)
    ensures |s| >= 1 && AllDigits(s)
    ensures s[0] == '0' ==> n == 0
    decreases n
  {
    if n < 10 then [Digit(n)] else NatToDecimal(n / 10) + [Digit(n % 10)]
  }

  /** The value a string of decimal digits denotes: the partner of NatToDecimal. */
  function DecimalValue(s: string): nat
    requires AllDigits(s)
    decreases |s|
  {
    if |s| == 0 then 0
    else 10 * DecimalValue(s[..|s| - 1]) + ((s[|s| - 1] as int) - ('0' as int))
  }

  lemma {:induction false} DecimalRoundTrip(n: nat)
    ensures DecimalValue(NatToDecimal(n)) == n
    decreases n
  {
    if n >= 10 {
      var s := NatToDecimal(n);
      assert s[..|s| - 1] == NatToDecimal(n / 10);
      DecimalRoundTrip(n / 10);
    }
  }

  /** An integer as `${n}` prints it: a minus sign before a negative number's magnitude. */
  function IntToDecimal(n: int): string {
    if n < 0 then "-" + NatToDecimal(-n) else NatToDecimal(n)
  }

  /**
   * `formatRelativeDate`, given the elapsed time and what `formatDate` returns
   * for the same input: the label for each range of elapsed time is the
   * floored count in decimal followed by its unit, "Yesterday", or the
   * absolute date.
   */
  function FormatRelativeDate(elapsed: Option<int>, absolute: string): (r: string)
    ensures elapsed.None? ==> r == absolute
    ensures elapsed.Some? && 0 <= elapsed.value < MsPerHour ==>
      r == IntToDecimal(FloorDiv(elapsed.value, MsPerMinute)) + "m ago"
    ensures elapsed.Some? && MsPerHour <= elapsed.value < MsPerDay ==>
      r == IntToDecimal(FloorDiv(elapsed.value, MsPerHour)) + "h ago"
    ensures elapsed.Some? && MsPerDay <= elapsed.value < 2 * MsPerDay ==> r == "Yesterday"
    ensures elapsed.Some? && (elapsed.value < 0 || 2 * MsPerDay <= elapsed.value < 7 * MsPerDay) ==>
      r == IntToDecimal(FloorDiv(elapsed.value, MsPerDay)) + "d ago"
    ensures elapsed.Some? && 7 * MsPerDay <= elapsed.value ==> r == absolute
  {
    match RelativeBucket(elapsed)
    case Minutes(m) => IntToDecimal(m) + "m ago"
    case Hours(h) => IntToDecimal(h) + "h ago"
    case Yesterday => "Yesterday"
    case Days(d) => IntToDecimal(d) + "d ago"
    case Absolute => absolute
  }

  // Which bucket an elapsed time lands in, both directions.

  lemma BucketRanges(e: int)
    ensures RelativeBucket(Some(e)).Minutes? <==> 0 <= e < MsPerHour
    ensures RelativeBucket(Some(e)).Hours? <==> MsPerHour <= e < MsPerDay
    ensures RelativeBucket(Some(e)) == Yesterday <==> MsPerDay <= e < 2 * MsPerDay
    ensures RelativeBucket(Some(e)).Days? <==> e < 0 || 2 * MsPerDay <= e < 7 * MsPerDay
    ensures RelativeBucket(Some(e)) == Absolute <==> 7 * MsPerDay <= e
  {
  }

  /** Under an hour: whole minutes elapsed, 0 to 59. */
  lemma MinutesBucket(e: int)
    requires 0 <= e < MsPerHour
    ensures var b := RelativeBucket(Some(e));
      b.Minutes? && 0 <= b.minutes <= 59 && b.minutes * MsPerMinute <= e < (b.minutes + 1) * MsPerMinute
  {
    BucketRanges(e);
  }

  /** From one hour to under a day: whole hours elapsed, 1 to 23. */
  lemma HoursBucket(e: int)
    requires MsPerHour <= e < MsPerDay
    ensures var b := RelativeBucket(Some(e));
      b.Hours? && 1 <= b.hours <= 23 && b.hours * MsPerHour <= e < (b.hours + 1) * MsPerHour
  {
    BucketRanges(e);
  }

  /** Two to six whole days elapsed. */
  lemma DaysBucket(e: int)
    requires 2 * MsPerDay <= e < 7 * MsPerDay
    ensures var b := RelativeBucket(Some(e));
      b.Days? && 2 <= b.days <= 6 && b.days * MsPerDay <= e < (b.days + 1) * MsPerDay
  {
    BucketRanges(e);
  }

  /** A date in the future floors to a negative day count and always reads "{d}d ago" with d < 0. */
  lemma FutureDateBucket(e: int)
    requires e < 0
    ensures var b := RelativeBucket(Some(e));
      b.Days? && b.days < 0 && b.days * MsPerDay <= e < (b.days + 1) * MsPerDay
  {
    BucketRanges(e);
  }

  // The labels at the reference points of the source's behaviour.

  lemma ReferenceLabels(absolute: string)
    ensures FormatRelativeDate(Some(30 * 1000), absolute) == "0m ago"
    ensures FormatRelativeDate(Some(45 * MsPerMinute), absolute) == "45m ago"
    ensures FormatRelativeDate(Some(3 * MsPerHour), absolute) == "3h ago"
    ensures FormatRelativeDate(Some(MsPerDay), absolute) == "Yesterday"
    ensures FormatRelativeDate(Some(25 * MsPerHour), absolute) == "Yesterday"
    ensures FormatRelativeDate(Some(5 * MsPerDay), absolute) == "5d ago"
    ensures FormatRelativeDate(Some(10 * MsPerDay), absolute) == absolute
    ensures FormatRelativeDate(None, absolute) == absolute
    ensures FormatRelativeDate(Some(-1), absolute) == "-1d ago"
  {
    MinuteLabels(absolute);
    HourAndDayLabels(absolute);
    FixedLabels(absolute);
  }

  lemma HourAndDayLabels(absolute: string)
    ensures FormatRelativeDate(Some(3 * MsPerHour), absolute) == "3h ago"
    ensures FormatRelativeDate(Some(5 * MsPerDay), absolute) == "5d ago"
    ensures FormatRelativeDate(Some(-1), absolute) == "-1d ago"
  {
    CountedLabel(Some(3 * MsPerHour), absolute, 3, "3", "h ago");
    CountedLabel(Some(5 * MsPerDay), absolute, 5, "5", "d ago");
    CountedLabel(Some(-1), absolute, -1, "-1", "d ago");
  }

  lemma FixedLabels(absolute: string)
    ensures FormatRelativeDate(Some(MsPerDay), absolute) == "Yesterday"
    ensures FormatRelativeDate(Some(25 * MsPerHour), absolute) == "Yesterday"
    ensures FormatRelativeDate(Some(10 * MsPerDay), absolute) == absolute
    ensures FormatRelativeDate(None, absolute) == absolute
  {
  }

  lemma MinuteLabels(absolute: string)
    ensures FormatRelativeDate(Some(30 * 1000), absolute) == "0m ago"
    ensures FormatRelativeDate(Some(45 * MsPerMinute), absolute) == "45m ago"
  {
    CountedLabel(Some(30 * 1000), absolute, 0, "0", "m ago");
    assert NatToDecimal(45) == NatToDecimal(4) + "5";
    CountedLabel(Some(45 * MsPerMinute), absolute, 45, "45", "m ago");
  }

  /**
   * A label that counts: the unit is fixed by the range, the count printed in
   * decimal before it. The digits are a parameter, proved once by the caller,
   * so that the label is checked without unfolding the decimal conversion again.
   */
  lemma CountedLabel(elapsed: Option<int>, absolute: string, n: int, digits: string, suffix: string)
    requires elapsed.Some?
    requires IntToDecimal(n) == digits
    requires
      || (suffix == "m ago" && 0 <= elapsed.value < MsPerHour && n == FloorDiv(elapsed.value, MsPerMinute))
      || (suffix == "h ago" && MsPerHour <= elapsed.value < MsPerDay && n == FloorDiv(elapsed.value, MsPerHour))
      || (suffix == "d ago" && (elapsed.value < 0 || 2 * MsPerDay <= elapsed.value < 7 * MsPerDay)
          && n == FloorDiv(elapsed.value, MsPerDay))
    ensures FormatRelativeDate(elapsed, absolute) == digits + suffix
  {
  }
}
