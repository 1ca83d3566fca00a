/**
 * The calendar date of `src/date/date.rs`.
 *
 * `Date` is a `Copy` struct of three `i32` fields that the program only ever
 * mutates through `&mut self` on a private copy (`self.clone()`, a cloned
 * `ProgramArguments`), so it is modelled as a value: `increment` and
 * `decrement` return the updated date, and `add_days` is a method whose two
 * loops update a local copy.  Integers are unbounded; arithmetic follows Rust's
 * truncating `/` and `%` through `RustOps`.
 *
 * Beside each operation that verification showed to be wrong, a corrected
 * definition is given with the property the source intends proved about it
 * (`DayOfWeekFixed`, `DecrementFixed`, `ShiftedFixed`).
 */
module Dates {
  import opened RustOps
  import Sorting

  const MONTHS: seq<string> := [
    "January", "February", "March", "April", "May", "June",
    "July", "August", "September", "October", "November", "December"
  ]

  const DAYS: seq<string> := [
    "Monday", "Tuesday", "Wednesday", "Thursday", "Friday", "Saturday", "Sunday"
  ]

  const MONTH_ERROR: string := "ERROR: MONTH OUT OF RANGE!"
  const DAY_ERROR: string := "ERROR: DAY OUT OF RANGE!"

  datatype Date = Date(day: int, month: int, year: int)

  /** Rust's `std::cmp::Ordering`. */
  datatype Ordering = Less | Equal | Greater

  // ---------------------------------------------------------------------------
  // Weekday (Zeller's congruence)
  // ---------------------------------------------------------------------------

  /**
   * The raw Zeller sum of `day_of_week`, before reduction modulo 7: January and
   * February count as months 13 and 14 of the previous year.
   */
  function ZellerSum(day: int, month: int, year: int): int {
    var m := if month == 1 || month == 2 then month + 12 else month;
    var y := if month == 1 || month == 2 then year - 1 else year;
    day + MonthTerm(m) + YearTerm(y)
  }

  /** The month's term of the sum, months counted 3..14. */
  function MonthTerm(m: int): int {
    Div(13 * (m + 1), 5)
  }

  /** The year's terms of the sum: the year of the century and the zero-based century. */
  function YearTerm(y: int): int {
    var yearOfCentury := Rem(y, 100);
    var zeroBasedCentury := Div(y, 100);
    yearOfCentury + Div(yearOfCentury, 4) + Div(zeroBasedCentury, 4) - 2 * zeroBasedCentury
  }

  /** Zeller's 0 = Saturday .. 6 = Friday shifted to 1 = Monday .. 7 = Sunday, with Euclidean `%`. */
  function WeekdayOf(sum: int): (w: int)
    ensures 1 <= w <= 7
  {
    ((sum % 7) + 5) % 7 + 1
  }

  /**
   * `day_of_week` as written.  The doc comment promises 1..7, but the sum is
   * negative for many dates after 1000 and Rust's `%` then keeps the sign, so
   * some Sundays come out as 0; every other date gets the correct number.
   */
  function DayOfWeek(d: Date): (w: int)
    ensures 0 <= w <= 7
    ensures w == DayOfWeekFixed(d) || (w == 0 && DayOfWeekFixed(d) == 7)
  {
    var sum := ZellerSum(d.day, d.month, d.year);
    RustWeekday(sum);
    var weekday := Rem(sum, 7);
    Rem(weekday + 5, 7) + 1
  }

  /**
   * The final reduction of `day_of_week` with Rust's `%`: it agrees with the
   * Euclidean one except that a negative sum that is a multiple of 7 less 5,
   * a Sunday, gives 0.
   */
  lemma RustWeekday(sum: int)
    ensures 0 <= Rem(Rem(sum, 7) + 5, 7) + 1 <= 7
    ensures Rem(Rem(sum, 7) + 5, 7) + 1 == WeekdayOf(sum)
            || (Rem(Rem(sum, 7) + 5, 7) + 1 == 0 && WeekdayOf(sum) == 7)
  {
    if sum >= 0 {
      var r := sum % 7;
      assert Rem(sum, 7) == r;
      assert Rem(r + 5, 7) == (r + 5) % 7;
    } else {
      var q, r := (-sum) / 7, (-sum) % 7;
      assert Rem(sum, 7) == -r;
      if r == 0 {
        DivUnique(sum, 7, -q, 0);
        DivUnique(5, 7, 0, 5);
      } else {
        DivUnique(sum, 7, -q - 1, 7 - r);
        if r <= 5 {
          DivUnique(12 - r, 7, 1, 5 - r);
          DivUnique(5 - r, 7, 0, 5 - r);
        } else {
          DivUnique(6, 7, 0, 6);
          assert Rem(-1, 7) == -1;
        }
      }
    }
  }

  /** `day_of_week` with the final reduction done by `rem_euclid`, as the doc comment intends. */
  function DayOfWeekFixed(d: Date): (w: int)
    ensures 1 <= w <= 7
  {
    WeekdayOf(ZellerSum(d.day, d.month, d.year))
  }

  // ---------------------------------------------------------------------------
  // Leap years, month lengths, validity
  // ---------------------------------------------------------------------------

  /** `is_leap_year`: the Gregorian rule. */
  function IsLeapYear(d: Date): (r: bool)
    ensures r <==> d.year % 4 == 0 && (d.year % 100 != 0 || d.year % 400 == 0)
  {
    RemZeroLeapModuli(d.year);
    if Rem(d.year, 4) == 0 then
      if Rem(d.year, 100) == 0 then Rem(d.year, 400) == 0 else true
    else false
  }

  /** `max_day`: February by the leap rule, else `31 - ((month - 1) % 7) % 2` with Rust's `%`. */
  function MaxDay(d: Date): (r: int)
    ensures d.month == 2 ==> r == if IsLeapYear(d) then 29 else 28
    ensures d.month in {4, 6, 9, 11} ==> r == 30
    ensures d.month in {1, 3, 5, 7, 8, 10, 12} ==> r == 31
    ensures 28 <= r <= 32
  {
    DivRem(d.month - 1, 7);
    DivRem(Rem(d.month - 1, 7), 2);
    if d.month == 2 then
      if IsLeapYear(d) then 29 else 28
    else
      31 - Rem(Rem(d.month - 1, 7), 2)
  }

  /** `validate`: a positive year, a month in 1..12 and a day within that month. */
  predicate Valid(d: Date) {
    d.year > 0 && 1 <= d.month <= 12 && 1 <= d.day <= MaxDay(d)
  }

  /** The edges `validate` draws: the 29th of February, the 30th and 31st, the 1st and the 0th. */
  lemma ValidEdges(month: int, year: int)
    ensures Valid(Date(29, 2, year)) <==> year > 0 && year % 4 == 0 && (year % 100 != 0 || year % 400 == 0)
    ensures Valid(Date(31, month, year)) <==> year > 0 && month in {1, 3, 5, 7, 8, 10, 12}
    ensures Valid(Date(30, month, year)) <==> year > 0 && 1 <= month <= 12 && month != 2
    ensures Valid(Date(1, month, year)) <==> year > 0 && 1 <= month <= 12
    ensures !Valid(Date(0, month, year))
  {
  }

  // ---------------------------------------------------------------------------
  // Ordering
  // ---------------------------------------------------------------------------

  /** Chronological order: year, then month, then day. */
  predicate Before(a: Date, b: Date) {
    a.year < b.year
    || (a.year == b.year && a.month < b.month)
    || (a.year == b.year && a.month == b.month && a.day < b.day)
  }

  /** `Ord::cmp` for `Date`, as written: equality first, then year, month, day. */
  function Cmp(a: Date, b: Date): (r: Ordering)
    ensures r == Equal <==> a == b
    ensures r == Less <==> Before(a, b)
    ensures r == Greater <==> Before(b, a)
  {
    if a == b then Equal
    else if a.year > b.year then Greater
    else if a.year == b.year then
      if a.month > b.month then Greater
      else if a.month == b.month then
        if a.day > b.day then Greater else Less
      else Less
    else Less
  }

  /** `a <= b` under `Ord for Date`. */
  predicate Le(a: Date, b: Date) {
    Cmp(a, b) != Greater
  }

  /** `cmp` is a total order consistent with `eq`, as `Ord` requires. */
  lemma LeIsTotalOrder()
    ensures Sorting.TotalOrder(Le)
  {
  }

  // ---------------------------------------------------------------------------
  // Day arithmetic
  // ---------------------------------------------------------------------------

  /** `increment`: the next day, wrapping into the next month and year. */
  function Increment(d: Date): (r: Date)
    ensures Before(d, r)
    ensures Valid(d) ==> Valid(r)
  {
    if d.day == MaxDay(d) then
      if d.month == 12 then Date(1, 1, d.year + 1) else Date(1, d.month + 1, d.year)
    else
      Date(d.day + 1, d.month, d.year)
  }

  /**
   * `decrement` as written.  On the first of a month it first wraps January to
   * 31 December of the previous year and then, unconditionally, steps the month
   * back once more and takes that month's length: 1 January becomes 30 November.
   */
  function Decrement(d: Date): (r: Date)
    ensures Before(r, d)
    ensures r.year >= d.year - 1
    ensures Valid(d) && !(d.year == 1 && d.month == 1 && d.day == 1) ==> Valid(r)
  {
    if d.day == 1 then
      var wrapped := if d.month == 1 then Date(31, 12, d.year - 1) else d;
      var previous := wrapped.(month := wrapped.month - 1);
      previous.(day := MaxDay(previous))
    else
      d.(day := d.day - 1)
  }

  /** `decrement` as its doc comment describes it: 1 January becomes 31 December. */
  function DecrementFixed(d: Date): (r: Date)
    ensures Before(r, d)
    ensures Valid(d) && !(d.year == 1 && d.month == 1 && d.day == 1) ==> Valid(r)
  {
    if d.day == 1 then
      if d.month == 1 then Date(31, 12, d.year - 1)
      else
        var previous := d.(month := d.month - 1);
        previous.(day := MaxDay(previous))
    else
      d.(day := d.day - 1)
  }

  /** `n` applications of `increment` (n > 0) or `-n` of `decrement` (n < 0). */
  function Shifted(d: Date, n: int): Date
    decreases Abs(n)
  {
    if n == 0 then d
    else if n > 0 then Increment(Shifted(d, n - 1))
    else Decrement(Shifted(d, n + 1))
  }

  /** `add_days`: the two counting loops of the source over a local copy. */
  method AddDays(d: Date, days: int) returns (r: Date)
    ensures r == Shifted(d, days)
  {
    r := d;
    var dayCounter := days;
    if days > 0 {
      while dayCounter > 0
        invariant 0 <= dayCounter <= days
        invariant r == Shifted(d, days - dayCounter)
      {
        r := Increment(r);
        dayCounter := dayCounter - 1;
      }
    } else {
      while dayCounter < 0
        invariant days <= dayCounter <= 0
        invariant r == Shifted(d, days - dayCounter)
      {
        r := Decrement(r);
        dayCounter := dayCounter + 1;
      }
    }
  }

  /** `first_of_next_month`: the day after the last day of `d`'s month. */
  function FirstOfNextMonth(d: Date): (r: Date)
    ensures r.day == 1 && Before(d, r)
    ensures r == Increment(d.(day := MaxDay(d)))
    ensures Valid(d) ==> Valid(r)
  {
    if d.month == 12 then Date(1, 1, d.year + 1) else Date(1, d.month + 1, d.year)
  }

  // ---------------------------------------------------------------------------
  // Properties of the day arithmetic
  // ---------------------------------------------------------------------------

  lemma BeforeTransitive(a: Date, b: Date, c: Date)
    requires Before(a, b) && Before(b, c)
    ensures Before(a, c)
  {
  }

  /** `decrement` undoes `increment` on every valid date except 31 December. */
  lemma DecrementAfterIncrement(d: Date)
    requires Valid(d)
    ensures Decrement(Increment(d)) == d <==> !(d.month == 12 && d.day == 31)
  {
  }

  /** `increment` undoes `decrement` on every valid date except 1 January. */
  lemma IncrementAfterDecrement(d: Date)
    requires Valid(d)
    ensures Increment(Decrement(d)) == d <==> !(d.month == 1 && d.day == 1)
  {
  }

  /** The corrected `decrement` is the two-sided inverse of `increment` on valid dates. */
  lemma DecrementFixedInverse(d: Date)
    requires Valid(d)
    ensures DecrementFixed(Increment(d)) == d
    ensures Increment(DecrementFixed(d)) == d
  {
  }

  /** The as-written `decrement` skips December: 1 January 2024 becomes 30 November 2023. */
  lemma DecrementSkipsDecember(year: int)
    ensures Decrement(Date(1, 1, year)) == Date(30, 11, year - 1)
    ensures Shifted(Shifted(Date(31, 12, year), 1), -1) == Date(30, 11, year)
    ensures DecrementFixed(Date(1, 1, year)) == Date(31, 12, year - 1)
  {
  }

  /** Moving forward `n` days from a valid date reaches a later valid date. */
  lemma {:induction false} ShiftedForward(d: Date, n: int)
    requires Valid(d) && n >= 0
    ensures Valid(Shifted(d, n))
    ensures n > 0 ==> Before(d, Shifted(d, n))
  {
    if n > 0 {
      ShiftedForward(d, n - 1);
      if n > 1 {
        BeforeTransitive(d, Shifted(d, n - 1), Shifted(d, n));
      }
    }
  }

  /** Within a month, moving forward `n` days adds `n` to the day. */
  lemma {:induction false} ShiftedWithinMonth(d: Date, n: int)
    requires Valid(d) && n >= 0 && d.day + n <= MaxDay(d)
    ensures Shifted(d, n) == d.(day := d.day + n)
  {
    if n > 0 {
      ShiftedWithinMonth(d, n - 1);
      IncrementWithinMonth(d, d.day + n - 1);
    }
  }

  /** Before the last day of its month, `increment` only moves the day on. */
  lemma IncrementWithinMonth(d: Date, day: int)
    requires day < MaxDay(d)
    ensures Increment(d.(day := day)) == d.(day := day + 1)
  {
    assert MaxDay(d.(day := day)) == MaxDay(d);
  }

  /** Moving back `n` days from a valid date after year `n` reaches an earlier valid date. */
  lemma {:induction false} ShiftedBackward(d: Date, n: int)
    requires Valid(d) && 0 <= n < d.year
    ensures Valid(Shifted(d, -n))
    ensures Shifted(d, -n).year >= d.year - n
    ensures n > 0 ==> Before(Shifted(d, -n), d)
  {
    if n > 0 {
      ShiftedBackward(d, n - 1);
      if n > 1 {
        BeforeTransitive(Shifted(d, -n), Shifted(d, -(n - 1)), d);
      }
    }
  }

  /** `n` days of the corrected arithmetic: `increment` forward, `DecrementFixed` back. */
  function ShiftedFixed(d: Date, n: int): Date
    decreases Abs(n)
  {
    if n == 0 then d
    else if n > 0 then Increment(ShiftedFixed(d, n - 1))
    else DecrementFixed(ShiftedFixed(d, n + 1))
  }

  lemma {:induction false} ShiftedFixedForwardFirst(x: Date, n: int)
    requires n >= 1
    ensures ShiftedFixed(x, n) == ShiftedFixed(Increment(x), n - 1)
  {
    if n > 1 {
      ShiftedFixedForwardFirst(x, n - 1);
    }
  }

  lemma {:induction false} ShiftedFixedBackwardFirst(x: Date, n: int)
    requires n >= 1
    ensures ShiftedFixed(x, -n) == ShiftedFixed(DecrementFixed(x), -(n - 1))
  {
    if n > 1 {
      ShiftedFixedBackwardFirst(x, n - 1);
    }
  }

  lemma {:induction false} ShiftedFixedValid(d: Date, n: int)
    requires Valid(d) && (n >= 0 || d.year > -n)
    ensures Valid(ShiftedFixed(d, n))
    ensures n < 0 ==> ShiftedFixed(d, n).year >= d.year + n
    decreases Abs(n)
  {
    if n > 0 {
      ShiftedFixedValid(d, n - 1);
    } else if n < 0 {
      ShiftedFixedValid(d, n + 1);
    }
  }

  /**
   * With the corrected `decrement`, moving `n` days and then `-n` days returns
   * to the starting date, in both directions, as long as no date before year 1
   * is passed.
   */
  lemma {:induction false} ShiftedFixedRoundTrip(d: Date, n: int)
    requires Valid(d) && (n >= 0 || d.year > -n)
    ensures ShiftedFixed(ShiftedFixed(d, n), -n) == d
    decreases Abs(n)
  {
    if n > 0 {
      ShiftedFixedRoundTrip(d, n - 1);
      RoundTripForwardStep(d, n);
    } else if n < 0 {
      ShiftedFixedRoundTrip(d, n + 1);
      RoundTripBackwardStep(d, n);
    }
  }

  /** One more day forward is undone by one more day back. */
  lemma RoundTripForwardStep(d: Date, n: int)
    requires Valid(d) && n > 0
    requires ShiftedFixed(ShiftedFixed(d, n - 1), -(n - 1)) == d
    ensures ShiftedFixed(ShiftedFixed(d, n), -n) == d
  {
    var p := ShiftedFixed(d, n - 1);
    ShiftedFixedValid(d, n - 1);
    ShiftedFixedBackwardFirst(Increment(p), n);
    DecrementFixedInverse(p);
  }

  /** One more day back is undone by one more day forward. */
  lemma RoundTripBackwardStep(d: Date, n: int)
    requires Valid(d) && n < 0 && d.year > -n
    requires ShiftedFixed(ShiftedFixed(d, n + 1), -(n + 1)) == d
    ensures ShiftedFixed(ShiftedFixed(d, n), -n) == d
  {
    var p := ShiftedFixed(d, n + 1);
    ShiftedFixedValid(d, n + 1);
    ShiftedFixedForwardFirst(DecrementFixed(p), -n);
    DecrementFixedInverse(p);
  }

  // ---------------------------------------------------------------------------
  // Properties of the weekday
  // ---------------------------------------------------------------------------

  lemma WeekdayOfStep(z: int)
    ensures WeekdayOf(z + 1) == WeekdayOf(z) % 7 + 1
  {
    ModAddLeft(z + 1, 5);
    ModAddLeft(z % 7 + 5, 1);
    ModAddLeft(z, 6);
  }

  /** Reducing the left summand first does not change the remainder. */
  lemma ModAddLeft(a: int, b: int)
    ensures (a % 7 + b) % 7 == (a + b) % 7
  {
    var q, s := a / 7, a % 7 + b;
    DivUnique(a + b, 7, q + s / 7, s % 7);
  }

  /**
   * Counting `d - 1` days on from a sum `z1` whose weekday is `w` reaches the
   * weekday `(w - 2 + d) % 7 + 1`.
   */
  lemma WeekdayOfAdvance(w: int, z1: int, zd: int, d: int)
    requires w == WeekdayOf(z1) && zd == z1 + (d - 1)
    ensures (w - 2 + d) % 7 + 1 == WeekdayOf(zd)
  {
    var r := z1 % 7 + 5;
    assert w - 2 + d == r % 7 + (d - 1);
    ModAddLeft(r, d - 1);
    ModAddLeft(z1, 5 + (d - 1));
    ModAddLeft(zd, 5);
  }

  /** Within a month the Zeller sum counts the days one by one. */
  lemma ZellerDaysApart(d: int, month: int, year: int)
    ensures ZellerSum(d, month, year) == ZellerSum(1, month, year) + (d - 1)
  {
  }

  lemma WeekdayOfCongruent(a: int, b: int)
    requires (a - b) % 7 == 0
    ensures WeekdayOf(a) == WeekdayOf(b)
  {
    assert a % 7 == b % 7;
  }

  /** Helper: the century-internal part of the Zeller sum across a year boundary. */
  lemma ZellerYearStepInCentury(y: int, j: int, k: int)
    requires y >= 1 && j == y / 100 && k == y % 100 && k >= 1
    ensures ZellerSum(1, 3, y) == 11 + k + k / 4 + j / 4 - 2 * j
    ensures ZellerSum(0, 2, y) == 39 + (k - 1) + (k - 1) / 4 + j / 4 - 2 * j
  {
    AgreesWhenNonNegative(y, 100);
    AgreesWhenNonNegative(y - 1, 100);
    DivUnique(y - 1, 100, j, k - 1);
  }

  /** Helper: the Zeller sum across a century boundary. */
  lemma ZellerYearStepAtCentury(y: int, j: int)
    requires y >= 1 && j == y / 100 && y % 100 == 0
    ensures ZellerSum(1, 3, y) == 11 + j / 4 - 2 * j
    ensures ZellerSum(0, 2, y) == 39 + 99 + 24 + (j - 1) / 4 - 2 * (j - 1)
  {
    AgreesWhenNonNegative(y, 100);
    AgreesWhenNonNegative(y - 1, 100);
    DivUnique(y - 1, 100, j - 1, 99);
  }

  lemma QuarterStep(k: int)
    requires k >= 1
    ensures k / 4 - (k - 1) / 4 == if k % 4 == 0 then 1 else 0
  {
  }

  /** The arithmetic of the February-to-March step inside a century: the sums differ by -56. */
  lemma MarchArithInCentury(j: int, k: int, last: int)
    requires 1 <= k <= 99
    requires last == if k % 4 == 0 then 29 else 28
    ensures (11 + k + k / 4 + j / 4 - 2 * j) - (last + (39 + (k - 1) + (k - 1) / 4 + j / 4 - 2 * j)) - 1 == -56
  {
    QuarterStep(k);
  }

  /** The February-to-March step for a year that is not a multiple of 100. */
  lemma MarchStepInCentury(y: int, last: int)
    requires y >= 1 && y % 100 >= 1
    requires last == if y % 4 == 0 then 29 else 28
    ensures (ZellerSum(1, 3, y) - (last + ZellerSum(0, 2, y)) - 1) % 7 == 0
  {
    var j := y / 100;
    var k := y % 100;
    ZellerYearStepInCentury(y, j, k);
    DivUnique(y, 4, 25 * j + k / 4, k % 4);
    MarchArithInCentury(j, k, last);
  }

  /** The arithmetic of the February-to-March step at a century: the sums differ by -182. */
  lemma MarchArithAtCentury(j: int, last: int)
    requires j >= 1
    requires last == if j % 4 == 0 then 29 else 28
    ensures (11 + j / 4 - 2 * j) - (last + (39 + 99 + 24 + (j - 1) / 4 - 2 * (j - 1))) - 1 == -182
  {
    QuarterStep(j);
  }

  /** The February-to-March step for a multiple of 100. */
  lemma MarchStepAtCentury(y: int, last: int)
    requires y >= 1 && y % 100 == 0
    requires last == if y % 400 == 0 then 29 else 28
    ensures (ZellerSum(1, 3, y) - (last + ZellerSum(0, 2, y)) - 1) % 7 == 0
  {
    var j := y / 100;
    ZellerYearStepAtCentury(y, j);
    DivUnique(y, 400, j / 4, 100 * (j % 4));
    MarchArithAtCentury(j, last);
  }

  /** The length of February, by the century rule. */
  lemma FebruaryLength(d: Date)
    requires Valid(d) && d.month == 2 && d.day == MaxDay(d)
    ensures d.year % 100 >= 1 ==> d.day == if d.year % 4 == 0 then 29 else 28
    ensures d.year % 100 == 0 ==> d.day == if d.year % 400 == 0 then 29 else 28
  {
  }

  /** In February the day enters the Zeller sum as a plain summand. */
  lemma FebruarySum(day: int, y: int)
    ensures ZellerSum(day, 2, y) == day + ZellerSum(0, 2, y)
  {
  }

  /** From the last day of February to 1 March the Zeller sum moves by 1 modulo 7. */
  lemma ZellerMarchStep(d: Date)
    requires Valid(d) && d.month == 2 && d.day == MaxDay(d)
    ensures (ZellerSum(1, 3, d.year) - ZellerSum(d.day, d.month, d.year) - 1) % 7 == 0
  {
    FebruaryLength(d);
    FebruarySum(d.day, d.year);
    if d.year % 100 >= 1 {
      MarchStepInCentury(d.year, d.day);
    } else {
      MarchStepAtCentury(d.year, d.day);
    }
  }

  /** From one valid date to the next the Zeller sum moves by 1 modulo 7. */
  lemma ZellerStep(d: Date)
    requires Valid(d)
    ensures (ZellerSum(Increment(d).day, Increment(d).month, Increment(d).year)
             - ZellerSum(d.day, d.month, d.year) - 1) % 7 == 0
  {
    if d.day < MaxDay(d) {
      ZellerStepInMonth(d);
    } else {
      ZellerStepMonthEnd(d);
    }
  }

  /** Within a month the day enters the sum as a plain summand. */
  lemma ZellerStepInMonth(d: Date)
    requires Valid(d) && d.day < MaxDay(d)
    ensures (ZellerSum(Increment(d).day, Increment(d).month, Increment(d).year)
             - ZellerSum(d.day, d.month, d.year) - 1) % 7 == 0
  {
    var i := Increment(d);
    assert i.day == d.day + 1 && i.month == d.month && i.year == d.year;
    ZellerNextDay(d.day, i.day, d.month, d.year);
  }

  lemma ZellerNextDay(day: int, next: int, month: int, year: int)
    requires next == day + 1
    ensures (ZellerSum(next, month, year) - ZellerSum(day, month, year) - 1) % 7 == 0
  {
    assert ZellerSum(next, month, year) - ZellerSum(day, month, year) - 1 == 0;
  }

  /** From the last day of a month to the 1st of the next the sum moves by 1 modulo 7. */
  lemma ZellerStepMonthEnd(d: Date)
    requires Valid(d) && d.day == MaxDay(d)
    ensures (ZellerSum(Increment(d).day, Increment(d).month, Increment(d).year)
             - ZellerSum(d.day, d.month, d.year) - 1) % 7 == 0
  {
    if d.month == 2 {
      assert Increment(d) == Date(1, 3, d.year);
      ZellerMarchStep(d);
    } else if d.month == 12 {
      assert Increment(d) == Date(1, 1, d.year + 1) && d.day == 31;
      DecemberStep(d.year);
    } else if d.month == 1 {
      assert Increment(d) == Date(1, 2, d.year) && d.day == 31;
      JanuaryStep(d.year);
    } else {
      assert Increment(d) == Date(1, d.month + 1, d.year);
      assert MaxDay(d) == MaxDay(Date(1, d.month, d.year));
      MidYearStep(d.month, d.year);
    }
  }

  /** From 31 December to 1 January the sum moves by 1 modulo 7: both count to the same year. */
  lemma DecemberStep(year: int)
    ensures (ZellerSum(1, 1, year + 1) - ZellerSum(31, 12, year) - 1) % 7 == 0
  {
    assert MonthTerm(13) == 36 && MonthTerm(12) == 33;
    assert ZellerSum(1, 1, year + 1) == 1 + MonthTerm(13) + YearTerm(year);
  }

  /** From 31 January to 1 February the sum moves by 1 modulo 7. */
  lemma JanuaryStep(year: int)
    ensures (ZellerSum(1, 2, year) - ZellerSum(31, 1, year) - 1) % 7 == 0
  {
    assert MonthTerm(14) == 39 && MonthTerm(13) == 36;
  }

  /** From the last day of a month in March..November to the 1st of the next the sum moves by 1 modulo 7. */
  lemma MidYearStep(month: int, year: int)
    requires 3 <= month <= 11
    ensures (ZellerSum(1, month + 1, year) - ZellerSum(MaxDay(Date(1, month, year)), month, year) - 1) % 7 == 0
  {
    MonthTermStep(month, year);
  }

  /** Between March and December the month term grows by the month's length minus 28. */
  lemma MonthTermStep(m: int, year: int)
    requires 3 <= m <= 11
    ensures MonthTerm(m + 1) - MonthTerm(m) == MaxDay(Date(1, m, year)) - 28
  {
    if m == 3 {
      assert MonthTerm(4) == 13 && MonthTerm(3) == 10;
    } else if m == 4 {
      assert MonthTerm(5) == 15 && MonthTerm(4) == 13;
    } else if m == 5 {
      assert MonthTerm(6) == 18 && MonthTerm(5) == 15;
    } else if m == 6 {
      assert MonthTerm(7) == 20 && MonthTerm(6) == 18;
    } else if m == 7 {
      assert MonthTerm(8) == 23 && MonthTerm(7) == 20;
    } else if m == 8 {
      assert MonthTerm(9) == 26 && MonthTerm(8) == 23;
    } else if m == 9 {
      assert MonthTerm(10) == 28 && MonthTerm(9) == 26;
    } else if m == 10 {
      assert MonthTerm(11) == 31 && MonthTerm(10) == 28;
    } else {
      assert MonthTerm(12) == 33 && MonthTerm(11) == 31;
    }
  }

  /** The corrected weekday advances by one, Sunday wrapping to Monday, from each day to the next. */
  lemma DayOfWeekFixedAdvances(d: Date)
    requires Valid(d)
    ensures DayOfWeekFixed(Increment(d)) == DayOfWeekFixed(d) % 7 + 1
  {
    var i := Increment(d);
    var z := ZellerSum(d.day, d.month, d.year);
    ZellerStep(d);
    WeekdayOfCongruent(ZellerSum(i.day, i.month, i.year), z + 1);
    WeekdayOfStep(z);
  }

  /** Moving `n` days forward moves the corrected weekday `n` places around the week. */
  lemma DayOfWeekFixedShifted(d: Date, n: int)
    requires Valid(d) && n >= 0
    ensures DayOfWeekFixed(Shifted(d, n)) == (DayOfWeekFixed(d) - 1 + n) % 7 + 1
  {
    ShiftedWeekdays(d, n);
    WeekdayAfterClosed(DayOfWeekFixed(d), n);
  }

  /** `n` steps around the week from the weekday `w`, Sunday wrapping to Monday. */
  function WeekdayAfter(w: int, n: nat): int {
    if n == 0 then w else WeekdayAfter(w, n - 1) % 7 + 1
  }

  /** Stepping `n` places from a weekday lands `n` places on, modulo 7. */
  lemma {:induction false} WeekdayAfterClosed(w: int, n: nat)
    requires 1 <= w <= 7
    ensures WeekdayAfter(w, n) == (w - 1 + n) % 7 + 1
  {
    if n > 0 {
      WeekdayAfterClosed(w, n - 1);
      WeekdayArithStep(w, n, WeekdayAfter(w, n - 1), WeekdayAfter(w, n));
    }
  }

  /** Each day forward steps the corrected weekday one place around the week. */
  lemma {:induction false} ShiftedWeekdays(d: Date, n: nat)
    requires Valid(d)
    ensures DayOfWeekFixed(Shifted(d, n)) == WeekdayAfter(DayOfWeekFixed(d), n)
  {
    if n > 0 {
      ShiftedWeekdays(d, n - 1);
      ShiftedWeekdayStep(d, n);
    }
  }

  /** The weekday of the `n`th day after `d` follows that of the day before it. */
  lemma ShiftedWeekdayStep(d: Date, n: int)
    requires Valid(d) && n > 0
    ensures DayOfWeekFixed(Shifted(d, n)) == DayOfWeekFixed(Shifted(d, n - 1)) % 7 + 1
  {
    ShiftedForward(d, n - 1);
    DayOfWeekFixedAdvances(Shifted(d, n - 1));
  }

  /** One more day: the weekday after the one `n - 1` places after `a` is `n` places after it. */
  lemma WeekdayArithStep(a: int, n: int, w: int, v: int)
    requires w == (a - 1 + (n - 1)) % 7 + 1 && v == w % 7 + 1
    ensures v == (a - 1 + n) % 7 + 1
  {
    ModAddLeft(a - 1 + (n - 1), 1);
  }

  /**
   * Reference points: 1 January 2000 was a Saturday and 16 September 2001 a
   * Sunday; 4 March 2001, also a Sunday, comes out of `day_of_week` as 0 and so
   * has no weekday name.
   */
  lemma WeekdayExamples()
    ensures DayOfWeekFixed(Date(1, 1, 2000)) == 6 && DayOfWeek(Date(1, 1, 2000)) == 6
    ensures DayOfWeek(Date(16, 9, 2001)) == 7 && DayString(Date(16, 9, 2001)) == "Sunday"
    ensures DayOfWeek(Date(4, 3, 2001)) == 0 && DayOfWeekFixed(Date(4, 3, 2001)) == 7
    ensures DayString(Date(4, 3, 2001)) == DAY_ERROR
  {
  }

  /** `day_string` names the weekday for every date whose `day_of_week` is not 0. */
  lemma DayStringNamesWeekday(d: Date)
    ensures DayOfWeek(d) != 0 ==> DayString(d) == DAYS[DayOfWeekFixed(d) - 1]
    ensures DayOfWeek(d) == 0 <==> DayString(d) == DAY_ERROR
  {
  }

  // ---------------------------------------------------------------------------
  // Text
  // ---------------------------------------------------------------------------

  /** Day or month as `to_filepath` prints it: a leading "0" below 10. */
  function Pad2(x: int): string {
    if x < 10 then "0" + IntToString(x) else IntToString(x)
  }

  /** The file name part of `to_filepath`: `DD-MM-YYYY.toml`, the year unpadded. */
  function FileName(d: Date): string {
    Pad2(d.day) + "-" + Pad2(d.month) + "-" + IntToString(d.year) + ".toml"
  }

  /** `month_string`: the month's name, or the error text when the month is not 1..12. */
  function MonthString(d: Date): (s: string)
    ensures 1 <= d.month <= 12 ==> s == MONTHS[d.month - 1]
    ensures !(1 <= d.month <= 12) ==> s == MONTH_ERROR
  {
    var monthShift := d.month - 1;
    if 0 <= monthShift < |MONTHS| then MONTHS[monthShift] else MONTH_ERROR
  }

  /** `day_string`: the weekday's name, or the error text when `day_of_week` is out of 1..7. */
  function DayString(d: Date): string {
    var dayShift := DayOfWeek(d) - 1;
    if 0 <= dayShift < |DAYS| then DAYS[dayShift] else DAY_ERROR
  }

  /** `calendar_title`. */
  function CalendarTitle(d: Date): string {
    " " + MonthString(d) + " " + IntToString(d.year) + " "
  }

  /** The ordinal suffix of `agenda_title`. */
  function OrdinalSuffix(day: int): (s: string)
    ensures 1 <= day <= 31 ==> (s == "st" <==> day in {1, 21, 31})
    ensures 1 <= day <= 31 ==> (s == "nd" <==> day in {2, 22})
    ensures 1 <= day <= 31 ==> (s == "th" <==> day !in {1, 2, 21, 22, 31})
  {
    if Rem(day, 10) == 1 && day != 11 then "st"
    else if Rem(day, 10) == 2 && day != 12 then "nd"
    else "th"
  }

  /** `agenda_title`. */
  function AgendaTitle(d: Date): string {
    "  Agenda \U{F01D9} " + DayString(d) + ", " + MonthString(d) + " "
      + IntToString(d.day) + OrdinalSuffix(d.day) + " " + IntToString(d.year) + " "
  }

  /**
   * The titles name the date's month and year, and the agenda title its
   * true weekday; a Sunday whose weekday comes out as 0 gets the error text
   * instead of "Sunday".
   */
  lemma TitlesNameTheDate(d: Date)
    requires Valid(d)
    ensures CalendarTitle(d) == " " + MONTHS[d.month - 1] + " " + IntToString(d.year) + " "
    ensures AgendaTitle(d) == "  Agenda \U{F01D9} "
              + (if DayOfWeek(d) == 0 then DAY_ERROR else DAYS[DayOfWeekFixed(d) - 1]) + ", "
              + MONTHS[d.month - 1] + " " + IntToString(d.day) + OrdinalSuffix(d.day) + " " + IntToString(d.year) + " "
    ensures DayOfWeek(d) == 0 ==> DayOfWeekFixed(d) == 7
  {
    DayStringNamesWeekday(d);
  }
}
