/**
 * Calendar days and the integer arithmetic that JavaScript performs on numbers:
 * `new Date("YYYY-MM-DD")` (UTC midnight of that day), `Math.ceil` and `Math.round`
 * of an exact quotient.
 */
module Calendar {

  /** A calendar day, the value of a date input ("YYYY-MM-DD"); `month` is 1..12. */
  datatype Date = Date(year: int, month: int, day: int)

  /** Milliseconds in a day: `1000 * 60 * 60 * 24`. */
  const MS_PER_DAY: int := 86400000

  predicate IsLeapYear(y: int) {
    y % 4 == 0 && (y % 100 != 0 || y % 400 == 0)
  }

  function DaysInMonth(y: int, m: int): int
    requires 1 <= m <= 12
  {
    if m == 2 then (if IsLeapYear(y) then 29 else 28)
    else if m == 4 || m == 6 || m == 9 || m == 11 then 30
    else 31
  }

  predicate IsValid(d: Date) {
    1 <= d.month <= 12 && 1 <= d.day <= DaysInMonth(d.year, d.month)
  }

  /**
   * The number of days from 1970-01-01 to `d` in the proleptic Gregorian calendar, so that
   * `new Date("YYYY-MM-DD")` is `DayNumber(d) * MS_PER_DAY` milliseconds. The year is counted
   * from March so that the leap day comes last; `/` is floor division here as in the formula.
   */
  function DayNumber(d: Date): int {
    var y := if d.month <= 2 then d.year - 1 else d.year;
    var era := y / 400;
    var yearOfEra := y - era * 400;
    var marchMonth := (d.month + 9) % 12;
    var dayOfYear := (153 * marchMonth + 2) / 5 + d.day - 1;
    var dayOfEra := yearOfEra * 365 + yearOfEra / 4 - yearOfEra / 100 + dayOfYear;
    era * 146097 + dayOfEra - 719468
  }

  /** JavaScript's time origin is day 0. */
  lemma EpochIsDayZero()
    ensures DayNumber(Date(1970, 1, 1)) == 0
  {
  }

  /** Inside a month, the next day is the next day number. */
  lemma NextDayInMonth(d: Date)
    ensures DayNumber(Date(d.year, d.month, d.day + 1)) == DayNumber(d) + 1
  {
  }

  /** `Math.ceil(a / b)` for a positive divisor: the least integer not below the quotient. */
  function CeilDiv(a: int, b: int): (r: int)
    requires b > 0
    ensures b * (r - 1) < a <= b * r
  {
    -((-a) / b)
  }

  /**
   * `Math.round(a / b)` for a positive divisor: the nearest integer, a half rounded up,
   * computed exactly as the floor of (2a + b) / 2b.
   */
  function RoundDiv(a: int, b: int): (r: int)
    requires b > 0
    ensures -b <= 2 * a - 2 * (b * r) < b
  {
    var n, d := 2 * a + b, 2 * b;
    var q := n / d;
    assert n == d * q + n % d;
    assert d * q == 2 * (b * q);
    q
  }

  /** A quotient of a total lying between `lo` and `hi` times the divisor rounds into `lo..hi`. */
  lemma RoundDivBetween(a: int, b: int, lo: int, hi: int)
    requires b > 0 && lo * b <= a <= hi * b
    ensures lo <= RoundDiv(a, b) <= hi
  {
    var r := RoundDiv(a, b);
    assert lo * b == b * lo && hi * b == b * hi;
    if r < lo {
      assert b * (lo - 1) == b * lo - b;
      MulMonotone(b, r, lo - 1);
    }
    if r > hi {
      assert b * (hi + 1) == b * hi + b;
      MulMonotone(b, hi + 1, r);
    }
  }

  /** `total > 0 ? Math.round((part / total) * 100) : 0`, on exact rationals. */
  function Percent(part: int, total: int): (r: int)
    ensures total <= 0 ==> r == 0
    ensures 0 <= part <= total ==> 0 <= r <= 100
    ensures total > 0 ==> -total <= 200 * part - 2 * (total * r) < total
  {
    if total > 0 then
      var r := RoundDiv(100 * part, total);
      PercentBounds(part, total, r);
      r
    else 0
  }

  lemma PercentBounds(part: int, total: int, r: int)
    requires total > 0 && -total <= 200 * part - 2 * (total * r) < total
    ensures 0 <= part <= total ==> 0 <= r <= 100
  {
    if 0 <= part <= total {
      if r < 0 {
        MulMonotone(total, r, -1);
      }
      if r > 100 {
        MulMonotone(total, 101, r);
      }
    }
  }

  lemma MulMonotone(a: int, x: int, y: int)
    requires a >= 0 && x <= y
    ensures a * x <= a * y
  {
    assert a * y - a * x == a * (y - x);
  }

  /** Everything done is 100%, nothing done is 0%. */
  lemma PercentExtremes(total: int)
    requires total > 0
    ensures Percent(total, total) == 100 && Percent(0, total) == 0
  {
    var r := Percent(total, total);
    if r < 100 {
      MulMonotone(total, r, 99);
    }
    var z := Percent(0, total);
    if z > 0 {
      MulMonotone(total, 1, z);
    }
  }
}
