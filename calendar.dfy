/**
  Gregorian calendar dates and the normalisation JavaScript's
  `new Date(year, monthIndex, day)` applies when `day` exceeds the length
  of the month: the surplus days roll over into the following month (and
  from December into January of the following year).
 */
module Calendar {

  /** A calendar date; `month` is 1-based (1 = January), as in an ISO date. */
  datatype Date = Date(year: int, month: int, day: int)

  predicate IsLeapYear(y: int) {
    y % 4 == 0 && (y % 100 != 0 || y % 400 == 0)
  }

  function DaysInMonth(y: int, m: int): (n: int)
    requires 1 <= m <= 12
    ensures 28 <= n <= 31
    ensures m == 2 ==> (n == 29 <==> IsLeapYear(y))
  {
    if m == 2 then (if IsLeapYear(y) then 29 else 28)
    else if m == 4 || m == 6 || m == 9 || m == 11 then 30
    else 31
  }

  predicate ValidDate(d: Date) {
    1 <= d.month <= 12 && 1 <= d.day <= DaysInMonth(d.year, d.month)
  }

  /** Chronological order on dates, which is lexicographic on (year, month, day). */
  predicate DateLess(a: Date, b: Date) {
    a.year < b.year
    || (a.year == b.year && a.month < b.month)
    || (a.year == b.year && a.month == b.month && a.day < b.day)
  }

  /** The first day of the month after `d`'s month. */
  function FirstOfNextMonth(d: Date): (r: Date)
    requires ValidDate(d)
    ensures ValidDate(r) && r.day == 1 && DateLess(d, r)
  {
    if d.month == 12 then Date(d.year + 1, 1, 1) else Date(d.year, d.month + 1, 1)
  }

  /** The calendar day after `d`: the reference notion of "one day later". */
  function NextDay(d: Date): (r: Date)
    requires ValidDate(d)
    ensures ValidDate(r) && DateLess(d, r)
  {
    if d.day < DaysInMonth(d.year, d.month) then Date(d.year, d.month, d.day + 1)
    else FirstOfNextMonth(d)
  }

  /** The date `n` days after `d`, counted one day at a time. */
  function AddDays(d: Date, n: nat): (r: Date)
    requires ValidDate(d)
    ensures ValidDate(r)
    decreases n
  {
    if n == 0 then d else AddDays(NextDay(d), n - 1)
  }

  /**
    The date JavaScript builds for `new Date(year, monthIndex, day)` when
    `monthIndex` is 0-based (0..11, as `getMonth()` returns it) and `day` is
    a day of month (1..31, as `getDate()` returns it).
   */
  function FromParts(year: int, monthIndex: int, day: int): (r: Date)
    requires 0 <= monthIndex <= 11 && 1 <= day <= 31
    ensures ValidDate(r)
    ensures day <= DaysInMonth(year, monthIndex + 1) <==> r == Date(year, monthIndex + 1, day)
    ensures day > DaysInMonth(year, monthIndex + 1) ==>
              r == Date(FirstOfNextMonth(Date(year, monthIndex + 1, 1)).year,
                        FirstOfNextMonth(Date(year, monthIndex + 1, 1)).month,
                        day - DaysInMonth(year, monthIndex + 1))
  {
    var m := monthIndex + 1;
    var len := DaysInMonth(year, m);
    if day <= len then Date(year, m, day)
    else if m == 12 then Date(year + 1, 1, day - len)
    else Date(year, m + 1, day - len)
  }

  /** Moving forward within a month only changes the day. */
  lemma {:induction false} AddDaysWithinMonth(d: Date, k: nat)
    requires ValidDate(d) && d.day + k <= DaysInMonth(d.year, d.month)
    ensures AddDays(d, k) == Date(d.year, d.month, d.day + k)
    decreases k
  {
    if k > 0 {
      AddDaysWithinMonth(NextDay(d), k - 1);
    }
  }

  /** Moving forward past the end of the month lands in the next month. */
  lemma {:induction false} AddDaysIntoNextMonth(d: Date, k: nat)
    requires ValidDate(d)
    requires DaysInMonth(d.year, d.month) < d.day + k
    requires d.day + k - DaysInMonth(d.year, d.month) <= DaysInMonth(FirstOfNextMonth(d).year, FirstOfNextMonth(d).month)
    ensures AddDays(d, k) == Date(FirstOfNextMonth(d).year, FirstOfNextMonth(d).month,
                                  d.day + k - DaysInMonth(d.year, d.month))
    decreases k
  {
    if d.day < DaysInMonth(d.year, d.month) {
      AddDaysIntoNextMonth(NextDay(d), k - 1);
    } else {
      AddDaysWithinMonth(FirstOfNextMonth(d), k - 1);
    }
  }

  /**
    `new Date(y, m, d)` is day `d - 1` counted forward from the first of the
    month: the normalisation agrees with counting days one at a time.
   */
  lemma FromPartsCountsFromFirst(year: int, monthIndex: int, day: int)
    requires 0 <= monthIndex <= 11 && 1 <= day <= 31
    ensures FromParts(year, monthIndex, day) == AddDays(Date(year, monthIndex + 1, 1), day - 1)
  {
    var first := Date(year, monthIndex + 1, 1);
    if day <= DaysInMonth(year, monthIndex + 1) {
      AddDaysWithinMonth(first, day - 1);
    } else {
      AddDaysIntoNextMonth(first, day - 1);
    }
  }

  /** Larger day numbers give strictly later dates, so distinct template days stay distinct. */
  lemma FromPartsMonotone(year: int, monthIndex: int, day1: int, day2: int)
    requires 0 <= monthIndex <= 11 && 1 <= day1 < day2 <= 31
    ensures DateLess(FromParts(year, monthIndex, day1), FromParts(year, monthIndex, day2))
  {
  }

  /** The rolled-over date is never more than three days into the next month. */
  lemma FromPartsOverflowIsSmall(year: int, monthIndex: int, day: int)
    requires 0 <= monthIndex <= 11 && 1 <= day <= 31
    requires day > DaysInMonth(year, monthIndex + 1)
    ensures FromParts(year, monthIndex, day).day <= 3
    ensures monthIndex == 11 ==> FromParts(year, monthIndex, day) == Date(year + 1, 1, day - 31)
  {
  }
}
