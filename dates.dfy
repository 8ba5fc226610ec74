/**
 * Calendar dates as Python's `datetime.date` handles them: proleptic
 * Gregorian leap years, day arithmetic with `timedelta(days=n)`, and
 * `replace(year=...)`, which fails for 29 February in a common year.
 */
module Dates {
  import opened Wrappers

  datatype Date = Date(year: int, month: int, day: int)

  predicate IsLeap(y: int) {
    y % 4 == 0 && (y % 100 != 0 || y % 400 == 0)
  }

  function DaysInMonth(y: int, m: int): (n: int)
    requires 1 <= m <= 12
    ensures 28 <= n <= 31
    ensures n == 29 <==> m == 2 && IsLeap(y)
  {
    if m == 2 then (if IsLeap(y) then 29 else 28)
    else if m == 4 || m == 6 || m == 9 || m == 11 then 30
    else 31
  }

  predicate Valid(d: Date) {
    1 <= d.month <= 12 && 1 <= d.day <= DaysInMonth(d.year, d.month)
  }

  /** Chronological order: `a <= b`. */
  predicate NoLater(a: Date, b: Date) {
    a.year < b.year || (a.year == b.year && (a.month < b.month || (a.month == b.month && a.day <= b.day)))
  }

  function NextDay(d: Date): (r: Date)
    requires Valid(d)
    ensures Valid(r) && NoLater(d, r) && r != d
  {
    if d.day < DaysInMonth(d.year, d.month) then d.(day := d.day + 1)
    else if d.month < 12 then Date(d.year, d.month + 1, 1)
    else Date(d.year + 1, 1, 1)
  }

  function PrevDay(d: Date): (r: Date)
    requires Valid(d)
    ensures Valid(r) && NoLater(r, d) && r != d
  {
    if d.day > 1 then d.(day := d.day - 1)
    else if d.month > 1 then Date(d.year, d.month - 1, DaysInMonth(d.year, d.month - 1))
    else Date(d.year - 1, 12, 31)
  }

  lemma PrevNext(d: Date)
    requires Valid(d)
    ensures PrevDay(NextDay(d)) == d && NextDay(PrevDay(d)) == d
  {
  }

  /** `d + timedelta(days=n)`. */
  function AddDays(d: Date, n: nat): (r: Date)
    requires Valid(d)
    ensures Valid(r) && NoLater(d, r)
    ensures n > 0 ==> r != d
    decreases n
  {
    if n == 0 then d else AddDays(NextDay(d), n - 1)
  }

  /** `d - timedelta(days=n)`. */
  function SubDays(d: Date, n: nat): (r: Date)
    requires Valid(d)
    ensures Valid(r) && NoLater(r, d)
    ensures n > 0 ==> r != d
    decreases n
  {
    if n == 0 then d else SubDays(PrevDay(d), n - 1)
  }

  /** Going forward `n` days and back `n` days returns to the start. */
  lemma {:induction false} SubAddDays(d: Date, n: nat)
    requires Valid(d)
    ensures SubDays(AddDays(d, n), n) == d
    decreases n
  {
    if n > 0 {
      SubAddDays(NextDay(d), n - 1);
      SubDaysLast(AddDays(NextDay(d), n - 1), n - 1);
      PrevNext(d);
    }
  }

  /** Going back `n` days and forward `n` days returns to the start. */
  lemma {:induction false} AddSubDays(d: Date, n: nat)
    requires Valid(d)
    ensures AddDays(SubDays(d, n), n) == d
    decreases n
  {
    if n > 0 {
      AddSubDays(PrevDay(d), n - 1);
      AddDaysLast(SubDays(PrevDay(d), n - 1), n - 1);
      PrevNext(d);
    }
  }

  /** Going back `n + 1` days is going back `n` days and then one more. */
  lemma {:induction false} SubDaysLast(d: Date, n: nat)
    requires Valid(d)
    ensures SubDays(d, n + 1) == PrevDay(SubDays(d, n))
    decreases n
  {
    if n > 0 {
      SubDaysLast(PrevDay(d), n - 1);
    }
  }

  /**
   * `d.replace(year=y)`: the same month and day in year `y`, or None where
   * Python raises ValueError (29 February in a common year).
   */
  function ReplaceYear(d: Date, y: int): (r: Option<Date>)
    ensures r.None? <==> d.month == 2 && d.day == 29 && !IsLeap(y)
    ensures r.Some? ==> r.value == Date(y, d.month, d.day)
    ensures Valid(d) && r.Some? ==> Valid(r.value)
  {
    if d.month == 2 && d.day == 29 && !IsLeap(y) then None else Some(Date(y, d.month, d.day))
  }

  /** Going forward `n + 1` days is going forward `n` days and then one more. */
  lemma {:induction false} AddDaysLast(d: Date, n: nat)
    requires Valid(d)
    ensures AddDays(d, n + 1) == NextDay(AddDays(d, n))
    decreases n
  {
    if n > 0 {
      AddDaysLast(NextDay(d), n - 1);
    }
  }

  /** Going forward `k + j` days is going forward `k` days, then `j` more. */
  lemma {:induction false} AddDaysAdd(d: Date, k: nat, j: nat)
    requires Valid(d)
    ensures AddDays(d, k + j) == AddDays(AddDays(d, k), j)
    decreases k
  {
    if k > 0 {
      AddDaysAdd(NextDay(d), k - 1, j);
    }
  }

  /** Later offsets give later dates. */
  lemma AddDaysMonotone(d: Date, k: nat, j: nat)
    requires Valid(d) && k <= j
    ensures NoLater(AddDays(d, k), AddDays(d, j))
  {
    AddDaysAdd(d, k, j - k);
  }

  /**
   * Fewer than 28 days on from `d` is in the same month, the next month of
   * the same year, or (from December) January of the next year.
   */
  lemma {:induction false} AddFewDays(d: Date, k: nat)
    requires Valid(d) && k < 28
    ensures var r := AddDays(d, k);
      (r.year == d.year && r.month == d.month && r.day == d.day + k)
      || (r.year == d.year && r.month == d.month + 1 && r.day == d.day + k - DaysInMonth(d.year, d.month))
      || (r.year == d.year + 1 && d.month == 12 && r.month == 1 && r.day == d.day + k - 31)
  {
    if k > 0 {
      AddFewDays(d, k - 1);
      AddDaysLast(d, k - 1);
    }
  }
}
