/** Calendar days as the ledger stores them: the `YYYY-MM-DD` part of an ISO
    timestamp, without any time of day. */
module Dates {

  datatype Date = Date(year: int, month: int, day: int)

  predicate IsLeapYear(y: int) {
    (y % 4 == 0 && y % 100 != 0) || y % 400 == 0
  }

  /** Length of month `m` (1 = January) of year `y` in the Gregorian calendar. */
  function DaysInMonth(y: int, m: int): (n: int)
    requires 1 <= m <= 12
    ensures 28 <= n <= 31
    ensures m == 2 ==> (n == 29 <==> IsLeapYear(y))
  {
    if m == 2 then (if IsLeapYear(y) then 29 else 28)
    else if m == 4 || m == 6 || m == 9 || m == 11 then 30
    else 31
  }

  predicate ValidDate(d: Date) {
    1 <= d.month <= 12 && 1 <= d.day <= DaysInMonth(d.year, d.month)
  }

  /** Strict calendar order: year first, then month, then day.  On zero-padded
      ISO strings this is the order `<` compares them in (see `IsoOrderAgrees`). */
  predicate Before(a: Date, b: Date) {
    a.year < b.year
    || (a.year == b.year && (a.month < b.month || (a.month == b.month && a.day < b.day)))
  }

  /** `a <= b` on calendar days. */
  predicate NotAfter(a: Date, b: Date) {
    !Before(b, a)
  }

  lemma BeforeIsStrictTotalOrder(a: Date, b: Date, c: Date)
    ensures !Before(a, a)
    ensures Before(a, b) && Before(b, c) ==> Before(a, c)
    ensures a == b || Before(a, b) || Before(b, a)
    ensures !(Before(a, b) && Before(b, a))
  {
  }

  /** The first day of the month after the month of `d`. */
  function FirstOfNextMonth(d: Date): (t: Date)
    requires 1 <= d.month <= 12
    ensures ValidDate(t) && t.day == 1 && Before(d, t)
    ensures d.month < 12 ==> t.year == d.year && t.month == d.month + 1
    ensures d.month == 12 ==> t.year == d.year + 1 && t.month == 1
  {
    if d.month == 12 then Date(d.year + 1, 1, 1) else Date(d.year, d.month + 1, 1)
  }

  /** Number of days of year `y` that lie before the first of month `m`. */
  function DaysBeforeMonth(y: int, m: int): (n: int)
    requires 1 <= m <= 13
    ensures n >= 0
    decreases m
  {
    if m == 1 then 0 else DaysBeforeMonth(y, m - 1) + DaysInMonth(y, m - 1)
  }

  /** Position of a day within its year, counting January 1 as 1. */
  function DayOfYear(d: Date): int
    requires 1 <= d.month <= 12
  {
    DaysBeforeMonth(d.year, d.month) + d.day
  }

  /** The due-date roll of an interest-only payment: `setMonth(getMonth() + 1)`
      on a JavaScript `Date`.  The day of the month is kept; when the next month
      is too short for it, the surplus days spill into the month after, the way
      `Date` normalises an out-of-range day (January 31 becomes March 2 or 3).
      December rolls over to January of the next year. */
  function AddMonth(d: Date): (r: Date)
    requires ValidDate(d)
    ensures ValidDate(r)
    ensures Before(d, r)
    ensures d.day <= 28 ==> r == FirstOfNextMonth(d).(day := d.day)
    ensures d.day <= DaysInMonth(FirstOfNextMonth(d).year, FirstOfNextMonth(d).month)
            <==> r.month == FirstOfNextMonth(d).month
  {
    var t := FirstOfNextMonth(d);
    var len := DaysInMonth(t.year, t.month);
    if d.day <= len then t.(day := d.day)
    else Date(t.year, t.month + 1, d.day - len)
  }

  /** Reference reading of `AddMonth`: JavaScript builds the new date as "day
      number `d.day` counted from the first of the next month", so the result
      lies in the same year as that first and `d.day - 1` days after it. */
  lemma AddMonthCountsDaysFromNextFirst(d: Date)
    requires ValidDate(d)
    ensures AddMonth(d).year == FirstOfNextMonth(d).year
    ensures DayOfYear(AddMonth(d)) == DayOfYear(FirstOfNextMonth(d)) + d.day - 1
  {
    var t := FirstOfNextMonth(d);
    if d.day > DaysInMonth(t.year, t.month) {
      assert t.month < 12;
      assert DaysBeforeMonth(t.year, t.month + 1)
          == DaysBeforeMonth(t.year, t.month) + DaysInMonth(t.year, t.month);
    }
  }

  /** Two valid dates of the same year with the same day number are equal, so
      the day count above determines `AddMonth(d)` completely. */
  lemma {:induction false} DayOfYearInjective(a: Date, b: Date)
    requires ValidDate(a) && ValidDate(b) && a.year == b.year
    requires DayOfYear(a) == DayOfYear(b)
    ensures a == b
  {
    if a.month < b.month {
      LaterMonthLaterDay(a, b);
    } else if b.month < a.month {
      LaterMonthLaterDay(b, a);
    }
  }

  /** Every day of a later month of the same year has a larger day number. */
  lemma LaterMonthLaterDay(a: Date, b: Date)
    requires ValidDate(a) && ValidDate(b) && a.year == b.year && a.month < b.month
    ensures DayOfYear(a) < DayOfYear(b)
  {
    DaysBeforeMonthGrows(a.year, a.month + 1, b.month);
  }

  /** Every whole month between `m` and `k` adds its length. */
  lemma {:induction false} DaysBeforeMonthGrows(y: int, m: int, k: int)
    requires 2 <= m <= k <= 13
    ensures DaysBeforeMonth(y, k) >= DaysBeforeMonth(y, m - 1) + DaysInMonth(y, m - 1)
  {
    if k > m {
      DaysBeforeMonthGrows(y, m, k - 1);
    }
  }

  lemma AddMonthExamples()
    ensures AddMonth(Date(2024, 1, 10)) == Date(2024, 2, 10)
    ensures AddMonth(Date(2024, 1, 31)) == Date(2024, 3, 2)
    ensures AddMonth(Date(2023, 1, 31)) == Date(2023, 3, 3)
    ensures AddMonth(Date(2024, 3, 31)) == Date(2024, 5, 1)
    ensures AddMonth(Date(2024, 12, 15)) == Date(2025, 1, 15)
  {
  }

  // ISO text form.  The source keeps dates as `YYYY-MM-DD` strings and compares
  // them with JavaScript's `<` on strings; the lemmas below show that for years
  // 0 through 9999 that comparison is exactly `Before`.

  /** JavaScript's `<` on strings of ASCII characters: lexicographic order,
      with a proper prefix ordered first. */
  predicate LexLess(a: string, b: string)
    decreases |a|
  {
    if a == [] then b != []
    else if b == [] then false
    else if a[0] != b[0] then a[0] < b[0]
    else LexLess(a[1..], b[1..])
  }

  function Pow10(w: nat): (p: nat)
    ensures p >= 1
  {
    if w == 0 then 1 else 10 * Pow10(w - 1)
  }

  function DigitChar(k: int): char
    requires 0 <= k < 10
  {
    ('0' as int + k) as char
  }

  /** `n` written in decimal with exactly `w` digits, zero-padded on the left. */
  function Digits(n: nat, w: nat): (s: string)
    ensures |s| == w
  {
    if w == 0 then [] else Digits(n / 10, w - 1) + [DigitChar(n % 10)]
  }

  /** `Date.toISOString().split('T')[0]` for years 0 through 9999. */
  function Iso(d: Date): (s: string)
    requires 0 <= d.year <= 9999 && ValidDate(d)
    ensures |s| == 10 && s[4] == '-' && s[7] == '-'
  {
    Digits(d.year, 4) + (['-'] + (Digits(d.month, 2) + (['-'] + Digits(d.day, 2))))
  }

  /** Comparing two strings that start with prefixes of the same length: the
      prefixes decide unless they are equal. */
  lemma {:induction false} LexLessConcat(p: string, q: string, s: string, t: string)
    requires |p| == |q|
    ensures LexLess(p + s, q + t) == if p == q then LexLess(s, t) else LexLess(p, q)
  {
    if p != [] {
      assert (p + s)[0] == p[0] && (q + t)[0] == q[0];
      assert (p + s)[1..] == p[1..] + s && (q + t)[1..] == q[1..] + t;
      if p[0] == q[0] {
        LexLessConcat(p[1..], q[1..], s, t);
        assert p == q <==> p[1..] == q[1..] by {
          if p[1..] == q[1..] { assert p == [p[0]] + p[1..] && q == [q[0]] + q[1..]; }
        }
      }
    } else {
      assert p + s == s && q + t == t;
    }
  }

  /** Fixed-width decimal strings compare like the numbers they spell. */
  lemma {:induction false} DigitsOrder(x: nat, y: nat, w: nat)
    requires x < Pow10(w) && y < Pow10(w)
    ensures Digits(x, w) == Digits(y, w) <==> x == y
    ensures LexLess(Digits(x, w), Digits(y, w)) <==> x < y
  {
    if w == 0 {
      assert x == 0 && y == 0;
    } else {
      var qx, qy := x / 10, y / 10;
      assert qx < Pow10(w - 1) && qy < Pow10(w - 1);
      DigitsOrder(qx, qy, w - 1);
      LexLessConcat(Digits(qx, w - 1), Digits(qy, w - 1), [DigitChar(x % 10)], [DigitChar(y % 10)]);
      if qx == qy {
        assert x == 10 * qx + x % 10 && y == 10 * qy + y % 10;
        assert LexLess([DigitChar(x % 10)], [DigitChar(y % 10)]) <==> x % 10 < y % 10 by {
          assert [DigitChar(x % 10)][1..] == [] && [DigitChar(y % 10)][1..] == [];
        }
        if Digits(x, w) == Digits(y, w) {
          assert Digits(x, w)[w - 1] == DigitChar(x % 10);
          assert Digits(y, w)[w - 1] == DigitChar(y % 10);
        }
      } else {
        assert x != y;
        assert Digits(x, w) != Digits(y, w) by {
          assert Digits(x, w)[..w - 1] == Digits(qx, w - 1);
          assert Digits(y, w)[..w - 1] == Digits(qy, w - 1);
        }
        assert x < y <==> qx < qy;
      }
    }
  }

  /** The string comparison `dueDate < today` of the source is `Before`. */
  lemma IsoOrderAgrees(a: Date, b: Date)
    requires 0 <= a.year <= 9999 && ValidDate(a)
    requires 0 <= b.year <= 9999 && ValidDate(b)
    ensures LexLess(Iso(a), Iso(b)) <==> Before(a, b)
    ensures Iso(a) == Iso(b) <==> a == b
  {
    assert Pow10(4) == 10000 && Pow10(2) == 100;
    DigitsOrder(a.year, b.year, 4);
    DigitsOrder(a.month, b.month, 2);
    DigitsOrder(a.day, b.day, 2);
    var da, db := ['-'] + Digits(a.day, 2), ['-'] + Digits(b.day, 2);
    var ma, mb := ['-'] + (Digits(a.month, 2) + da), ['-'] + (Digits(b.month, 2) + db);
    LexLessConcat(Digits(a.year, 4), Digits(b.year, 4), ma, mb);
    LexLessConcat(['-'], ['-'], Digits(a.month, 2) + da, Digits(b.month, 2) + db);
    LexLessConcat(Digits(a.month, 2), Digits(b.month, 2), da, db);
    LexLessConcat(['-'], ['-'], Digits(a.day, 2), Digits(b.day, 2));
    assert Iso(a) == Iso(b) ==> a == b by {
      if Iso(a) == Iso(b) {
        assert Iso(a)[..4] == Digits(a.year, 4) && Iso(b)[..4] == Digits(b.year, 4);
        assert Iso(a)[5..7] == Digits(a.month, 2) && Iso(b)[5..7] == Digits(b.month, 2);
        assert Iso(a)[8..] == Digits(a.day, 2) && Iso(b)[8..] == Digits(b.day, 2);
      }
    }
  }
}
