/** The keys of the audit records, and why their lexicographic order is chronological. */
module AuditKeys {
  import opened Types

  // ---------------------------------------------------------------------------
  // The UTC calendar
  // ---------------------------------------------------------------------------

  datatype Date = Date(year: nat, month: nat, day: nat)
  {
    ghost predicate Before(d: Date) {
      year < d.year || (year == d.year && (month < d.month || (month == d.month && day < d.day)))
    }

    /** Month and day are printed with two digits each. */
    predicate Valid() {
      1 <= month <= 12 && 1 <= day <= 31
    }
  }

  predicate IsLeap(year: nat) {
    year % 4 == 0 && (year % 100 == 0 ==> year % 400 == 0)
  }

  function DaysIn(year: nat, month: nat): nat {
    if month == 2 then (if IsLeap(year) then 29 else 28)
    else if month in {4, 6, 9, 11} then 30
    else 31
  }

  function NextDay(d: Date): Date {
    if d.day < DaysIn(d.year, d.month) then d.(day := d.day + 1)
    else if d.month < 12 then Date(d.year, d.month + 1, 1)
    else Date(d.year + 1, 1, 1)
  }

  /** The date n days after 1 January 1970. */
  function DateOfDay(n: nat): Date {
    if n == 0 then Date(1970, 1, 1) else NextDay(DateOfDay(n - 1))
  }

  function DateOf(t: Time): Date {
    DateOfDay(t / DAY)
  }

  lemma {:induction false} DatesAreValid(n: nat)
    ensures DateOfDay(n).Valid()
  {
    if n > 0 {
      DatesAreValid(n - 1);
    }
  }

  lemma {:induction false} DatesIncrease(m: nat, n: nat)
    requires m < n
    ensures DateOfDay(m).Before(DateOfDay(n))
  {
    DatesAreValid(n - 1);
    if m < n - 1 {
      DatesIncrease(m, n - 1);
    }
  }

  // ---------------------------------------------------------------------------
  // Fixed-width numerals and lexicographic order
  // ---------------------------------------------------------------------------

  const DIGITS: string := "0123456789"

  function Pad(n: nat, width: nat): (s: string)
    ensures |s| == width
  {
    if width == 0 then "" else Pad(n / 10, width - 1) + [DIGITS[n % 10]]
  }

  function Pow10(n: nat): nat {
    if n == 0 then 1 else 10 * Pow10(n - 1)
  }

  /** The order in which the sorted map of the state file lists its keys. */
  predicate Less(a: string, b: string) {
    b != [] && (a == [] || a[0] < b[0] || (a[0] == b[0] && Less(a[1..], b[1..])))
  }

  lemma {:induction false} LessConcat(a: string, b: string, x: string, y: string)
    requires |a| == |b|
    ensures Less(a + x, b + y) <==> Less(a, b) || (a == b && Less(x, y))
  {
    if a == [] {
      assert a + x == x && b + y == y;
    } else {
      assert (a + x)[1..] == a[1..] + x && (b + y)[1..] == b[1..] + y;
      LessConcat(a[1..], b[1..], x, y);
      assert a == b <==> a[0] == b[0] && a[1..] == b[1..];
    }
  }

  lemma DigitOrder(m: nat, n: nat)
    requires m < 10 && n < 10
    ensures DIGITS[m] < DIGITS[n] <==> m < n
    ensures DIGITS[m] == DIGITS[n] <==> m == n
  {
  }

  lemma {:induction false} PadOrder(m: nat, n: nat, width: nat)
    requires m < Pow10(width) && n < Pow10(width)
    ensures Less(Pad(m, width), Pad(n, width)) <==> m < n
    ensures Pad(m, width) == Pad(n, width) <==> m == n
  {
    if width > 0 {
      PadOrder(m / 10, n / 10, width - 1);
      DigitOrder(m % 10, n % 10);
      var p, q := Pad(m / 10, width - 1), Pad(n / 10, width - 1);
      LessConcat(p, q, [DIGITS[m % 10]], [DIGITS[n % 10]]);
      assert Pad(m, width)[..width - 1] == p && Pad(n, width)[..width - 1] == q;
      assert Pad(m, width)[width - 1] == DIGITS[m % 10] && Pad(n, width)[width - 1] == DIGITS[n % 10];
    }
  }

  // ---------------------------------------------------------------------------
  // Keys
  // ---------------------------------------------------------------------------

  function FormatDate(d: Date): string {
    Pad(d.year, 4) + (Pad(d.month, 2) + Pad(d.day, 2))
  }

  function Prefix(txHash: string): string {
    txHash[..Min(8, |txHash|)]
  }

  function MakeId(processedAt: Time, txHash: string): string {
    FormatDate(DateOf(processedAt)) + ("-" + Prefix(txHash))
  }

  lemma FormatOrder(a: Date, b: Date)
    requires a.Valid() && b.Valid() && a.year <= 9999 && b.year <= 9999
    ensures Less(FormatDate(a), FormatDate(b)) <==> a.Before(b)
    ensures FormatDate(a) == FormatDate(b) <==> a == b
  {
    assert Pow10(2) == 100 && Pow10(3) == 1000 && Pow10(4) == 10000;
    PadOrder(a.year, b.year, 4);
    PadOrder(a.month, b.month, 2);
    PadOrder(a.day, b.day, 2);
    var x, y := Pad(a.month, 2) + Pad(a.day, 2), Pad(b.month, 2) + Pad(b.day, 2);
    LessConcat(Pad(a.year, 4), Pad(b.year, 4), x, y);
    LessConcat(Pad(a.month, 2), Pad(b.month, 2), Pad(a.day, 2), Pad(b.day, 2));
    assert FormatDate(a)[..4] == Pad(a.year, 4) && FormatDate(b)[..4] == Pad(b.year, 4);
    assert FormatDate(a)[4..6] == Pad(a.month, 2) && FormatDate(b)[4..6] == Pad(b.month, 2);
    assert FormatDate(a)[6..] == Pad(a.day, 2) && FormatDate(b)[6..] == Pad(b.day, 2);
  }

  /** Keys order deposits by processing day, then by hash prefix; and when two keys are the same key. */
  lemma KeyOrder(t1: Time, h1: string, t2: Time, h2: string)
    requires DateOf(t1).year <= 9999 && DateOf(t2).year <= 9999
    ensures Less(MakeId(t1, h1), MakeId(t2, h2))
       <==> t1 / DAY < t2 / DAY || (t1 / DAY == t2 / DAY && Less(Prefix(h1), Prefix(h2)))
    ensures MakeId(t1, h1) == MakeId(t2, h2) <==> t1 / DAY == t2 / DAY && Prefix(h1) == Prefix(h2)
  {
    var a, b := DateOf(t1), DateOf(t2);
    var x, y := "-" + Prefix(h1), "-" + Prefix(h2);
    DatesAreValid(t1 / DAY);
    DatesAreValid(t2 / DAY);
    FormatOrder(a, b);
    LessConcat(FormatDate(a), FormatDate(b), x, y);
    LessConcat("-", "-", Prefix(h1), Prefix(h2));
    if t1 / DAY < t2 / DAY {
      DatesIncrease(t1 / DAY, t2 / DAY);
    } else if t2 / DAY < t1 / DAY {
      DatesIncrease(t2 / DAY, t1 / DAY);
    }
    assert MakeId(t1, h1)[..8] == FormatDate(a) && MakeId(t2, h2)[..8] == FormatDate(b);
    assert MakeId(t1, h1)[9..] == Prefix(h1) && MakeId(t2, h2)[9..] == Prefix(h2);
  }

  /** Every audit record is stored under the key made from its own contents. */
  ghost predicate KeysAreIds(payments: map<string, BankPayment>) {
    forall k :: k in payments ==>
      payments[k].id == k && k == MakeId(payments[k].processedAt, payments[k].txHash)
  }

  /** Read in key order, the audit records are in order of their processing day. */
  lemma AuditTrailIsChronological(payments: map<string, BankPayment>, k1: string, k2: string)
    requires KeysAreIds(payments) && k1 in payments && k2 in payments
    requires DateOf(payments[k1].processedAt).year <= 9999 && DateOf(payments[k2].processedAt).year <= 9999
    requires Less(k1, k2)
    ensures payments[k1].processedAt / DAY <= payments[k2].processedAt / DAY
  {
    KeyOrder(payments[k1].processedAt, payments[k1].txHash, payments[k2].processedAt, payments[k2].txHash);
  }

  // ---------------------------------------------------------------------------
  // What a key says, digit by digit
  // ---------------------------------------------------------------------------

  const MONTH_DAYS: seq<nat> := [31, 28, 31, 30, 31, 30, 31, 31, 30, 31, 30, 31]
  const DAYS_BEFORE: seq<nat> := [0, 31, 59, 90, 120, 151, 181, 212, 243, 273, 304, 334]

  /** 1 in the years of the Gregorian calendar that have a 29 February. */
  function LeapDay(year: nat): nat {
    if year % 4 == 0 && (year % 100 != 0 || year % 400 == 0) then 1 else 0
  }

  predicate IsDate(d: Date) {
    && 1 <= d.month <= 12
    && 1 <= d.day <= MONTH_DAYS[d.month - 1] + if d.month == 2 then LeapDay(d.year) else 0
  }

  /** Days from 1 January 1970 to a date, by leap years passed and days of the months passed. */
  function DayNumber(d: Date): int
    requires IsDate(d) && 1 <= d.year
  {
    365 * (d.year - 1970) + ((d.year - 1) / 4 - (d.year - 1) / 100 + (d.year - 1) / 400 - 477)
    + DAYS_BEFORE[d.month - 1] + (if d.month > 2 then LeapDay(d.year) else 0) + d.day - 1
  }

  lemma MonthLengths(d: Date)
    requires IsDate(d)
    ensures DaysIn(d.year, d.month) == MONTH_DAYS[d.month - 1] + if d.month == 2 then LeapDay(d.year) else 0
    ensures d.month < 12 ==> DAYS_BEFORE[d.month] == DAYS_BEFORE[d.month - 1] + MONTH_DAYS[d.month - 1]
  {
  }

  lemma LeapSteps(year: nat)
    requires 1 <= year
    ensures year / 4 == (year - 1) / 4 + if year % 4 == 0 then 1 else 0
    ensures year / 100 == (year - 1) / 100 + if year % 100 == 0 then 1 else 0
    ensures year / 400 == (year - 1) / 400 + if year % 400 == 0 then 1 else 0
  {
  }

  lemma Multiple(k: nat)
    ensures (4 * k) % 4 == 0 && (100 * k) % 100 == 0
  {
  }

  lemma Centuries(year: nat)
    ensures year % 100 == 0 ==> year % 4 == 0
    ensures year % 400 == 0 ==> year % 100 == 0
  {
    Multiple(25 * (year / 100));
    Multiple(4 * (year / 400));
  }

  lemma YearLength(year: nat)
    requires 1 <= year
    ensures year / 4 - year / 100 + year / 400 == (year - 1) / 4 - (year - 1) / 100 + (year - 1) / 400 + LeapDay(year)
  {
    LeapSteps(year);
    Centuries(year);
  }

  lemma NextDayCounts(d: Date)
    requires IsDate(d) && 1 <= d.year
    ensures IsDate(NextDay(d)) && DayNumber(NextDay(d)) == DayNumber(d) + 1
  {
    MonthLengths(d);
    hide DaysIn;
    if d.day == DaysIn(d.year, d.month) && d.month == 12 {
      YearLength(d.year);
      hide LeapDay;
    } else {
      hide LeapDay;
    }
  }

  /** The date of day n is the calendar's date n days after 1 January 1970. */
  lemma {:induction false} DateIsDayNumber(n: nat)
    ensures IsDate(DateOfDay(n)) && 1970 <= DateOfDay(n).year && DayNumber(DateOfDay(n)) == n
  {
    if n > 0 {
      DateIsDayNumber(n - 1);
      NextDayCounts(DateOfDay(n - 1));
    }
  }

  predicate IsDigits(s: string) {
    forall i :: 0 <= i < |s| ==> '0' <= s[i] <= '9'
  }

  /** The number that a string of digits stands for. */
  function ValueOf(s: string): nat
    requires IsDigits(s)
  {
    if s == [] then 0 else 10 * ValueOf(s[..|s| - 1]) + (s[|s| - 1] as int - '0' as int)
  }

  lemma ValueSnoc(s: string, c: char)
    requires IsDigits(s) && '0' <= c <= '9'
    ensures IsDigits(s + [c]) && ValueOf(s + [c]) == 10 * ValueOf(s) + (c as int - '0' as int)
  {
    assert (s + [c])[..|s|] == s;
  }

  lemma {:induction false} PadIs(n: nat, width: nat)
    requires n < Pow10(width)
    ensures IsDigits(Pad(n, width)) && ValueOf(Pad(n, width)) == n
  {
    if width > 0 {
      assert n / 10 < Pow10(width - 1) && DIGITS[n % 10] as int == '0' as int + n % 10;
      hide Pow10, IsDigits, ValueOf;
      PadIs(n / 10, width - 1);
      ValueSnoc(Pad(n / 10, width - 1), DIGITS[n % 10]);
    }
  }

  lemma AppendTwo(s: string, n: nat)
    requires IsDigits(s) && n < 100
    ensures IsDigits(s + Pad(n, 2)) && ValueOf(s + Pad(n, 2)) == 100 * ValueOf(s) + n
  {
    var tens, ones := DIGITS[n / 10], DIGITS[n % 10];
    assert DIGITS[n / 10] as int == '0' as int + n / 10 && DIGITS[n % 10] as int == '0' as int + n % 10;
    assert Pad(n / 10, 1) == [tens];
    assert s + Pad(n, 2) == (s + [tens]) + [ones];
    ValueSnoc(s, tens);
    ValueSnoc(s + [tens], ones);
  }

  lemma FormatIs(d: Date)
    requires d.Valid() && d.year <= 9999
    ensures IsDigits(FormatDate(d)) && ValueOf(FormatDate(d)) == 10_000 * d.year + 100 * d.month + d.day
  {
    var y, m, day := Pad(d.year, 4), Pad(d.month, 2), Pad(d.day, 2);
    assert Pow10(2) == 100 && Pow10(3) == 1000 && Pow10(4) == 10_000;
    PadIs(d.year, 4);
    hide Pad, ValueOf, Pow10, IsDigits;
    AppendTwo(y, d.month);
    AppendTwo(y + m, d.day);
    assert FormatDate(d) == (y + m) + day;
  }

  /**
   * A key is the eight digits YYYYMMDD of the UTC date of processing, a dash, and the first eight
   * characters of the hash.
   */
  lemma KeyText(t: Time, h: string)
    requires DateOf(t).year <= 9999
    ensures var id, d := MakeId(t, h), DateOf(t);
            && |id| >= 9 && IsDigits(id[..8]) && ValueOf(id[..8]) == 10_000 * d.year + 100 * d.month + d.day
            && IsDate(d) && 1970 <= d.year && DayNumber(d) == t / 86_400_000_000_000
            && id[8] == '-'
            && id[9..] == if |h| < 8 then h else h[..8]
  {
    var d := DateOf(t);
    DateIsDayNumber(t / DAY);
    FormatIs(d);
    hide ValueOf, IsDigits, DayNumber, IsDate, DateOfDay, Pad;
    assert MakeId(t, h)[..8] == FormatDate(d);
    assert MakeId(t, h)[9..] == Prefix(h);
  }
}
