/** Hour buckets of internal/store/usage.go: `2006-01-02T15` in UTC, compared as text by the
    database. Hours are counted from the start of year 0. */
module HourBuckets {
  import opened ByteStrings

  datatype Date = Date(year: nat, month: nat, day: nat)

  predicate IsLeap(y: nat) { y % 4 == 0 && (y % 100 != 0 || y % 400 == 0) }

  function DaysIn(y: nat, m: nat): nat
  {
    if m == 2 then (if IsLeap(y) then 29 else 28)
    else if m == 4 || m == 6 || m == 9 || m == 11 then 30
    else 31
  }

  predicate ValidDate(d: Date) { 1 <= d.month <= 12 && 1 <= d.day <= DaysIn(d.year, d.month) }

  function NextDay(d: Date): Date
  {
    if d.day < DaysIn(d.year, d.month) then d.(day := d.day + 1)
    else if d.month < 12 then Date(d.year, d.month + 1, 1)
    else Date(d.year + 1, 1, 1)
  }

  /** The civil date of a day number. */
  function DateOf(n: nat): (d: Date)
    ensures ValidDate(d)
  {
    if n == 0 then Date(0, 1, 1) else NextDay(DateOf(n - 1))
  }

  function Two(n: nat): Bytes
    requires n < 100
  {
    [DigitOf(n / 10), DigitOf(n % 10)]
  }

  /** `2006-01-02`, for four-digit years. */
  function DayText(d: Date): (s: Bytes)
    requires ValidDate(d) && d.year <= 9999
    ensures |s| == 10
  {
    Two(d.year / 100) + Two(d.year % 100) + "-" + Two(d.month) + "-" + Two(d.day)
  }

  predicate FourDigit(hour: nat) { DateOf(hour / 24).year <= 9999 }

  /** `2006-01-02T15`. */
  function Bucket(hour: nat): Bytes
    requires FourDigit(hour)
  {
    DayText(DateOf(hour / 24)) + "T" + Two(hour % 24)
  }

  /** The first bucket of the day an hour falls in: its date followed by `T00`. */
  function DayStart(hour: nat): Bytes
    requires FourDigit(hour)
  {
    DayText(DateOf(hour / 24)) + "T00"
  }

  /** Text order as the database compares. */
  predicate Less(a: Bytes, b: Bytes)
  {
    b != [] && (a == [] || a[0] < b[0] || (a[0] == b[0] && Less(a[1..], b[1..])))
  }

  lemma {:induction false} LessOrder(a: Bytes, b: Bytes, c: Bytes)
    ensures !(Less(a, b) && Less(b, a)) && !Less(a, a)
    ensures Less(a, b) || a == b || Less(b, a)
    ensures Less(a, b) && Less(b, c) ==> Less(a, c)
  {
    if a != [] && b != [] {
      LessOrder(a[1..], b[1..], if c == [] then [] else c[1..]);
      assert a == [a[0]] + a[1..] && b == [b[0]] + b[1..];
    } else if a != [] {
      LessOrder(a[1..], a[1..], []);
    }
  }

  /** Comparing concatenations of equally long heads. */
  lemma {:induction false} LessConcat(a: Bytes, b: Bytes, x: Bytes, y: Bytes)
    requires |a| == |b|
    ensures Less(a + x, b + y) <==> Less(a, b) || (a == b && Less(x, y))
  {
    if a == [] {
      assert a + x == x && b + y == y;
    } else {
      LessConcat(a[1..], b[1..], x, y);
      assert (a + x)[1..] == a[1..] + x && (b + y)[1..] == b[1..] + y;
      assert a == [a[0]] + a[1..] && b == [b[0]] + b[1..];
    }
  }

  lemma TwoOrder(m: nat, n: nat)
    requires m < 100 && n < 100
    ensures Less(Two(m), Two(n)) <==> m < n
    ensures Two(m) == Two(n) <==> m == n
  {
    var x, y := Two(m)[1..], Two(n)[1..];
    assert x == [DigitOf(m % 10)] && y == [DigitOf(n % 10)];
    assert !Less(x[1..], y[1..]);
    assert Less(x, y) <==> m % 10 < n % 10;
    assert m == 10 * (m / 10) + m % 10 && n == 10 * (n / 10) + n % 10;
  }

  predicate Before(a: Date, b: Date)
  {
    a.year < b.year || (a.year == b.year && (a.month < b.month || (a.month == b.month && a.day < b.day)))
  }

  /** Prefixing a two-digit field compares that field first. */
  lemma FieldOrder(m: nat, n: nat, sep: Bytes, x: Bytes, y: Bytes)
    requires m < 100 && n < 100
    ensures Less(Two(m) + (sep + x), Two(n) + (sep + y)) <==> m < n || (m == n && Less(x, y))
  {
    TwoOrder(m, n);
    LessConcat(Two(m), Two(n), sep + x, sep + y);
    LessConcat(sep, sep, x, y);
    LessOrder(sep, sep, sep);
  }

  lemma DayTextSplit(d: Date)
    requires ValidDate(d) && d.year <= 9999
    ensures DayText(d) == Two(d.year / 100) + ([] + (Two(d.year % 100) + ("-" + (Two(d.month) + ("-" + Two(d.day))))))
  {
  }

  lemma DayTextOrder(a: Date, b: Date)
    requires ValidDate(a) && a.year <= 9999 && ValidDate(b) && b.year <= 9999
    ensures Less(DayText(a), DayText(b)) <==> Before(a, b)
  {
    hide Less, Two, DayText;
    DayTextSplit(a);
    DayTextSplit(b);
    TwoOrder(a.day, b.day);
    FieldOrder(a.month, b.month, "-", Two(a.day), Two(b.day));
    var am, bm := Two(a.month) + ("-" + Two(a.day)), Two(b.month) + ("-" + Two(b.day));
    FieldOrder(a.year % 100, b.year % 100, "-", am, bm);
    FieldOrder(a.year / 100, b.year / 100, [],
               Two(a.year % 100) + ("-" + am), Two(b.year % 100) + ("-" + bm));
  }

  lemma {:induction false} DateOfMonotone(m: nat, n: nat)
    requires m < n
    ensures Before(DateOf(m), DateOf(n))
    decreases n
  {
    if m < n - 1 {
      DateOfMonotone(m, n - 1);
    }
  }

  /** For four-digit years, text order on buckets is chronological order. */
  lemma BucketOrder(s: nat, t: nat)
    requires FourDigit(s) && FourDigit(t)
    ensures Less(Bucket(s), Bucket(t)) <==> s < t
  {
    hide Less, DayText, DateOf, Two;
    var a, b := DateOf(s / 24), DateOf(t / 24);
    DayTextOrder(a, b);
    LessOrder(DayText(a), DayText(b), []);
    DayTextOrder(b, a);
    if s / 24 < t / 24 {
      DateOfMonotone(s / 24, t / 24);
    } else if t / 24 < s / 24 {
      DateOfMonotone(t / 24, s / 24);
    }
    TwoOrder(s % 24, t % 24);
    LessConcat(DayText(a), DayText(b), "T" + Two(s % 24), "T" + Two(t % 24));
    LessConcat("T", "T", Two(s % 24), Two(t % 24));
    Assoc(DayText(a), "T", Two(s % 24));
    Assoc(DayText(b), "T", Two(t % 24));
    LessOrder("T", "T", "T");
  }

  lemma DayStartIsBucket(hour: nat)
    requires FourDigit(hour)
    ensures 24 * (hour / 24) / 24 == hour / 24
    ensures FourDigit(24 * (hour / 24)) && DayStart(hour) == Bucket(24 * (hour / 24))
  {
    var day := hour / 24;
    assert (24 * day) / 24 == day && (24 * day) % 24 == 0;
    assert "T" + Two(0) == "T00";
    Assoc(DayText(DateOf(day)), "T", Two(0));
  }

  /** Earlier hours have four-digit years too. */
  lemma EarlierFourDigit(earlier: nat, now: nat)
    requires FourDigit(now) && earlier <= now
    ensures FourDigit(earlier)
  {
    if earlier / 24 < now / 24 {
      DateOfMonotone(earlier / 24, now / 24);
    } else {
      assert earlier / 24 == now / 24;
    }
  }

  /** The retention threshold `now - days` lies before the current day, so no text that counts
      for today is ever below it. */
  lemma RetentionSparesToday(now: nat, days: nat, bucket: Bytes)
    requires FourDigit(now) && days >= 1 && 24 * days <= now
    ensures FourDigit(now - 24 * days)
    ensures !Less(bucket, DayStart(now)) ==> !Less(bucket, Bucket(now - 24 * days))
  {
    var cut := now - 24 * days;
    assert cut / 24 == now / 24 - days;
    DateOfMonotone(cut / 24, now / 24);
    DayStartIsBucket(now);
    BucketOrder(cut, 24 * (now / 24));
    LessOrder(bucket, Bucket(cut), DayStart(now));
  }

  /** The day label `substr(hour_bucket, 1, 10)` is the bucket's date. */
  lemma BucketLabel(hour: nat)
    requires FourDigit(hour)
    ensures |Bucket(hour)| == 13 && Bucket(hour)[..10] == DayText(DateOf(hour / 24))
  {
  }

  /** Two buckets have the same day label exactly when they fall on the same day. */
  lemma SameDayLabel(s: nat, t: nat)
    requires FourDigit(s) && FourDigit(t)
    ensures |Bucket(s)| == 13 && |Bucket(t)| == 13
    ensures Bucket(s)[..10] == Bucket(t)[..10] <==> s / 24 == t / 24
  {
    BucketLabel(s);
    BucketLabel(t);
    var a, b := DateOf(s / 24), DateOf(t / 24);
    hide Bucket, DateOf, DayText;
    DayTextOrder(a, b);
    DayTextOrder(b, a);
    LessOrder(DayText(a), DayText(b), DayText(a));
    if s / 24 < t / 24 {
      DateOfMonotone(s / 24, t / 24);
    } else if t / 24 < s / 24 {
      DateOfMonotone(t / 24, s / 24);
    }
  }

  // ----- what a bucket says -----

  /** Days before a year and before a month of it, in closed form (year 0 is a leap year). */
  function DaysBeforeYear(y: nat): int { 365 * y + (y + 3) / 4 - (y + 99) / 100 + (y + 399) / 400 }

  function DaysBeforeMonth(y: nat, m: nat): int
  {
    var common := [0, 31, 59, 90, 120, 151, 181, 212, 243, 273, 304, 334];
    if 1 <= m <= 12 then
      common[m - 1] + if m > 2 then DaysBeforeYear(y + 1) - DaysBeforeYear(y) - 365 else 0
    else 0
  }

  function DayNumber(d: Date): int { DaysBeforeYear(d.year) + DaysBeforeMonth(d.year, d.month) + d.day - 1 }

  lemma YearLength(y: nat)
    ensures DaysBeforeYear(y + 1) - DaysBeforeYear(y) == if IsLeap(y) then 366 else 365
  {
    Crossing(y, 4, 3);
    Crossing(y, 100, 99);
    Crossing(y, 400, 399);
    assert y % 400 == 0 ==> y % 100 == 0 by { Multiple(y, 100, 4); }
    assert y % 100 == 0 ==> y % 4 == 0 by { Multiple(y, 4, 25); }
  }

  /** Rounding up moves on exactly at the multiples. */
  lemma Crossing(y: nat, n: nat, less: nat)
    requires n > 0 && less == n - 1
    ensures (y + 1 + less) / n - (y + less) / n == if y % n == 0 then 1 else 0
  {
    var q, r := y / n, y % n;
    assert y == n * q + r;
    assert n * (q + 1) == n * q + n;
    Quotient(y + n, n, q + 1, r);
    if r == 0 {
      Quotient(y + less, n, q, less);
    } else {
      Quotient(y + less, n, q + 1, r - 1);
    }
  }

  lemma Quotient(x: nat, n: nat, q: nat, r: nat)
    requires n > 0 && r < n && x == n * q + r
    ensures x / n == q
  {
    var d := x / n;
    assert x == n * d + x % n;
    Times(n, d + 1, q);
    Times(n, q + 1, d);
    assert n * (d + 1) == n * d + n && n * (q + 1) == n * q + n;
  }

  lemma Times(n: nat, a: nat, b: nat)
    ensures a <= b ==> n * a <= n * b
  {
  }

  lemma Multiple(y: nat, n: nat, k: nat)
    requires n > 0 && k > 0
    ensures y % (n * k) == 0 ==> y % n == 0
  {
    if y % (n * k) == 0 {
      var m := y / (n * k);
      assert y == n * k * m == n * (k * m);
      Quotient(y, n, k * m, 0);
    }
  }

  lemma NextDayCounts(d: Date)
    requires ValidDate(d)
    ensures DayNumber(NextDay(d)) == DayNumber(d) + 1
  {
    YearLength(d.year);
    hide DaysBeforeYear, IsLeap;
  }

  /** The calendar is the Gregorian one: the date of the `n`-th day has `n` days before it. */
  lemma {:induction false} DateOfCounts(n: nat)
    ensures DayNumber(DateOf(n)) == n
  {
    if n > 0 {
      DateOfCounts(n - 1);
      NextDayCounts(DateOf(n - 1));
    }
  }

  lemma TwoReads(n: nat)
    requires n < 100
    ensures AllDigits(Two(n)) && Value(Two(n)) == n
  {
    var s, d := Two(n), DigitOf(n / 10);
    assert s[..1] == [d] && [d][..0] == [];
    assert Value([d]) == 10 * Value([]) + DigitValue(d) == n / 10;
    assert Value(s) == 10 * Value([d]) + DigitValue(s[1]);
  }

  /** The pieces of the text. */
  lemma TextPieces(a: Bytes, b: Bytes, m: Bytes, d: Bytes, t: Bytes)
    requires |a| == |b| == |m| == |d| == |t| == 2
    ensures var s := a + b + "-" + m + "-" + d + "T" + t;
            && |s| == 13 && s[4] == '-' && s[7] == '-' && s[10] == 'T'
            && s[0..2] == a && s[2..4] == b && s[5..7] == m && s[8..10] == d && s[11..13] == t
  {
  }

  lemma BucketSlices(hour: nat)
    requires FourDigit(hour)
    ensures var b, d := Bucket(hour), DateOf(hour / 24);
            && |b| == 13 && b[4] == '-' && b[7] == '-' && b[10] == 'T'
            && b[0..2] == Two(d.year / 100) && b[2..4] == Two(d.year % 100)
            && b[5..7] == Two(d.month) && b[8..10] == Two(d.day) && b[11..13] == Two(hour % 24)
  {
    var d := DateOf(hour / 24);
    TextPieces(Two(d.year / 100), Two(d.year % 100), Two(d.month), Two(d.day), Two(hour % 24));
    hide DateOf;
  }

  /** The date a bucket's digits spell. */
  function Spelled(b: Bytes): Date
    requires |b| == 13 && AllDigits(b[0..2]) && AllDigits(b[2..4]) && AllDigits(b[5..7]) && AllDigits(b[8..10])
  {
    Date(100 * Value(b[0..2]) + Value(b[2..4]), Value(b[5..7]), Value(b[8..10]))
  }

  lemma SpelledIs(b: Bytes, d: Date)
    requires |b| == 13 && d.year <= 9999 && d.month < 100 && d.day < 100
    requires b[0..2] == Two(d.year / 100) && b[2..4] == Two(d.year % 100)
    requires b[5..7] == Two(d.month) && b[8..10] == Two(d.day)
    ensures AllDigits(b[0..2]) && AllDigits(b[2..4]) && AllDigits(b[5..7]) && AllDigits(b[8..10])
    ensures Spelled(b) == d
  {
    TwoReads(d.year / 100);
    TwoReads(d.year % 100);
    TwoReads(d.month);
    TwoReads(d.day);
    hide Two, Value, AllDigits;
  }

  /** Reading a bucket back: year, month, day and hour at their places, with their separators, and
      together they name the hour. */
  lemma BucketReads(hour: nat)
    requires FourDigit(hour)
    ensures var b := Bucket(hour);
            && |b| == 13 && b[4] == '-' && b[7] == '-' && b[10] == 'T'
            && AllDigits(b[0..2]) && AllDigits(b[2..4]) && AllDigits(b[5..7]) && AllDigits(b[8..10])
            && AllDigits(b[11..13])
            && 24 * DayNumber(Spelled(b)) + Value(b[11..13]) == hour
  {
    BucketSlices(hour);
    SpelledIs(Bucket(hour), DateOf(hour / 24));
    DateOfCounts(hour / 24);
    TwoReads(hour % 24);
    hide *;
  }
}
