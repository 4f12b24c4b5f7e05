/** Byte strings and the few library routines the proxy calls on them.
    A byte is a character below 256, so that literals stay readable. */
module ByteStrings {
  type byte = c: char | c as int < 256
  type Bytes = seq<byte>

  datatype Option<+T> = None | Some(value: T)

  const MAX_INT64 := 0x7fff_ffff_ffff_ffff
  const MIN_INT64 := -0x8000_0000_0000_0000

  predicate IsDigit(c: byte) { '0' <= c <= '9' }

  predicate AllDigits(s: Bytes) { forall i :: 0 <= i < |s| ==> IsDigit(s[i]) }

  /** Index of the first `c`, or -1. */
  function IndexByte(s: Bytes, c: byte): (r: int)
    ensures -1 <= r < |s|
    ensures r >= 0 ==> s[r] == c
  {
    if s == [] then -1
    else if s[0] == c then 0
    else
      var k := IndexByte(s[1..], c);
      if k == -1 then -1 else k + 1
  }

  /** `IndexByte` finds a `c` when there is one, and finds the first. */
  lemma {:induction false} IndexByteFirst(s: Bytes, c: byte)
    ensures IndexByte(s, c) == -1 <==> c !in s
    ensures forall i :: 0 <= i < IndexByte(s, c) ==> s[i] != c
  {
    if s != [] && s[0] != c {
      IndexByteFirst(s[1..], c);
      assert s == [s[0]] + s[1..];
    }
  }

  /** Cutting a string at its first `c`. */
  lemma CutAtFirst(s: Bytes, c: byte)
    requires IndexByte(s, c) >= 0
    ensures var k := IndexByte(s, c); c !in s[..k] && s == s[..k] + [c] + s[k + 1..]
  {
    IndexByteFirst(s, c);
    hide IndexByte;
  }

  /** `IndexByte` on a string cut at its first `c`. */
  lemma {:induction false} FirstByteAt(a: Bytes, c: byte, b: Bytes)
    requires c !in a
    ensures IndexByte(a + [c] + b, c) == |a|
    ensures (a + [c] + b)[..|a|] == a && (a + [c] + b)[|a| + 1..] == b
  {
    if a != [] {
      FirstByteAt(a[1..], c, b);
      assert (a + [c] + b)[1..] == a[1..] + [c] + b;
    }
  }

  /** The first `c` stays first when bytes are appended, and when they are cut off after it. */
  lemma {:induction false} IndexByteStable(s: Bytes, c: byte, t: Bytes)
    requires IndexByte(s, c) >= 0
    ensures IndexByte(s + t, c) == IndexByte(s, c)
    ensures IndexByte(s[..IndexByte(s, c)], c) == -1
    ensures IndexByte(s[..IndexByte(s, c) + 1], c) == IndexByte(s, c)
  {
    var k := IndexByte(s, c);
    if s[0] != c {
      IndexByteStable(s[1..], c, t);
      assert (s + t)[1..] == s[1..] + t;
      assert s[..k][1..] == s[1..][..k - 1];
      assert s[..k + 1][1..] == s[1..][..k];
    }
  }

  /** Drops leading spaces. */
  function TrimLeft(s: Bytes): (r: Bytes)
    ensures |r| <= |s|
    ensures r == [] || r[0] != ' '
  {
    if s != [] && s[0] == ' ' then TrimLeft(s[1..]) else s
  }

  predicate Blank(s: Bytes) { forall i :: 0 <= i < |s| ==> s[i] == ' ' }

  /** What `TrimLeft` drops is a run of spaces in front. */
  lemma {:induction false} TrimLeftDrops(s: Bytes)
    ensures var gap := s[..|s| - |TrimLeft(s)|];
            Blank(gap) && s == gap + TrimLeft(s)
  {
    if s != [] && s[0] == ' ' {
      TrimLeftDrops(s[1..]);
      assert s == [s[0]] + s[1..];
    }
  }

  /** Only leading spaces are dropped. */
  lemma {:induction false} TrimBlank(gap: Bytes, rest: Bytes)
    requires Blank(gap) && (rest == [] || rest[0] != ' ')
    ensures TrimLeft(gap + rest) == rest
  {
    if gap == [] {
      assert gap + rest == rest;
    } else {
      assert (gap + rest)[1..] == gap[1..] + rest;
      TrimBlank(gap[1..], rest);
    }
  }

  lemma Assoc(a: Bytes, b: Bytes, c: Bytes)
    ensures a + (b + c) == a + b + c
  {
  }

  predicate HasPrefix(s: Bytes, p: Bytes) { p <= s }

  function DigitValue(c: byte): nat
    requires IsDigit(c)
  {
    c as int - '0' as int
  }

  function DigitOf(d: nat): byte
    requires d < 10
  {
    (d + '0' as int) as char
  }

  /** Decimal digits of a natural number, most significant first. */
  function Digits(n: nat): (s: Bytes)
    ensures s != [] && AllDigits(s)
  {
    if n < 10 then [DigitOf(n)] else Digits(n / 10) + [DigitOf(n % 10)]
  }

  /** Decimal rendering of an integer, as `%d` and `strconv.Itoa` print it. */
  function Itoa(n: int): Bytes
  {
    if n < 0 then "-" + Digits(-n) else Digits(n)
  }

  /** The number a digit string denotes. */
  function Value(s: Bytes): (v: int)
    requires AllDigits(s)
    ensures v >= 0
  {
    if s == [] then 0 else 10 * Value(s[..|s| - 1]) + DigitValue(s[|s| - 1])
  }

  /** `strconv.Atoi` and `strconv.ParseInt(s, 10, 64)`: an optional sign, then at
      least one digit, and a value that fits 64 bits. */
  function ParseInt(s: Bytes): Option<int>
  {
    var signed := s != [] && (s[0] == '-' || s[0] == '+');
    var ds := if signed then s[1..] else s;
    if ds == [] || !AllDigits(ds) then None
    else
      var n: int := Value(ds);
      var v := if signed && s[0] == '-' then -n else n;
      if MIN_INT64 <= v <= MAX_INT64 then Some(v) else None
  }

  lemma {:induction false} DigitsRoundTrip(n: nat)
    ensures Value(Digits(n)) == n
  {
    if n < 10 {
      assert [DigitOf(n)][..0] == [];
    } else {
      DigitsRoundTrip(n / 10);
      var s := Digits(n);
      assert s[..|s| - 1] == Digits(n / 10);
    }
  }

  lemma ParseDigits(ds: Bytes)
    requires ds != [] && AllDigits(ds)
    ensures ParseInt(ds) == if Value(ds) <= MAX_INT64 then Some(Value(ds)) else None
    ensures -Value(ds) >= MIN_INT64 ==> ParseInt("-" + ds) == Some(-Value(ds))
  {
    assert IsDigit(ds[0]);
    assert ("-" + ds)[1..] == ds;
  }

  /** Printing then parsing gives the number back, for every 64-bit integer. */
  lemma ItoaParse(n: int)
    requires MIN_INT64 <= n <= MAX_INT64
    ensures ParseInt(Itoa(n)) == Some(n)
  {
    var m := if n < 0 then -n else n;
    DigitsRoundTrip(m);
    ParseDigits(Digits(m));
  }

  /** A rendered integer contains only digits and possibly a sign. */
  lemma ItoaBytes(n: int, c: byte)
    requires !IsDigit(c) && c != '-'
    ensures c !in Itoa(n)
  {
  }
}
