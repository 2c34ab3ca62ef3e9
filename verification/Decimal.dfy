/** Decimal printing (`std::to_string`) and scanning (`std::from_chars`). */
module Decimal {
  import opened Machine

  predicate IsDigit(c: char) {
    '0' <= c <= '9'
  }

  predicate AllDigits(s: string) {
    forall i :: 0 <= i < |s| ==> IsDigit(s[i])
  }

  function DigitChar(d: nat): (c: char)
    requires d < 10
    ensures IsDigit(c) && c as int - '0' as int == d
  {
    ('0' as int + d) as char
  }

  /** The number a string of digits denotes. */
  function Denoted(s: string): nat
    requires AllDigits(s)
  {
    if s == "" then 0
    else 10 * Denoted(s[..|s| - 1]) + (s[|s| - 1] as int - '0' as int)
  }

  function PrintNat(n: nat): (s: string)
    ensures s != "" && AllDigits(s) && Denoted(s) == n
  {
    if n < 10 then
      assert Denoted("") == 0;
      [DigitChar(n)]
    else
      var front := PrintNat(n / 10);
      var s := front + [DigitChar(n % 10)];
      assert s[..|s| - 1] == front;
      s
  }

  function Print(n: int): string {
    if n < 0 then "-" + PrintNat(-n) else PrintNat(n)
  }

  /** The printed form is decimal: the last digit is the remainder by ten, and the digits before it print the rest. */
  lemma PrintDigits(n: nat, d: nat)
    requires d < 10
    ensures PrintNat(d) == ["0123456789"[d]]
    ensures n > 0 ==> Print(10 * n + d) == Print(n) + ["0123456789"[d]] && Print(-10 * n - d) == "-" + Print(10 * n + d)
  {
    if n > 0 {
      assert (10 * n + d) / 10 == n && (10 * n + d) % 10 == d;
    }
  }

  /** Length of the longest all-digit prefix. */
  function DigitRun(s: string): (n: nat)
    ensures n <= |s| && AllDigits(s[..n])
    ensures n < |s| ==> !IsDigit(s[n])
  {
    if s == "" || !IsDigit(s[0]) then 0
    else
      var n := DigitRun(s[1..]);
      assert s[..1 + n] == [s[0]] + s[1..][..n];
      1 + n
  }

  datatype Scanned = Scanned(value: int, length: nat)

  /** Scans digits only; `None` when there is no digit or the number exceeds `limit`. */
  function ScanDigits(s: string, limit: int): Option<Scanned> {
    var n := DigitRun(s);
    if n == 0 || Denoted(s[..n]) > limit then None else Some(Scanned(Denoted(s[..n]), n))
  }

  /** `std::from_chars` into a `uint64_t`: no sign is accepted. */
  function ScanUnsigned(s: string): Option<Scanned> {
    ScanDigits(s, UINT64_MAX)
  }

  /** `std::from_chars` into an `int64_t`: an optional minus sign, then digits; trailing bytes are left. */
  function ScanSigned(s: string): Option<Scanned> {
    if s != "" && s[0] == '-' then
      match ScanDigits(s[1..], -INT64_MIN)
      case None => None
      case Some(r) => Some(Scanned(-r.value, 1 + r.length))
    else ScanDigits(s, INT64_MAX)
  }

  predicate StartsWithDigit(s: string) {
    s != "" && IsDigit(s[0])
  }

  lemma {:induction false} DigitRunStops(d: string, rest: string)
    requires AllDigits(d) && !StartsWithDigit(rest)
    ensures DigitRun(d + rest) == |d|
  {
    if d == "" {
      assert d + rest == rest;
    } else {
      assert (d + rest)[1..] == d[1..] + rest;
      DigitRunStops(d[1..], rest);
    }
  }

  lemma ScanPrintedNat(n: nat, rest: string, limit: int)
    requires n <= limit && !StartsWithDigit(rest)
    ensures ScanDigits(PrintNat(n) + rest, limit) == Some(Scanned(n, |PrintNat(n)|))
  {
    var d := PrintNat(n);
    DigitRunStops(d, rest);
    assert (d + rest)[..|d|] == d;
  }

  lemma ScanPrintedNegative(n: nat, rest: string)
    requires n <= -INT64_MIN && !StartsWithDigit(rest)
    ensures ScanSigned("-" + PrintNat(n) + rest) == Some(Scanned(0 - n, 1 + |PrintNat(n)|))
  {
    ScanPrintedNat(n, rest, -INT64_MIN);
    assert ("-" + PrintNat(n) + rest)[1..] == PrintNat(n) + rest;
  }

  lemma ScanPrintedPositive(n: nat, rest: string)
    requires n <= INT64_MAX && !StartsWithDigit(rest)
    ensures ScanSigned(PrintNat(n) + rest) == Some(Scanned(n, |PrintNat(n)|))
  {
    ScanPrintedNat(n, rest, INT64_MAX);
    assert (PrintNat(n) + rest)[0] == PrintNat(n)[0] && IsDigit(PrintNat(n)[0]);
  }

  /** Scanning a printed `int64_t` gives it back, whatever non-digit follows. */
  lemma ScanPrinted(n: int, rest: string)
    requires INT64_MIN <= n <= INT64_MAX && !StartsWithDigit(rest)
    ensures ScanSigned(Print(n) + rest) == Some(Scanned(n, |Print(n)|))
  {
    if n < 0 {
      ScanPrintedNegative(-n, rest);
    } else {
      ScanPrintedPositive(n, rest);
    }
  }

  /** No string of digits denoting a number is shorter than the printed one. */
  lemma {:induction false} PrintNatShortest(d: string)
    requires d != "" && AllDigits(d)
    ensures |PrintNat(Denoted(d))| <= |d|
  {
    var front := d[..|d| - 1];
    if Denoted(d) >= 10 {
      assert Denoted(d) / 10 == Denoted(front);
      assert Denoted("") == 0;
      PrintNatShortest(front);
    }
  }

  /** What `from_chars` accepts is a 64-bit number at least as long as its printed form. */
  lemma ScannedBounds(s: string)
    ensures ScanSigned(s).Some? ==>
              var r := ScanSigned(s).value;
              INT64_MIN <= r.value <= INT64_MAX && |Print(r.value)| <= r.length <= |s|
  {
    var body := if s != "" && s[0] == '-' then s[1..] else s;
    if DigitRun(body) > 0 {
      PrintNatShortest(body[..DigitRun(body)]);
    }
  }

  lemma {:induction false} DigitRunBefore(a: string, rest: string)
    requires rest != "" && !IsDigit(rest[0])
    ensures DigitRun(a + rest) == DigitRun(a)
  {
    if a == "" {
      assert a + rest == rest;
    } else {
      assert (a + rest)[1..] == a[1..] + rest;
      DigitRunBefore(a[1..], rest);
    }
  }

  lemma ScanDigitsBefore(a: string, rest: string, limit: int)
    requires rest != "" && !IsDigit(rest[0])
    ensures ScanDigits(a + rest, limit) == ScanDigits(a, limit)
  {
    DigitRunBefore(a, rest);
    assert (a + rest)[..DigitRun(a)] == a[..DigitRun(a)];
  }

  /** Nothing from a byte on that no number has in it is looked at. */
  lemma ScanBefore(a: string, rest: string)
    requires rest != "" && !IsDigit(rest[0]) && rest[0] != '-'
    ensures ScanSigned(a + rest) == ScanSigned(a)
  {
    if a != "" && a[0] == '-' {
      assert (a + rest)[1..] == a[1..] + rest;
      ScanDigitsBefore(a[1..], rest, -INT64_MIN);
    } else {
      ScanDigitsBefore(a, rest, INT64_MAX);
    }
  }
}
