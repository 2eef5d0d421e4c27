/**
 * Printing and scanning unsigned numbers as the C library's "%u" and "%x" do.  Conversions are
 * to 32 bits.
 */
module NumText {

  const U32: nat := 0x1_0000_0000

  predicate IsBase(base: nat) { base == 10 || base == 16 }

  predicate IsDigit(c: char, base: nat) {
    '0' <= c <= '9' || (base == 16 && ('a' <= c <= 'f' || 'A' <= c <= 'F'))
  }

  function DigitOf(c: char): (d: nat)
    requires IsDigit(c, 16)
    ensures d < 16
  {
    if c <= '9' then c as int - '0' as int
    else if c >= 'a' then c as int - 'a' as int + 10
    else c as int - 'A' as int + 10
  }

  function Digit(d: nat): (c: char)
    requires d < 16
    ensures IsDigit(c, 16) && DigitOf(c) == d
    ensures d < 10 ==> IsDigit(c, 10)
    ensures '0' <= c <= '9' || 'a' <= c <= 'f'
    ensures d > 0 ==> c != '0'
  {
    if d < 10 then ('0' as int + d) as char else ('a' as int + (d - 10)) as char
  }

  /** "%u" or, in base 16, "%x". */
  function Print(n: nat, base: nat): (s: string)
    requires IsBase(base)
    ensures s != ""
  {
    if n < base then [Digit(n)] else Print(n / base, base) + [Digit(n % base)]
  }

  predicate AllDigits(s: string, base: nat) { forall i :: 0 <= i < |s| ==> IsDigit(s[i], base) }

  function Value(s: string, base: nat): nat
    requires IsBase(base) && AllDigits(s, base)
  {
    if s == "" then 0 else Value(s[..|s| - 1], base) * base + DigitOf(s[|s| - 1])
  }

  lemma {:induction false} PrintValue(n: nat, base: nat)
    requires IsBase(base)
    ensures AllDigits(Print(n, base), base) && Value(Print(n, base), base) == n
  {
    if n < base {
      assert Print(n, base)[..0] == "";
    } else {
      PrintValue(n / base, base);
      var s := Print(n, base);
      assert s[..|s| - 1] == Print(n / base, base);
    }
  }

  lemma PrintInjective(m: nat, n: nat, base: nat)
    requires IsBase(base) && Print(m, base) == Print(n, base)
    ensures m == n
  {
    PrintValue(m, base);
    PrintValue(n, base);
  }

  function Power(b: nat, k: nat): nat { if k == 0 then 1 else b * Power(b, k - 1) }

  lemma {:induction false} PrintLength(n: nat, base: nat, k: nat)
    requires IsBase(base) && k > 0 && n < Power(base, k)
    ensures |Print(n, base)| <= k
  {
    assert Power(base, 1) == base;
    if n >= base {
      assert n / base < Power(base, k - 1);
      PrintLength(n / base, base, k - 1);
    }
  }

  lemma Decimal32(n: nat)
    requires n < U32
    ensures |Print(n, 10)| <= 10
  {
    assert Power(10, 5) == 100000;
    assert Power(10, 10) == 10 * (10 * (10 * (10 * (10 * Power(10, 5)))));
    PrintLength(n, 10, 10);
  }

  lemma Hex32(n: nat)
    requires n < U32
    ensures |Print(n, 16)| <= 8
  {
    assert Power(16, 4) == 65536;
    assert Power(16, 8) == 16 * (16 * (16 * (16 * Power(16, 4))));
    PrintLength(n, 16, 8);
  }

  lemma Decimal16(n: nat)
    requires n < 65536
    ensures |Print(n, 10)| <= 5
  {
    assert Power(10, 5) == 100000;
    PrintLength(n, 10, 5);
  }

  lemma Decimal8(n: nat)
    requires n < 256
    ensures |Print(n, 10)| <= 3
  {
    assert Power(10, 3) == 1000;
    PrintLength(n, 10, 3);
  }

  // ---------------------------------------------------------------- scanning

  predicate IsSpace(c: char) { c == ' ' || '\t' <= c <= '\r' }

  function SkipSpace(s: string): (k: nat)
    ensures k <= |s|
  {
    if s != "" && IsSpace(s[0]) then 1 + SkipSpace(s[1..]) else 0
  }

  /** The length of the longest run of digits in front. */
  function RunLength(s: string, base: nat): (k: nat)
    ensures k <= |s| && AllDigits(s[..k], base) && (k < |s| ==> !IsDigit(s[k], base))
  {
    if s != "" && IsDigit(s[0], base) then
      var k := RunLength(s[1..], base);
      assert s[..k + 1] == [s[0]] + s[1..][..k];
      k + 1
    else 0
  }

  datatype Scan = NoMatch | Match(value: nat, used: nat)

  /** One "%u" or "%x": white space, an optional sign, digits. */
  function ScanNumber(s: string, base: nat): (r: Scan)
    requires IsBase(base)
    ensures r.Match? ==> r.used <= |s| && r.value < U32 && r.used > 0
  {
    var w := SkipSpace(s);
    var t := s[w..];
    var g := if t != "" && (t[0] == '+' || t[0] == '-') then 1 else 0;
    var k := RunLength(t[g..], base);
    if k == 0 then NoMatch
    else
      var v := Value(t[g..][..k], base) % U32;
      Match(if g == 1 && t[0] == '-' then (U32 - v) % U32 else v, w + g + k)
  }

  /** Literal text of a format, then one number. */
  function ScanAfter(lit: string, s: string, base: nat): (r: Scan)
    requires IsBase(base)
    ensures r.Match? ==> r.used <= |s| && r.value < U32 && r.used > |lit|
  {
    if lit <= s then
      match ScanNumber(s[|lit|..], base)
      case NoMatch => NoMatch
      case Match(v, k) => Match(v, k + |lit|)
    else NoMatch
  }

  predicate Stops(rest: string, base: nat) { rest == "" || !IsDigit(rest[0], base) }

  lemma {:induction false} RunExact(a: string, rest: string, base: nat)
    requires AllDigits(a, base) && Stops(rest, base)
    ensures RunLength(a + rest, base) == |a|
  {
    if a == "" {
      assert a + rest == rest;
    } else {
      RunExact(a[1..], rest, base);
      assert (a + rest)[1..] == a[1..] + rest;
    }
  }

  lemma PlainScan(s: string, base: nat)
    requires IsBase(base) && s != "" && IsDigit(s[0], base)
    ensures ScanNumber(s, base) == Match(Value(s[..RunLength(s, base)], base) % U32, RunLength(s, base))
  {
    hide Value;
    assert s[0..] == s;
  }

  /** What was printed scans back, up to the end of its digits. */
  lemma ScanPrinted(n: nat, rest: string, base: nat)
    requires IsBase(base) && n < U32 && Stops(rest, base)
    ensures ScanNumber(Print(n, base) + rest, base) == Match(n, |Print(n, base)|)
  {
    PrintValue(n, base);
    var p := Print(n, base);
    hide Print, Value, ScanNumber;
    RunExact(p, rest, base);
    assert (p + rest)[..|p|] == p;
    PlainScan(p + rest, base);
  }
}
