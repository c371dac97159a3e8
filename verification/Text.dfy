/** Text helpers of the HTTP code: white space, line ends, and numbers in decimal and hexadecimal. */
module Text {
  import opened Optional
  import opened Sizes

  // ---------------------------------------------------------------- characters

  predicate IsSpace(c: char) {
    c == ' ' || '\t' <= c <= '\r'
  }

  predicate IsDigit(c: char) {
    '0' <= c <= '9'
  }

  predicate IsAlnum(c: char) {
    IsDigit(c) || 'A' <= c <= 'Z' || 'a' <= c <= 'z'
  }

  /** A character of a token (section 5.6.2 of RFC 9110). */
  predicate IsTokenChar(c: char) {
    IsAlnum(c) || c in "!#$%&'*+-.^_`|~"
  }

  /** `isValidHeaderName` */
  predicate IsToken(s: string) {
    s != [] && forall c :: c in s ==> IsTokenChar(c)
  }

  function Lower(c: char): char {
    if 'A' <= c <= 'Z' then (c as int + 32) as char else c
  }

  /** `caseInsensitiveCompare` */
  predicate SameIgnoringCase(a: string, b: string) {
    |a| == |b| && forall i :: 0 <= i < |a| ==> Lower(a[i]) == Lower(b[i])
  }

  // ---------------------------------------------------------------- trimming

  function TrimLeft(s: string): string {
    if s != [] && IsSpace(s[0]) then TrimLeft(s[1..]) else s
  }

  function TrimRight(s: string): string {
    if s != [] && IsSpace(s[|s| - 1]) then TrimRight(s[..|s| - 1]) else s
  }

  function Trim(s: string): string {
    TrimRight(TrimLeft(s))
  }

  predicate Trimmed(s: string) {
    s == [] || (!IsSpace(s[0]) && !IsSpace(s[|s| - 1]))
  }

  lemma TrimTrimmed(s: string)
    requires Trimmed(s)
    ensures Trim(s) == s
  {
  }

  lemma TrimAfterSpace(s: string)
    requires Trimmed(s)
    ensures Trim([' '] + s) == s
  {
    assert ([' '] + s)[1..] == s;
    assert TrimLeft([' '] + s) == TrimLeft(s) == s;
  }

  // ---------------------------------------------------------------- searching

  predicate CrLfAt(s: string, i: int) {
    0 <= i && i + 2 <= |s| && s[i] == '\r' && s[i + 1] == '\n'
  }

  /** Where the first line ends, or -1. */
  function CrLf(s: string): (k: int)
    ensures k == -1 || CrLfAt(s, k)
    ensures forall i :: 0 <= i && (k == -1 || i < k) ==> !CrLfAt(s, i)
  {
    if |s| < 2 then -1
    else if s[0] == '\r' && s[1] == '\n' then 0
    else
      var k := CrLf(s[1..]);
      assert forall i :: CrLfAt(s, i) && i != 0 ==> CrLfAt(s[1..], i - 1);
      if k == -1 then -1 else k + 1
  }

  /** A line end once found stays the first one. */
  lemma CrLfStable(s: string, t: string)
    requires CrLf(s) >= 0
    ensures CrLf(s + t) == CrLf(s)
  {
    var k := CrLf(s);
    assert CrLfAt(s + t, k);
    assert forall i :: 0 <= i < k && CrLfAt(s + t, i) ==> CrLfAt(s, i);
  }

  lemma CrLfIs(s: string, k: nat)
    requires CrLfAt(s, k) && forall i :: 0 <= i < k ==> s[i] != '\r'
    ensures CrLf(s) == k
  {
    assert forall i :: 0 <= i < k ==> !CrLfAt(s, i);
  }

  /** Where a character first occurs, or -1. */
  function Find(s: string, c: char): (k: int)
    ensures k == -1 || (0 <= k < |s| && s[k] == c)
    ensures forall i :: 0 <= i < |s| && (k == -1 || i < k) ==> s[i] != c
  {
    if s == [] then -1
    else if s[0] == c then 0
    else
      var k := Find(s[1..], c);
      assert forall i :: 1 <= i < |s| ==> s[i] == s[1..][i - 1];
      if k == -1 then -1 else k + 1
  }

  lemma FindIs(s: string, c: char, k: nat)
    requires k < |s| && s[k] == c && forall i :: 0 <= i < k ==> s[i] != c
    ensures Find(s, c) == k
  {
  }

  // ---------------------------------------------------------------- numbers

  type Base = b: int | b == 10 || b == 16 witness 10

  function DigitChar(d: nat): char
    requires d < 16
  {
    if d < 10 then ('0' as int + d) as char else ('a' as int + (d - 10)) as char
  }

  /** The value of a digit; upper and lower case are both hexadecimal. -1 if it is none. */
  function DigitValue(c: char, base: Base): (d: int)
    ensures -1 <= d < base
  {
    if IsDigit(c) then c as int - '0' as int
    else if base == 16 && 'A' <= c <= 'F' then c as int - 'A' as int + 10
    else if base == 16 && 'a' <= c <= 'f' then c as int - 'a' as int + 10
    else -1
  }

  /** What `std::to_chars` writes. */
  function Digits(n: nat, base: Base): (s: string)
    ensures s != []
  {
    if n < base then [DigitChar(n)] else Digits(n / base, base) + [DigitChar(n % base)]
  }

  /** The number that digits stand for, unless one is no digit or the number exceeds `size_t`. */
  function FromDigits(s: string, base: Base): Option<nat> {
    if s == [] then Some(0)
    else
      var high, d := FromDigits(s[..|s| - 1], base), DigitValue(s[|s| - 1], base);
      if high.None? || d < 0 || high.value * base + d > SIZE_MAX then None else Some(high.value * base + d)
  }

  /** `parseUnsignedDecimal` and `parseHexSize`: no digits are no number. */
  function Number(s: string, base: Base): Option<nat> {
    if s == [] then None else FromDigits(s, base)
  }

  /** Digit by digit from the left, with the overflow test of the source. */
  method ReadNumber(s: string, base: Base) returns (r: Option<nat>)
    ensures r == Number(s, base)
  {
    if s == [] {
      return None;
    }
    var result := 0;
    var i := 0;
    while i < |s|
      invariant 0 <= i <= |s| && FromDigits(s[..i], base) == Some(result) && result <= SIZE_MAX
    {
      assert s[..i + 1][..i] == s[..i];
      var d := DigitValue(s[i], base);
      if d < 0 {
        StaysNone(s, base, i + 1);
        return None;
      }
      OverflowTest(result, d, base);
      if result > (SIZE_MAX - d) / base {
        StaysNone(s, base, i + 1);
        return None;
      }
      result := result * base + d;
      i := i + 1;
    }
    assert s[..i] == s;
    return Some(result);
  }

  lemma OverflowTest(n: nat, d: nat, base: Base)
    requires d < base
    ensures n > (SIZE_MAX - d) / base <==> n * base + d > SIZE_MAX
  {
    if base == 10 {
      assert n > (SIZE_MAX - d) / 10 <==> n * 10 + d > SIZE_MAX;
    } else {
      assert n > (SIZE_MAX - d) / 16 <==> n * 16 + d > SIZE_MAX;
    }
  }

  lemma {:induction false} StaysNone(s: string, base: Base, i: nat)
    requires i <= |s| && FromDigits(s[..i], base).None?
    ensures FromDigits(s, base).None?
  {
    if i < |s| {
      assert s[..|s| - 1][..i] == s[..i];
      StaysNone(s[..|s| - 1], base, i);
    } else {
      assert s[..i] == s;
    }
  }

  lemma DigitRoundTrip(d: nat, base: Base)
    requires d < base
    ensures DigitValue(DigitChar(d), base) == d && IsAlnum(DigitChar(d))
  {
  }

  lemma Recompose(n: nat, base: Base)
    ensures n / base * base + n % base == n && n / base <= n && (n >= base ==> n / base < n)
  {
    if base == 10 {
      assert n / 10 * 10 + n % 10 == n;
    } else {
      assert n / 16 * 16 + n % 16 == n;
    }
  }

  /** Reading what was written gives the number back. */
  lemma {:induction false} DigitsRoundTrip(n: nat, base: Base)
    requires n <= SIZE_MAX
    ensures FromDigits(Digits(n, base), base) == Some(n)
    ensures forall c :: c in Digits(n, base) ==> IsAlnum(c)
  {
    hide DigitChar; hide DigitValue; hide IsAlnum;
    var s := Digits(n, base);
    if n < base {
      DigitRoundTrip(n, base);
      assert s[..|s| - 1] == [];
    } else {
      DigitRoundTrip(n % base, base);
      Recompose(n, base);
      DigitsRoundTrip(n / base, base);
      assert s[..|s| - 1] == Digits(n / base, base);
    }
  }

  lemma AlnumTrimmed(s: string)
    requires forall c :: c in s ==> IsAlnum(c)
    ensures Trimmed(s)
  {
    if s != [] {
      assert s[0] in s && s[|s| - 1] in s;
    }
  }
}
