/**
 * The digit work that yeelight.go hands to Go's strconv and fmt packages:
 * reading a numeral in a base (ParseUint, ParseInt, Atoi) and writing one
 * (the digits fmt prints for %x, and Itoa as the reference the readers are
 * checked against).
 */
module Strconv {
  import opened Base

  /** The two failures strconv reports: a character that is not allowed, and a value out of range. */
  datatype NumError = ErrSyntax | ErrRange

  /** strconv's value of one character: ASCII digits are 0-9, ASCII letters of either case 10-35. */
  function DigitValue(c: char): Option<nat>
  {
    if '0' <= c <= '9' then Some(c as int - '0' as int)
    else if 'a' <= c <= 'z' then Some(c as int - 'a' as int + 10)
    else if 'A' <= c <= 'Z' then Some(c as int - 'A' as int + 10)
    else None
  }

  /** The lower-case character fmt and strconv print for the digit d. */
  function DigitChar(d: nat): (c: char)
    requires d < 36
    ensures DigitValue(c) == Some(d)
    ensures !('A' <= c <= 'Z')
  {
    if d < 10 then ('0' as int + d) as char else ('a' as int + d - 10) as char
  }

  predicate IsDigit(c: char, base: nat)
  {
    DigitValue(c).Some? && DigitValue(c).value < base
  }

  /** Every character of s is a digit of the base (vacuously so for the empty string). */
  predicate IsNumeral(s: string, base: nat)
  {
    forall i :: 0 <= i < |s| ==> IsDigit(s[i], base)
  }

  /** No upper-case letter occurs in s. */
  predicate IsLowerCase(s: string)
  {
    forall i :: 0 <= i < |s| ==> !('A' <= s[i] <= 'Z')
  }

  /** The value of a numeral, most significant digit first. */
  function NumeralValue(s: string, base: nat): nat
    requires IsNumeral(s, base)
  {
    if s == [] then 0
    else NumeralValue(s[..|s| - 1], base) * base + DigitValue(s[|s| - 1]).value
  }

  lemma NumeralPrefix(s: string, base: nat)
    requires IsNumeral(s, base) && s != []
    ensures IsNumeral(s[..|s| - 1], base)
    ensures NumeralValue(s[..|s| - 1], base) <= NumeralValue(s, base)
  {
    var p := s[..|s| - 1];
    assert forall i :: 0 <= i < |p| ==> p[i] == s[i];
    assert IsDigit(s[0], base);
    MulAtLeast(NumeralValue(p, base), base);
  }

  lemma MulAtLeast(n: nat, m: nat)
    requires m >= 1
    ensures n * m >= n
  {
  }

  /** A numeral of k digits is below base^k. */
  lemma {:induction false} NumeralBound(s: string, base: nat)
    requires IsNumeral(s, base)
    ensures NumeralValue(s, base) < Pow(base, |s|)
  {
    if s != [] {
      var p := s[..|s| - 1];
      NumeralSnoc(s, base);
      NumeralBound(p, base);
      DigitStep(NumeralValue(p, base), DigitValue(s[|s| - 1]).value, Pow(base, |p|), base);
    }
  }

  /** Appending a digit d < base to a value below q gives a value below base * q. */
  lemma DigitStep(n: nat, d: nat, q: nat, base: nat)
    requires n < q && d < base
    ensures n * base + d < base * q
  {
    MulLeq(n + 1, q, base);
    assert (n + 1) * base == n * base + base;
  }

  /** A non-empty numeral is a numeral followed by one more digit, and is worth its prefix times base plus that digit. */
  lemma NumeralSnoc(s: string, base: nat)
    requires s != []
    ensures IsNumeral(s, base) <==> IsNumeral(s[..|s| - 1], base) && IsDigit(s[|s| - 1], base)
    ensures IsNumeral(s, base) ==>
              NumeralValue(s, base) == NumeralValue(s[..|s| - 1], base) * base + DigitValue(s[|s| - 1]).value
  {
    var p := s[..|s| - 1];
    assert forall i :: 0 <= i < |p| ==> p[i] == s[i];
  }

  lemma MulLeq(a: nat, b: nat, c: nat)
    requires a <= b
    ensures a * c <= b * c
  {
  }

  /**
   * The shortest numeral of n in the base, as fmt's %x and strconv.Itoa
   * print it: lower-case, no leading zero, "0" for zero.
   */
  function Numeral(n: nat, base: nat): (s: string)
    requires 2 <= base <= 36
    ensures |s| >= 1 && IsNumeral(s, base) && NumeralValue(s, base) == n
    ensures IsLowerCase(s)
    ensures s[0] == '0' ==> n == 0
    decreases n
  {
    if n < base then [DigitChar(n)]
    else
      var q, d := n / base, n % base;
      DivMod(n, base);
      var p := Numeral(q, base);
      var s := p + [DigitChar(d)];
      assert s[..|s| - 1] == p;
      assert NumeralValue(s, base) == NumeralValue(p, base) * base + d;
      s
  }

  lemma DivMod(n: nat, base: nat)
    requires 2 <= base <= n
    ensures n == (n / base) * base + n % base
    ensures n % base < base && 1 <= n / base < n
  {
  }

  /** Below base^k, n needs at most k digits. */
  lemma {:induction false} NumeralLength(n: nat, base: nat, k: nat)
    requires 2 <= base <= 36 && 1 <= k
    requires n < Pow(base, k)
    ensures |Numeral(n, base)| <= k
    decreases n
  {
    if n >= base {
      var q := Pow(base, k - 1);
      assert n < q * base;
      DivMod(n, base);
      assert n / base < q by {
        if n / base >= q {
          MulLeq(q, n / base, base);
        }
      }
      NumeralLength(n / base, base, k - 1);
    }
  }

  /**
   * The digit loop of strconv.ParseUint: left to right, it stops at the
   * first character that is not a digit of the base (ErrSyntax) or at the
   * first prefix whose value exceeds maxVal (ErrRange), whichever comes first.
   */
  function ScanDigits(s: string, base: nat, maxVal: nat): (r: Result<nat, NumError>)
    requires 2 <= base <= 36
    ensures r.Ok? <==> IsNumeral(s, base) && NumeralValue(s, base) <= maxVal
    ensures r.Ok? ==> r.value == NumeralValue(s, base)
    ensures IsNumeral(s, base) && NumeralValue(s, base) > maxVal ==> r == Err(ErrRange)
    decreases |s|
  {
    if s == [] then Ok(0)
    else
      NumeralSnoc(s, base);
      match ScanDigits(s[..|s| - 1], base, maxVal)
      case Err(e) =>
        (if IsNumeral(s, base) then NumeralPrefix(s, base); Err(e) else Err(e))
      case Ok(n) =>
        var d := DigitValue(s[|s| - 1]);
        if d.None? || d.value >= base then Err(ErrSyntax)
        else if n * base + d.value > maxVal then Err(ErrRange)
        else Ok(n * base + d.value)
  }

  /** strconv.ParseUint(s, base, bitSize) for a base in 2..36: an empty string is a syntax error. */
  function ParseUint(s: string, base: nat, bitSize: nat): (r: Result<nat, NumError>)
    requires 2 <= base <= 36 && 1 <= bitSize <= 64
    ensures r.Ok? <==> |s| > 0 && IsNumeral(s, base) && NumeralValue(s, base) < Pow(2, bitSize)
    ensures r.Ok? ==> r.value == NumeralValue(s, base)
    ensures s == [] ==> r == Err(ErrSyntax)
    ensures |s| > 0 && IsNumeral(s, base) && NumeralValue(s, base) >= Pow(2, bitSize) ==> r == Err(ErrRange)
  {
    if s == [] then Err(ErrSyntax) else ScanDigits(s, base, Pow(2, bitSize) - 1)
  }

  /** s without the one leading '+' or '-' that ParseInt accepts. */
  function Unsigned(s: string): string
  {
    if |s| > 0 && (s[0] == '+' || s[0] == '-') then s[1..] else s
  }

  /** An optional sign followed by at least one digit of the base. */
  predicate IsSignedNumeral(s: string, base: nat)
  {
    |Unsigned(s)| > 0 && IsNumeral(Unsigned(s), base)
  }

  function SignedValue(s: string, base: nat): int
    requires IsSignedNumeral(s, base)
  {
    if s[0] == '-' then -(NumeralValue(Unsigned(s), base) as int) else NumeralValue(Unsigned(s), base)
  }

  /**
   * strconv.ParseInt(s, base, bitSize): strip one sign and read the digits
   * with ParseUint. A syntax error is returned at once; a range error falls
   * through with the digits read as 2^bitSize - 1, and the signed range
   * [-2^(bitSize-1), 2^(bitSize-1)) is checked against that.
   */
  function ParseInt(s: string, base: nat, bitSize: nat): (r: Result<int, NumError>)
    requires 2 <= base <= 36 && 2 <= bitSize <= 64
    ensures r.Ok? <==> IsSignedNumeral(s, base) && -(Pow(2, bitSize - 1) as int) <= SignedValue(s, base) < Pow(2, bitSize - 1)
    ensures r.Ok? ==> r.value == SignedValue(s, base)
    ensures IsSignedNumeral(s, base) && r.Err? ==> r.error == ErrRange
  {
    if s == [] then Err(ErrSyntax)
    else
      var neg := s[0] == '-';
      var cutoff := Pow(2, bitSize - 1);
      var parsed := ParseUint(Unsigned(s), base, bitSize);
      if parsed == Err(ErrSyntax) then Err(ErrSyntax)
      else
        HalfPow(bitSize);
        var un := if parsed.Ok? then parsed.value else Pow(2, bitSize) - 1;
        if !neg && un >= cutoff then Err(ErrRange)
        else if neg && un > cutoff then Err(ErrRange)
        else Ok(if neg then -(un as int) else un)
  }

  /** For bitSize >= 2, the largest unsigned value 2^bitSize - 1 lies above the signed cutoff 2^(bitSize-1). */
  lemma HalfPow(bitSize: nat)
    requires 2 <= bitSize
    ensures Pow(2, bitSize) == 2 * Pow(2, bitSize - 1) && Pow(2, bitSize - 1) >= 2
  {
    assert Pow(2, bitSize - 1) == 2 * Pow(2, bitSize - 2);
  }

  /** strconv.Atoi on a platform whose int is 64 bits wide. */
  function Atoi(s: string): (r: Result<int, NumError>)
    ensures r.Ok? <==> IsSignedNumeral(s, 10) && -0x8000_0000_0000_0000 <= SignedValue(s, 10) < 0x8000_0000_0000_0000
    ensures r.Ok? ==> r.value == SignedValue(s, 10)
    ensures s == [] ==> r == Err(ErrSyntax)
    ensures IsSignedNumeral(s, 10) && r.Err? ==> r.error == ErrRange
  {
    PowersOfTwo();
    ParseInt(s, 10, 64)
  }

  /** The decimal text of v as strconv.Itoa writes it. */
  function Itoa(v: int): string
  {
    if v < 0 then "-" + Numeral(-v, 10) else Numeral(v, 10)
  }

  lemma ItoaIsSignedNumeral(v: int)
    ensures IsSignedNumeral(Itoa(v), 10) && SignedValue(Itoa(v), 10) == v
  {
    var digits := Numeral(if v < 0 then -v else v, 10);
    assert !IsDigit('-', 10) && !IsDigit('+', 10);
    assert IsDigit(digits[0], 10);
    if v < 0 {
      assert Itoa(v)[1..] == digits;
    }
    assert Unsigned(Itoa(v)) == digits;
  }

  /** Decimal text of any value in range reads back as that value. */
  lemma ParseIntItoa(v: int, bitSize: nat)
    requires 2 <= bitSize <= 64
    requires -(Pow(2, bitSize - 1) as int) <= v < Pow(2, bitSize - 1)
    ensures ParseInt(Itoa(v), 10, bitSize) == Ok(v)
  {
    ItoaIsSignedNumeral(v);
  }

  /** Decimal text of a value out of range is a range error, never a wrapped value. */
  lemma ParseIntItoaOutOfRange(v: int, bitSize: nat)
    requires 2 <= bitSize <= 64
    requires v < -(Pow(2, bitSize - 1) as int) || Pow(2, bitSize - 1) <= v
    ensures ParseInt(Itoa(v), 10, bitSize) == Err(ErrRange)
  {
    ItoaIsSignedNumeral(v);
  }
}
