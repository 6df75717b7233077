/**
 * The text conversions of yeelight.go's wrapper layer: RGB.ToHex, the hex
 * parse at the top of SetHexColor, and the readings GetHexColor, GetBright
 * and IsOn make of the first string of a get_prop result.
 */
module Colors {
  import opened Base
  import opened Strconv

  /** The largest colour value, 0xFFFFFF: three 8-bit channels. */
  const MaxColor: nat := 0xFF_FFFF

  /** One of the characters 0-9a-f. */
  predicate IsLowerHexDigit(c: char)
  {
    '0' <= c <= '9' || 'a' <= c <= 'f'
  }

  /** fmt's zero padding: leading zeros up to width characters. */
  function PadZeros(s: string, width: nat): string
  {
    if |s| >= width then s else seq(width - |s|, _ => '0') + s
  }

  lemma PadZerosNumeral(s: string, width: nat, base: nat)
    requires IsNumeral(s, base) && IsLowerCase(s) && 1 <= base
    ensures IsNumeral(PadZeros(s, width), base) && IsLowerCase(PadZeros(s, width))
    ensures NumeralValue(PadZeros(s, width), base) == NumeralValue(s, base)
    ensures |PadZeros(s, width)| == Max(width, |s|)
  {
    if |s| < width {
      LeadingZeros(width - |s|, s, base);
    }
  }

  /** Leading zeros change neither the digits' validity nor the value. */
  lemma {:induction false} LeadingZeros(k: nat, s: string, base: nat)
    requires IsNumeral(s, base) && IsLowerCase(s) && 1 <= base
    ensures IsNumeral(seq(k, _ => '0') + s, base) && IsLowerCase(seq(k, _ => '0') + s)
    ensures NumeralValue(seq(k, _ => '0') + s, base) == NumeralValue(s, base)
    decreases |s|
  {
    var z := seq(k, _ => '0');
    var t := z + s;
    assert IsDigit('0', base);
    assert IsNumeral(t, base) && IsLowerCase(t) by {
      forall i | 0 <= i < |t|
        ensures IsDigit(t[i], base) && !('A' <= t[i] <= 'Z')
      {
        if i >= k {
          assert t[i] == s[i - k];
        }
      }
    }
    if s == [] {
      assert t == z;
      ZerosValue(k, base);
    } else {
      var p := s[..|s| - 1];
      assert forall i :: 0 <= i < |p| ==> p[i] == s[i];
      LeadingZeros(k, p, base);
      assert t[..|t| - 1] == z + p;
    }
  }

  lemma {:induction false} ZerosValue(k: nat, base: nat)
    requires 1 <= base
    ensures IsNumeral(seq(k, _ => '0'), base) && NumeralValue(seq(k, _ => '0'), base) == 0
  {
    var z := seq(k, _ => '0');
    assert IsDigit('0', base);
    if k > 0 {
      assert z[..k - 1] == seq(k - 1, _ => '0');
      ZerosValue(k - 1, base);
    }
  }

  /**
   * RGB.ToHex, fmt.Sprintf("%06x", v): the lower-case hex digits of |v|,
   * zero-padded so that sign and digits fill at least six characters.
   */
  function ToHex(v: int): (h: string)
    ensures |h| >= 6
    ensures 0 <= v ==> IsNumeral(h, 16) && IsLowerCase(h) && NumeralValue(h, 16) == v
    ensures 0 <= v && |h| > 6 ==> h[0] != '0'
    ensures v < 0 ==> h[0] == '-' && IsNumeral(h[1..], 16) && IsLowerCase(h[1..]) && NumeralValue(h[1..], 16) == -v
    ensures v < 0 && |h| > 6 ==> h[1] != '0'
  {
    var digits := Numeral(if v < 0 then -v else v, 16);
    PadZerosNumeral(digits, if v < 0 then 5 else 6, 16);
    if v < 0 then
      var h := "-" + PadZeros(digits, 5);
      assert h[1..] == PadZeros(digits, 5);
      h
    else PadZeros(digits, 6)
  }

  /** For the colour range, ToHex gives exactly six characters of 0-9a-f; longer text means a value beyond it. */
  lemma ToHexSixDigits(v: int)
    requires 0 <= v
    ensures |ToHex(v)| == 6 <==> v <= MaxColor
    ensures v <= MaxColor ==> forall i :: 0 <= i < 6 ==> IsLowerHexDigit(ToHex(v)[i])
  {
    var h := ToHex(v);
    assert Pow(16, 6) == MaxColor + 1;
    if v <= MaxColor {
      NumeralLength(v, 16, 6);
      forall i | 0 <= i < 6
        ensures IsLowerHexDigit(h[i])
      {
        assert IsDigit(h[i], 16) && !('A' <= h[i] <= 'Z');
      }
    } else {
      NumeralBound(h, 16);
      if |h| == 6 {
        assert false;
      }
    }
  }

  /** strings.Replace(s, "#", "", -1): every '#' removed, wherever it stands, the rest kept in order. */
  function RemoveHashes(s: string): (r: string)
    ensures '#' !in r
    ensures forall c :: c != '#' ==> multiset(r)[c] == multiset(s)[c]
  {
    if s == [] then []
    else
      assert s == [s[0]] + s[1..];
      (if s[0] == '#' then [] else [s[0]]) + RemoveHashes(s[1..])
  }

  lemma {:induction false} RemoveHashesAppend(a: string, b: string)
    ensures RemoveHashes(a + b) == RemoveHashes(a) + RemoveHashes(b)
  {
    if a != [] {
      assert (a + b)[1..] == a[1..] + b;
      RemoveHashesAppend(a[1..], b);
    } else {
      assert a + b == b;
    }
  }

  lemma {:induction false} RemoveHashesNone(s: string)
    requires '#' !in s
    ensures RemoveHashes(s) == s
  {
    if s != [] {
      assert s[0] != '#';
      RemoveHashesNone(s[1..]);
    }
  }

  /**
   * The parse at the top of SetHexColor: every '#' removed, the rest read
   * with strconv.ParseUint(_, 16, 64).
   */
  function ParseHexColor(color: string): (r: Result<nat, NumError>)
    ensures r.Ok? <==> var t := RemoveHashes(color);
                       |t| > 0 && IsNumeral(t, 16) && NumeralValue(t, 16) < 0x1_0000_0000_0000_0000
    ensures r.Ok? ==> r.value == NumeralValue(RemoveHashes(color), 16)
    ensures RemoveHashes(color) == [] ==> r == Err(ErrSyntax)
    ensures var t := RemoveHashes(color);
            |t| > 0 && IsNumeral(t, 16) && NumeralValue(t, 16) >= 0x1_0000_0000_0000_0000 ==> r == Err(ErrRange)
  {
    PowersOfTwo();
    ParseUint(RemoveHashes(color), 16, 64)
  }

  /** A '#' anywhere in the text, not only in front, is dropped before parsing. */
  lemma HashAnywhere(a: string, b: string)
    ensures ParseHexColor(a + "#" + b) == ParseHexColor(a + b)
  {
    RemoveHashesDropsHash(a, b);
  }

  lemma RemoveHashesDropsHash(a: string, b: string)
    ensures RemoveHashes(a + "#" + b) == RemoveHashes(a + b)
  {
    var h := "#";
    assert RemoveHashes(h) == [] by {
      assert h[1..] == [];
    }
    RemoveHashesAppend(a, h);
    RemoveHashesAppend(a + h, b);
    RemoveHashesAppend(a, b);
  }

  /** What ToHex writes, SetHexColor reads back unchanged, with or without a leading '#', for every uint64. */
  lemma HexRoundTrip(v: nat)
    requires v < 0x1_0000_0000_0000_0000
    ensures ParseHexColor(ToHex(v)) == Ok(v)
    ensures ParseHexColor("#" + ToHex(v)) == Ok(v)
  {
    var h := ToHex(v);
    HashFree(h);
    assert RemoveHashes("#" + h) == h by {
      assert ("#" + h)[1..] == h;
    }
  }

  /** A hex numeral holds no '#', so removing hashes leaves it as it is. */
  lemma HashFree(h: string)
    requires IsNumeral(h, 16)
    ensures RemoveHashes(h) == h
  {
    assert '#' !in h by {
      assert !IsDigit('#', 16);
    }
    RemoveHashesNone(h);
  }

  /**
   * GetHexColor's reading of the device's "rgb" string: strconv.Atoi, then
   * RGB.ToHex; "" together with the error when Atoi fails.
   */
  function HexColorOf(s: string): (r: (string, Option<NumError>))
    ensures r.1.None? <==> IsSignedNumeral(s, 10) && -(Pow(2, 63) as int) <= SignedValue(s, 10) < Pow(2, 63)
    ensures r.1.None? ==> r.0 == ToHex(SignedValue(s, 10))
    ensures r.1.Some? ==> r.0 == ""
  {
    match Atoi(s)
    case Ok(v) => (ToHex(v), None)
    case Err(e) => ("", Some(e))
  }

  /** The decimal text of a colour is reported as its six-digit hex text. */
  lemma HexColorOfDecimal(v: nat)
    requires v <= MaxColor
    ensures HexColorOf(Itoa(v)) == (ToHex(v), None)
    ensures |HexColorOf(Itoa(v)).0| == 6
  {
    PowersOfTwo();
    ParseIntItoa(v, 64);
    ToHexSixDigits(v);
  }

  /** Text that is not an optionally signed decimal numeral gives "" and an error. */
  lemma HexColorOfNonDecimal(s: string)
    requires !IsSignedNumeral(s, 10)
    ensures HexColorOf(s).0 == "" && HexColorOf(s).1.Some?
  {
  }

  /** The colour GetHexColor reports is the colour SetHexColor would send back. */
  lemma ColorRoundTrip(v: nat)
    requires v <= MaxColor
    ensures ParseHexColor(HexColorOf(Itoa(v)).0) == Ok(v)
  {
    HexColorOfDecimal(v);
    HexRoundTrip(v);
  }

  /** GetBright's reading: strconv.ParseInt(s, 10, 8) as an int8; 0 with the error on failure. */
  function BrightOf(s: string): (r: (int8, Option<NumError>))
    ensures r.1.None? <==> IsSignedNumeral(s, 10) && -128 <= SignedValue(s, 10) <= 127
    ensures r.1.None? ==> r.0 as int == SignedValue(s, 10)
    ensures r.1.Some? ==> r.0 == 0
  {
    PowersOfTwo();
    match ParseInt(s, 10, 8)
    case Ok(v) => (v as int8, None)
    case Err(e) => (0, Some(e))
  }

  /** Every int8 written in decimal reads back as itself. */
  lemma BrightRoundTrip(v: int8)
    ensures BrightOf(Itoa(v as int)) == (v, None)
  {
    PowersOfTwo();
    ParseIntItoa(v as int, 8);
  }

  /** A decimal brightness outside [-128, 127] is a range error with value 0, never a wrapped int8. */
  lemma BrightOutOfRange(v: int)
    requires v < -128 || 127 < v
    ensures BrightOf(Itoa(v)) == (0, Some(ErrRange))
  {
    PowersOfTwo();
    ParseIntItoaOutOfRange(v, 8);
  }
}
