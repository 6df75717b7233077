/** Shared value types: optional values, results, and the fixed-width integers of the Go code. */
module Base {

  datatype Option<+T> = None | Some(value: T)

  datatype Result<+T, +E> = Ok(value: T) | Err(error: E)

  /** Go's `int8`, the type of a brightness level. */
  newtype int8 = x: int | -0x80 <= x < 0x80

  /** Go's `int32`, the type of a command ID. */
  newtype int32 = x: int | -0x8000_0000 <= x < 0x8000_0000

  /** One byte on the wire. */
  newtype byte = x: int | 0 <= x < 0x100

  function Pow(base: nat, k: nat): (p: nat)
    ensures base >= 1 ==> p >= 1
  {
    if k == 0 then 1 else base * Pow(base, k - 1)
  }

  lemma {:induction false} PowAdd(base: nat, m: nat, n: nat)
    ensures Pow(base, m + n) == Pow(base, m) * Pow(base, n)
  {
    if m > 0 {
      PowAdd(base, m - 1, n);
      assert Pow(base, m + n) == base * Pow(base, m - 1 + n);
      MulAssoc(base, Pow(base, m - 1), Pow(base, n));
    }
  }

  lemma MulAssoc(a: nat, b: nat, c: nat)
    ensures a * (b * c) == (a * b) * c
  {
  }

  /** The powers the Go integer widths need. */
  lemma PowersOfTwo()
    ensures Pow(2, 7) == 0x80 && Pow(2, 8) == 0x100
    ensures Pow(2, 31) == 0x8000_0000
    ensures Pow(2, 63) == 0x8000_0000_0000_0000
    ensures Pow(2, 64) == 0x1_0000_0000_0000_0000
  {
    assert Pow(2, 8) == 0x100;
    PowAdd(2, 8, 8);
    PowAdd(2, 16, 15);
    PowAdd(2, 16, 16);
    PowAdd(2, 32, 31);
    PowAdd(2, 32, 32);
    assert Pow(2, 15) == 0x8000;
  }

  function Max(a: int, b: int): int
  {
    if a < b then b else a
  }
}
