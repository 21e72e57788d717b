/** The .NET integer widths the source relies on, and int.Parse on digit strings. */
module Numbers {
  import opened Results
  import opened Text

  const TWO_32: int := 0x1_0000_0000
  const TWO_31: int := 0x8000_0000

  /** C# `int`. */
  type int32 = x: int | -0x8000_0000 <= x < 0x8000_0000

  /** C# `uint`. */
  type uint32 = x: int | 0 <= x < 0x1_0000_0000

  /** int.MaxValue */
  const INT_MAX: int32 := 0x7FFF_FFFF

  /** uint.MaxValue */
  const UINT_MAX: uint32 := 0xFFFF_FFFF

  /** Unchecked C# `int` arithmetic: the mathematical result reduced into int32. */
  function WrapInt32(x: int): (r: int32)
    ensures (r - x) % TWO_32 == 0
    ensures -TWO_31 <= x < TWO_31 ==> r == x
  {
    (x + TWO_31) % TWO_32 - TWO_31
  }

  /** x reduced into a uint by repeatedly taking 2^32 off. */
  function Wrap32(x: nat): (r: uint32)
    decreases x
  {
    if x < TWO_32 then x else Wrap32(x - TWO_32)
  }

  /** Wrap32 is reduction modulo 2^32. */
  lemma {:induction false} Wrap32IsMod(x: nat)
    ensures Wrap32(x) == x % TWO_32
    decreases x
  {
    if x >= TWO_32 {
      Wrap32IsMod(x - TWO_32);
    }
  }

  /** `++` on a C# `uint`. */
  function IncrUInt32(x: uint32): (r: uint32)
    ensures x < UINT_MAX ==> r == x + 1
    ensures x == UINT_MAX ==> r == 0
  {
    (x + 1) % TWO_32
  }

  function DigitValue(c: char): nat
    requires IsDigit(c)
  {
    c as int - '0' as int
  }

  /** The number an all-digit string spells in decimal. */
  function DigitsValue(s: string): nat
    requires AllDigits(s)
  {
    if |s| == 0 then 0 else DigitsValue(s[..|s| - 1]) * 10 + DigitValue(s[|s| - 1])
  }

  /**
    * int.Parse as the assembler uses it. Every string handed to it is what follows the
    * first character of a token, and tokens hold neither white space nor signs, so the
    * accepted inputs are the non-empty digit strings whose value fits in an int;
    * anything else is a FormatException or an OverflowException.
    */
  function ParseInt32(s: string): (r: Result<int32>)
    ensures r.Ok? <==> |s| > 0 && AllDigits(s) && DigitsValue(s) <= INT_MAX as int
    ensures r.Ok? ==> r.value >= 0 && r.value == DigitsValue(s)
    ensures r.Err? ==> r.fault == NotAnInt32(s)
  {
    if |s| > 0 && AllDigits(s) && DigitsValue(s) <= INT_MAX as int then Ok(DigitsValue(s)) else Err(NotAnInt32(s))
  }

  function DigitChar(d: nat): (c: char)
    requires d < 10
    ensures IsDigit(c) && DigitValue(c) == d
  {
    ('0' as int + d) as char
  }

  /** Decimal rendering of a natural number (what string interpolation prints). */
  function Decimal(n: nat): (s: string)
    ensures |s| > 0 && AllDigits(s)
  {
    if n < 10 then [DigitChar(n)] else Decimal(n / 10) + [DigitChar(n % 10)]
  }

  /** Rendering in decimal and reading the digits back gives the number again. */
  lemma {:induction false} DecimalValue(n: nat)
    ensures DigitsValue(Decimal(n)) == n
  {
    var s := Decimal(n);
    if n < 10 {
      assert s[..0] == [];
    } else {
      assert s[..|s| - 1] == Decimal(n / 10);
      DecimalValue(n / 10);
    }
  }

  /** int.Parse inverts the decimal rendering on every int that is not negative. */
  lemma DecimalRoundTrip(n: nat)
    requires n <= INT_MAX as int
    ensures ParseInt32(Decimal(n)) == Ok(n)
  {
    DecimalValue(n);
  }
}
