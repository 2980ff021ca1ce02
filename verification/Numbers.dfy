/** Decimal numbers as printf(3) "%d" writes them and strtoul(3) reads them. */
module Numbers {
  import opened Bytes

  predicate IsDigit(b: byte) {
    0x30 <= b <= 0x39
  }

  predicate AllDigits(s: seq<byte>) {
    forall i :: 0 <= i < |s| ==> IsDigit(s[i])
  }

  /** The decimal digits of n, most significant first. */
  function Print(n: nat): (s: seq<byte>)
    ensures s != []
  {
    if n < 10 then [0x30 + n] else Print(n / 10) + [0x30 + n % 10]
  }

  /** "%d". */
  function PrintInt(n: int): seq<byte> {
    if n < 0 then [0x2d] + Print(-n) else Print(n)
  }

  /** The value of a string of digits; an empty one is 0. */
  function ValueOf(s: seq<byte>): nat
    requires AllDigits(s)
  {
    if s == [] then 0 else ValueOf(s[..|s| - 1]) * 10 + (s[|s| - 1] - 0x30)
  }

  const ULONG_LIMIT := 0x1_0000_0000_0000_0000

  /** An unsigned long kept in a 32-bit int. */
  function AsInt(n: nat): int {
    var low := n % 0x1_0000_0000;
    if low < 0x8000_0000 then low else low - 0x1_0000_0000
  }

  /**
   strtoul of a token of digits and the other parameter bytes: the value, kept in an int, when all of
   the token is a number that fits; nothing otherwise.
   */
  function ToInt(s: seq<byte>): Option<int> {
    if AllDigits(s) && ValueOf(s) < ULONG_LIMIT then Some(AsInt(ValueOf(s))) else None
  }

  lemma {:induction false} PrintRoundTrip(n: nat)
    ensures AllDigits(Print(n)) && ValueOf(Print(n)) == n
  {
    if n >= 10 {
      PrintRoundTrip(n / 10);
      var s := Print(n);
      assert s[..|s| - 1] == Print(n / 10);
    } else {
      assert ValueOf([]) == 0;
      assert Print(n)[..0] == [];
    }
  }

  lemma PrintToInt(n: nat)
    requires n < 0x8000_0000
    ensures ToInt(Print(n)) == Some(n)
  {
    hide Print, ValueOf;
    PrintRoundTrip(n);
  }

  /** A printed number is read back modulo 2^32 as a signed int, and not at all from 2^64 on. */
  lemma PrintReadBack(n: nat)
    ensures match ToInt(Print(n))
            case Some(v) => n < ULONG_LIMIT && -0x8000_0000 <= v < 0x8000_0000 && (n - v) % 0x1_0000_0000 == 0
            case None => n >= ULONG_LIMIT
  {
    hide Print, ValueOf;
    PrintRoundTrip(n);
  }
}
