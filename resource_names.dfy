/** How the cache turns a key into the file name it asks the loader for:
    `prefix + "_" + key`, where an integer key is written the way Java's
    `String.valueOf(int)` writes it. */
module ResourceNames {

  /** The file name for `key` under `prefix`. */
  function ResourceName(prefix: string, key: string): (name: string)
    ensures |name| == |prefix| + 1 + |key|
    ensures name[..|prefix|] == prefix && name[|prefix|] == '_'
    ensures name[|prefix| + 1..] == key
  {
    prefix + "_" + key
  }

  /** Under one prefix, different keys never share a file name. */
  lemma ResourceNameInjective(prefix: string, key1: string, key2: string)
    ensures ResourceName(prefix, key1) == ResourceName(prefix, key2) <==> key1 == key2
  {
  }

  predicate IsDigit(c: char)
  {
    '0' <= c <= '9'
  }

  predicate AllDigits(s: string)
  {
    forall i :: 0 <= i < |s| ==> IsDigit(s[i])
  }

  function DigitChar(d: nat): (c: char)
    requires d < 10
    ensures IsDigit(c)
  {
    ('0' as int + d) as char
  }

  function DigitValue(c: char): (d: nat)
    requires IsDigit(c)
    ensures d < 10 && DigitChar(d) == c
  {
    c as int - '0' as int
  }

  /** The decimal digits of `n`, most significant first, without leading zeros. */
  function NatToDecimal(n: nat): (s: string)
    ensures |s| > 0 && AllDigits(s)
    ensures s[0] == '0' ==> n == 0
    decreases n
  {
    if n < 10 then [DigitChar(n)] else NatToDecimal(n / 10) + [DigitChar(n % 10)]
  }

  /** `String.valueOf(int)`: a minus sign for a negative value, then the digits. */
  function DecimalString(n: int): (s: string)
    ensures |s| > 0
    ensures n < 0 <==> s[0] == '-'
    ensures n >= 0 ==> AllDigits(s)
    ensures n < 0 ==> AllDigits(s[1..])
  {
    if n < 0 then "-" + NatToDecimal(-n) else NatToDecimal(n)
  }

  /** Reads a string of decimal digits back as a number. */
  function ParseNat(s: string): nat
    requires AllDigits(s)
    decreases |s|
  {
    if s == [] then 0 else 10 * ParseNat(s[..|s| - 1]) + DigitValue(s[|s| - 1])
  }

  /** Reads back what `DecimalString` writes (an independent inverse). */
  function ParseDecimal(s: string): int
    requires |s| > 0
    requires s[0] == '-' ==> AllDigits(s[1..])
    requires s[0] != '-' ==> AllDigits(s)
  {
    if s[0] == '-' then -(ParseNat(s[1..]) as int) else ParseNat(s)
  }

  lemma {:induction false} ParseNatInverts(n: nat)
    ensures ParseNat(NatToDecimal(n)) == n
    decreases n
  {
    if n >= 10 {
      var s := NatToDecimal(n);
      assert s[..|s| - 1] == NatToDecimal(n / 10);
      ParseNatInverts(n / 10);
      assert DigitValue(s[|s| - 1]) == n % 10;
    }
  }

  /** Round trip: the number written by `DecimalString` is read back unchanged. */
  lemma ParseDecimalInverts(n: int)
    ensures ParseDecimal(DecimalString(n)) == n
  {
    if n < 0 {
      assert DecimalString(n)[1..] == NatToDecimal(-n);
      ParseNatInverts(-n);
    } else {
      ParseNatInverts(n);
    }
  }

  /** Different calling codes are written as different strings, so they name
      different files under the same prefix. */
  lemma CallingCodeNamesDistinct(prefix: string, code1: int, code2: int)
    ensures ResourceName(prefix, DecimalString(code1)) == ResourceName(prefix, DecimalString(code2))
            <==> code1 == code2
  {
    ResourceNameInjective(prefix, DecimalString(code1), DecimalString(code2));
    ParseDecimalInverts(code1);
    ParseDecimalInverts(code2);
  }
}
