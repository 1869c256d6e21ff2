/** Decimal keys of the MIB template: strconv.Itoa and strconv.ParseUint(s, 10, 16). */
module Decimal {
  import opened Types

  predicate IsDigit(c: char) { '0' <= c <= '9' }

  function DigitOf(d: nat): char
    requires d < 10
  {
    "0123456789"[d]
  }

  function ValueOf(c: char): nat
    requires IsDigit(c)
  {
    c as nat - '0' as nat
  }

  function Itoa(n: nat): string {
    if n < 10 then [DigitOf(n)] else Itoa(n / 10) + [DigitOf(n % 10)]
  }

  /** The value of a string of digits, however long. */
  function Digits(s: string): Option<nat>
    decreases |s|
  {
    if s == "" then Some(0)
    else
      var front, last := Digits(s[..|s| - 1]), s[|s| - 1];
      if front.Some? && IsDigit(last) then Some(10 * front.value + ValueOf(last)) else None
  }

  /** Empty, non-decimal and too large texts are errors. */
  function ParseUint16(s: string): Option<uint16> {
    if s != "" && Digits(s).Some? && Digits(s).value < 0x1_0000 then Some(Digits(s).value) else None
  }

  function ParseUint32(s: string): Option<uint32> {
    if s != "" && Digits(s).Some? && Digits(s).value < 0x1_0000_0000 then Some(Digits(s).value) else None
  }

  lemma DigitValue(d: nat)
    requires d < 10
    ensures IsDigit(DigitOf(d)) && ValueOf(DigitOf(d)) == d
  {
  }

  lemma {:induction false} DigitsItoa(n: nat)
    ensures Itoa(n) != "" && Digits(Itoa(n)) == Some(n)
  {
    if n < 10 {
      DigitValue(n);
      assert Itoa(n)[..0] == "";
    } else {
      DigitsItoa(n / 10);
      DigitValue(n % 10);
      var s := Itoa(n);
      assert s[..|s| - 1] == Itoa(n / 10);
    }
  }

  /** Parsing inverts printing for every 16-bit key, so no two keys print alike. */
  lemma ParseItoa(n: uint16)
    ensures ParseUint16(Itoa(n)) == Some(n)
  {
    DigitsItoa(n);
  }

  /** Parsing takes the numbers of its width and refuses larger ones. */
  lemma ParseRange(n: nat)
    ensures ParseUint16(Itoa(n)) == if n < 0x1_0000 then Some(n) else None
    ensures ParseUint32(Itoa(n)) == if n < 0x1_0000_0000 then Some(n) else None
  {
    DigitsItoa(n);
  }

  /** A text with any character that is no digit is skipped by the loader. */
  lemma {:induction false} NotDecimal(s: string, i: nat)
    requires i < |s| && !IsDigit(s[i])
    ensures Digits(s).None? && ParseUint16(s).None? && ParseUint32(s).None?
    decreases |s|
  {
    if i < |s| - 1 { NotDecimal(s[..|s| - 1], i); }
  }
}
