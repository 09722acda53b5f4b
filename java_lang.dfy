/** The `java.lang` conversions the resource getters apply to stored strings:
    `Boolean.valueOf(String)`, `Integer.valueOf(String)` and `Long.valueOf(String)`. */
module JavaLang {
  import opened Wrappers

  const IntMin: int := -0x8000_0000
  const IntMax: int := 0x7fff_ffff
  const LongMin: int := -0x8000_0000_0000_0000
  const LongMax: int := 0x7fff_ffff_ffff_ffff

  function LowerAscii(ch: char): char {
    if 'A' <= ch <= 'Z' then (ch as int + 32) as char else ch
  }

  /** `Boolean.valueOf(s)`: true exactly when `s` equals "true" ignoring case. */
  function BooleanValueOf(s: string): (b: bool)
    ensures b ==> |s| == 4
    ensures b <==> |s| == 4 && forall i | 0 <= i < 4 :: LowerAscii(s[i]) == "true"[i]
  {
    |s| == 4 && LowerAscii(s[0]) == 't' && LowerAscii(s[1]) == 'r' && LowerAscii(s[2]) == 'u' && LowerAscii(s[3]) == 'e'
  }

  lemma BooleanValueOfExamples()
    ensures BooleanValueOf("true") && BooleanValueOf("TRUE") && BooleanValueOf("True")
    ensures !BooleanValueOf("false") && !BooleanValueOf("yes") && !BooleanValueOf("") && !BooleanValueOf("true ")
  {
  }

  predicate IsDigit(ch: char) {
    '0' <= ch <= '9'
  }

  predicate AllDigits(s: string) {
    forall i | 0 <= i < |s| :: IsDigit(s[i])
  }

  /** The value of a string of decimal digits, most significant first. */
  function DigitsValue(ds: string): nat
    requires AllDigits(ds)
  {
    if ds == [] then 0
    else DigitsValue(ds[..|ds| - 1]) * 10 + (ds[|ds| - 1] as int - '0' as int)
  }

  /** `parseInt`/`parseLong` in radix 10: an optional sign, then one or more digits, whose
      value must lie in `[min, max]`; `None` is a `NumberFormatException`. */
  function ParseInteger(s: string, min: int, max: int): (r: Option<int>)
    ensures r.Some? ==> min <= r.value <= max
    ensures s == "" || s == "-" || s == "+" ==> r.None?
  {
    if s == [] then None
    else
      var negative := s[0] == '-';
      var digits := if s[0] == '-' || s[0] == '+' then s[1..] else s;
      if digits == [] || !AllDigits(digits) then None
      else
        var magnitude: int := DigitsValue(digits);
        var v := if negative then -magnitude else magnitude;
        if min <= v <= max then Some(v) else None
  }

  /** `Integer.valueOf(String)` */
  function ParseInt(s: string): (r: Option<int>)
    ensures r.Some? ==> IntMin <= r.value <= IntMax
  {
    ParseInteger(s, IntMin, IntMax)
  }

  /** `Long.valueOf(String)` */
  function ParseLong(s: string): (r: Option<int>)
    ensures r.Some? ==> LongMin <= r.value <= LongMax
  {
    ParseInteger(s, LongMin, LongMax)
  }

  function DigitChar(d: nat): char
    requires d < 10
  {
    ('0' as int + d) as char
  }

  /** The decimal digits of `n`, without leading zeros. */
  function NatDigits(n: nat): (r: string)
    ensures |r| > 0 && AllDigits(r)
    ensures DigitsValue(r) == n
  {
    if n < 10 then
      assert [DigitChar(n)][..0] == [];
      [DigitChar(n)]
    else
      var r := NatDigits(n / 10) + [DigitChar(n % 10)];
      assert r[..|r| - 1] == NatDigits(n / 10);
      r
  }

  /** `Integer.toString(n)` / `Long.toString(n)` */
  function Decimal(n: int): string {
    if n < 0 then "-" + NatDigits(-n) else NatDigits(n)
  }

  /** Parsing reads back exactly the value `toString` writes, and rejects it when it is out of
      range. */
  lemma ParseDecimal(n: int, min: int, max: int)
    ensures min <= n <= max ==> ParseInteger(Decimal(n), min, max) == Some(n)
    ensures !(min <= n <= max) ==> ParseInteger(Decimal(n), min, max).None?
  {
    var s := Decimal(n);
    if n < 0 {
      assert s[0] == '-' && s[1..] == NatDigits(-n);
    } else {
      assert s[0] != '-' && s[0] != '+' by { assert IsDigit(s[0]); }
    }
  }

  lemma ParseIntExamples()
    ensures ParseInt("42") == Some(42) && ParseInt("-7") == Some(-7) && ParseInt("+7") == Some(7)
    ensures ParseInt("").None? && ParseInt("-").None? && ParseInt("4x").None?
  {
    assert "42"[..1] == "4" && "4"[..0] == "";
    assert "-7"[1..] == "7" && "+7"[1..] == "7" && "7"[..0] == "";
    assert !IsDigit("4x"[1]);
  }
}
