/** Python's `str(n)` and `int(s)` for integers, and the bit operations the
    settings encoder uses (`|=`, `1 << i`). Python integers are unbounded,
    like Dafny's `int`, so nothing here wraps around. */
module PyInt {

  import opened Wrappers

  predicate IsDigit(c: char) { '0' <= c <= '9' }

  function DigitChar(d: nat): (c: char)
    requires d < 10
    ensures IsDigit(c) && (c as int) - ('0' as int) == d
  {
    ['0', '1', '2', '3', '4', '5', '6', '7', '8', '9'][d]
  }

  /** Decimal digits of a natural number, most significant first, no leading zeros. */
  function NatToString(n: nat): (s: string)
    ensures |s| > 0 && forall j :: 0 <= j < |s| ==> IsDigit(s[j])
    ensures n > 0 ==> s[0] != '0'
  {
    if n < 10 then [DigitChar(n)] else NatToString(n / 10) + [DigitChar(n % 10)]
  }

  /** `str(n)`. */
  function IntToString(n: int): string
  {
    if n < 0 then "-" + NatToString(-n) else NatToString(n)
  }

  /** The whitespace `str.strip()` removes, restricted to ASCII. */
  predicate IsSpace(c: char)
  {
    c == ' ' || 9 <= c as int <= 13 || 28 <= c as int <= 31
  }

  function TrimStart(s: string): (r: string)
    ensures |r| <= |s| && r == s[|s| - |r|..]
    ensures r != [] ==> !IsSpace(r[0])
  {
    if s != [] && IsSpace(s[0]) then TrimStart(s[1..]) else s
  }

  function TrimEnd(s: string): (r: string)
    ensures |r| <= |s| && r == s[..|r|]
    ensures r != [] ==> !IsSpace(r[|r| - 1])
  {
    if s != [] && IsSpace(s[|s| - 1]) then TrimEnd(s[..|s| - 1]) else s
  }

  /** Digits with single underscores between them, as `int()` accepts in base 10. */
  predicate IsDigitString(s: string)
  {
    && |s| > 0
    && IsDigit(s[0])
    && IsDigit(s[|s| - 1])
    && (forall j :: 0 <= j < |s| ==> IsDigit(s[j]) || s[j] == '_')
    && (forall j :: 0 <= j < |s| - 1 ==> !(s[j] == '_' && s[j + 1] == '_'))
  }

  /** The value of a digit string, underscores ignored. */
  function DigitsValue(s: string): nat
    requires forall j :: 0 <= j < |s| ==> IsDigit(s[j]) || s[j] == '_'
  {
    if s == [] then 0
    else
      var last := s[|s| - 1];
      if last == '_' then DigitsValue(s[..|s| - 1])
      else
        assert IsDigit(s[|s| - 1]);
        10 * DigitsValue(s[..|s| - 1]) + ((last as int) - ('0' as int))
  }

  /** `int(s)` for a string: None where Python raises ValueError. */
  function ParseInt(s: string): (r: Option<int>)
  {
    var t := TrimEnd(TrimStart(s));
    if t == [] then None
    else
      var sign := if t[0] == '-' then -1 else 1;
      var digits := if t[0] == '-' || t[0] == '+' then t[1..] else t;
      if IsDigitString(digits) then Some(sign * DigitsValue(digits)) else None
  }

  lemma {:induction false} DigitsValueOfNatToString(n: nat)
    ensures DigitsValue(NatToString(n)) == n
  {
    var s := NatToString(n);
    if n >= 10 {
      DigitsValueOfNatToString(n / 10);
      assert s[..|s| - 1] == NatToString(n / 10);
    }
  }

  /** `str(n)` has no surrounding whitespace for `strip` to remove. */
  lemma IntToStringTrimmed(n: int)
    ensures IntToString(n) != [] && TrimEnd(TrimStart(IntToString(n))) == IntToString(n)
  {
    var s := IntToString(n);
    assert !IsSpace(s[0]) && !IsSpace(s[|s| - 1]);
    assert TrimStart(s) == s;
  }

  /** `int(str(n)) == n`: a select field's `value` attribute reads back as its index. */
  lemma ParseIntOfIntToString(n: int)
    ensures ParseInt(IntToString(n)) == Some(n)
  {
    var m: nat := if n < 0 then -n else n;
    var d := NatToString(m);
    IntToStringTrimmed(n);
    DigitsValueOfNatToString(m);
    assert IsDigitString(d);
    if n < 0 {
      ParseIntOfNegative(IntToString(n), d);
    } else {
      ParseIntOfUnsigned(IntToString(n));
    }
  }

  lemma ParseIntOfUnsigned(t: string)
    requires IsDigitString(t) && TrimEnd(TrimStart(t)) == t
    ensures ParseInt(t) == Some(DigitsValue(t))
  {
    assert t[0] != '-' && t[0] != '+';
  }

  lemma ParseIntOfNegative(t: string, d: string)
    requires IsDigitString(d) && t == "-" + d && TrimEnd(TrimStart(t)) == t
    ensures ParseInt(t) == Some(-(DigitsValue(d) as int))
  {
    assert t[0] == '-' && t[1..] == d;
  }

  lemma ParseIntOfEveryIntToString()
    ensures forall n :: ParseInt(IntToString(n)) == Some(n)
  {
    forall n: int
      ensures ParseInt(IntToString(n)) == Some(n)
    {
      ParseIntOfIntToString(n);
    }
  }

  /** `str` never yields the same text for two different integers. */
  lemma IntToStringInjective(m: int, n: int)
    requires IntToString(m) == IntToString(n)
    ensures m == n
  {
    ParseIntOfIntToString(m);
    ParseIntOfIntToString(n);
  }

  // ---- bits ----

  function Pow2(i: nat): (r: nat)
    ensures r >= 1
  {
    if i == 0 then 1 else 2 * Pow2(i - 1)
  }

  /** Python's `a | b` on non-negative integers. */
  function BitOr(a: nat, b: nat): nat
  {
    if a == 0 then b
    else if b == 0 then a
    else 2 * BitOr(a / 2, b / 2) + (if a % 2 == 1 || b % 2 == 1 then 1 else 0)
  }

  /** Bit `i` of `v` is set: `(v >> i) & 1 == 1`. */
  predicate TestBit(v: nat, i: nat)
  {
    if i == 0 then v % 2 == 1 else TestBit(v / 2, i - 1)
  }

  /** Or-ing in a bit above every bit already set adds its weight. */
  lemma {:induction false} BitOrHighBit(a: nat, i: nat)
    requires a < Pow2(i)
    ensures BitOr(a, Pow2(i)) == a + Pow2(i)
  {
    if i > 0 && a != 0 {
      BitOrHighBit(a / 2, i - 1);
    }
  }
}
