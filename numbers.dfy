/** The decimal numbers `Double.parseDouble` reads in the transaction exports. */
module Numbers {
  import opened Wrappers

  predicate IsDigit(c: char) {
    '0' <= c <= '9'
  }

  predicate AllDigits(s: string) {
    forall k :: 0 <= k < |s| ==> IsDigit(s[k])
  }

  function DigitValue(c: char): nat
    requires IsDigit(c)
  {
    c as int - '0' as int
  }

  /** The value of a string of decimal digits, most significant first. */
  function DigitsValue(s: string): nat
    requires AllDigits(s)
  {
    if s == [] then 0 else 10 * DigitsValue(s[..|s| - 1]) + DigitValue(s[|s| - 1])
  }

  function Pow10(n: nat): (r: nat)
    ensures r >= 1
  {
    if n == 0 then 1 else 10 * Pow10(n - 1)
  }

  /** The index of the first '.' in `s`, or `|s|` when there is none. */
  function DotIndex(s: string): (k: nat)
    ensures k <= |s|
    ensures k < |s| ==> s[k] == '.'
    ensures forall j :: 0 <= j < k ==> s[j] != '.'
  {
    if s == [] || s[0] == '.' then 0 else 1 + DotIndex(s[1..])
  }

  /** An unsigned decimal: digits, optionally followed by '.' and more digits, with at
      least one digit in all ("5", "5.", ".5" and "20.25" parse; "", "." and "1.2.3" do not). */
  function ParseUnsigned(s: string): Option<real> {
    var k := DotIndex(s);
    var whole := s[..k];
    var fraction := if k < |s| then s[k + 1..] else "";
    if (whole == [] && fraction == []) || !AllDigits(whole) || !AllDigits(fraction) then None
    else Some(DecimalValue(whole, fraction))
  }

  /** The value of the decimal `whole.fraction`. */
  function DecimalValue(whole: string, fraction: string): real
    requires AllDigits(whole) && AllDigits(fraction)
  {
    DigitsValue(whole) as real + DigitsValue(fraction) as real / Pow10(|fraction|) as real
  }

  /** `Double.parseDouble` on an optional sign followed by an unsigned decimal;
      `None` stands for the NumberFormatException it throws otherwise. */
  function ParseDouble(s: string): Option<real> {
    if s != [] && (s[0] == '-' || s[0] == '+') then
      match ParseUnsigned(s[1..])
      case None => None
      case Some(v) => Some(if s[0] == '-' then -v else v)
    else
      ParseUnsigned(s)
  }

  function DigitChar(d: nat): (c: char)
    requires d < 10
    ensures IsDigit(c) && DigitValue(c) == d
  {
    ('0' as int + d) as char
  }

  /** The decimal spelling of `n`, as `Integer.toString` writes it. */
  function NatToString(n: nat): (s: string)
    ensures s != [] && AllDigits(s) && DigitsValue(s) == n
  {
    if n < 10 then [DigitChar(n)]
    else
      var s := NatToString(n / 10) + [DigitChar(n % 10)];
      assert s[..|s| - 1] == NatToString(n / 10);
      s
  }

  /** Reading back a written whole number, with or without a minus sign, gives the number. */
  lemma ParseNatString(n: nat)
    ensures ParseDouble(NatToString(n)) == Some(n as real)
    ensures ParseDouble("-" + NatToString(n)) == Some(-(n as real))
  {
    var s := NatToString(n);
    assert !IsDigit('.') && !IsDigit('-') && !IsDigit('+');
    assert DotIndex(s) == |s| && s[..|s|] == s;
    assert ParseUnsigned(s) == Some(n as real);
    assert ("-" + s)[1..] == s;
  }

  /** A run of digits holds no '.', so the first '.' after it is found after it. */
  lemma {:induction false} DotIndexAfterDigits(a: string, rest: string)
    requires AllDigits(a)
    ensures DotIndex(a + rest) == |a| + DotIndex(rest)
  {
    if a != [] {
      assert (a + rest)[0] == a[0] && IsDigit(a[0]);
      assert (a + rest)[1..] == a[1..] + rest;
      DotIndexAfterDigits(a[1..], rest);
    } else {
      assert a + rest == rest;
    }
  }

  /** Reading a written decimal "a.b" gives the whole part plus the fraction scaled by its
      digit count. */
  lemma ParseDecimalString(a: string, b: string)
    requires a != [] && AllDigits(a) && AllDigits(b)
    ensures ParseDouble(a + "." + b) == Some(DecimalValue(a, b))
  {
    var s := a + "." + b;
    assert s == a + ("." + b);
    DotIndexAfterDigits(a, "." + b);
    assert s[..|a|] == a;
    assert s[|a| + 1..] == b;
    assert s[0] == a[0] && IsDigit(a[0]);
    assert ParseDouble(s) == ParseUnsigned(s);
    ParseSplit(s, |a|);
  }

  lemma ParseSplit(s: string, k: nat)
    requires DotIndex(s) == k < |s|
    requires AllDigits(s[..k]) && AllDigits(s[k + 1..]) && k > 0
    ensures ParseUnsigned(s) == Some(DecimalValue(s[..k], s[k + 1..]))
  {
  }

  /** A run of digits reads as the whole number it spells. */
  lemma ParseWholeString(a: string)
    requires a != [] && AllDigits(a)
    ensures ParseDouble(a) == Some(DigitsValue(a) as real)
  {
    DotIndexAfterDigits(a, "");
    assert a + "" == a;
    assert IsDigit(a[0]);
    ParseWhole(a);
    DecimalWhole(a);
  }

  lemma ParseWhole(s: string)
    requires DotIndex(s) == |s| && s != [] && AllDigits(s)
    ensures ParseUnsigned(s) == Some(DecimalValue(s, ""))
  {
    assert s[..|s|] == s;
  }

  lemma DecimalWhole(a: string)
    requires AllDigits(a)
    ensures DecimalValue(a, "") == DigitsValue(a) as real
  {
  }

  /** A string that starts with neither a sign, a digit nor a '.' is not a number. */
  lemma ParseRejectsNonNumericStart(s: string)
    requires s != [] && !IsDigit(s[0]) && s[0] !in "+-."
    ensures ParseDouble(s) == None
  {
    assert DotIndex(s) > 0;
    assert s[..DotIndex(s)][0] == s[0];
  }
}
