/** JavaScript value semantics that the front end relies on: optional and
    undefined/null slots, the NaN-or-integer results of `parseInt`, the
    whitespace set of `String.prototype.trim` and of the regular-expression
    class `\s`, and `Number.prototype.toString` on integers. */
module Js {

  datatype Option<T> = None | Some(value: T)

  /** A property read in JavaScript: missing (`undefined`), `null`, or a value. */
  datatype Slot<T> = Undefined | Null | Value(value: T)

  /** A number produced by `parseInt` or by adding such numbers: NaN or an integer. */
  datatype Num = NaN | Finite(value: int)

  /** `a + b` on numbers: NaN is absorbing. */
  function Add(a: Num, b: Num): (r: Num)
    ensures r.Finite? <==> a.Finite? && b.Finite?
    ensures r.Finite? ==> r.value == a.value + b.value
  {
    if a.Finite? && b.Finite? then Finite(a.value + b.value) else NaN
  }

  /** `ns.reduce((t, n) => t + n, 0)`, grouped from the right. */
  function Sum(ns: seq<Num>): Num {
    if ns == [] then Finite(0) else Add(ns[0], Sum(ns[1..]))
  }

  /** A sum is NaN exactly when one of its terms is. */
  lemma {:induction false} SumNaN(ns: seq<Num>)
    ensures Sum(ns).NaN? <==> exists i :: 0 <= i < |ns| && ns[i].NaN?
  {
    if ns != [] {
      var rest := ns[1..];
      SumNaN(rest);
      assert forall i :: 0 <= i < |rest| ==> rest[i] == ns[i + 1];
      assert forall i :: 0 < i < |ns| ==> ns[i] == rest[i - 1];
    }
  }

  /** `s || d` on strings: the empty string is falsy. */
  function OrString(s: Option<string>, d: string): (r: string)
    ensures s.Some? && s.value != "" ==> r == s.value
    ensures s.None? || s.value == "" ==> r == d
  {
    if s.Some? && s.value != "" then s.value else d
  }

  // ---------------------------------------------------------------------
  // Whitespace and trimming

  /** WhiteSpace and LineTerminator code points of ECMAScript: the set removed
      by `trim` and matched by `\s`. */
  predicate IsWhiteSpace(c: char) {
    || c == ' ' || c == '\t' || c == '\n' || c == '\r'
    || c == '\U{000B}' || c == '\U{000C}' || c == '\U{00A0}' || c == '\U{1680}'
    || ('\U{2000}' <= c <= '\U{200A}')
    || c == '\U{2028}' || c == '\U{2029}' || c == '\U{202F}' || c == '\U{205F}'
    || c == '\U{3000}' || c == '\U{FEFF}'
  }

  /** Line terminators, where `^` matches under the `m` flag. */
  predicate IsLineTerminator(c: char) {
    c == '\n' || c == '\r' || c == '\U{2028}' || c == '\U{2029}'
  }

  function TrimStart(s: string): (r: string)
    ensures |r| <= |s| && r == s[|s| - |r|..]
    ensures r == [] || !IsWhiteSpace(r[0])
    ensures forall i :: 0 <= i < |s| - |r| ==> IsWhiteSpace(s[i])
  {
    if |s| > 0 && IsWhiteSpace(s[0]) then TrimStart(s[1..]) else s
  }

  function TrimEnd(s: string): (r: string)
    ensures |r| <= |s| && r == s[..|r|]
    ensures r == [] || !IsWhiteSpace(r[|r| - 1])
    ensures forall i :: |r| <= i < |s| ==> IsWhiteSpace(s[i])
  {
    if |s| > 0 && IsWhiteSpace(s[|s| - 1]) then TrimEnd(s[..|s| - 1]) else s
  }

  /** `s.trim()`. */
  function Trim(s: string): (r: string)
    ensures |r| <= |s|
    ensures r == [] || (!IsWhiteSpace(r[0]) && !IsWhiteSpace(r[|r| - 1]))
    ensures (exists i :: 0 <= i < |s| && !IsWhiteSpace(s[i])) ==> r != []
  {
    TrimEnd(TrimStart(s))
  }

  /** `!s.trim()`: the string is empty after trimming. */
  predicate IsBlank(s: string) {
    Trim(s) == ""
  }

  /** A string is blank exactly when every character is whitespace. */
  lemma BlankIffAllWhiteSpace(s: string)
    ensures IsBlank(s) <==> forall i :: 0 <= i < |s| ==> IsWhiteSpace(s[i])
  {
    var t := TrimStart(s);
    if !forall i :: 0 <= i < |s| ==> IsWhiteSpace(s[i]) {
      var k :| 0 <= k < |s| && !IsWhiteSpace(s[k]);
      assert k >= |s| - |t|;
      assert t[k - (|s| - |t|)] == s[k];
      var u := TrimEnd(t);
      assert |u| > k - (|s| - |t|);
    }
  }

  // ---------------------------------------------------------------------
  // parseInt

  /** Value of a character as a digit in radix up to 36, or 36 if it is none. */
  function DigitValue(c: char): (d: nat)
    ensures d <= 36
  {
    if '0' <= c <= '9' then (c as int) - ('0' as int)
    else if 'a' <= c <= 'z' then (c as int) - ('a' as int) + 10
    else if 'A' <= c <= 'Z' then (c as int) - ('A' as int) + 10
    else 36
  }

  /** Length of the longest prefix of `s` made of digits of `radix`. */
  function DigitRun(s: string, radix: nat): (k: nat)
    ensures k <= |s|
    ensures forall i :: 0 <= i < k ==> DigitValue(s[i]) < radix
    ensures k < |s| ==> DigitValue(s[k]) >= radix
  {
    if |s| > 0 && DigitValue(s[0]) < radix then 1 + DigitRun(s[1..], radix) else 0
  }

  /** Positional value of a string of digits, most significant first. */
  function DigitsValue(ds: string, radix: nat): nat
    requires forall i :: 0 <= i < |ds| ==> DigitValue(ds[i]) < radix
  {
    if ds == [] then 0
    else
      var init := ds[..|ds| - 1];
      assert forall i :: 0 <= i < |init| ==> init[i] == ds[i];
      var v := DigitsValue(init, radix);
      assert v * radix >= 0;
      v * radix + DigitValue(ds[|ds| - 1])
  }

  /** Splits an optional leading sign off `t`: (is negative, rest). */
  function SplitSign(t: string): (bool, string) {
    if |t| > 0 && t[0] == '-' then (true, t[1..])
    else if |t| > 0 && t[0] == '+' then (false, t[1..])
    else (false, t)
  }

  /** The digits of `radix` at the start of `rest`, read as a signed number; NaN if none. */
  function SignedDigits(negative: bool, rest: string, radix: nat): (r: Num)
    ensures r.NaN? <==> DigitRun(rest, radix) == 0
  {
    var k := DigitRun(rest, radix);
    if k == 0 then NaN
    else
      var v: int := DigitsValue(rest[..k], radix);
      Finite(if negative then -v else v)
  }

  /** `s` starts with a character that is neither whitespace, a sign nor a decimal digit. */
  predicate NonDigitStart(s: string) {
    |s| > 0 && !IsWhiteSpace(s[0]) && s[0] != '-' && s[0] != '+' && !('0' <= s[0] <= '9')
  }

  /** `parseInt(s, 10)`: leading whitespace, an optional sign, then the longest
      run of decimal digits; NaN when there is no digit. */
  function ParseIntDecimal(s: string): (r: Num)
    ensures s == "" ==> r.NaN?
    ensures NonDigitStart(s) ==> r.NaN?
  {
    var (negative, rest) := SplitSign(TrimStart(s));
    assert NonDigitStart(s) ==> DigitRun(rest, 10) == 0 by {
      if NonDigitStart(s) {
        assert TrimStart(s) == s;
        assert rest == s;
        assert DigitValue(s[0]) >= 10;
      }
    }
    SignedDigits(negative, rest, 10)
  }

  /** `parseInt(s)` without a radix: as `ParseIntDecimal`, except that a `0x`
      or `0X` after the sign switches to hexadecimal digits. */
  function ParseIntAuto(s: string): (r: Num)
    ensures ParseIntDecimal(s).NaN? ==> r.NaN?
    ensures ParseIntDecimal(s).Finite? && ParseIntDecimal(s).value != 0 ==> r == ParseIntDecimal(s)
  {
    var (negative, rest) := SplitSign(TrimStart(s));
    assert ParseIntDecimal(s) == SignedDigits(negative, rest, 10);
    if |rest| >= 2 && rest[0] == '0' && (rest[1] == 'x' || rest[1] == 'X') then
      DecimalZeroBeforeHex(negative, rest);
      SignedDigits(negative, rest[2..], 16)
    else SignedDigits(negative, rest, 10)
  }

  /** `parseInt("0")` is 0. */
  lemma ParseIntAutoZero()
    ensures ParseIntAuto("0") == Finite(0)
  {
    assert DigitChar(0) == '0';
    assert IntToString(0) == "0";
    ParseIntAutoOfIntToString(0);
  }

  /** Read in decimal, a `0x` prefix is the number 0: the `x` ends the digits. */
  lemma DecimalZeroBeforeHex(negative: bool, rest: string)
    requires |rest| >= 2 && rest[0] == '0' && (rest[1] == 'x' || rest[1] == 'X')
    ensures SignedDigits(negative, rest, 10) == Finite(0)
  {
    assert DigitRun(rest, 10) == 1 by {
      assert DigitValue(rest[1]) >= 10;
      assert DigitRun(rest[1..], 10) == 0;
    }
    assert DigitsValue(rest[..1], 10) == 0 by {
      assert rest[..1][..0] == [];
    }
  }

  // ---------------------------------------------------------------------
  // Number#toString on integers

  function DigitChar(d: nat): (c: char)
    requires d < 10
    ensures '0' <= c <= '9' && DigitValue(c) == d
  {
    (('0' as int) + d) as char
  }

  /** Decimal digits of `n`, without leading zeros. */
  function NatToString(n: nat): (s: string)
    ensures |s| >= 1
    ensures forall i :: 0 <= i < |s| ==> '0' <= s[i] <= '9'
    ensures |s| > 1 ==> s[0] != '0'
  {
    if n < 10 then [DigitChar(n)] else NatToString(n / 10) + [DigitChar(n % 10)]
  }

  /** `n.toString()` for an integer `n`. */
  function IntToString(n: int): (s: string)
    ensures |s| >= 1
    ensures s[0] == '-' <==> n < 0
  {
    if n < 0 then "-" + NatToString(-n) else NatToString(n)
  }

  lemma {:induction false} DigitsValueOfNatToString(n: nat)
    ensures forall i :: 0 <= i < |NatToString(n)| ==> DigitValue(NatToString(n)[i]) < 10
    ensures DigitsValue(NatToString(n), 10) == n
  {
    var s := NatToString(n);
    if n >= 10 {
      DigitsValueOfNatToString(n / 10);
      assert s[..|s| - 1] == NatToString(n / 10);
    }
  }

  /** A string of decimal digits is one whole run of digits. */
  lemma DigitRunOfNatToString(n: nat)
    ensures DigitRun(NatToString(n), 10) == |NatToString(n)|
  {
  }

  /** The sign and digits of a printed integer. */
  lemma SplitSignOfIntToString(n: int)
    ensures TrimStart(IntToString(n)) == IntToString(n)
    ensures SplitSign(IntToString(n)) == (n < 0, NatToString(if n < 0 then -n else n))
  {
    var s := IntToString(n);
    var c := s[0];
    assert c == '-' || '0' <= c <= '9';
    assert !IsWhiteSpace(c);
  }

  /** Reading back a decimal numeral with `parseInt(_, 10)` gives the number. */
  lemma ParseIntDecimalOfIntToString(n: int)
    ensures ParseIntDecimal(IntToString(n)) == Finite(n)
  {
    var m: nat := if n < 0 then -n else n;
    var digits := NatToString(m);
    SplitSignOfIntToString(n);
    assert ParseIntDecimal(IntToString(n)) == SignedDigits(n < 0, digits, 10);
    DigitsValueOfNatToString(m);
    DigitRunOfNatToString(m);
    assert digits[..|digits|] == digits;
    assert DigitsValue(digits, 10) == m;
  }

  /** Reading back a decimal numeral with radix-less `parseInt` gives the number. */
  lemma ParseIntAutoOfIntToString(n: int)
    ensures ParseIntAuto(IntToString(n)) == Finite(n)
  {
    var m: nat := if n < 0 then -n else n;
    var digits := NatToString(m);
    ParseIntDecimalOfIntToString(n);
    SplitSignOfIntToString(n);
    assert |digits| >= 2 ==> '0' <= digits[1] <= '9';
  }

  /** Distinct integers print differently. */
  lemma IntToStringInjective(a: int, b: int)
    requires IntToString(a) == IntToString(b)
    ensures a == b
  {
    ParseIntDecimalOfIntToString(a);
    ParseIntDecimalOfIntToString(b);
  }
}
