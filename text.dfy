/** The few string operations of Python's `str` that the core uses. */
module Text {

  /** `sep.join(parts)`. */
  function Join(sep: string, parts: seq<string>): string
  {
    if |parts| == 0 then ""
    else if |parts| == 1 then parts[0]
    else parts[0] + sep + Join(sep, parts[1..])
  }

  /** Joining one more part adds the separator and that part. */
  lemma {:induction false} JoinSnoc(sep: string, parts: seq<string>, last: string)
    requires |parts| > 0
    ensures Join(sep, parts + [last]) == Join(sep, parts) + sep + last
    decreases |parts|
  {
    var all := parts + [last];
    assert all[1..] == parts[1..] + [last];
    if |parts| > 1 {
      JoinSnoc(sep, parts[1..], last);
    }
  }

  /** `s.startswith("{") and s.endswith("}")`. */
  predicate IsBraced(s: string)
  {
    |s| > 0 && s[0] == '{' && s[|s| - 1] == '}'
  }

  /** `s.replace("%", "%%")`. */
  function EscapePercent(s: string): (r: string)
    ensures |r| >= |s|
    ensures s == [] <==> r == []
  {
    if s == [] then []
    else (if s[0] == '%' then "%%" else [s[0]]) + EscapePercent(s[1..])
  }

  /** Inverse of `EscapePercent`: the percent handling argparse applies to help strings. */
  function UnescapePercent(s: string): string
  {
    if |s| >= 2 && s[0] == '%' && s[1] == '%' then "%" + UnescapePercent(s[2..])
    else if s == [] then []
    else [s[0]] + UnescapePercent(s[1..])
  }

  /** After escaping, percent signs only occur in pairs. */
  predicate PercentsPaired(s: string)
  {
    if s == [] then true
    else if s[0] == '%' then |s| >= 2 && s[1] == '%' && PercentsPaired(s[2..])
    else PercentsPaired(s[1..])
  }

  /** Every `%` became `%%`, and nothing else changed. */
  lemma {:induction false} EscapePercentRoundTrip(s: string)
    ensures UnescapePercent(EscapePercent(s)) == s
    ensures PercentsPaired(EscapePercent(s))
  {
    if s != [] {
      EscapePercentRoundTrip(s[1..]);
      var rest := EscapePercent(s[1..]);
      if s[0] == '%' {
        assert EscapePercent(s) == "%%" + rest;
        assert ("%%" + rest)[2..] == rest;
      } else {
        assert EscapePercent(s) == [s[0]] + rest;
        assert ([s[0]] + rest)[1..] == rest;
      }
    }
  }

  /** Text without a percent sign is left as it is. */
  lemma {:induction false} EscapeWithoutPercent(s: string)
    requires forall i :: 0 <= i < |s| ==> s[i] != '%'
    ensures EscapePercent(s) == s
  {
    if s != [] {
      EscapeWithoutPercent(s[1..]);
      assert [s[0]] + s[1..] == s;
    }
  }

  function UpperChar(c: char): char
  {
    if 'a' <= c <= 'z' then (c as int - 'a' as int + 'A' as int) as char else c
  }

  /** `s.upper()` on ASCII letters. */
  function Upper(s: string): (r: string)
    ensures |r| == |s|
    ensures forall i :: 0 <= i < |s| ==> r[i] == UpperChar(s[i])
  {
    if s == [] then [] else [UpperChar(s[0])] + Upper(s[1..])
  }

  predicate IsDigits(s: string)
  {
    forall i :: 0 <= i < |s| ==> '0' <= s[i] <= '9'
  }

  function DigitChar(d: nat): (c: char)
    requires d < 10
    ensures '0' <= c <= '9' && c as int - '0' as int == d
  {
    ('0' as int + d) as char
  }

  /** `str(n)` for a non-negative int: its decimal digits, without leading zeros. */
  function NatText(n: nat): (r: string)
    ensures |r| > 0 && IsDigits(r)
    ensures r[0] == '0' ==> n == 0
    decreases n
  {
    if n < 10 then [DigitChar(n)] else NatText(n / 10) + [DigitChar(n % 10)]
  }

  /** The number a string of decimal digits denotes, as `int(s)` reads it. */
  function DigitsValue(s: string): nat
    requires IsDigits(s)
  {
    if s == [] then 0 else DigitsValue(s[..|s| - 1]) * 10 + (s[|s| - 1] as int - '0' as int)
  }

  /** `int(str(n)) == n`. */
  lemma {:induction false} NatTextValue(n: nat)
    ensures DigitsValue(NatText(n)) == n
    decreases n
  {
    var r := NatText(n);
    if n < 10 {
      assert r[..0] == [];
    } else {
      NatTextValue(n / 10);
      assert r[..|r| - 1] == NatText(n / 10);
    }
  }
}
