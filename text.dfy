/**
 * The string primitives of JavaScript that the application relies on: decimal
 * rendering of integers (`String(n)`), `padStart`, `slice(0, n)`, the first-match
 * `replace`, `parseInt(s, 10)` and the integer subset of `Number(s)`.
 */
module Text {
  import opened Wrappers

  predicate IsDigit(c: char) {
    '0' <= c <= '9'
  }

  predicate AllDigits(s: string) {
    forall i | 0 <= i < |s| :: IsDigit(s[i])
  }

  function DigitChar(d: nat): (c: char)
    requires d < 10
    ensures IsDigit(c)
  {
    ('0' as int + d) as char
  }

  function DigitValue(c: char): (d: nat)
    requires IsDigit(c)
    ensures d < 10 && DigitChar(d) == c
  {
    c as int - '0' as int
  }

  /** The decimal digits of `n`, most significant first, without leading zeros. */
  function Digits(n: nat): (s: string)
    ensures |s| >= 1 && AllDigits(s)
    decreases n
  {
    if n < 10 then [DigitChar(n)] else Digits(n / 10) + [DigitChar(n % 10)]
  }

  /** The number a string of decimal digits denotes (the empty string denotes 0). */
  function DigitsValue(s: string): nat
    requires AllDigits(s)
  {
    if s == [] then 0 else 10 * DigitsValue(s[..|s| - 1]) + DigitValue(s[|s| - 1])
  }

  function Pow10(k: nat): (p: nat)
    ensures p >= 1
  {
    if k == 0 then 1 else 10 * Pow10(k - 1)
  }

  /** Reading back the digits of `n` gives `n`. */
  lemma {:induction false} DigitsRoundTrip(n: nat)
    ensures DigitsValue(Digits(n)) == n
    decreases n
  {
    if n >= 10 {
      var s := Digits(n);
      assert s[..|s| - 1] == Digits(n / 10);
      DigitsRoundTrip(n / 10);
    }
  }

  /** `n` has at most `k` digits exactly when it is below 10^k. */
  lemma {:induction false} DigitsLength(n: nat, k: nat)
    requires k >= 1
    ensures |Digits(n)| <= k <==> n < Pow10(k)
    decreases n
  {
    if n >= 10 {
      if k == 1 {
        assert Pow10(1) == 10;
        assert |Digits(n)| >= 2 by { assert |Digits(n)| == |Digits(n / 10)| + 1; }
      } else {
        DigitsLength(n / 10, k - 1);
        assert |Digits(n)| == |Digits(n / 10)| + 1;
      }
    } else {
      assert Pow10(k) >= 10 by { PowAtLeastTen(k); }
    }
  }

  lemma {:induction false} PowAtLeastTen(k: nat)
    requires k >= 1
    ensures Pow10(k) >= 10
  {
    if k > 1 { PowAtLeastTen(k - 1); }
  }

  /** Two-digit numbers print as exactly two digits, four-digit ones as four. */
  lemma DigitsLengthExact(n: nat, k: nat)
    requires k >= 1 && Pow10(k - 1) <= n < Pow10(k)
    ensures |Digits(n)| == k
  {
    DigitsLength(n, k);
    if k > 1 {
      DigitsLength(n, k - 1);
    } else {
      assert |Digits(n)| >= 1;
    }
  }

  /** JavaScript's `String(n)` for an integer. */
  function Decimal(n: int): (s: string)
    ensures |s| >= 1
  {
    if n < 0 then "-" + Digits(-n) else Digits(n)
  }

  /** `s.padStart(width, c)` with a one-character pad string. */
  function PadStart(s: string, width: nat, c: char): (r: string)
    ensures |r| == if |s| >= width then |s| else width
    ensures r[|r| - |s|..] == s
    ensures forall i | 0 <= i < |r| - |s| :: r[i] == c
  {
    if |s| >= width then s else seq(width - |s|, _ => c) + s
  }

  /** `String(n).padStart(2, '0')`, as used for months, days, hours and minutes. */
  function Pad2(n: nat): string {
    PadStart(Decimal(n), 2, '0')
  }

  lemma Pad2Shape(n: nat)
    requires n < 100
    ensures |Pad2(n)| == 2 && AllDigits(Pad2(n)) && DigitsValue(Pad2(n)) == n
  {
    var s := Pad2(n);
    DigitsRoundTrip(n);
    if n < 10 {
      assert Digits(n) == [DigitChar(n)];
      assert s == ['0', DigitChar(n)];
      assert s[..1] == ['0'];
    } else {
      DigitsLengthExact(n, 2);
      assert s == Digits(n);
    }
  }

  /** A text built by appending five more pieces starts with the first. */
  lemma ChainPrefix(x: string, a: string, b: string, c: string, d: string, e: string)
    ensures |((((x + a) + b) + c) + d) + e| >= |x|
    ensures (((((x + a) + b) + c) + d) + e)[..|x|] == x
  {
    var s := ((((x + a) + b) + c) + d) + e;
    assert forall i | 0 <= i < |x| :: s[i] == x[i];
  }

  /** `y-m-d` with a four-character `y` and two-character `m` and `d` has its fields at fixed places. */
  lemma DashJoinShape(y: string, m: string, d: string)
    requires |y| == 4 && |m| == 2 && |d| == 2
    ensures var s := y + "-" + m + "-" + d;
      |s| == 10 && s[4] == '-' && s[7] == '-' && s[..4] == y && s[5..7] == m && s[8..] == d
  {
    var s := y + "-" + m + "-" + d;
    assert s[..4] == y;
    assert s[5..7] == m;
    assert s[8..] == d;
  }

  /** `s.slice(0, n)` for a non-negative `n`. */
  function Prefix(s: string, n: nat): (r: string)
    ensures |r| <= n && (|s| >= n ==> |r| == n)
  {
    if n >= |s| then s else s[..n]
  }

  /** `s.replace(a, b)` for single characters: only the first occurrence is replaced. */
  function ReplaceFirst(s: string, a: char, b: char): (r: string)
    ensures |r| == |s|
    ensures a !in s ==> r == s
  {
    if s == [] then []
    else if s[0] == a then [b] + s[1..]
    else [s[0]] + ReplaceFirst(s[1..], a, b)
  }

  /** Characters that JavaScript trims or skips as white space (the ones that occur in practice). */
  predicate IsSpace(c: char) {
    c == ' ' || c == '\t' || c == '\n' || c == '\r' || c == '\U{000B}' || c == '\U{000C}'
    || c == '\U{00A0}' || c == '\U{3000}' || c == '\U{FEFF}'
  }

  function TrimStart(s: string): (r: string)
    ensures |r| <= |s| && r == s[|s| - |r|..]
    ensures r == [] || !IsSpace(r[0])
  {
    if s != [] && IsSpace(s[0]) then TrimStart(s[1..]) else s
  }

  function TrimEnd(s: string): (r: string)
    ensures |r| <= |s| && r == s[..|r|]
    ensures r == [] || !IsSpace(r[|r| - 1])
  {
    if s != [] && IsSpace(s[|s| - 1]) then TrimEnd(s[..|s| - 1]) else s
  }

  /** `s.trim()`. */
  function Trim(s: string): string {
    TrimEnd(TrimStart(s))
  }

  /** The longest prefix of `s` made of decimal digits. */
  function DigitPrefix(s: string): (r: string)
    ensures AllDigits(r) && |r| <= |s| && r == s[..|r|]
    ensures |r| < |s| ==> !IsDigit(s[|r|])
  {
    if s != [] && IsDigit(s[0]) then [s[0]] + DigitPrefix(s[1..]) else []
  }

  /**
   * `parseInt(s, 10)`: skip leading white space, read an optional sign and the
   * longest run of digits; `None` is NaN (no digits at all).
   */
  function ParseInt(s: string): (r: Option<int>)
    ensures AllDigits(s) && s != [] ==> r == Some(DigitsValue(s))
  {
    var t := TrimStart(s);
    var sign := if t != [] && t[0] == '-' then -1 else 1;
    var body := if t != [] && (t[0] == '-' || t[0] == '+') then t[1..] else t;
    var digits := DigitPrefix(body);
    assert AllDigits(s) && s != [] ==> t == s && body == s && digits == s && sign == 1 by {
      if AllDigits(s) && s != [] { TrimStartOfDigits(s); DigitPrefixOfDigits(s); }
    }
    if digits == [] then None else Some(sign * DigitsValue(digits))
  }

  lemma TrimStartOfDigits(s: string)
    requires AllDigits(s)
    ensures TrimStart(s) == s
  {
    if s != [] { assert !IsSpace(s[0]); }
  }

  lemma TrimEndOfDigits(s: string)
    requires AllDigits(s)
    ensures TrimEnd(s) == s
  {
    if s != [] { assert !IsSpace(s[|s| - 1]); }
  }

  lemma {:induction false} DigitPrefixOfDigits(s: string)
    requires AllDigits(s)
    ensures DigitPrefix(s) == s
  {
    if s != [] { DigitPrefixOfDigits(s[1..]); }
  }

  /**
   * `Number(s)` restricted to integer notation: after trimming, the empty string is 0,
   * an optional sign followed by one or more digits is that integer, and anything else
   * is NaN (`None`).
   */
  function NumberOf(s: string): (r: Option<int>)
    ensures Trim(s) == [] ==> r == Some(0)
    ensures AllDigits(s) && s != [] ==> r == Some(DigitsValue(s))
  {
    var t := Trim(s);
    assert AllDigits(s) ==> t == s by {
      if AllDigits(s) { TrimStartOfDigits(s); TrimEndOfDigits(s); }
    }
    if t == [] then Some(0)
    else
      var sign := if t[0] == '-' then -1 else 1;
      var body := if t[0] == '-' || t[0] == '+' then t[1..] else t;
      if body != [] && AllDigits(body) then Some(sign * DigitsValue(body)) else None
  }

  /** The digits before a non-digit are exactly the leading digit run. */
  lemma DigitPrefixConcat(a: string, b: string)
    requires AllDigits(a) && (b == [] || !IsDigit(b[0]))
    ensures DigitPrefix(a + b) == a
  {
    var r := DigitPrefix(a + b);
    assert r == (a + b)[..|a|] == a;
  }

  /** `Number(String(n))` is `n` for every integer. */
  lemma NumberOfDecimal(n: int)
    ensures NumberOf(Decimal(n)) == Some(n)
  {
    var s := Decimal(n);
    var d := Digits(if n < 0 then -n else n);
    assert s[|s| - 1] == d[|d| - 1];
    assert !IsSpace(s[0]) && !IsSpace(s[|s| - 1]);
    assert TrimStart(s) == s;
    assert TrimEnd(s) == s;
    DigitsRoundTrip(if n < 0 then -n else n);
    if n < 0 {
      assert s[1..] == d;
    } else {
      assert IsDigit(s[0]);
    }
  }
}
