/** The JavaScript string and number primitives the course player relies on:
    `String(n)` for natural numbers, `parseInt(s, 10)`, `s.split(c)` on a
    one-character separator, `s.trim()`, `s.slice(-k)` and
    `s.replace(p, "")` (which removes the first occurrence only). */
module Text {

  datatype Option<T> = None | Some(value: T)

  predicate IsDigit(c: char) { '0' <= c <= '9' }

  predicate AllDigits(s: string) { forall i :: 0 <= i < |s| ==> IsDigit(s[i]) }

  function DigitChar(d: nat): (c: char)
    requires d < 10
    ensures IsDigit(c) && c as int - '0' as int == d
  {
    ('0' as int + d) as char
  }

  function DigitValue(c: char): (d: nat)
    requires IsDigit(c)
    ensures d < 10 && DigitChar(d) == c
  {
    c as int - '0' as int
  }

  function Pow10(k: nat): (p: nat)
    ensures p >= 1
  {
    if k == 0 then 1 else 10 * Pow10(k - 1)
  }

  /** `String(n)` for a natural number: its decimal digits, no leading zero. */
  function NatToString(n: nat): string
  {
    if n < 10 then [DigitChar(n)] else NatToString(n / 10) + [DigitChar(n % 10)]
  }

  /** `String(n)` is a non-empty digit string without a leading zero. */
  lemma {:induction false} NatToStringShape(n: nat)
    ensures var s := NatToString(n);
      && 1 <= |s| && AllDigits(s)
      && (|s| > 1 ==> s[0] != '0')
  {
    if n >= 10 {
      NatToStringShape(n / 10);
    }
  }

  /** `String(i)` for any integer. */
  function IntToString(i: int): string
  {
    if i < 0 then "-" + NatToString(-i) else NatToString(i)
  }

  /** The value of a string of decimal digits, read left to right. */
  function DigitsValue(s: string): nat
    requires AllDigits(s)
  {
    if s == [] then 0 else DigitsValue(s[..|s| - 1]) * 10 + DigitValue(s[|s| - 1])
  }

  /** `String(n)` is read back as `n`. */
  lemma {:induction false} NatToStringValue(n: nat)
    ensures AllDigits(NatToString(n)) && DigitsValue(NatToString(n)) == n
  {
    NatToStringShape(n);
    if n >= 10 {
      var s := NatToString(n);
      assert s[..|s| - 1] == NatToString(n / 10);
      NatToStringValue(n / 10);
    }
  }

  /** `String` is injective on the naturals. */
  lemma NatToStringInjective(m: nat, n: nat)
    requires NatToString(m) == NatToString(n)
    ensures m == n
  {
    NatToStringValue(m);
    NatToStringValue(n);
  }

  /** A leading zero does not change the value of a digit string. */
  lemma {:induction false} LeadingZeroValue(s: string)
    requires AllDigits(s)
    ensures AllDigits("0" + s) && DigitsValue("0" + s) == DigitsValue(s)
  {
    var t := "0" + s;
    if s != [] {
      assert t[..|t| - 1] == "0" + s[..|s| - 1];
      LeadingZeroValue(s[..|s| - 1]);
    }
  }

  lemma ModUnique(x: int, q: int, m: int, r: int)
    requires m > 0 && 0 <= r < m && x == q * m + r
    ensures x % m == r && x / m == q
  {
    var q', r' := x / m, x % m;
    assert (q' - q) * m == r - r';
    if q' > q {
      MulAtLeast(q' - q, m);
    } else if q' < q {
      MulAtLeast(q - q', m);
    }
  }

  lemma MulAtLeast(a: int, m: int)
    requires a >= 1 && m > 0
    ensures a * m >= m
  {
  }

  /** The last `k` digits of a digit string hold its value modulo 10^k. */
  lemma {:induction false} SuffixValue(s: string, k: nat)
    requires AllDigits(s) && k <= |s|
    ensures DigitsValue(s[|s| - k..]) == DigitsValue(s) % Pow10(k)
  {
    if k > 0 {
      var p := s[..|s| - 1];
      var t := s[|s| - k..];
      assert t[..|t| - 1] == p[|p| - (k - 1)..];
      SuffixValue(p, k - 1);
      var a, d, m := DigitsValue(p), DigitValue(s[|s| - 1]), Pow10(k - 1);
      assert DigitsValue(s) == a * 10 + d;
      assert DigitsValue(t) == DigitsValue(t[..|t| - 1]) * 10 + DigitValue(t[|t| - 1]);
      assert DigitsValue(t) == (a % m) * 10 + d;
      ModTimesTen(a, d, m);
    }
  }

  lemma ModTimesTen(a: nat, d: nat, m: nat)
    requires d < 10 && m >= 1
    ensures (a * 10 + d) % (m * 10) == (a % m) * 10 + d
  {
    var q, r := a / m, a % m;
    assert a == q * m + r;
    assert a * 10 + d == q * (m * 10) + (r * 10 + d);
    assert r * 10 + d < m * 10 by {
      assert r <= m - 1;
      assert r * 10 <= (m - 1) * 10;
    }
    ModUnique(a * 10 + d, q, m * 10, r * 10 + d);
  }

  /** `s.slice(-k)` for k > 0: the last `k` characters, or all of `s` when it is shorter. */
  function SliceLast(s: string, k: nat): string
  {
    if |s| < k then s else s[|s| - k..]
  }

  /** `("0" + n).slice(-2)`: the last two characters of the padded number
      (the padded text always has at least two). */
  function Pad2(n: nat): string
  {
    var s := "0" + NatToString(n);
    NatToStringShape(n);
    [s[|s| - 2], s[|s| - 1]]
  }

  /** `("000" + n).slice(-4)`: the last four characters of the padded number
      (the padded text always has at least four). */
  function Pad4(n: nat): string
  {
    var s := "000" + NatToString(n);
    NatToStringShape(n);
    [s[|s| - 4], s[|s| - 3], s[|s| - 2], s[|s| - 1]]
  }

  /** The padded fields are the JavaScript slices they stand for. */
  lemma Pad2Slice(n: nat)
    ensures Pad2(n) == SliceLast("0" + NatToString(n), 2)
  {
    NatToStringShape(n);
    var s := "0" + NatToString(n);
    assert |s| >= 2;
    assert SliceLast(s, 2) == s[|s| - 2..];
    assert s[|s| - 2..] == [s[|s| - 2], s[|s| - 1]];
  }

  lemma Pad4Slice(n: nat)
    ensures Pad4(n) == SliceLast("000" + NatToString(n), 4)
  {
    NatToStringShape(n);
    var s := "000" + NatToString(n);
    assert |s| >= 4;
    assert SliceLast(s, 4) == s[|s| - 4..];
    assert s[|s| - 4..] == [s[|s| - 4], s[|s| - 3], s[|s| - 2], s[|s| - 1]];
  }

  lemma Pad2Value(n: nat)
    ensures |Pad2(n)| == 2 && AllDigits(Pad2(n)) && DigitsValue(Pad2(n)) == n % 100
  {
    var s := NatToString(n);
    NatToStringValue(n);
    LeadingZeroValue(s);
    SuffixValue("0" + s, 2);
    Pad2Slice(n);
  }

  lemma ZerosValue(s: string)
    requires AllDigits(s)
    ensures AllDigits("000" + s) && DigitsValue("000" + s) == DigitsValue(s)
  {
    LeadingZeroValue(s);
    LeadingZeroValue("0" + s);
    LeadingZeroValue("00" + s);
    assert "00" + s == "0" + ("0" + s);
    assert "000" + s == "0" + ("00" + s);
  }

  lemma Pad4Value(n: nat)
    ensures |Pad4(n)| == 4 && AllDigits(Pad4(n)) && DigitsValue(Pad4(n)) == n % 10000
  {
    var s := NatToString(n);
    NatToStringValue(n);
    ZerosValue(s);
    SuffixValue("000" + s, 4);
    Pad4Slice(n);
  }

  // ---------------------------------------------------------------------------
  // split, trim, replace

  /** `s.split(sep)` for a one-character separator: always at least one piece. */
  function Split(s: string, sep: char): (parts: seq<string>)
    ensures |parts| >= 1
  {
    if s == [] then [""]
    else
      var rest := Split(s[1..], sep);
      if s[0] == sep then [""] + rest else [[s[0]] + rest[0]] + rest[1..]
  }

  /** Text without the separator is one piece. */
  lemma {:induction false} SplitNone(a: string, sep: char)
    requires sep !in a
    ensures Split(a, sep) == [a]
  {
    if a != [] {
      SplitNone(a[1..], sep);
      assert [a[0]] + a[1..] == a;
    }
  }

  /** The first separator ends the first piece. */
  lemma {:induction false} SplitFirst(a: string, b: string, sep: char)
    requires sep !in a
    ensures Split(a + [sep] + b, sep) == [a] + Split(b, sep)
  {
    if a != [] {
      assert (a + [sep] + b)[1..] == a[1..] + [sep] + b;
      SplitFirst(a[1..], b, sep);
      assert [a[0]] + a[1..] == a;
    } else {
      assert (a + [sep] + b)[1..] == b;
    }
  }

  /** Two pieces joined by a separator they do not contain split back apart. */
  lemma SplitTwo(a: string, b: string, sep: char)
    requires sep !in a && sep !in b
    ensures Split(a + [sep] + b, sep) == [a, b]
  {
    SplitNone(b, sep);
    SplitFirst(a, b, sep);
  }

  /** Three pieces joined by a separator they do not contain split back apart. */
  lemma SplitThree(a: string, b: string, c: string, sep: char)
    requires sep !in a && sep !in b && sep !in c
    ensures Split(a + [sep] + b + [sep] + c, sep) == [a, b, c]
  {
    SplitNone(c, sep);
    SplitFirst(b, c, sep);
    SplitFirst(a, b + [sep] + c, sep);
    assert a + [sep] + b + [sep] + c == a + [sep] + (b + [sep] + c);
  }

  lemma DigitsHaveNoSeparator(s: string, c: char)
    requires AllDigits(s) && !IsDigit(c)
    ensures c !in s
  {
    assert forall i :: 0 <= i < |s| ==> s[i] != c;
  }

  /** The whitespace that `trim` and `parseInt` skip: the ASCII controls,
      the Unicode space separators, the line and paragraph separators and
      the byte order mark. */
  predicate IsSpace(c: char)
  {
    c == ' ' || c == '\t' || c == '\n' || c == '\r' || c == '\U{000B}' || c == '\U{000C}'
    || c == '\U{00A0}' || c == '\U{1680}' || '\U{2000}' <= c <= '\U{200A}' || c == '\U{202F}'
    || c == '\U{205F}' || c == '\U{3000}' || c == '\U{2028}' || c == '\U{2029}' || c == '\U{FEFF}'
  }

  /** `s` without its leading whitespace. */
  function TrimStart(s: string): string
  {
    if s != [] && IsSpace(s[0]) then TrimStart(s[1..]) else s
  }

  lemma {:induction false} TrimStartShape(s: string)
    ensures var r := TrimStart(s);
      && |r| <= |s| && r == s[|s| - |r|..]
      && (r == [] || !IsSpace(r[0]))
      && (forall i :: 0 <= i < |s| - |r| ==> IsSpace(s[i]))
  {
    if s != [] && IsSpace(s[0]) {
      var t := s[1..];
      TrimStartShape(t);
      var r := TrimStart(t);
      assert TrimStart(s) == r;
      assert t[|t| - |r|..] == s[|s| - |r|..];
      forall i | 0 <= i < |s| - |r|
        ensures IsSpace(s[i])
      {
        if i > 0 {
          assert s[i] == t[i - 1];
        }
      }
    }
  }

  /** `s` without its trailing whitespace. */
  function TrimEnd(s: string): string
  {
    if s != [] && IsSpace(s[|s| - 1]) then TrimEnd(s[..|s| - 1]) else s
  }

  lemma {:induction false} TrimEndShape(s: string)
    ensures var r := TrimEnd(s);
      && |r| <= |s| && r == s[..|r|]
      && (r == [] || !IsSpace(r[|r| - 1]))
      && (forall i :: |r| <= i < |s| ==> IsSpace(s[i]))
  {
    if s != [] && IsSpace(s[|s| - 1]) {
      TrimEndShape(s[..|s| - 1]);
    }
  }

  /** `s.trim()`: the middle of `s` with every outer whitespace character removed. */
  function Trim(s: string): (r: string)
    ensures exists i, j ::
              && 0 <= i <= j <= |s| && r == s[i..j]
              && (forall k :: 0 <= k < i ==> IsSpace(s[k]))
              && (forall k :: j <= k < |s| ==> IsSpace(s[k]))
    ensures r == [] || (!IsSpace(r[0]) && !IsSpace(r[|r| - 1]))
  {
    var t := TrimStart(s);
    TrimStartShape(s);
    var r := TrimEnd(t);
    TrimEndShape(t);
    var i := |s| - |t|;
    assert r == s[i..i + |r|];
    r
  }

  /** `s.replace(p, "")`: the first occurrence of `p` is removed, if any. */
  function RemoveFirst(s: string, p: string): (r: string)
    decreases |s|
  {
    if |s| < |p| then s
    else if s[..|p|] == p then s[|p|..]
    else [s[0]] + RemoveFirst(s[1..], p)
  }

  // ---------------------------------------------------------------------------
  // parseInt

  /** The longest prefix of `s` made of digits. */
  function DigitPrefix(s: string): string
  {
    if s != [] && IsDigit(s[0]) then [s[0]] + DigitPrefix(s[1..]) else []
  }

  lemma {:induction false} DigitPrefixShape(s: string)
    ensures var d := DigitPrefix(s);
      && AllDigits(d) && d <= s
      && (|d| < |s| ==> !IsDigit(s[|d|]))
  {
    if s != [] && IsDigit(s[0]) {
      DigitPrefixShape(s[1..]);
    }
  }

  /** `parseInt(s, 10)`: leading whitespace, an optional sign, then the longest
      run of digits; `None` stands for `NaN` (no digit after the sign). */
  function ParseInt(s: string): Option<int>
  {
    var t := TrimStart(s);
    var neg := |t| > 0 && t[0] == '-';
    var u := if |t| > 0 && (t[0] == '-' || t[0] == '+') then t[1..] else t;
    var d := DigitPrefix(u);
    DigitPrefixShape(u);
    if d == [] then None else Some(if neg then -(DigitsValue(d) as int) else DigitsValue(d))
  }

  lemma {:induction false} DigitPrefixAll(s: string)
    requires AllDigits(s)
    ensures DigitPrefix(s) == s
  {
    if s != [] {
      DigitPrefixAll(s[1..]);
    }
  }

  /** `parseInt` reads a non-empty digit string as its value. */
  lemma ParseIntDigits(s: string)
    requires s != [] && AllDigits(s)
    ensures ParseInt(s) == Some(DigitsValue(s))
  {
    assert !IsSpace(s[0]);
    assert TrimStart(s) == s;
    assert s[0] != '-' && s[0] != '+';
    DigitPrefixAll(s);
  }

  /** `parseInt` stops at the first character that is not a digit. */
  lemma ParseIntStops(s: string, rest: string)
    requires s != [] && AllDigits(s)
    requires rest == [] || !IsDigit(rest[0])
    ensures ParseInt(s + rest) == Some(DigitsValue(s))
  {
    var t := s + rest;
    assert t[0] == s[0];
    assert IsDigit(t[0]);
    assert !IsSpace(t[0]);
    assert TrimStart(t) == t;
    assert t[0] != '-' && t[0] != '+';
    DigitPrefixStops(s, rest);
  }

  lemma {:induction false} DigitPrefixStops(s: string, rest: string)
    requires AllDigits(s)
    requires rest == [] || !IsDigit(rest[0])
    ensures DigitPrefix(s + rest) == s
  {
    if s != [] {
      assert (s + rest)[1..] == s[1..] + rest;
      DigitPrefixStops(s[1..], rest);
    } else {
      assert s + rest == rest;
    }
  }
}
