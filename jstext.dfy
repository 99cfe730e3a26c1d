// The JavaScript string operations the storefront relies on: `trim`,
// `replace(/\s+/g, "_")`, the decimal rendering of an integer in a template
// literal, and `Number.prototype.toFixed(2)` on an amount held in cents.

module JsText {

  /**
   * The ECMAScript WhiteSpace and LineTerminator code points, which is the
   * set that both `String.prototype.trim` and the regular-expression class
   * `\s` treat as white space.
   */
  predicate IsWhiteSpace(c: char) {
    || c == '\t' || c == '\n' || c == '\U{000B}' || c == '\U{000C}' || c == '\r'
    || c == ' ' || c == '\U{00A0}' || c == '\U{1680}'
    || ('\U{2000}' <= c <= '\U{200A}')
    || c == '\U{2028}' || c == '\U{2029}' || c == '\U{202F}' || c == '\U{205F}'
    || c == '\U{3000}' || c == '\U{FEFF}'
  }

  predicate AllWhiteSpace(s: string) {
    forall i :: 0 <= i < |s| ==> IsWhiteSpace(s[i])
  }

  /** `s` with its leading white space removed. */
  function TrimStart(s: string): (r: string)
    ensures |r| <= |s|
  {
    if s != [] && IsWhiteSpace(s[0]) then TrimStart(s[1..]) else s
  }

  /** What `TrimStart` removes is a white-space prefix, and what it keeps does not start with white space. */
  lemma {:induction false} TrimStartShape(s: string)
    ensures TrimStart(s) == s[|s| - |TrimStart(s)|..]
    ensures AllWhiteSpace(s[..|s| - |TrimStart(s)|])
    ensures TrimStart(s) != [] ==> !IsWhiteSpace(TrimStart(s)[0])
  {
    if s != [] && IsWhiteSpace(s[0]) {
      TrimStartShape(s[1..]);
      var k := |s| - |TrimStart(s)|;
      assert s[..k] == [s[0]] + s[1..][..k - 1];
    }
  }

  /** `s` with its trailing white space removed. */
  function TrimEnd(s: string): (r: string)
    ensures |r| <= |s|
  {
    if s != [] && IsWhiteSpace(s[|s| - 1]) then TrimEnd(s[..|s| - 1]) else s
  }

  /** What `TrimEnd` removes is a white-space suffix, and what it keeps does not end with white space. */
  lemma {:induction false} TrimEndShape(s: string)
    ensures TrimEnd(s) == s[..|TrimEnd(s)|]
    ensures AllWhiteSpace(s[|TrimEnd(s)|..])
    ensures TrimEnd(s) != [] ==> !IsWhiteSpace(TrimEnd(s)[|TrimEnd(s)| - 1])
  {
    if s != [] && IsWhiteSpace(s[|s| - 1]) {
      var p := s[..|s| - 1];
      TrimEndShape(p);
      var k := |TrimEnd(s)|;
      assert s[k..] == p[k..] + [s[|s| - 1]];
    }
  }

  /** `String.prototype.trim`. */
  function Trim(s: string): string {
    TrimEnd(TrimStart(s))
  }

  /**
   * `s.trim()` is the part of `s` left after removing a white-space prefix
   * and a white-space suffix, and it neither starts nor ends with white space.
   */
  lemma TrimShape(s: string)
    ensures exists i, j :: 0 <= i <= j <= |s| && Trim(s) == s[i..j]
              && AllWhiteSpace(s[..i]) && AllWhiteSpace(s[j..])
    ensures Trim(s) != [] ==> !IsWhiteSpace(Trim(s)[0]) && !IsWhiteSpace(Trim(s)[|Trim(s)| - 1])
  {
    var t := TrimStart(s);
    TrimStartShape(s);
    TrimEndShape(t);
    var i := |s| - |t|;
    var j := i + |TrimEnd(t)|;
    assert s[i..j] == t[..|TrimEnd(t)|];
    assert s[j..] == t[|TrimEnd(t)|..];
    if TrimEnd(t) != [] {
      assert TrimEnd(t)[0] == t[0];
    }
  }

  /** A name is empty after trimming exactly when it consists of white space only. */
  lemma TrimEmptyIff(s: string)
    ensures Trim(s) == [] <==> AllWhiteSpace(s)
  {
    var t := TrimStart(s);
    TrimStartShape(s);
    TrimEndShape(t);
    if Trim(s) == [] {
      assert s == s[..|s| - |t|] + t;
      assert AllWhiteSpace(t) by {
        assert t[|TrimEnd(t)|..] == t;
      }
    }
    if AllWhiteSpace(s) {
      assert s + [] == s;
      TrimStartOfRun(s, []);
    }
  }

  /**
   * `s.replace(/\s+/g, "_")`: every maximal run of white space becomes one
   * underscore and every other character is kept.
   */
  function CollapseWhiteSpace(s: string): string
    decreases |s|
  {
    if s == [] then []
    else if IsWhiteSpace(s[0]) then
      assert |TrimStart(s)| < |s| by {
        assert TrimStart(s) == TrimStart(s[1..]);
      }
      "_" + CollapseWhiteSpace(TrimStart(s))
    else [s[0]] + CollapseWhiteSpace(s[1..])
  }

  /** The replacement leaves no white space behind. */
  lemma {:induction false} CollapseHasNoWhiteSpace(s: string)
    ensures forall i :: 0 <= i < |CollapseWhiteSpace(s)| ==> !IsWhiteSpace(CollapseWhiteSpace(s)[i])
    decreases |s|
  {
    if s != [] {
      if IsWhiteSpace(s[0]) {
        CollapseAtWhiteSpace(s);
        CollapseHasNoWhiteSpace(TrimStart(s));
      } else {
        CollapseHasNoWhiteSpace(s[1..]);
      }
    }
  }

  /** Text without white space goes through the replacement unchanged. */
  lemma {:induction false} CollapseKeepsPlainText(s: string)
    requires forall i :: 0 <= i < |s| ==> !IsWhiteSpace(s[i])
    ensures CollapseWhiteSpace(s) == s
  {
    if s != [] {
      CollapseKeepsPlainText(s[1..]);
    }
  }

  lemma {:induction false} TrimStartConcat(a: string, t: string)
    requires a != [] && !IsWhiteSpace(a[|a| - 1])
    ensures TrimStart(a + t) == TrimStart(a) + t
  {
    if IsWhiteSpace(a[0]) {
      assert |a| > 1;
      assert (a + t)[1..] == a[1..] + t;
      TrimStartConcat(a[1..], t);
    }
  }

  lemma TrimStartOfRun(w: string, b: string)
    requires AllWhiteSpace(w)
    requires b == [] || !IsWhiteSpace(b[0])
    ensures TrimStart(w + b) == b
    decreases |w|
  {
    if w != [] {
      assert (w + b)[1..] == w[1..] + b;
      TrimStartOfRun(w[1..], b);
    } else {
      assert w + b == b;
    }
  }

  lemma CollapseAtWhiteSpace(s: string)
    requires s != [] && IsWhiteSpace(s[0])
    ensures |TrimStart(s)| < |s|
    ensures CollapseWhiteSpace(s) == "_" + CollapseWhiteSpace(TrimStart(s))
  {
    assert TrimStart(s) == TrimStart(s[1..]);
  }

  lemma CollapseAtPlain(s: string)
    requires s != [] && !IsWhiteSpace(s[0])
    ensures CollapseWhiteSpace(s) == [s[0]] + CollapseWhiteSpace(s[1..])
  {
  }

  /** Cutting after a character that is not white space splits the replacement too. */
  lemma {:induction false} CollapseConcat(a: string, t: string)
    requires a == [] || !IsWhiteSpace(a[|a| - 1])
    ensures CollapseWhiteSpace(a + t) == CollapseWhiteSpace(a) + CollapseWhiteSpace(t)
    decreases |a|, 1
  {
    if a == [] {
      assert a + t == t;
    } else if IsWhiteSpace(a[0]) {
      CollapseConcatAtWhiteSpace(a, t);
    } else {
      CollapseConcatAtPlain(a, t);
    }
  }

  lemma {:induction false} CollapseConcatAtWhiteSpace(a: string, t: string)
    requires a != [] && IsWhiteSpace(a[0]) && !IsWhiteSpace(a[|a| - 1])
    ensures CollapseWhiteSpace(a + t) == CollapseWhiteSpace(a) + CollapseWhiteSpace(t)
    decreases |a|, 0
  {
    var ct := CollapseWhiteSpace(t);
    assert (a + t)[0] == a[0];
    var a' := TrimStart(a);
    TrimStartConcat(a, t);
    CollapseAtWhiteSpace(a);
    CollapseAtWhiteSpace(a + t);
    TrimStartShape(a);
    assert a' != [] && a'[|a'| - 1] == a[|a| - 1];
    CollapseConcat(a', t);
    var ca' := CollapseWhiteSpace(a');
    assert CollapseWhiteSpace(a + t) == "_" + (ca' + ct);
    assert "_" + (ca' + ct) == ("_" + ca') + ct;
  }

  lemma {:induction false} CollapseConcatAtPlain(a: string, t: string)
    requires a != [] && !IsWhiteSpace(a[0]) && !IsWhiteSpace(a[|a| - 1])
    ensures CollapseWhiteSpace(a + t) == CollapseWhiteSpace(a) + CollapseWhiteSpace(t)
    decreases |a|, 0
  {
    var ct := CollapseWhiteSpace(t);
    assert (a + t)[0] == a[0];
    var a' := a[1..];
    assert (a + t)[1..] == a' + t;
    CollapseAtPlain(a);
    CollapseAtPlain(a + t);
    assert a' == [] || a'[|a'| - 1] == a[|a| - 1];
    CollapseConcat(a', t);
    var ca' := CollapseWhiteSpace(a');
    assert CollapseWhiteSpace(a + t) == [a[0]] + (ca' + ct);
    assert [a[0]] + (ca' + ct) == ([a[0]] + ca') + ct;
  }

  /** A non-empty white-space run followed by text that does not start with white space becomes one `_`. */
  lemma CollapseRun(w: string, b: string)
    requires w != [] && AllWhiteSpace(w)
    requires b == [] || !IsWhiteSpace(b[0])
    ensures CollapseWhiteSpace(w + b) == "_" + CollapseWhiteSpace(b)
  {
    assert (w + b)[0] == w[0];
    TrimStartOfRun(w, b);
  }

  /** The character for a decimal digit. */
  function DigitChar(d: nat): char
    requires d < 10
  {
    (('0' as int) + d) as char
  }

  predicate IsDigits(s: string) {
    forall i :: 0 <= i < |s| ==> '0' <= s[i] <= '9'
  }

  /** `${n}` for a non-negative integer: its decimal digits, without leading zeros. */
  function NatToString(n: nat): (r: string)
    ensures |r| >= 1 && IsDigits(r)
    ensures |r| > 1 ==> r[0] != '0'
  {
    if n < 10 then [DigitChar(n)] else NatToString(n / 10) + [DigitChar(n % 10)]
  }

  /** The value of a string of decimal digits. */
  function DigitsValue(s: string): nat
    requires IsDigits(s)
  {
    if s == [] then 0 else DigitsValue(s[..|s| - 1]) * 10 + (s[|s| - 1] as int - '0' as int)
  }

  /** Reading the decimal rendering back yields the number. */
  lemma {:induction false} NatToStringRoundTrip(n: nat)
    ensures DigitsValue(NatToString(n)) == n
  {
    if n >= 10 {
      var r := NatToString(n);
      NatToStringRoundTrip(n / 10);
      assert r[..|r| - 1] == NatToString(n / 10);
    }
  }

  /** Distinct numbers have distinct decimal renderings: timestamp-derived keys do not collide. */
  lemma NatToStringInjective(a: nat, b: nat)
    requires NatToString(a) == NatToString(b)
    ensures a == b
  {
    NatToStringRoundTrip(a);
    NatToStringRoundTrip(b);
  }

  /** Two clock readings behind the same prefix give two different keys. */
  lemma PrefixedNumbersDiffer(prefix: string, a: nat, b: nat)
    requires a != b
    ensures prefix + NatToString(a) != prefix + NatToString(b)
  {
    if prefix + NatToString(a) == prefix + NatToString(b) {
      assert (prefix + NatToString(a))[|prefix|..] == NatToString(a);
      assert (prefix + NatToString(b))[|prefix|..] == NatToString(b);
      NatToStringInjective(a, b);
    }
  }

  lemma DigitsValueOfTwo(d1: nat, d2: nat)
    requires d1 < 10 && d2 < 10
    ensures DigitsValue([DigitChar(d1), DigitChar(d2)]) == d1 * 10 + d2
  {
    var s := [DigitChar(d1), DigitChar(d2)];
    assert s[..1] == [DigitChar(d1)];
    assert s[..1][..0] == [];
    assert DigitsValue(s[..1]) == d1;
    assert s[1] as int - '0' as int == d2;
  }

  /** `(cents / 100).toFixed(2)`: the integer part, a point and exactly two decimals. */
  function FormatFixed2(cents: int): string {
    var m := if cents < 0 then -cents else cents;
    (if cents < 0 then "-" else "") + NatToString(m / 100) + "." + [DigitChar(m % 100 / 10), DigitChar(m % 10)]
  }

  /** For a non-negative amount the text reads back as the amount: digits, point, two digits. */
  lemma FormatFixed2Value(cents: nat)
    ensures var r := FormatFixed2(cents);
      && |r| >= 4 && r[|r| - 3] == '.'
      && IsDigits(r[..|r| - 3]) && IsDigits(r[|r| - 2..])
      && DigitsValue(r[..|r| - 3]) * 100 + DigitsValue(r[|r| - 2..]) == cents
  {
    var r := FormatFixed2(cents);
    var w := NatToString(cents / 100);
    assert r == w + "." + [DigitChar(cents % 100 / 10), DigitChar(cents % 10)];
    assert r[..|r| - 3] == w;
    var two := r[|r| - 2..];
    assert two == [DigitChar(cents % 100 / 10), DigitChar(cents % 10)];
    NatToStringRoundTrip(cents / 100);
    DigitsValueOfTwo(cents % 100 / 10, cents % 10);
  }

  /** `n.toString()` for an integer. */
  function IntToString(n: int): (r: string)
    ensures n >= 0 ==> r == NatToString(n)
    ensures n < 0 ==> r == "-" + NatToString(-n)
  {
    if n < 0 then "-" + NatToString(-n) else NatToString(n)
  }

  /** `s.length`: JavaScript counts UTF-16 code units, two for a character beyond U+FFFF. */
  function Utf16Length(s: string): (n: nat)
    ensures |s| <= n <= 2 * |s|
  {
    if s == [] then 0 else (if s[0] as int >= 0x1_0000 then 2 else 1) + Utf16Length(s[1..])
  }
}
