/** The handful of JavaScript string operations the storefront relies on:
    `trim` and the regex class `\s`, ASCII lower-casing, `includes`,
    `\d`, the decimal rendering of a non-negative number and `length`
    counted in UTF-16 code units. */
module Text {

  /** ECMAScript WhiteSpace and LineTerminator code points: the set both
      `String.prototype.trim` and the regex class `\s` use. */
  predicate IsJsSpace(c: char) {
    || c == '\U{0009}' || c == '\U{000A}' || c == '\U{000B}' || c == '\U{000C}' || c == '\U{000D}'
    || c == ' ' || c == '\U{00A0}' || c == '\U{1680}'
    || ('\U{2000}' <= c <= '\U{200A}')
    || c == '\U{2028}' || c == '\U{2029}' || c == '\U{202F}' || c == '\U{205F}'
    || c == '\U{3000}' || c == '\U{FEFF}'
  }

  predicate AllSpace(s: string) {
    forall k :: 0 <= k < |s| ==> IsJsSpace(s[k])
  }

  /** `s` with its leading white space removed. */
  function TrimStart(s: string): (r: string)
    ensures |r| <= |s| && r == s[|s| - |r|..]
    ensures AllSpace(s[..|s| - |r|])
    ensures |r| > 0 ==> !IsJsSpace(r[0])
  {
    if |s| > 0 && IsJsSpace(s[0]) then TrimStart(s[1..]) else s
  }

  /** `s` with its trailing white space removed. */
  function TrimEnd(s: string): (r: string)
    ensures |r| <= |s| && r == s[..|r|]
    ensures AllSpace(s[|r|..])
    ensures |r| > 0 ==> !IsJsSpace(r[|r| - 1])
  {
    if |s| > 0 && IsJsSpace(s[|s| - 1]) then TrimEnd(s[..|s| - 1]) else s
  }

  /** `String.prototype.trim`. */
  function Trim(s: string): (r: string)
    ensures |r| <= |s|
    ensures |r| > 0 ==> !IsJsSpace(r[0]) && !IsJsSpace(r[|r| - 1])
  {
    TrimEnd(TrimStart(s))
  }

  /** Trimming cuts a run of white space off each end and keeps the
      middle of `s` as it is. */
  lemma TrimSpec(s: string)
    ensures exists a :: 0 <= a <= |s| - |Trim(s)| && Trim(s) == s[a..a + |Trim(s)|] &&
                        AllSpace(s[..a]) && AllSpace(s[a + |Trim(s)|..])
  {
    var t := TrimStart(s);
    var r := Trim(s);
    var a := |s| - |t|;
    assert s[a..a + |r|] == r;
    assert s[a + |r|..] == t[|r|..];
  }

  /** The JS test `!s.trim()`: nothing but white space. */
  predicate IsBlank(s: string) {
    Trim(s) == []
  }

  /** A string is blank exactly when every character of it is white space. */
  lemma BlankIffAllSpace(s: string)
    ensures IsBlank(s) <==> AllSpace(s)
  {
    var t := TrimStart(s);
    if t != [] {
      assert s[|s| - |t|] == t[0];
      assert t[0..] == t;
    } else {
      assert s[..|s|] == s;
    }
  }

  /** ASCII-only `toLowerCase` of one character. */
  function LowerChar(c: char): char {
    if 'A' <= c <= 'Z' then (c as int + 32) as char else c
  }

  /** `String.prototype.toLowerCase`, restricted to the ASCII letters. */
  function Lower(s: string): (r: string)
    ensures |r| == |s|
    ensures forall k :: 0 <= k < |s| ==> r[k] == LowerChar(s[k])
  {
    seq(|s|, k requires 0 <= k < |s| => LowerChar(s[k]))
  }

  /** Lower-casing twice is lower-casing once. */
  lemma LowerIdempotent(s: string)
    ensures Lower(Lower(s)) == Lower(s)
  {
  }

  /** Lower-casing maps white space to white space and nothing else to it. */
  lemma LowerCharSpace(c: char)
    ensures IsJsSpace(LowerChar(c)) <==> IsJsSpace(c)
  {
    if 'A' <= c <= 'Z' {
      assert 'a' <= LowerChar(c) <= 'z';
    }
  }

  lemma {:induction false} TrimStartLower(s: string)
    ensures TrimStart(Lower(s)) == Lower(TrimStart(s))
    decreases |s|
  {
    if |s| > 0 {
      var l, c := Lower(s), s[0];
      assert l[0] == LowerChar(c);
      LowerCharSpace(c);
      if IsJsSpace(c) {
        assert l[1..] == Lower(s[1..]);
        assert TrimStart(l) == TrimStart(l[1..]);
        assert TrimStart(s) == TrimStart(s[1..]);
        TrimStartLower(s[1..]);
      } else {
        assert TrimStart(l) == l && TrimStart(s) == s;
      }
    }
  }

  lemma {:induction false} TrimEndLower(s: string)
    ensures TrimEnd(Lower(s)) == Lower(TrimEnd(s))
    decreases |s|
  {
    if |s| > 0 {
      var l, c := Lower(s), s[|s| - 1];
      assert l[|l| - 1] == LowerChar(c);
      LowerCharSpace(c);
      if IsJsSpace(c) {
        assert l[..|l| - 1] == Lower(s[..|s| - 1]);
        assert TrimEnd(l) == TrimEnd(l[..|l| - 1]);
        assert TrimEnd(s) == TrimEnd(s[..|s| - 1]);
        TrimEndLower(s[..|s| - 1]);
      } else {
        assert TrimEnd(l) == l && TrimEnd(s) == s;
      }
    }
  }

  /** Lower-casing touches no white space, so it commutes with trimming. */
  lemma TrimLowerCommute(s: string)
    ensures Trim(Lower(s)) == Lower(Trim(s))
  {
    TrimStartLower(s);
    TrimEndLower(TrimStart(s));
  }

  predicate IsPrefix(p: string, s: string) {
    |p| <= |s| && s[..|p|] == p
  }

  /** `hay.includes(needle)`, as a left-to-right scan. */
  predicate Contains(hay: string, needle: string)
    ensures needle == [] ==> Contains(hay, needle)
    ensures Contains(hay, needle) ==> |needle| <= |hay|
    decreases |hay|
  {
    IsPrefix(needle, hay) || (|hay| > 0 && Contains(hay[1..], needle))
  }

  /** `needle` occurs in `hay` starting at offset `i`. */
  predicate OccursAt(hay: string, needle: string, i: int) {
    0 <= i && i + |needle| <= |hay| && hay[i..i + |needle|] == needle
  }

  /** The scan finds `needle` exactly when it occurs at some offset. */
  lemma {:induction false} ContainsIffOccurs(hay: string, needle: string)
    ensures Contains(hay, needle) <==> exists i :: OccursAt(hay, needle, i)
    decreases |hay|
  {
    if |hay| > 0 {
      ContainsIffOccurs(hay[1..], needle);
      if Contains(hay[1..], needle) {
        var i :| OccursAt(hay[1..], needle, i);
        assert hay[i + 1..i + 1 + |needle|] == hay[1..][i..i + |needle|];
        assert OccursAt(hay, needle, i + 1);
      }
      if i :| OccursAt(hay, needle, i) {
        if i > 0 {
          assert hay[1..][i - 1..i - 1 + |needle|] == hay[i..i + |needle|];
          assert OccursAt(hay[1..], needle, i - 1);
        } else {
          assert IsPrefix(needle, hay);
        }
      }
    }
    if IsPrefix(needle, hay) {
      assert OccursAt(hay, needle, 0);
    }
    if |hay| == 0 {
      if i :| OccursAt(hay, needle, i) {
        assert IsPrefix(needle, hay);
      }
    }
  }

  /** The regex class `\d`: the ASCII digits only. */
  predicate IsDigit(c: char) {
    '0' <= c <= '9'
  }

  predicate AllDigits(s: string) {
    forall k :: 0 <= k < |s| ==> IsDigit(s[k])
  }

  /** The anchored regex `^\d{n}$`. */
  predicate ExactDigits(s: string, n: nat) {
    |s| == n && AllDigits(s)
  }

  function DigitChar(d: nat): (c: char)
    requires d < 10
    ensures IsDigit(c)
  {
    ('0' as int + d) as char
  }

  function DigitValue(c: char): (d: nat)
    requires IsDigit(c)
    ensures d < 10
  {
    c as int - '0' as int
  }

  /** `n.toString()` for a non-negative integer: decimal, no leading zero. */
  function NatToString(n: nat): (s: string)
    ensures |s| >= 1 && AllDigits(s)
    ensures |s| > 1 ==> s[0] != '0'
    decreases n
  {
    if n < 10 then [DigitChar(n)] else NatToString(n / 10) + [DigitChar(n % 10)]
  }

  /** The number a string of decimal digits denotes. */
  function DigitsValue(s: string): nat
    requires AllDigits(s)
  {
    if s == [] then 0 else DigitsValue(s[..|s| - 1]) * 10 + DigitValue(s[|s| - 1])
  }

  /** Reading back a rendered number gives the number. */
  lemma {:induction false} DigitsRoundTrip(n: nat)
    ensures DigitsValue(NatToString(n)) == n
    decreases n
  {
    var s := NatToString(n);
    if n >= 10 {
      DigitsRoundTrip(n / 10);
      assert s[..|s| - 1] == NatToString(n / 10);
    }
  }

  function Pow10(k: nat): (p: nat)
    ensures p >= 1
  {
    if k == 0 then 1 else 10 * Pow10(k - 1)
  }

  /** A number with `k` decimal digits renders to `k` characters. */
  lemma {:induction false} NatToStringLength(n: nat, k: nat)
    requires 1 <= k && (k == 1 || Pow10(k - 1) <= n) && n < Pow10(k)
    ensures |NatToString(n)| == k
    decreases k
  {
    if k > 1 {
      NatToStringLength(n / 10, k - 1);
    }
  }

  /** A number of at least `k` digits renders to at least `k` characters. */
  lemma {:induction false} NatToStringAtLeast(n: nat, k: nat)
    requires 1 <= k && Pow10(k - 1) <= n
    ensures |NatToString(n)| >= k
    decreases k
  {
    if k > 1 {
      NatToStringAtLeast(n / 10, k - 1);
    }
  }

  /** A positive number times a non-zero integer is at least as large as
      the number in magnitude. */
  lemma MulMagnitude(d: int, x: int)
    requires d > 0
    ensures x >= 1 ==> d * x >= d
    ensures x <= -1 ==> d * x <= -d
  {
    if x >= 1 {
      assert d * x == d * (x - 1) + d;
    } else if x <= -1 {
      assert d * x == d * (x + 1) - d;
    }
  }

  /** Euclidean division is determined by quotient and remainder. */
  lemma DivModUnique(n: int, d: int, a: int, m: int)
    requires d > 0 && n == d * a + m && 0 <= m < d
    ensures n % d == m && n / d == a
  {
    var q, r := n / d, n % d;
    assert d * (q - a) == m - r;
    MulMagnitude(d, q - a);
  }

  /** Peeling the last decimal digit off a remainder. */
  lemma ModTenStep(n: nat, p: nat)
    requires p >= 1
    ensures ((n / 10) % p) * 10 + n % 10 == n % (10 * p)
  {
    var q, r := n / 10, n % 10;
    var a, b := q / p, q % p;
    assert n == 10 * (p * a + b) + r;
    assert n == (10 * p) * a + (b * 10 + r);
    DivModUnique(n, 10 * p, a, b * 10 + r);
  }

  /** The last `k` digits of a rendered number, as a string. */
  function Suffix(n: nat, k: nat): (t: string)
    requires k <= |NatToString(n)|
    ensures |t| == k && AllDigits(t)
    ensures t == NatToString(n)[|NatToString(n)| - k..]
  {
    var s := NatToString(n);
    DropDigits(s, |s| - k);
    s[|s| - k..]
  }

  lemma DropDigits(s: string, a: nat)
    requires AllDigits(s) && a <= |s|
    ensures AllDigits(s[a..])
  {
    forall i | 0 <= i < |s| - a ensures IsDigit(s[a..][i]) {
      assert s[a..][i] == s[a + i];
    }
  }

  /** The last `k` digits of a rendered number denote the number modulo
      `10^k`. */
  lemma {:induction false} SuffixValue(n: nat, k: nat)
    requires k <= |NatToString(n)|
    ensures DigitsValue(Suffix(n, k)) == n % Pow10(k)
    decreases n
  {
    if k == 0 || n < 10 {
      SuffixBase(n, k);
    } else {
      SuffixValue(n / 10, k - 1);
      SuffixStep(n, k);
    }
  }

  lemma SuffixBase(n: nat, k: nat)
    requires k <= |NatToString(n)| && (k == 0 || n < 10)
    ensures DigitsValue(Suffix(n, k)) == n % Pow10(k)
  {
    var t := Suffix(n, k);
    if k == 0 {
      assert t == [];
    } else {
      assert t == [DigitChar(n)] && t[..0] == [];
    }
  }

  lemma SuffixStep(n: nat, k: nat)
    requires n >= 10 && 1 <= k <= |NatToString(n)|
    requires DigitsValue(Suffix(n / 10, k - 1)) == (n / 10) % Pow10(k - 1)
    ensures DigitsValue(Suffix(n, k)) == n % Pow10(k)
  {
    var t, u := Suffix(n, k), Suffix(n / 10, k - 1);
    var c := DigitChar(n % 10);
    assert t == u + [c] by {
      assert NatToString(n) == NatToString(n / 10) + [c];
    }
    assert DigitsValue(t) == DigitsValue(u) * 10 + n % 10 by {
      assert t[..|t| - 1] == u && t[|t| - 1] == c;
    }
    ModTenStep(n, Pow10(k - 1));
  }

  /** `s.slice(-k)`: the last `k` characters, or all of `s` when shorter.
      Since `-0` is `0`, `s.slice(-0)` is all of `s` as well. */
  function Last(s: string, k: nat): (r: string)
    ensures |r| == if k == 0 || |s| < k then |s| else k
    ensures r == s[|s| - |r|..]
    ensures k == 0 ==> r == s
  {
    if k == 0 || |s| < k then s else s[|s| - k..]
  }

  /** `s.length`: UTF-16 code units, so a character outside the Basic
      Multilingual Plane counts twice. */
  function Utf16Length(s: string): (n: nat)
    ensures |s| <= n <= 2 * |s|
    ensures (forall k :: 0 <= k < |s| ==> s[k] as int < 0x1_0000) ==> n == |s|
  {
    if s == [] then 0
    else (if s[0] as int >= 0x1_0000 then 2 else 1) + Utf16Length(s[1..])
  }
}
