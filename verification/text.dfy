/**
 * The string operations the script relies on, written out: Python's
 * `str.strip()`, `str.lower()`, string ordering (for `sort_keys`), `str.join`,
 * `str.split` on one character and `str(int)`.
 */
module Text {

  /** Python's `str.isspace()` for one character. */
  predicate IsSpace(c: char) {
    || c == ' ' || ('\t' <= c <= '\r') || ('\U{1c}' <= c <= '\U{1f}')
    || c == '\U{85}' || c == '\U{a0}' || c == '\U{1680}'
    || ('\U{2000}' <= c <= '\U{200a}') || c == '\U{2028}' || c == '\U{2029}'
    || c == '\U{202f}' || c == '\U{205f}' || c == '\U{3000}'
  }

  predicate AllSpace(s: string) {
    forall i :: 0 <= i < |s| ==> IsSpace(s[i])
  }

  /** Python's `str.lstrip()`. */
  function TrimStart(s: string): string
    decreases |s|
  {
    if |s| > 0 && IsSpace(s[0]) then TrimStart(s[1..]) else s
  }

  /** `lstrip()` keeps a suffix, drops only whitespace, and leaves none at the front. */
  lemma {:induction false} TrimStartSpec(s: string)
    ensures SpacedSuffix(s, TrimStart(s))
    ensures |TrimStart(s)| > 0 ==> !IsSpace(TrimStart(s)[0])
    decreases |s|
  {
    if |s| > 0 && IsSpace(s[0]) {
      TrimStartSpec(s[1..]);
      SpacedSuffixCons(s, TrimStart(s[1..]));
    }
  }

  /** Python's `str.rstrip()`. */
  function TrimEnd(s: string): string
    decreases |s|
  {
    if |s| > 0 && IsSpace(s[|s| - 1]) then TrimEnd(s[..|s| - 1]) else s
  }

  /** `rstrip()` keeps a prefix, drops only whitespace, and leaves none at the end. */
  lemma {:induction false} TrimEndSpec(s: string)
    ensures SpacedPrefix(s, TrimEnd(s))
    ensures |TrimEnd(s)| > 0 ==> !IsSpace(TrimEnd(s)[|TrimEnd(s)| - 1])
    decreases |s|
  {
    if |s| > 0 && IsSpace(s[|s| - 1]) {
      TrimEndSpec(s[..|s| - 1]);
      SpacedPrefixSnoc(s, TrimEnd(s[..|s| - 1]));
    }
  }

  /** `t` is what is left of `s` after whitespace at its start. */
  predicate SpacedSuffix(s: string, t: string) {
    |t| <= |s| && t == s[|s| - |t|..] && AllSpace(s[..|s| - |t|])
  }

  /** `r` is what is left of `t` after whitespace at its end. */
  predicate SpacedPrefix(t: string, r: string) {
    |r| <= |t| && r == t[..|r|] && AllSpace(t[|r|..])
  }

  /** Whitespace in front of a spaced suffix leaves it a spaced suffix. */
  lemma SpacedSuffixCons(s: string, r: string)
    requires |s| > 0 && IsSpace(s[0]) && SpacedSuffix(s[1..], r)
    ensures SpacedSuffix(s, r)
  {
    assert s[1..][|s| - 1 - |r|..] == s[|s| - |r|..];
    assert s[..|s| - |r|] == [s[0]] + s[1..][..|s| - 1 - |r|];
  }

  /** Whitespace after a spaced prefix leaves it a spaced prefix. */
  lemma SpacedPrefixSnoc(s: string, r: string)
    requires |s| > 0 && IsSpace(s[|s| - 1]) && SpacedPrefix(s[..|s| - 1], r)
    ensures SpacedPrefix(s, r)
  {
    assert s[..|s| - 1][..|r|] == s[..|r|];
    assert s[|r|..] == s[..|s| - 1][|r|..] + [s[|s| - 1]];
  }

  /** `r` sits in `s` at offset `a` with only whitespace around it. */
  predicate PaddedAt(s: string, r: string, a: int) {
    0 <= a <= |s| - |r| && s[a..a + |r|] == r && AllSpace(s[..a]) && AllSpace(s[a + |r|..])
  }

  /** Python's `str.strip()`: drop the whitespace at both ends. */
  function Strip(s: string): (r: string)
    ensures exists a :: PaddedAt(s, r, a)
    ensures |r| > 0 ==> !IsSpace(r[0]) && !IsSpace(r[|r| - 1])
  {
    var t := TrimStart(s);
    var r := TrimEnd(t);
    TrimStartSpec(s);
    TrimEndSpec(t);
    StripShape(s, t, r);
    r
  }

  /** Cutting whitespace off the front and then off the back leaves a padded slice with no whitespace at its ends. */
  lemma StripShape(s: string, t: string, r: string)
    requires SpacedSuffix(s, t) && (|t| > 0 ==> !IsSpace(t[0]))
    requires SpacedPrefix(t, r) && (|r| > 0 ==> !IsSpace(r[|r| - 1]))
    ensures exists a :: PaddedAt(s, r, a)
    ensures |r| > 0 ==> !IsSpace(r[0]) && !IsSpace(r[|r| - 1])
  {
    PaddedBySuffixPrefix(s, t, r);
    if |r| > 0 {
      assert r[0] == t[0];
    }
  }

  /** A prefix of a suffix, each cut off at whitespace, sits padded in the whole. */
  lemma PaddedBySuffixPrefix(s: string, t: string, r: string)
    requires SpacedSuffix(s, t) && SpacedPrefix(t, r)
    ensures PaddedAt(s, r, |s| - |t|)
  {
    SuffixSlices(s, |s| - |t|, |r|);
  }

  /** Slicing a suffix of `s` is slicing `s` further along. */
  lemma SuffixSlices<T>(s: seq<T>, a: nat, n: nat)
    requires a + n <= |s|
    ensures s[a..][..n] == s[a..a + n]
    ensures s[a..][n..] == s[a + n..]
  {
  }

  /** Removing leading whitespace of a concatenation. */
  lemma {:induction false} TrimStartAppend(x: string, y: string)
    ensures TrimStart(x + y) == if TrimStart(x) == [] then TrimStart(y) else TrimStart(x) + y
    decreases |x|
  {
    if |x| == 0 {
      assert x + y == y;
    } else if IsSpace(x[0]) {
      assert (x + y)[1..] == x[1..] + y;
      TrimStartAppend(x[1..], y);
    }
  }

  /** Removing trailing whitespace of a concatenation. */
  lemma {:induction false} TrimEndPrepend(x: string, y: string)
    ensures TrimEnd(x + y) == if TrimEnd(y) == [] then TrimEnd(x) else x + TrimEnd(y)
    decreases |y|
  {
    if |y| == 0 {
      assert x + y == x;
    } else if IsSpace(y[|y| - 1]) {
      assert (x + y)[..|x + y| - 1] == x + y[..|y| - 1];
      TrimEndPrepend(x, y[..|y| - 1]);
    }
  }

  /** Whitespace-only text strips to nothing from the left. */
  lemma {:induction false} TrimStartAllSpace(p: string)
    requires AllSpace(p)
    ensures TrimStart(p) == []
    decreases |p|
  {
    if |p| > 0 {
      TrimStartAllSpace(p[1..]);
    }
  }

  /** Whitespace-only text strips to nothing from the right. */
  lemma {:induction false} TrimEndAllSpace(q: string)
    requires AllSpace(q)
    ensures TrimEnd(q) == []
    decreases |q|
  {
    if |q| > 0 {
      TrimEndAllSpace(q[..|q| - 1]);
    }
  }

  /** Leading whitespace is skipped by `lstrip()`. */
  lemma {:induction false} TrimStartSkipsSpace(p: string, y: string)
    requires AllSpace(p)
    ensures TrimStart(p + y) == TrimStart(y)
    decreases |p|
  {
    if |p| > 0 {
      assert (p + y)[1..] == p[1..] + y;
      TrimStartSkipsSpace(p[1..], y);
    } else {
      assert p + y == y;
    }
  }

  /** Trailing whitespace is dropped by `strip()`. */
  lemma StripSkipsTrailingSpace(x: string, q: string)
    requires AllSpace(q)
    ensures TrimEnd(TrimStart(x + q)) == TrimEnd(TrimStart(x))
  {
    TrimStartAppend(x, q);
    if TrimStart(x) == [] {
      TrimStartAllSpace(q);
    } else {
      TrimEndPrepend(TrimStart(x), q);
      TrimEndAllSpace(q);
    }
  }

  /** `strip()` is `lstrip()` followed by `rstrip()`. */
  lemma StripIsTrims(s: string)
    ensures Strip(s) == TrimEnd(TrimStart(s))
  {
  }

  /** Whitespace around a text does not change what `lstrip()` then `rstrip()` return. */
  lemma TrimsIgnorePadding(p: string, x: string, q: string)
    requires AllSpace(p) && AllSpace(q)
    ensures TrimEnd(TrimStart(p + x + q)) == TrimEnd(TrimStart(x))
  {
    TrimStartSkipsPadding(p, x, q);
    StripSkipsTrailingSpace(x, q);
  }

  /** Leading whitespace before `x + q` is skipped by `lstrip()`. */
  lemma {:induction false} TrimStartSkipsPadding(p: string, x: string, q: string)
    requires AllSpace(p)
    ensures TrimStart(p + x + q) == TrimStart(x + q)
    decreases |p|
  {
    if |p| > 0 {
      assert (p + x + q)[1..] == p[1..] + x + q;
      TrimStartSkipsPadding(p[1..], x, q);
    } else {
      assert p + x + q == x + q;
    }
  }

  /** Whitespace around a text does not change what `strip()` returns. */
  lemma StripIgnoresPadding(p: string, x: string, q: string)
    requires AllSpace(p) && AllSpace(q)
    ensures Strip(p + x + q) == Strip(x)
  {
    StripIsTrims(p + x + q);
    StripIsTrims(x);
    TrimsIgnorePadding(p, x, q);
  }

  /** A text with no whitespace at either end strips to itself. */
  lemma StripOfStripped(s: string)
    requires |s| > 0 ==> !IsSpace(s[0]) && !IsSpace(s[|s| - 1])
    ensures Strip(s) == s
  {
  }

  /** ASCII lower-casing of one character. */
  function LowerChar(c: char): char {
    if 'A' <= c <= 'Z' then (c as int - 'A' as int + 'a' as int) as char else c
  }

  /** `str.lower()`, restricted to ASCII letters. */
  function Lower(s: string): (r: string)
    ensures |r| == |s|
    ensures forall i :: 0 <= i < |s| ==> r[i] == LowerChar(s[i])
  {
    seq(|s|, i requires 0 <= i < |s| => LowerChar(s[i]))
  }

  /** Lower-casing never creates or removes whitespace. */
  lemma LowerKeepsSpace(c: char)
    ensures IsSpace(LowerChar(c)) == IsSpace(c)
  {
  }

  lemma LowerIdempotent(s: string)
    ensures Lower(Lower(s)) == Lower(s)
  {
  }

  /** Stripping and lower-casing commute. */
  lemma {:induction false} StripLowerCommute(s: string)
    ensures Strip(Lower(s)) == Lower(Strip(s))
  {
    TrimStartLower(s);
    TrimEndLower(TrimStart(s));
  }

  lemma {:induction false} TrimStartLower(s: string)
    ensures TrimStart(Lower(s)) == Lower(TrimStart(s))
    decreases |s|
  {
    if |s| > 0 {
      LowerKeepsSpace(s[0]);
      if IsSpace(s[0]) {
        assert Lower(s)[1..] == Lower(s[1..]);
        TrimStartLower(s[1..]);
      }
    }
  }

  lemma {:induction false} TrimEndLower(s: string)
    ensures TrimEnd(Lower(s)) == Lower(TrimEnd(s))
    decreases |s|
  {
    if |s| > 0 {
      var last := s[|s| - 1];
      LowerKeepsSpace(last);
      assert Lower(s)[|s| - 1] == LowerChar(last);
      if IsSpace(last) {
        LowerPrefix(s, |s| - 1);
        TrimEndLower(s[..|s| - 1]);
      }
    }
  }

  /** Lower-casing commutes with taking a prefix. */
  lemma LowerPrefix(s: string, n: nat)
    requires n <= |s|
    ensures Lower(s)[..n] == Lower(s[..n])
  {
  }

  // ---------------------------------------------------------------------------
  // Python string ordering (code point by code point, a prefix sorts first)

  predicate Le(a: string, b: string)
    decreases |a|
  {
    |a| == 0 || (|b| > 0 && (a[0] < b[0] || (a[0] == b[0] && Le(a[1..], b[1..]))))
  }

  lemma {:induction false} LeTotal(a: string, b: string)
    ensures Le(a, b) || Le(b, a)
    decreases |a|
  {
    if |a| > 0 && |b| > 0 && a[0] == b[0] {
      LeTotal(a[1..], b[1..]);
    }
  }

  lemma {:induction false} LeAntisymmetric(a: string, b: string)
    requires Le(a, b) && Le(b, a)
    ensures a == b
    decreases |a|
  {
    if |a| > 0 {
      LeAntisymmetric(a[1..], b[1..]);
      assert a == [a[0]] + a[1..];
      assert b == [b[0]] + b[1..];
    }
  }

  lemma {:induction false} LeTransitive(a: string, b: string, c: string)
    requires Le(a, b) && Le(b, c)
    ensures Le(a, c)
    decreases |a|
  {
    if |a| > 0 && a[0] == b[0] && b[0] == c[0] {
      LeTransitive(a[1..], b[1..], c[1..]);
    }
  }

  predicate IsLeast(k: string, ks: set<string>) {
    k in ks && forall k' :: k' in ks ==> Le(k, k')
  }

  /** Every non-empty finite set of strings has a least element. */
  lemma {:induction false} LeastExists(ks: set<string>)
    requires ks != {}
    ensures exists k :: IsLeast(k, ks)
    decreases ks
  {
    var x :| x in ks;
    if ks != {x} {
      var rest := ks - {x};
      LeastExists(rest);
      var m :| IsLeast(m, rest);
      LeTotal(x, m);
      if Le(x, m) {
        forall k' | k' in ks
          ensures Le(x, k')
        {
          if k' != x {
            LeTransitive(x, m, k');
          } else {
            LeTotal(x, x);
          }
        }
        assert IsLeast(x, ks);
      } else {
        assert IsLeast(m, ks);
      }
    } else {
      LeTotal(x, x);
      assert IsLeast(x, ks);
    }
  }

  lemma LeastUnique(ks: set<string>)
    ensures forall a, b :: IsLeast(a, ks) && IsLeast(b, ks) ==> a == b
  {
    forall a, b | IsLeast(a, ks) && IsLeast(b, ks)
      ensures a == b
    {
      LeAntisymmetric(a, b);
    }
  }

  /** The least key of a non-empty set. */
  function Least(ks: set<string>): (k: string)
    requires ks != {}
    ensures k in ks && forall k' :: k' in ks ==> Le(k, k')
  {
    LeastExists(ks);
    LeastUnique(ks);
    var k :| IsLeast(k, ks);
    k
  }

  /** A least key followed by a strictly increasing listing of the other keys lists all keys in order. */
  lemma ConsLeast(k: string, ks: set<string>, rest: seq<string>)
    requires k in ks && forall k' :: k' in ks ==> Le(k, k')
    requires |rest| == |ks - {k}|
    requires forall i :: 0 <= i < |rest| ==> rest[i] in ks - {k}
    requires forall x :: x in ks - {k} ==> x in rest
    requires forall i, j :: 0 <= i < j < |rest| ==> Le(rest[i], rest[j]) && rest[i] != rest[j]
    ensures |[k] + rest| == |ks|
    ensures forall i :: 0 <= i < |[k] + rest| ==> ([k] + rest)[i] in ks
    ensures forall x :: x in ks ==> x in [k] + rest
    ensures forall i, j :: 0 <= i < j < |[k] + rest| ==> Le(([k] + rest)[i], ([k] + rest)[j]) && ([k] + rest)[i] != ([k] + rest)[j]
  {
    var r := [k] + rest;
    forall i, j | 0 <= i < j < |r|
      ensures Le(r[i], r[j]) && r[i] != r[j]
    {
      assert r[j] == rest[j - 1];
      if i > 0 {
        assert r[i] == rest[i - 1];
      }
    }
  }

  /** Python's `sorted(keys)` for a set of strings. */
  function SortedKeys(ks: set<string>): (r: seq<string>)
    ensures |r| == |ks|
    ensures forall i :: 0 <= i < |r| ==> r[i] in ks
    ensures forall k :: k in ks ==> k in r
    ensures forall i, j :: 0 <= i < j < |r| ==> Le(r[i], r[j]) && r[i] != r[j]
    decreases ks
  {
    if ks == {} then []
    else
      var k := Least(ks);
      var rest := SortedKeys(ks - {k});
      ConsLeast(k, ks, rest);
      [k] + rest
  }

  // ---------------------------------------------------------------------------
  // join and split

  /** Python's `sep.join(xs)`. */
  function Join(xs: seq<string>, sep: string): (r: string)
    ensures |xs| == 0 ==> r == ""
    ensures |xs| == 1 ==> r == xs[0]
    ensures |xs| >= 2 ==> r == xs[0] + sep + Join(xs[1..], sep)
    decreases |xs|
  {
    if |xs| == 0 then ""
    else if |xs| == 1 then xs[0]
    else xs[0] + sep + Join(xs[1..], sep)
  }

  /** Adding an item at the end adds the separator and the item. */
  lemma {:induction false} JoinSnoc(xs: seq<string>, x: string, sep: string)
    requires |xs| >= 1
    ensures Join(xs + [x], sep) == Join(xs, sep) + sep + x
    decreases |xs|
  {
    assert (xs + [x])[0] == xs[0];
    if |xs| == 1 {
      assert (xs + [x])[1..] == [x];
    } else {
      assert (xs + [x])[1..] == xs[1..] + [x];
      JoinSnoc(xs[1..], x, sep);
    }
  }

  /** Python's `s.split(c)` for a one-character separator. */
  function Split(s: string, c: char): (r: seq<string>)
    ensures |r| >= 1
    ensures forall i :: 0 <= i < |r| ==> c !in r[i]
    decreases |s|
  {
    if |s| == 0 then [""]
    else
      var rest := Split(s[1..], c);
      if s[0] == c then [""] + rest
      else [[s[0]] + rest[0]] + rest[1..]
  }

  /** Joining the pieces of a split restores the text. */
  lemma {:induction false} JoinSplit(s: string, c: char)
    ensures Join(Split(s, c), [c]) == s
    decreases |s|
  {
    if |s| > 0 {
      var rest := Split(s[1..], c);
      JoinSplit(s[1..], c);
      if s[0] == c {
        assert Split(s, c) == [""] + rest;
        assert ([""] + rest)[1..] == rest;
      } else {
        var parts := [[s[0]] + rest[0]] + rest[1..];
        assert Split(s, c) == parts;
        if |rest| == 1 {
          assert rest == [rest[0]];
        } else {
          assert parts[1..] == rest[1..];
          assert Join(rest, [c]) == rest[0] + [c] + Join(rest[1..], [c]);
        }
      }
    }
  }

  /** Splitting a join of separator-free pieces gives the pieces back. */
  lemma {:induction false} SplitJoin(xs: seq<string>, c: char)
    requires |xs| >= 1
    requires forall i :: 0 <= i < |xs| ==> c !in xs[i]
    ensures Split(Join(xs, [c]), c) == xs
    decreases |xs|
  {
    if |xs| == 1 {
      SplitNoSep(xs[0], c);
    } else {
      SplitJoin(xs[1..], c);
      SplitPrefix(xs[0], Join(xs[1..], [c]), c);
      assert xs == [xs[0]] + xs[1..];
    }
  }

  lemma {:induction false} SplitNoSep(s: string, c: char)
    requires c !in s
    ensures Split(s, c) == [s]
    decreases |s|
  {
    if |s| > 0 {
      SplitNoSep(s[1..], c);
      assert s == [s[0]] + s[1..];
    }
  }

  lemma {:induction false} SplitPrefix(x: string, y: string, c: char)
    requires c !in x
    ensures Split(x + [c] + y, c) == [x] + Split(y, c)
    decreases |x|
  {
    if |x| == 0 {
      assert x + [c] + y == [c] + y;
      assert ([c] + y)[1..] == y;
    } else {
      assert (x + [c] + y)[1..] == x[1..] + [c] + y;
      SplitPrefix(x[1..], y, c);
      assert x == [x[0]] + x[1..];
    }
  }

  // ---------------------------------------------------------------------------
  // decimal integers

  function DigitChar(d: nat): char
    requires d < 10
  {
    ('0' as int + d) as char
  }

  /** `str(n)` for a natural number. */
  function NatToString(n: nat): (r: string)
    ensures |r| >= 1
    ensures forall i :: 0 <= i < |r| ==> '0' <= r[i] <= '9'
    ensures n > 0 ==> r[0] != '0'
    decreases n
  {
    if n < 10 then [DigitChar(n)] else NatToString(n / 10) + [DigitChar(n % 10)]
  }

  /** The value of a string of decimal digits. */
  function DigitsValue(s: string): nat
    requires forall i :: 0 <= i < |s| ==> '0' <= s[i] <= '9'
  {
    if |s| == 0 then 0 else 10 * DigitsValue(s[..|s| - 1]) + (s[|s| - 1] as int - '0' as int)
  }

  /** Reading back the decimal text of `n` gives `n`. */
  lemma {:induction false} NatToStringRoundTrip(n: nat)
    ensures DigitsValue(NatToString(n)) == n
    decreases n
  {
    if n >= 10 {
      NatToStringRoundTrip(n / 10);
      var s := NatToString(n);
      assert s[..|s| - 1] == NatToString(n / 10);
    }
  }

  /**
   * Python's `str(n)`: an optional minus sign and the decimal digits of the
   * magnitude, with no leading zero.
   */
  function IntToString(n: int): (r: string)
    ensures |r| >= 1
    ensures n >= 0 ==>
      && (forall i :: 0 <= i < |r| ==> '0' <= r[i] <= '9')
      && DigitsValue(r) == n
      && (|r| > 1 ==> r[0] != '0')
    ensures n < 0 ==>
      && |r| >= 2 && r[0] == '-' && r[1] != '0'
      && (forall i :: 1 <= i < |r| ==> '0' <= r[i] <= '9')
      && DigitsValue(r[1..]) == -n
  {
    NatToStringRoundTrip(if n < 0 then -n else n);
    if n < 0 then
      var digits := NatToString(-n);
      assert ("-" + digits)[1..] == digits;
      "-" + digits
    else NatToString(n)
  }
}
