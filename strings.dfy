/**
 * The Python `str` operations the pipeline relies on, over `string` (= `seq<char>`):
 * ordering (`a < b`, used by `sorted`), `split(",")`, `strip()`, the `in` substring test,
 * and decimal formatting of non-negative integers (`str(n)`, `"{:02d}"`, `"{:04d}"`, `int(s)`).
 */
module Strings {

  // ---------------------------------------------------------------------------
  // Ordering: Python compares strings code point by code point; a proper prefix
  // comes first.
  // ---------------------------------------------------------------------------

  predicate StrLess(a: string, b: string)
    decreases |a|
  {
    if a == [] then b != []
    else if b == [] then false
    else if a[0] != b[0] then a[0] < b[0]
    else StrLess(a[1..], b[1..])
  }

  lemma {:induction false} StrLessIrreflexive(a: string)
    ensures !StrLess(a, a)
    decreases |a|
  {
    if a != [] {
      StrLessIrreflexive(a[1..]);
    }
  }

  lemma {:induction false} StrLessTransitive(a: string, b: string, c: string)
    requires StrLess(a, b) && StrLess(b, c)
    ensures StrLess(a, c)
    decreases |a|
  {
    if a != [] && b != [] && c != [] && a[0] == b[0] && b[0] == c[0] {
      StrLessTransitive(a[1..], b[1..], c[1..]);
    }
  }

  lemma {:induction false} StrLessTotal(a: string, b: string)
    requires a != b
    ensures StrLess(a, b) || StrLess(b, a)
    decreases |a|
  {
    if a != [] && b != [] && a[0] == b[0] {
      assert a == [a[0]] + a[1..] && b == [b[0]] + b[1..];
      StrLessTotal(a[1..], b[1..]);
    }
  }

  lemma {:induction false} StrLessAsymmetric(a: string, b: string)
    requires StrLess(a, b)
    ensures !StrLess(b, a)
    decreases |a|
  {
    if a != [] && b != [] && a[0] == b[0] {
      StrLessAsymmetric(a[1..], b[1..]);
    }
  }

  /** Comparing two concatenations whose first parts have equal length. */
  lemma {:induction false} StrLessConcat(a: string, b: string, c: string, d: string)
    requires |a| == |c|
    ensures StrLess(a + b, c + d) <==> StrLess(a, c) || (a == c && StrLess(b, d))
    decreases |a|
  {
    if a != [] {
      assert (a + b)[0] == a[0] && (c + d)[0] == c[0];
      assert (a + b)[1..] == a[1..] + b && (c + d)[1..] == c[1..] + d;
      StrLessConcat(a[1..], b, c[1..], d);
      if a[0] == c[0] {
        assert a == c <==> a[1..] == c[1..] by {
          assert a == [a[0]] + a[1..] && c == [c[0]] + c[1..];
        }
      }
    } else {
      assert a + b == b && c + d == d;
    }
  }

  /** `s` is in ascending order, as `sorted` leaves a list of strings. */
  predicate Sorted(s: seq<string>)
  {
    forall i, j :: 0 <= i < j < |s| ==> !StrLess(s[j], s[i])
  }

  // ---------------------------------------------------------------------------
  // Concatenation
  // ---------------------------------------------------------------------------

  /** Two texts that are equal and begin with parts of equal length agree part by part. */
  lemma ConcatCancel(p1: string, r1: string, p2: string, r2: string)
    requires |p1| == |p2| && p1 + r1 == p2 + r2
    ensures p1 == p2 && r1 == r2
  {
    assert p1 == (p1 + r1)[..|p1|] && p2 == (p2 + r2)[..|p2|];
    assert r1 == (p1 + r1)[|p1|..] && r2 == (p2 + r2)[|p2|..];
  }

  lemma ConcatAssoc(a: string, b: string, c: string)
    ensures (a + b) + c == a + (b + c)
  {
  }

  /** The tail of `s` from `k` is its next `j` characters followed by the rest. */
  lemma Unglue(s: string, k: nat, j: nat)
    requires k + j <= |s|
    ensures s[k..] == s[k..k + j] + s[k + j..]
  {
  }

  // ---------------------------------------------------------------------------
  // Whitespace and strip()
  // ---------------------------------------------------------------------------

  /** The characters Python's `str.isspace()` accepts. */
  predicate IsSpace(c: char)
  {
    var n := c as int;
    (9 <= n <= 13) || (28 <= n <= 32) || n == 0x85 || n == 0xA0 || n == 0x1680
    || (0x2000 <= n <= 0x200A) || n == 0x2028 || n == 0x2029 || n == 0x202F
    || n == 0x205F || n == 0x3000
  }

  predicate AllSpace(s: string)
  {
    forall k :: 0 <= k < |s| ==> IsSpace(s[k])
  }

  /** How many whitespace characters `s` starts with. */
  function LeadingSpaces(s: string): (n: nat)
    ensures n <= |s| && AllSpace(s[..n])
    ensures n < |s| ==> !IsSpace(s[n])
  {
    if s != [] && IsSpace(s[0]) then
      var m := LeadingSpaces(s[1..]);
      assert s[..m + 1] == [s[0]] + s[1..][..m];
      m + 1
    else 0
  }

  /** Whitespace followed by one more whitespace character is still all whitespace. */
  lemma AllSpaceSnoc(t: string, c: char)
    requires AllSpace(t) && IsSpace(c)
    ensures AllSpace(t + [c])
  {
  }

  /** How many whitespace characters `s` ends with. */
  function TrailingSpaces(s: string): (n: nat)
    ensures n <= |s| && AllSpace(s[|s| - n..])
    ensures n < |s| ==> !IsSpace(s[|s| - n - 1])
  {
    if s != [] && IsSpace(s[|s| - 1]) then
      var init := s[..|s| - 1];
      var m := TrailingSpaces(init);
      assert s[|s| - 1 - m..] == init[|init| - m..] + [s[|s| - 1]];
      AllSpaceSnoc(init[|init| - m..], s[|s| - 1]);
      m + 1
    else 0
  }

  /** Python's `s.strip()`: `s` without its leading and trailing whitespace. */
  function Strip(s: string): (r: string)
    ensures r == [] || (!IsSpace(r[0]) && !IsSpace(r[|r| - 1]))
    ensures var i := LeadingSpaces(s);
            i + |r| <= |s| && r == s[i..i + |r|] && AllSpace(s[..i]) && AllSpace(s[i + |r|..])
  {
    var i := LeadingSpaces(s);
    if i == |s| then
      assert s[i..i] == [];
      []
    else
      var j := |s| - TrailingSpaces(s);
      s[i..j]
  }

  /** Stripping only removes characters: a character absent from `s` is absent from `Strip(s)`. */
  lemma StripKeepsOut(s: string, c: char)
    requires c !in s
    ensures c !in Strip(s)
  {
  }

  predicate NoSpaceAtEnds(s: string)
  {
    s == [] || (!IsSpace(s[0]) && !IsSpace(s[|s| - 1]))
  }

  /** Stripping leaves a string that has nothing left to strip. */
  lemma StripFixedPoint(s: string)
    requires NoSpaceAtEnds(s)
    ensures Strip(s) == s
  {
  }

  lemma StripIdempotent(s: string)
    ensures Strip(Strip(s)) == Strip(s)
  {
    StripFixedPoint(Strip(s));
  }

  // ---------------------------------------------------------------------------
  // split(sep) and its inverse, sep.join(parts)
  // ---------------------------------------------------------------------------

  function Count(s: string, c: char): nat
  {
    if s == [] then 0 else (if s[0] == c then 1 else 0) + Count(s[1..], c)
  }

  /**
   * Python's `s.split(sep)` for a one-character separator: always at least one
   * part (`"".split(",") == [""]`), one more part than separators, empty parts kept.
   */
  function Split(s: string, sep: char): (parts: seq<string>)
    ensures |parts| == Count(s, sep) + 1
    ensures forall i :: 0 <= i < |parts| ==> sep !in parts[i]
  {
    if s == [] then [[]]
    else
      var rest := Split(s[1..], sep);
      if s[0] == sep then [[]] + rest else [[s[0]] + rest[0]] + rest[1..]
  }

  /** Python's `sep.join(parts)`. */
  function Join(parts: seq<string>, sep: char): string
    requires |parts| >= 1
  {
    if |parts| == 1 then parts[0] else parts[0] + [sep] + Join(parts[1..], sep)
  }

  /** A join ends the way its last part ends. */
  lemma {:induction false} JoinEndsWith(parts: seq<string>, sep: char, t: string)
    requires |parts| >= 1 && EndsWith(parts[|parts| - 1], t)
    ensures EndsWith(Join(parts, sep), t)
    decreases |parts|
  {
    if |parts| > 1 {
      JoinEndsWith(parts[1..], sep, t);
      var head, tail := parts[0] + [sep], Join(parts[1..], sep);
      assert Join(parts, sep) == head + tail;
      assert (head + tail)[|head + tail| - |t|..] == tail[|tail| - |t|..];
    }
  }

  lemma {:induction false} JoinSplit(s: string, sep: char)
    ensures Join(Split(s, sep), sep) == s
    decreases |s|
  {
    if s != [] {
      JoinSplit(s[1..], sep);
      var rest := Split(s[1..], sep);
      if s[0] == sep {
        assert Split(s, sep)[1..] == rest;
        assert s == [] + [sep] + s[1..];
      } else {
        var parts := Split(s, sep);
        if |rest| == 1 {
          assert parts == [[s[0]] + rest[0]];
          assert s == [s[0]] + s[1..];
        } else {
          assert parts[1..] == rest[1..];
          assert Join(rest, sep) == rest[0] + [sep] + Join(rest[1..], sep);
          assert s == [s[0]] + s[1..];
        }
      }
    }
  }

  lemma {:induction false} SplitPrefix(p: string, sep: char, t: string)
    requires sep !in p
    ensures Split(p + [sep] + t, sep) == [p] + Split(t, sep)
    decreases |p|
  {
    if p == [] {
      assert p + [sep] + t == [sep] + t;
      assert ([sep] + t)[1..] == t;
    } else {
      assert (p + [sep] + t)[0] == p[0];
      assert (p + [sep] + t)[1..] == p[1..] + [sep] + t;
      SplitPrefix(p[1..], sep, t);
      assert [p[0]] + p[1..] == p;
    }
  }

  lemma {:induction false} SplitNoSep(p: string, sep: char)
    requires sep !in p
    ensures Split(p, sep) == [p]
    decreases |p|
  {
    if p != [] {
      SplitNoSep(p[1..], sep);
      assert [p[0]] + p[1..] == p;
    }
  }

  /** Splitting undoes joining when no part holds the separator. */
  lemma {:induction false} SplitJoin(parts: seq<string>, sep: char)
    requires |parts| >= 1
    requires forall i :: 0 <= i < |parts| ==> sep !in parts[i]
    ensures Split(Join(parts, sep), sep) == parts
    decreases |parts|
  {
    if |parts| == 1 {
      SplitNoSep(parts[0], sep);
    } else {
      SplitJoin(parts[1..], sep);
      SplitPrefix(parts[0], sep, Join(parts[1..], sep));
      assert [parts[0]] + parts[1..] == parts;
    }
  }

  // ---------------------------------------------------------------------------
  // The `in` operator on strings
  // ---------------------------------------------------------------------------

  predicate StartsWith(s: string, t: string)
  {
    |t| <= |s| && s[..|t|] == t
  }

  /** Python's `t in s` for strings: `t` occurs somewhere in `s`. */
  predicate Contains(s: string, t: string)
    decreases |s|
  {
    StartsWith(s, t) || (s != [] && Contains(s[1..], t))
  }

  predicate EndsWith(s: string, t: string)
  {
    |t| <= |s| && s[|s| - |t|..] == t
  }

  // ---------------------------------------------------------------------------
  // Decimal digits
  // ---------------------------------------------------------------------------

  predicate IsDigit(c: char)
  {
    '0' <= c <= '9'
  }

  predicate AllDigits(s: string)
  {
    forall i :: 0 <= i < |s| ==> IsDigit(s[i])
  }

  function DigitChar(d: int): (c: char)
    requires 0 <= d <= 9
    ensures IsDigit(c)
  {
    (48 + d) as char
  }

  function DigitValue(c: char): (d: int)
    requires IsDigit(c)
    ensures 0 <= d <= 9 && DigitChar(d) == c
  {
    c as int - 48
  }

  function Pow10(w: nat): (p: nat)
    ensures p >= 1
  {
    if w == 0 then 1 else 10 * Pow10(w - 1)
  }

  /** `"{:0wd}".format(n)`: `n` in exactly `w` digits, zero-padded (for `n < 10^w`). */
  function Pad(n: nat, w: nat): (s: string)
    ensures |s| == w && AllDigits(s)
  {
    if w == 0 then [] else Pad(n / 10, w - 1) + [DigitChar(n % 10)]
  }

  /** `str(n)` for `n >= 0`: the digits of `n` without leading zeros. */
  function Decimal(n: nat): (s: string)
    ensures |s| >= 1 && AllDigits(s)
  {
    if n < 10 then [DigitChar(n)] else Decimal(n / 10) + [DigitChar(n % 10)]
  }

  /** `int(s)` on a string of decimal digits (leading zeros allowed). */
  function DigitsValue(s: string): (n: nat)
    requires AllDigits(s)
    ensures n < Pow10(|s|)
  {
    if s == [] then 0 else 10 * DigitsValue(s[..|s| - 1]) + DigitValue(s[|s| - 1])
  }

  lemma {:induction false} PadValue(n: nat, w: nat)
    requires n < Pow10(w)
    ensures DigitsValue(Pad(n, w)) == n
    decreases w
  {
    if w > 0 {
      var p := Pad(n, w);
      assert p[..w - 1] == Pad(n / 10, w - 1);
      PadValue(n / 10, w - 1);
    }
  }

  lemma {:induction false} PadOfDigits(s: string)
    requires AllDigits(s)
    ensures Pad(DigitsValue(s), |s|) == s
    decreases |s|
  {
    if s != [] {
      var init := s[..|s| - 1];
      var v := DigitsValue(init);
      var d := DigitValue(s[|s| - 1]);
      assert (10 * v + d) / 10 == v && (10 * v + d) % 10 == d;
      PadOfDigits(init);
      assert s == init + [s[|s| - 1]];
    }
  }

  lemma PadInjective(n: nat, m: nat, w: nat)
    requires n < Pow10(w) && m < Pow10(w)
    requires Pad(n, w) == Pad(m, w)
    ensures n == m
  {
    PadValue(n, w);
    PadValue(m, w);
  }

  /** Zero-padded numbers of equal width sort as strings exactly as they sort as numbers. */
  lemma {:induction false} PadOrder(n: nat, m: nat, w: nat)
    requires n < Pow10(w) && m < Pow10(w)
    ensures StrLess(Pad(n, w), Pad(m, w)) <==> n < m
    decreases w
  {
    if w > 0 {
      var a, c := Pad(n / 10, w - 1), Pad(m / 10, w - 1);
      var x, y := DigitChar(n % 10), DigitChar(m % 10);
      StrLessConcat(a, [x], c, [y]);
      PadOrder(n / 10, m / 10, w - 1);
      if a == c {
        PadInjective(n / 10, m / 10, w - 1);
      }
      assert StrLess([x], [y]) <==> n % 10 < m % 10 by {
        assert [x][1..] == [] && [y][1..] == [];
      }
    }
  }

  /** `str(n)` read back as a number is `n`. */
  lemma {:induction false} DecimalValue(n: nat)
    ensures DigitsValue(Decimal(n)) == n
    decreases n
  {
    if n >= 10 {
      DecimalValue(n / 10);
      var s := Decimal(n);
      assert s[..|s| - 1] == Decimal(n / 10);
    }
  }

  /** Two texts that each start with a field free of `sep` followed by `sep` agree on that field. */
  lemma FieldCancel(p1: string, r1: string, p2: string, r2: string, sep: char)
    requires sep !in p1 && sep !in p2
    requires |r1| > 0 && |r2| > 0 && r1[0] == sep && r2[0] == sep
    requires p1 + r1 == p2 + r2
    ensures p1 == p2 && r1 == r2
  {
    var s := p1 + r1;
    assert s[|p1|] == sep && s[|p2|] == sep;
    assert forall i :: 0 <= i < |p1| ==> s[i] == p1[i];
    assert forall i :: 0 <= i < |p2| ==> s[i] == p2[i];
    ConcatCancel(p1, r1, p2, r2);
  }

  lemma DecimalLastDigit(n: nat)
    ensures Decimal(n)[|Decimal(n)| - 1] == DigitChar(n % 10)
  {
  }

  /** Python's `s[-2:]`. */
  function LastTwo(s: string): (r: string)
    ensures |r| <= 2 && EndsWith(s, r)
  {
    if |s| >= 2 then s[|s| - 2..] else s
  }

  lemma DivModTen(n: nat, q: nat, r: nat)
    requires n == 10 * q + r && r < 10
    ensures n / 10 == q && n % 10 == r
  {
  }

  lemma HundredSplit(n: nat)
    ensures 10 * ((n / 10) % 10) + n % 10 == n % 100
  {
    var q, r := n / 100, n % 100;
    assert n == 100 * q + r;
    DivModTen(r, r / 10, r % 10);
    DivModTen(n, 10 * q + r / 10, r % 10);
    DivModTen(n / 10, q, r / 10);
  }

  lemma TwoDigitsValue(hi: int, lo: int)
    requires 0 <= hi <= 9 && 0 <= lo <= 9
    ensures DigitsValue([DigitChar(hi), DigitChar(lo)]) == 10 * hi + lo
  {
    assert [DigitChar(hi), DigitChar(lo)][..1] == [DigitChar(hi)];
    assert [DigitChar(hi)][..0] == [];
  }

  lemma LastTwoSnoc(head: string, c: char)
    requires |head| >= 1
    ensures LastTwo(head + [c]) == [head[|head| - 1], c]
  {
    var s := head + [c];
    assert s[|s| - 2..] == [s[|s| - 2], s[|s| - 1]];
  }

  lemma LastTwoOfDecimal(n: nat)
    requires n >= 10
    ensures LastTwo(Decimal(n)) == [DigitChar((n / 10) % 10), DigitChar(n % 10)]
  {
    DecimalLastDigit(n / 10);
    LastTwoSnoc(Decimal(n / 10), DigitChar(n % 10));
  }

  /** `int(str(n)[-2:])` is `n % 100` for every `n >= 0`. */
  lemma LastTwoDigits(n: nat)
    ensures DigitsValue(LastTwo(Decimal(n))) == n % 100
  {
    if n < 10 {
      assert LastTwo(Decimal(n)) == [DigitChar(n)];
      assert DigitsValue([DigitChar(n)]) == DigitsValue([]) * 10 + n;
    } else {
      LastTwoOfDecimal(n);
      TwoDigitsValue((n / 10) % 10, n % 10);
      HundredSplit(n);
    }
  }
}
