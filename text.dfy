/**
 * The handful of Python string operations the request handlers rely on, with
 * Python's semantics: `sub in s`, `s.split(c)`, `s.replace(pat, rep)`,
 * `os.path.basename`, and the zero-padded decimal fields written by `strftime`.
 */
module Text {

  // ---------------------------------------------------------------------------
  // Decimal digits
  // ---------------------------------------------------------------------------

  predicate IsDigit(c: char) { '0' <= c <= '9' }

  predicate AllDigits(s: string) { forall i | 0 <= i < |s| :: IsDigit(s[i]) }

  function DigitValue(c: char): nat
    requires IsDigit(c)
  {
    c as int - '0' as int
  }

  function DigitChar(n: nat): (c: char)
    requires n < 10
    ensures IsDigit(c) && DigitValue(c) == n
  {
    ('0' as int + n) as char
  }

  /** The value of a string of decimal digits, as Python's `int()` reads it. */
  function NatValue(s: string): nat
    requires AllDigits(s)
    decreases |s|
  {
    if s == [] then 0 else 10 * NatValue(s[..|s| - 1]) + DigitValue(s[|s| - 1])
  }

  lemma NatValueOfTwo(s: string)
    requires |s| == 2 && AllDigits(s)
    ensures NatValue(s) == 10 * DigitValue(s[0]) + DigitValue(s[1])
  {
    var head := s[..1];
    assert head[..0] == [] && head[0] == s[0];
    assert NatValue(head) == DigitValue(s[0]);
  }

  lemma NatValueAppendTwo(a: string, b: string)
    requires AllDigits(a) && AllDigits(b) && |b| == 2
    ensures AllDigits(a + b)
    ensures NatValue(a + b) == 100 * NatValue(a) + NatValue(b)
  {
    var ab := a + b;
    assert ab[..|ab| - 1] == a + b[..1];
    assert (a + b[..1])[..|a|] == a;
    NatValueOfTwo(b);
  }

  function Pow10(n: nat): nat
  {
    if n == 0 then 1 else 10 * Pow10(n - 1)
  }

  /** `k` digits never spell a value of `10^k` or more. */
  lemma {:induction false} NatValueBound(s: string)
    requires AllDigits(s)
    ensures NatValue(s) < Pow10(|s|)
    decreases |s|
  {
    if s != [] {
      NatValueBound(s[..|s| - 1]);
    }
  }

  /** `%02d`: two digits, zero-padded. */
  function Pad2(n: nat): (s: string)
    requires n < 100
    ensures |s| == 2
  {
    [DigitChar(n / 10), DigitChar(n % 10)]
  }

  /** `%04d`: four digits, zero-padded. */
  function Pad4(n: nat): (s: string)
    requires n < 10000
    ensures |s| == 4
  {
    Pad2(n / 100) + Pad2(n % 100)
  }

  /** Reading back the two digits of `%02d` gives `n`. */
  lemma Pad2Value(n: nat)
    requires n < 100
    ensures AllDigits(Pad2(n)) && NatValue(Pad2(n)) == n
  {
    NatValueOfTwo(Pad2(n));
  }

  /** Reading back the four digits of `%04d` gives `n`. */
  lemma Pad4Value(n: nat)
    requires n < 10000
    ensures AllDigits(Pad4(n)) && NatValue(Pad4(n)) == n
  {
    Pad2Value(n / 100);
    Pad2Value(n % 100);
    NatValueAppendTwo(Pad2(n / 100), Pad2(n % 100));
  }

  // ---------------------------------------------------------------------------
  // Substrings: Python's `sub in s`
  // ---------------------------------------------------------------------------

  predicate OccursAt(s: string, sub: string, i: nat)
  {
    i + |sub| <= |s| && s[i..i + |sub|] == sub
  }

  /** `sub in s`: some window of `s` equals `sub` (the empty string is in every string). */
  predicate Contains(s: string, sub: string)
  {
    exists i: nat | i <= |s| - |sub| :: OccursAt(s, sub, i)
  }

  lemma ContainsMiddle(a: string, b: string, c: string)
    ensures Contains(a + b + c, b)
  {
    assert OccursAt(a + b + c, b, |a|);
  }

  /** A string that holds a character the pattern lacks only where it matches. */
  lemma OccursAtChar(s: string, sub: string, i: nat, k: nat)
    requires OccursAt(s, sub, i) && i <= k < i + |sub|
    ensures s[k] == sub[k - i] && s[k] in sub
  {
    assert s[i..i + |sub|][k - i] == s[k];
  }

  // ---------------------------------------------------------------------------
  // Python's `s.split(sep)` for a one-character separator, and its inverse
  // ---------------------------------------------------------------------------

  /** The pieces between separators: one more piece than there are separators. */
  function Split(s: string, sep: char): (parts: seq<string>)
    ensures |parts| >= 1
    ensures forall i | 0 <= i < |parts| :: sep !in parts[i]
    decreases |s|
  {
    if s == [] then [""]
    else
      var rest := Split(s[1..], sep);
      if s[0] == sep then [""] + rest
      else [[s[0]] + rest[0]] + rest[1..]
  }

  /** `sep.join(parts)`. */
  function Join(parts: seq<string>, sep: char): string
    requires |parts| >= 1
    decreases |parts|
  {
    if |parts| == 1 then parts[0] else parts[0] + [sep] + Join(parts[1..], sep)
  }

  /** Splitting and joining back gives the original string. */
  lemma {:induction false} JoinSplit(s: string, sep: char)
    ensures Join(Split(s, sep), sep) == s
    decreases |s|
  {
    if s != [] {
      var rest := Split(s[1..], sep);
      JoinSplit(s[1..], sep);
      if s[0] == sep {
        assert Split(s, sep)[1..] == rest;
      } else {
        var parts := Split(s, sep);
        if |rest| == 1 {
          assert parts == [[s[0]] + rest[0]];
        } else {
          assert parts[1..] == rest[1..];
          assert Join(parts, sep) == [s[0]] + rest[0] + [sep] + Join(rest[1..], sep);
        }
        assert s == [s[0]] + s[1..];
      }
    }
  }

  /** A string without the separator is a single piece. */
  lemma {:induction false} SplitNone(s: string, sep: char)
    requires sep !in s
    ensures Split(s, sep) == [s]
    decreases |s|
  {
    if s != [] {
      assert sep !in s[1..];
      SplitNone(s[1..], sep);
      assert s == [s[0]] + s[1..];
    }
  }

  /** Splitting `a + sep + b`, where `a` has no separator, yields `a` and then the pieces of `b`. */
  lemma {:induction false} SplitCons(a: string, sep: char, b: string)
    requires sep !in a
    ensures Split(a + [sep] + b, sep) == [a] + Split(b, sep)
    decreases |a|
  {
    var s := a + [sep] + b;
    if a == [] {
      assert s[1..] == b;
    } else {
      assert s[1..] == a[1..] + [sep] + b;
      assert sep !in a[1..];
      SplitCons(a[1..], sep, b);
      assert [a[0]] + a[1..] == a;
    }
  }

  /** Joining pieces free of the separator and splitting again gives the pieces back. */
  lemma {:induction false} SplitJoin(parts: seq<string>, sep: char)
    requires |parts| >= 1
    requires forall i | 0 <= i < |parts| :: sep !in parts[i]
    ensures Split(Join(parts, sep), sep) == parts
    decreases |parts|
  {
    if |parts| == 1 {
      SplitNone(parts[0], sep);
    } else {
      SplitJoin(parts[1..], sep);
      SplitCons(parts[0], sep, Join(parts[1..], sep));
      assert [parts[0]] + parts[1..] == parts;
    }
  }

  // ---------------------------------------------------------------------------
  // os.path.basename
  // ---------------------------------------------------------------------------

  /**
   * `os.path.basename(p)`: everything after the last '/', i.e. the longest
   * suffix of `p` that holds no '/'.
   */
  function Basename(p: string): (b: string)
    ensures '/' !in b
    ensures |b| <= |p| && p[|p| - |b|..] == b
    ensures |b| < |p| ==> p[|p| - |b| - 1] == '/'
    decreases |p|
  {
    if '/' !in p then p else Basename(p[1..])
  }

  // ---------------------------------------------------------------------------
  // Python's `s.replace(pat, rep)`: every occurrence, left to right, without overlap
  // ---------------------------------------------------------------------------

  function Replace(s: string, pat: string, rep: string): string
    requires pat != []
    decreases |s|
  {
    if |s| < |pat| then s
    else if s[..|pat|] == pat then rep + Replace(s[|pat|..], pat, rep)
    else [s[0]] + Replace(s[1..], pat, rep)
  }

  /** A string in which the pattern does not occur is left as it is. */
  lemma {:induction false} ReplaceAbsent(s: string, pat: string, rep: string)
    requires pat != [] && !Contains(s, pat)
    ensures Replace(s, pat, rep) == s
    decreases |s|
  {
    if |s| >= |pat| {
      if s[..|pat|] == pat {
        assert OccursAt(s, pat, 0);
      }
      if !Contains(s[1..], pat) {
        ReplaceAbsent(s[1..], pat, rep);
        assert [s[0]] + s[1..] == s;
      } else {
        var i: nat :| i <= |s[1..]| - |pat| && OccursAt(s[1..], pat, i);
        assert s[1..][i..i + |pat|] == s[i + 1..i + 1 + |pat|];
        assert OccursAt(s, pat, i + 1);
      }
    }
  }

  /**
   * Replacing over `a + [c] + b`, where `c` is not a character of the pattern,
   * replaces in `a` and in `b` separately: no occurrence straddles `c`.
   */
  lemma {:induction false} ReplaceAcross(a: string, c: char, b: string, pat: string, rep: string)
    requires pat != [] && c !in pat
    ensures Replace(a + [c] + b, pat, rep) == Replace(a, pat, rep) + [c] + Replace(b, pat, rep)
    decreases |a|
  {
    var s := a + [c] + b;
    if |a| < |pat| <= |s| {
      // the window at 0 covers `c`, which the pattern lacks
      assert s[..|pat|][|a|] == c;
    }
    if |s| < |pat| {
      assert Replace(b, pat, rep) == b;
    } else if s[..|pat|] == pat {
      assert a[..|pat|] == pat;
      assert s[|pat|..] == a[|pat|..] + [c] + b;
      ReplaceAcross(a[|pat|..], c, b, pat, rep);
    } else if a == [] {
      assert s == [c] + b;
      assert s[1..] == b;
    } else {
      ReplaceAcross(a[1..], c, b, pat, rep);
      ReplaceAcrossSkip(a, c, b, pat, rep);
    }
  }

  /** The step of `ReplaceAcross` where the first character of `a` is kept. */
  lemma ReplaceAcrossSkip(a: string, c: char, b: string, pat: string, rep: string)
    requires pat != [] && c !in pat && a != []
    requires |pat| <= |a + [c] + b| && (a + [c] + b)[..|pat|] != pat
    requires Replace(a[1..] + [c] + b, pat, rep) == Replace(a[1..], pat, rep) + [c] + Replace(b, pat, rep)
    ensures Replace(a + [c] + b, pat, rep) == Replace(a, pat, rep) + [c] + Replace(b, pat, rep)
  {
    var s := a + [c] + b;
    var ra, rb := Replace(a[1..], pat, rep), Replace(b, pat, rep);
    calc {
      Replace(s, pat, rep);
      { ReplaceKeepsHead(s, pat, rep); }
      [s[0]] + Replace(s[1..], pat, rep);
      { assert s[0] == a[0] && s[1..] == a[1..] + [c] + b; }
      [a[0]] + (ra + [c] + rb);
      ([a[0]] + ra) + [c] + rb;
      { if |a| >= |pat| { assert a[..|pat|] == s[..|pat|]; } ReplaceKeepsHead(a, pat, rep); }
      Replace(a, pat, rep) + [c] + rb;
    }
  }

  /** Where the pattern does not start at 0, the first character is kept as it is. */
  lemma ReplaceKeepsHead(s: string, pat: string, rep: string)
    requires pat != [] && s != [] && (|s| < |pat| || s[..|pat|] != pat)
    ensures Replace(s, pat, rep) == [s[0]] + Replace(s[1..], pat, rep)
  {
    if |s| < |pat| {
      assert Replace(s[1..], pat, rep) == s[1..];
      assert [s[0]] + s[1..] == s;
    }
  }
}
