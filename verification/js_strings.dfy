/** The JavaScript string operations the extension relies on, over strings
    seen as sequences of characters: `includes` (through `indexOf`-style
    search), `replace` with a string pattern, `trim` and the `\s` class,
    and the decimal rendering of a non-negative integer inside a template
    literal. `EndsWith` stands for a regular expression anchored with `$`. */
module JsStrings {
  import opened Wrappers

  /** `k` occurs in `s` starting at index `i`. */
  predicate OccursAt(k: string, s: string, i: nat) {
    i + |k| <= |s| && forall j :: 0 <= j < |k| ==> s[i + j] == k[j]
  }

  /** The first index at or after `from` where `k` occurs in `s`. */
  function IndexOfFrom(s: string, k: string, from: nat): (r: Option<nat>)
    requires from <= |s|
    decreases |s| - from
    ensures r.Some? ==> from <= r.value <= |s| && OccursAt(k, s, r.value)
    ensures r.Some? ==> forall j :: from <= j < r.value ==> !OccursAt(k, s, j)
    ensures r.None? ==> forall j :: from <= j <= |s| ==> !OccursAt(k, s, j)
  {
    if OccursAt(k, s, from) then Some(from)
    else if from == |s| then None
    else IndexOfFrom(s, k, from + 1)
  }

  /** `s.indexOf(k)`, with `None` for -1. */
  function IndexOf(s: string, k: string): Option<nat> {
    IndexOfFrom(s, k, 0)
  }

  /** `s.includes(k)`. */
  predicate Contains(s: string, k: string) {
    IndexOf(s, k).Some?
  }

  /** `s` ends with `t`: what a regular expression `t$` tests. */
  predicate EndsWith(s: string, t: string) {
    |t| <= |s| && s[|s| - |t|..] == t
  }

  /** `s.replace(pattern, replacement)` with a string pattern: only the
      first occurrence is replaced. */
  function ReplaceFirst(s: string, pattern: string, replacement: string): (r: string)
    ensures IndexOf(s, pattern).None? ==> r == s
    ensures IndexOf(s, pattern).Some? ==>
              var i := IndexOf(s, pattern).value;
              && |r| == |s| - |pattern| + |replacement|
              && s == r[..i] + pattern + r[i + |replacement|..]
              && r[i..i + |replacement|] == replacement
  {
    match IndexOf(s, pattern)
    case None => s
    case Some(i) => s[..i] + replacement + s[i + |pattern|..]
  }

  // ---------------------------------------------------------------------
  // Occurrence lemmas

  /** Concatenation regrouped, for proofs that meet one string split two ways. */
  lemma AppendAssoc(a: string, b: string, c: string)
    ensures a + (b + c) == a + b + c
  {
  }

  lemma CharOfOccurrence(k: string, s: string, i: nat, j: int)
    ensures OccursAt(k, s, i) && 0 <= j < |k| ==> s[i + j] == k[j]
  {
  }

  lemma OccurrenceIsFound(s: string, k: string, i: nat)
    requires OccursAt(k, s, i)
    ensures Contains(s, k)
    ensures IndexOf(s, k).value <= i
  {
  }

  /** If the first character of `k` does not occur in `s` before `i`, an
      occurrence at `i` is the first one. */
  lemma FirstOccurrence(s: string, k: string, i: nat)
    requires |k| > 0 && OccursAt(k, s, i)
    requires forall j :: 0 <= j < i ==> s[j] != k[0]
    ensures IndexOf(s, k) == Some(i)
  {
    var r := IndexOf(s, k);
    assert r.Some?;
    assert s[r.value + 0] == k[0];
  }

  /** An occurrence in a slice is an occurrence in the whole string. */
  lemma ContainsInSlice(s: string, lo: nat, hi: nat, k: string)
    requires lo <= hi <= |s|
    ensures Contains(s[lo..hi], k) ==> Contains(s, k)
  {
    if Contains(s[lo..hi], k) {
      var i := IndexOf(s[lo..hi], k).value;
      assert OccursAt(k, s, lo + i) by {
        forall j | 0 <= j < |k| ensures s[lo + i + j] == k[j] {
          assert s[lo..hi][i + j] == k[j];
        }
      }
      OccurrenceIsFound(s, k, lo + i);
    }
  }

  /** Containment is transitive: an occurrence of `k` inside an occurrence
      of `t` is an occurrence of `k`. */
  lemma ContainsTransitive(s: string, t: string, k: string)
    ensures Contains(s, t) && Contains(t, k) ==> Contains(s, k)
  {
    if Contains(s, t) {
      var i := IndexOf(s, t).value;
      assert s[i..i + |t|] == t;
      ContainsInSlice(s, i, i + |t|, k);
    }
  }

  lemma ContainsInConcat(a: string, b: string, k: string)
    ensures Contains(a, k) ==> Contains(a + b, k)
    ensures Contains(b, k) ==> Contains(a + b, k)
  {
    assert (a + b)[..|a|] == a;
    assert (a + b)[|a|..|a + b|] == b;
    ContainsInSlice(a + b, 0, |a|, k);
    ContainsInSlice(a + b, |a|, |a + b|, k);
  }

  /** An occurrence in `a + b` either lies in `a`, lies in `b`, or covers
      both the last character of `a` and the first character of `b`. */
  lemma SplitOccurrence(a: string, b: string, k: string, i: nat)
    requires OccursAt(k, a + b, i)
    ensures OccursAt(k, a, i)
         || (i >= |a| && OccursAt(k, b, i - |a|))
         || (i < |a| < i + |k| && k[|a| - 1 - i] == a[|a| - 1] && k[|a| - i] == b[0])
  {
    if i + |k| <= |a| {
      forall j | 0 <= j < |k| ensures a[i + j] == k[j] {
        assert (a + b)[i + j] == k[j];
      }
    } else if i >= |a| {
      forall j | 0 <= j < |k| ensures b[i - |a| + j] == k[j] {
        assert (a + b)[i + j] == k[j];
      }
    } else {
      assert (a + b)[i + (|a| - 1 - i)] == k[|a| - 1 - i];
      assert (a + b)[i + (|a| - i)] == k[|a| - i];
    }
  }

  /** A character that `k` does not contain separates the two sides of a
      concatenation: no occurrence of `k` can straddle it. */
  lemma ContainsAcrossSeparator(a: string, b: string, k: string)
    requires (|a| > 0 && a[|a| - 1] !in k) || (|b| > 0 && b[0] !in k)
    ensures Contains(a + b, k) <==> Contains(a, k) || Contains(b, k)
  {
    ContainsInConcat(a, b, k);
    if Contains(a + b, k) {
      var i := IndexOf(a + b, k).value;
      SplitOccurrence(a, b, k, i);
      if OccursAt(k, a, i) {
        OccurrenceIsFound(a, k, i);
      } else if i >= |a| && OccursAt(k, b, i - |a|) {
        OccurrenceIsFound(b, k, i - |a|);
      } else {
        assert false;
      }
    }
  }

  /** If `a` lacks the first character of `k`, an occurrence in `a + b`
      starts inside `b`. */
  lemma ContainsAfterPrefix(a: string, b: string, k: string)
    requires |k| > 0 && k[0] !in a
    ensures Contains(a + b, k) <==> Contains(b, k)
  {
    ContainsInConcat(a, b, k);
    if Contains(a + b, k) {
      var i := IndexOf(a + b, k).value;
      assert (a + b)[i + 0] == k[0];
      assert i >= |a|;
      SplitOccurrence(a, b, k, i);
      OccurrenceIsFound(b, k, i - |a|);
    }
  }

  /** A string lacking some character of `k` does not contain `k`. */
  lemma MissingCharacter(s: string, k: string, c: char)
    requires c in k && c !in s
    ensures !Contains(s, k)
  {
  }

  /** Removing a trailing ".git" keeps every occurrence of a `k` that does
      not end in '.' and has no '.' followed by 'g': such an occurrence
      cannot reach into the suffix. */
  lemma ContainsBeforeGitSuffix(m: string, k: string)
    requires |k| > 4 && k[|k| - 1] != '.'
    requires forall j :: 0 <= j < |k| - 1 ==> !(k[j] == '.' && k[j + 1] == 'g')
    ensures Contains(m + ".git", k) <==> Contains(m, k)
  {
    ContainsInConcat(m, ".git", k);
    if Contains(m + ".git", k) {
      var i := IndexOf(m + ".git", k).value;
      SplitOccurrence(m, ".git", k, i);
      CharOfOccurrence(k, m + ".git", i, |m| + 1 - i);
      assert i + |k| <= |m|;
      OccurrenceIsFound(m, k, i);
    }
  }

  // ---------------------------------------------------------------------
  // Whitespace and trimming

  /** The line terminators of ECMAScript; the regular-expression `.` does
      not match them. */
  predicate IsLineTerminator(c: char) {
    c == '\n' || c == '\r' || c == '\U{2028}' || c == '\U{2029}'
  }

  /** The ECMAScript white space and line terminators: the set that `\s`
      matches and that `String.prototype.trim` removes. */
  predicate IsWhitespace(c: char) {
    || c == '\t' || c == '\U{B}' || c == '\U{C}' || c == ' '
    || c == '\U{A0}' || c == '\U{1680}' || ('\U{2000}' <= c <= '\U{200A}')
    || c == '\U{202F}' || c == '\U{205F}' || c == '\U{3000}' || c == '\U{FEFF}'
    || IsLineTerminator(c)
  }

  predicate IsTrimmed(s: string) {
    s == [] || (!IsWhitespace(s[0]) && !IsWhitespace(s[|s| - 1]))
  }

  /** Drops the leading white space: what remains is a suffix of `s`, what
      was dropped is all white space, and nothing more could be dropped. */
  function TrimStart(s: string): (r: string)
    ensures |r| <= |s| && r == s[|s| - |r|..]
    ensures forall j :: 0 <= j < |s| - |r| ==> IsWhitespace(s[j])
    ensures r == [] || !IsWhitespace(r[0])
  {
    if s != [] && IsWhitespace(s[0]) then TrimStart(s[1..]) else s
  }

  /** Drops the trailing white space: what remains is a prefix of `s`, what
      was dropped is all white space, and nothing more could be dropped. */
  function TrimEnd(s: string): (r: string)
    ensures |r| <= |s| && r == s[..|r|]
    ensures forall j :: |r| <= j < |s| ==> IsWhitespace(s[j])
    ensures r == [] || !IsWhitespace(r[|r| - 1])
  {
    if s != [] && IsWhitespace(s[|s| - 1]) then TrimEnd(s[..|s| - 1]) else s
  }

  /** `s.trim()`, and equally `s.replace(/^\s+|\s+$/g, '')`. */
  function Trim(s: string): (r: string)
    ensures IsTrimmed(r)
  {
    TrimEnd(TrimStart(s))
  }

  lemma TrimmedIsFixed(s: string)
    requires IsTrimmed(s)
    ensures Trim(s) == s
  {
  }

  lemma TrimIdempotent(s: string)
    ensures Trim(Trim(s)) == Trim(s)
  {
    TrimmedIsFixed(Trim(s));
  }

  /** Trimming neither creates nor destroys an occurrence of a non-empty
      string without white space. */
  lemma ContainsAfterTrim(s: string, k: string)
    requires |k| > 0 && forall j :: 0 <= j < |k| ==> !IsWhitespace(k[j])
    ensures Contains(Trim(s), k) <==> Contains(s, k)
  {
    ContainsAfterTrimStart(s, k);
    ContainsAfterTrimEnd(TrimStart(s), k);
  }

  lemma ContainsAfterTrimStart(s: string, k: string)
    requires |k| > 0 && forall j :: 0 <= j < |k| ==> !IsWhitespace(k[j])
    ensures Contains(TrimStart(s), k) <==> Contains(s, k)
  {
    var t := TrimStart(s);
    var n := |s| - |t|;
    assert t == s[n..|s|];
    ContainsInSlice(s, n, |s|, k);
    if Contains(s, k) {
      var i := IndexOf(s, k).value;
      CharOfOccurrence(k, s, i, 0);
      assert !IsWhitespace(s[i]);
      assert i >= n;
      ShiftOccurrence(s, n, k, i);
      OccurrenceIsFound(t, k, i - n);
    }
  }

  /** An occurrence at or after `n` is an occurrence in `s[n..]`. */
  lemma ShiftOccurrence(s: string, n: nat, k: string, i: nat)
    requires n <= i && OccursAt(k, s, i)
    ensures OccursAt(k, s[n..], i - n)
  {
    forall j | 0 <= j < |k| ensures s[n..][i - n + j] == k[j] {
      assert s[i + j] == k[j];
    }
  }

  lemma ContainsAfterTrimEnd(t: string, k: string)
    requires |k| > 0 && forall j :: 0 <= j < |k| ==> !IsWhitespace(k[j])
    ensures Contains(TrimEnd(t), k) <==> Contains(t, k)
  {
    var r := TrimEnd(t);
    ContainsInSlice(t, 0, |r|, k);
    if Contains(t, k) {
      var i := IndexOf(t, k).value;
      assert t[i + (|k| - 1)] == k[|k| - 1];
      assert i + |k| <= |r|;
      OccurrenceIsFound(r, k, i);
    }
  }

  // ---------------------------------------------------------------------
  // Decimal rendering of line numbers

  predicate IsDigit(c: char) {
    '0' <= c <= '9'
  }

  function DigitChar(d: nat): (c: char)
    requires d < 10
    ensures IsDigit(c)
  {
    ('0' as int + d) as char
  }

  function DigitValue(c: char): (d: nat)
    requires IsDigit(c)
    ensures d < 10
  {
    c as int - '0' as int
  }

  /** The value of a string of decimal digits. */
  function DecimalValue(s: string): nat
    requires forall j :: 0 <= j < |s| ==> IsDigit(s[j])
  {
    if s == [] then 0
    else 10 * DecimalValue(s[..|s| - 1]) + DigitValue(s[|s| - 1])
  }

  /** The text a template literal `${n}` gives for a non-negative integer:
      decimal digits without a leading zero. */
  function NatToString(n: nat): (r: string)
    ensures |r| >= 1
    ensures forall j :: 0 <= j < |r| ==> IsDigit(r[j])
    ensures r[0] == '0' ==> n == 0 && r == "0"
  {
    if n < 10 then [DigitChar(n)] else NatToString(n / 10) + [DigitChar(n % 10)]
  }

  /** Reading the rendered digits back gives the number. */
  lemma {:induction false} DecimalRoundTrip(n: nat)
    ensures DecimalValue(NatToString(n)) == n
  {
    var r := NatToString(n);
    if n >= 10 {
      DecimalRoundTrip(n / 10);
      assert r[..|r| - 1] == NatToString(n / 10);
    }
  }

  lemma NatToStringInjective(m: nat, n: nat)
    requires NatToString(m) == NatToString(n)
    ensures m == n
  {
    DecimalRoundTrip(m);
    DecimalRoundTrip(n);
  }

  /** A run of digits followed by text that does not start with a digit
      is split unambiguously. */
  lemma DigitRunSplit(a: string, x: string, c: string, y: string)
    requires forall j :: 0 <= j < |a| ==> IsDigit(a[j])
    requires forall j :: 0 <= j < |c| ==> IsDigit(c[j])
    requires x == [] || !IsDigit(x[0])
    requires y == [] || !IsDigit(y[0])
    requires a + x == c + y
    ensures a == c && x == y
  {
    assert |a| < |a + x| ==> (a + x)[|a|] == (c + y)[|a|];
    assert |c| < |c + y| ==> (a + x)[|c|] == (c + y)[|c|];
    assert |a| == |c|;
    assert a == (a + x)[..|a|] && c == (c + y)[..|c|];
    assert x == (a + x)[|a|..] && y == (c + y)[|c|..];
  }
}
