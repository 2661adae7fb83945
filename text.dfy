/** Optional values, as Python's `None` or a value. */
module Optional {
  datatype Option<T> = None | Some(value: T)
}

/**
 * The pieces of Python's `str` behaviour the program relies on: whitespace
 * (`str.isspace`, which is also what the regular expression class `\s`
 * matches), `strip`, substring search (`in`, `find`), `split` with an explicit
 * separator, `join`, ASCII `lower`, and the way a text-mode file or pipe is
 * cut into lines (universal newlines: `\n`, `\r` and `\r\n` all end a line).
 */
module Text {
  import opened Optional

  /** Characters for which Python's `str.isspace` holds. */
  predicate IsSpace(c: char)
  {
    c == ' ' || c == '\t' || c == '\n' || c == '\r' || c == '\U{0B}' || c == '\U{0C}'
    || ('\U{1C}' <= c <= '\U{1F}') || c == '\U{85}' || c == '\U{A0}' || c == '\U{1680}'
    || ('\U{2000}' <= c <= '\U{200A}') || c == '\U{2028}' || c == '\U{2029}'
    || c == '\U{202F}' || c == '\U{205F}' || c == '\U{3000}'
  }

  /** The characters that end a line when a file or pipe is read in text mode. */
  predicate IsBreak(c: char)
  {
    c == '\n' || c == '\r'
  }

  predicate NoSpace(s: string)
  {
    forall i :: 0 <= i < |s| ==> !IsSpace(s[i])
  }

  predicate AllSpace(s: string)
  {
    forall i :: 0 <= i < |s| ==> IsSpace(s[i])
  }

  predicate NoBreaks(s: string)
  {
    forall i :: 0 <= i < |s| ==> !IsBreak(s[i])
  }

  /** The first index at or after `from` that does not hold whitespace, or `|s|`. */
  function SkipSpace(s: string, from: nat): (k: nat)
    requires from <= |s|
    ensures from <= k <= |s|
    ensures forall j :: from <= j < k ==> IsSpace(s[j])
    ensures k < |s| ==> !IsSpace(s[k])
    decreases |s| - from
  {
    if from == |s| || !IsSpace(s[from]) then from else SkipSpace(s, from + 1)
  }

  /** Where `s[lo..hi]` ends once its trailing whitespace is dropped. */
  function TrimmedEnd(s: string, lo: nat, hi: nat): (k: nat)
    requires lo <= hi <= |s|
    ensures lo <= k <= hi
    ensures forall j :: k <= j < hi ==> IsSpace(s[j])
    ensures k > lo ==> !IsSpace(s[k - 1])
    decreases hi - lo
  {
    if hi > lo && IsSpace(s[hi - 1]) then TrimmedEnd(s, lo, hi - 1) else hi
  }

  /** `s.rstrip()`. */
  function TrimEnd(s: string): string
  {
    s[..TrimmedEnd(s, 0, |s|)]
  }

  /** `s.strip()`: the part between the leading and the trailing whitespace. */
  function Strip(s: string): string
  {
    var a := SkipSpace(s, 0);
    s[a..TrimmedEnd(s, a, |s|)]
  }

  /** The first non-space index is determined by its two defining properties. */
  lemma SkipSpaceUnique(s: string, from: nat, k: nat)
    requires from <= k <= |s|
    requires forall j :: from <= j < k ==> IsSpace(s[j])
    requires k < |s| ==> !IsSpace(s[k])
    ensures SkipSpace(s, from) == k
  {
  }

  /** The trimmed end is determined by its two defining properties. */
  lemma TrimmedEndUnique(s: string, lo: nat, hi: nat, k: nat)
    requires lo <= k <= hi <= |s|
    requires forall j :: k <= j < hi ==> IsSpace(s[j])
    requires k > lo ==> !IsSpace(s[k - 1])
    ensures TrimmedEnd(s, lo, hi) == k
  {
  }

  /** A stripped string is `s` with whitespace-only margins cut off on both sides. */
  lemma StripIsFactor(s: string)
    ensures exists i, j :: 0 <= i <= j <= |s| && Strip(s) == s[i..j] && AllSpace(s[..i]) && AllSpace(s[j..])
  {
    var i := SkipSpace(s, 0);
    var j := TrimmedEnd(s, i, |s|);
    assert Strip(s) == s[i..j];
    assert AllSpace(s[..i]) by {
      assert forall m :: 0 <= m < i ==> s[..i][m] == s[m];
    }
    assert AllSpace(s[j..]) by {
      assert forall m :: 0 <= m < |s| - j ==> s[j..][m] == s[j + m];
    }
  }

  /** A stripped string neither starts nor ends with whitespace. */
  lemma StripBounds(s: string)
    ensures Strip(s) == [] || (!IsSpace(Strip(s)[0]) && !IsSpace(Strip(s)[|Strip(s)| - 1]))
  {
  }

  /** A string that neither starts nor ends with whitespace is its own strip. */
  lemma StripTight(s: string)
    requires s == [] || (!IsSpace(s[0]) && !IsSpace(s[|s| - 1]))
    ensures Strip(s) == s && TrimEnd(s) == s
  {
    SkipSpaceUnique(s, 0, 0);
    TrimmedEndUnique(s, 0, |s|, |s|);
  }

  /** Stripping twice is stripping once. */
  lemma StripIdempotent(s: string)
    ensures Strip(Strip(s)) == Strip(s)
  {
    StripBounds(s);
    StripTight(Strip(s));
  }

  /** Stripping whitespace-free text changes nothing. */
  lemma StripNoSpace(s: string)
    requires NoSpace(s)
    ensures Strip(s) == s
  {
    StripTight(s);
  }

  /** Stripping never introduces a line break. */
  lemma StripNoBreaks(s: string)
    requires NoBreaks(s)
    ensures NoBreaks(Strip(s))
  {
    var a := SkipSpace(s, 0);
    var b := TrimmedEnd(s, a, |s|);
    assert forall k :: 0 <= k < b - a ==> Strip(s)[k] == s[a + k];
  }

  /** Trimming the end of `a + b` stays inside `b` when `a` ends in a non-space character. */
  lemma TrimEndAfterWord(a: string, b: string)
    requires a != [] && !IsSpace(a[|a| - 1])
    ensures TrimEnd(a + b) == a + TrimEnd(b)
  {
    var s := a + b;
    var e := TrimmedEnd(b, 0, |b|);
    assert forall j :: |a| + e <= j < |s| ==> s[j] == b[j - |a|];
    assert s[|a| + e - 1] == if e > 0 then b[e - 1] else a[|a| - 1];
    TrimmedEndUnique(s, 0, |s|, |a| + e);
    assert s[..|a| + e] == a + b[..e];
  }

  /** Trimming the end of `a + b` stays inside `b` when `b` holds a non-space character. */
  lemma TrimEndBeforeWord(a: string, b: string)
    requires TrimEnd(b) != []
    ensures TrimEnd(a + b) == a + TrimEnd(b)
  {
    var s := a + b;
    var e := TrimmedEnd(b, 0, |b|);
    assert forall j :: |a| + e <= j < |s| ==> s[j] == b[j - |a|];
    assert s[|a| + e - 1] == b[e - 1];
    TrimmedEndUnique(s, 0, |s|, |a| + e);
    assert s[..|a| + e] == a + b[..e];
  }

  /** Stripping text that begins with a whitespace-free word keeps that word in front. */
  lemma StripLeadingWord(a: string, b: string)
    requires a != [] && NoSpace(a)
    ensures Strip(a + b) == a + TrimEnd(b)
  {
    var s := a + b;
    assert s[0] == a[0];
    SkipSpaceUnique(s, 0, 0);
    var e := TrimmedEnd(b, 0, |b|);
    assert forall j :: |a| + e <= j < |s| ==> s[j] == b[j - |a|];
    assert s[|a| + e - 1] == if e > 0 then b[e - 1] else a[|a| - 1];
    TrimmedEndUnique(s, 0, |s|, |a| + e);
    assert s[0..|a| + e] == a + b[..e];
  }

  // ---------------------------------------------------------------------
  // Substring search

  /** `pat` occurs in `s` starting at index `i`. */
  predicate OccursAt(s: string, pat: string, i: int)
  {
    0 <= i && i + |pat| <= |s| && s[i..i + |pat|] == pat
  }

  /** The first occurrence of `pat` in `s` at or after index `from` (`s.find(pat, from)`). */
  function IndexFrom(s: string, pat: string, from: nat): (r: Option<nat>)
    requires from <= |s|
    ensures r.Some? ==> from <= r.value && OccursAt(s, pat, r.value)
    ensures r.Some? ==> forall j :: from <= j < r.value ==> !OccursAt(s, pat, j)
    ensures r.None? ==> forall j :: from <= j ==> !OccursAt(s, pat, j)
    decreases |s| - from
  {
    if from + |pat| > |s| then None
    else if s[from..from + |pat|] == pat then Some(from)
    else if from == |s| then None
    else IndexFrom(s, pat, from + 1)
  }

  /** The first occurrence of `pat` in `s` (`s.find(pat)`, with `None` for -1). */
  function IndexOf(s: string, pat: string): Option<nat>
  {
    IndexFrom(s, pat, 0)
  }

  /** Python's `pat in s`. */
  predicate Contains(s: string, pat: string)
  {
    IndexOf(s, pat).Some?
  }

  lemma ContainsIff(s: string, pat: string)
    ensures Contains(s, pat) <==> exists i :: OccursAt(s, pat, i)
  {
    if Contains(s, pat) {
      assert OccursAt(s, pat, IndexOf(s, pat).value);
    }
  }

  /** The index of the first `c` in `s`, or `|s|` when there is none. */
  function CharEnd(s: string, c: char, from: nat): (k: nat)
    requires from <= |s|
    ensures from <= k <= |s|
    ensures k < |s| ==> s[k] == c
    ensures forall j :: from <= j < k ==> s[j] != c
    decreases |s| - from
  {
    if from == |s| || s[from] == c then from else CharEnd(s, c, from + 1)
  }

  /** `s.split(c)[0]`: the text before the first `c`, or all of `s`. */
  function BeforeFirst(s: string, c: char): (r: string)
    ensures r <= s
    ensures c !in r
    ensures |r| < |s| ==> s[|r|] == c
  {
    s[..CharEnd(s, c, 0)]
  }

  /** Cutting at a character that does not occur changes nothing. */
  lemma BeforeFirstAbsent(s: string, c: char)
    requires c !in s
    ensures BeforeFirst(s, c) == s
  {
    assert forall i :: 0 <= i < |s| ==> s[i] != c;
  }

  /** A prefix without `c` passes through a cut at `c` untouched. */
  lemma BeforeFirstAfterPrefix(p: string, s: string, c: char)
    requires c !in p
    ensures BeforeFirst(p + s, c) == p + BeforeFirst(s, c)
  {
    var m := CharEnd(s, c, 0);
    assert forall j :: 0 <= j < |p| ==> (p + s)[j] == p[j] && p[j] != c;
    assert forall j :: |p| <= j < |p| + m ==> (p + s)[j] == s[j - |p|];
    assert |p| + m < |p + s| ==> (p + s)[|p| + m] == s[m];
    assert CharEnd(p + s, c, 0) == |p| + m;
    assert (p + s)[..|p| + m] == p + s[..m];
  }

  /** Concatenation regroups freely. */
  lemma ConcatAssoc<T>(a: seq<T>, b: seq<T>, c: seq<T>)
    ensures (a + b) + c == a + (b + c)
  {
  }

  // ---------------------------------------------------------------------
  // Case, split and join

  function LowerChar(c: char): char
  {
    if 'A' <= c <= 'Z' then (c as int + 32) as char else c
  }

  /** `s.lower()`, on ASCII letters. */
  function Lower(s: string): (r: string)
    ensures |r| == |s|
    ensures forall i :: 0 <= i < |s| ==> r[i] == LowerChar(s[i])
  {
    if s == [] then [] else [LowerChar(s[0])] + Lower(s[1..])
  }

  predicate IsLower(s: string)
  {
    forall i :: 0 <= i < |s| ==> !('A' <= s[i] <= 'Z')
  }

  /** `s.split(sep)` with an explicit one-character separator. */
  function Split(s: string, sep: char): (ps: seq<string>)
    ensures |ps| >= 1
    ensures forall i :: 0 <= i < |ps| ==> sep !in ps[i]
    decreases |s|
  {
    var k := CharEnd(s, sep, 0);
    if k == |s| then [s] else [s[..k]] + Split(s[k + 1..], sep)
  }

  /** `sep.join(ps)`. */
  function Join(ps: seq<string>, sep: char): string
  {
    if ps == [] then []
    else if |ps| == 1 then ps[0]
    else ps[0] + [sep] + Join(ps[1..], sep)
  }

  /** Splitting a join gives the pieces back when no piece holds the separator. */
  lemma {:induction false} SplitJoin(ps: seq<string>, sep: char)
    requires |ps| >= 1
    requires forall i :: 0 <= i < |ps| ==> sep !in ps[i]
    ensures Split(Join(ps, sep), sep) == ps
  {
    var s := Join(ps, sep);
    var first := ps[0];
    assert forall j :: 0 <= j < |first| ==> first[j] != sep;
    if |ps| == 1 {
      assert CharEnd(s, sep, 0) == |s|;
    } else {
      var rest := Join(ps[1..], sep);
      assert s == first + [sep] + rest;
      assert forall j :: 0 <= j < |first| ==> s[j] == first[j];
      assert s[|first|] == sep;
      assert CharEnd(s, sep, 0) == |first|;
      assert s[..|first|] == first;
      assert s[|first| + 1..] == rest;
      SplitJoin(ps[1..], sep);
    }
  }

  // ---------------------------------------------------------------------
  // Line iteration

  /** The first line break at or after `from`, or `|s|`. */
  function LineEnd(s: string, from: nat): (k: nat)
    requires from <= |s|
    ensures from <= k <= |s|
    ensures k < |s| ==> IsBreak(s[k])
    ensures forall j :: from <= j < k ==> !IsBreak(s[j])
    decreases |s| - from
  {
    if from == |s| || IsBreak(s[from]) then from else LineEnd(s, from + 1)
  }

  /**
   * The lines `for line in f` yields on text `s`, without their terminators:
   * `\n`, `\r` and `\r\n` each end a line, and text that ends with a
   * terminator has no empty line after it.
   */
  function Lines(s: string): (ls: seq<string>)
    ensures forall i :: 0 <= i < |ls| ==> NoBreaks(ls[i])
    decreases |s|
  {
    if s == [] then []
    else
      var k := LineEnd(s, 0);
      if k == |s| then [s] else [s[..k]] + Lines(s[AfterBreak(s, k)..])
  }

  /** Where the next line starts once the break at `k` is consumed (`\r\n` is one break). */
  function AfterBreak(s: string, k: nat): (n: nat)
    requires k < |s|
    ensures k < n <= |s|
  {
    if s[k] == '\r' && k + 1 < |s| && s[k + 1] == '\n' then k + 2 else k + 1
  }

  /** Text that is empty or whose last character is a newline, as every append of this program leaves it. */
  predicate WellTerminated(s: string)
  {
    s == [] || s[|s| - 1] == '\n'
  }

  /** A line break inside `a` ends the line before anything appended to `a` is seen. */
  lemma {:induction false} LineEndPrefix(a: string, b: string, from: nat)
    requires from <= |a| && LineEnd(a, from) < |a|
    ensures LineEnd(a + b, from) == LineEnd(a, from)
    decreases |a| - from
  {
    assert (a + b)[from] == a[from];
    if !IsBreak(a[from]) {
      LineEndPrefix(a, b, from + 1);
    }
  }

  /** Well-terminated text and what follows it are cut into lines independently. */
  lemma {:induction false} LinesConcat(t: string, u: string)
    requires WellTerminated(t)
    ensures Lines(t + u) == Lines(t) + Lines(u)
    decreases |t|
  {
    if t == [] {
      assert t + u == u;
    } else {
      var s := t + u;
      var k := LineEnd(t, 0);
      var next := AfterBreak(t, k);
      assert LineEnd(s, 0) == k && AfterBreak(s, k) == next by {
        assert IsBreak(t[|t| - 1]);
        LineEndPrefix(t, u, 0);
        assert s[k] == t[k];
        assert k + 1 < |t| ==> s[k + 1] == t[k + 1];
      }
      assert s[..k] == t[..k];
      assert s[next..] == t[next..] + u;
      assert WellTerminated(t[next..]);
      LinesConcat(t[next..], u);
    }
  }

  /** A break-free line followed by a newline reads back as exactly that line. */
  lemma OneLine(x: string)
    requires NoBreaks(x)
    ensures Lines(x + "\n") == [x]
  {
    var s := x + "\n";
    var k := LineEnd(s, 0);
    assert IsBreak(s[|x|]);
    assert forall j :: 0 <= j < |x| ==> s[j] == x[j];
    assert k == |x|;
    assert s[..|x|] == x;
    assert s[|x| + 1..] == [];
  }

  /** Appending one newline-terminated line to well-terminated text adds exactly that line. */
  lemma LinesAppend(t: string, x: string)
    requires WellTerminated(t) && NoBreaks(x)
    ensures Lines(t + (x + "\n")) == Lines(t) + [x]
  {
    LinesConcat(t, x + "\n");
    OneLine(x);
  }
}
