/**
 * The few Python string operations the assignment pipeline relies on:
 * character classes as Python's `re` and `str` see them, `strip`,
 * `split('\n')`, `find`, `replace` and slicing.
 */
module Text {

  /** Python's `str.isspace()`: the characters `strip()` removes and `\s` matches. */
  predicate IsSpace(c: char)
  {
    ('\t' <= c <= '\r') || ('\U{1C}' <= c <= '\U{1F}') || c == ' ' || c == '\U{85}' || c == '\U{A0}'
    || c == '\U{1680}' || ('\U{2000}' <= c <= '\U{200A}') || c == '\U{2028}' || c == '\U{2029}'
    || c == '\U{202F}' || c == '\U{205F}' || c == '\U{3000}'
  }

  /** `\d`, restricted to ASCII digits. */
  predicate IsDigit(c: char)
  {
    '0' <= c <= '9'
  }

  /** `[A-Za-z]` */
  predicate IsAsciiLetter(c: char)
  {
    ('a' <= c <= 'z') || ('A' <= c <= 'Z')
  }

  /** `[\w\d]`: letters, digits and the underscore (ASCII). */
  predicate IsWordChar(c: char)
  {
    IsAsciiLetter(c) || IsDigit(c) || c == '_'
  }

  /** The character classes a regular expression repeats greedily. */
  datatype CharClass = Space | Word | Digit

  predicate InClass(c: char, k: CharClass)
  {
    match k
    case Space => IsSpace(c)
    case Word => IsWordChar(c)
    case Digit => IsDigit(c)
  }

  /** End of the longest run of class `k` starting at `i`: where a greedy `k*` stops. */
  function RunEnd(s: string, i: nat, k: CharClass): (r: nat)
    requires i <= |s|
    ensures i <= r <= |s|
    ensures forall j :: i <= j < r ==> InClass(s[j], k)
    ensures r == |s| || !InClass(s[r], k)
    decreases |s| - i
  {
    if i < |s| && InClass(s[i], k) then RunEnd(s, i + 1, k) else i
  }

  predicate StartsWith(s: string, p: string)
  {
    |p| <= |s| && s[..|p|] == p
  }

  /** `p` occurs in `s` at index `k`. */
  predicate OccursAt(s: string, p: string, k: nat)
  {
    k + |p| <= |s| && s[k..k + |p|] == p
  }

  function FindFrom(s: string, p: string, k: nat): (r: int)
    requires k <= |s|
    ensures r == -1 || (k <= r && OccursAt(s, p, r))
    ensures forall j :: k <= j && (r == -1 || j < r) ==> !OccursAt(s, p, j)
    decreases |s| - k
  {
    if OccursAt(s, p, k) then k
    else if k == |s| then -1
    else FindFrom(s, p, k + 1)
  }

  /** Python's `s.find(p)`: the first index where `p` occurs, or -1. */
  function Find(s: string, p: string): (r: int)
    ensures r == -1 || (r >= 0 && OccursAt(s, p, r))
    ensures forall j: nat :: (r == -1 || j < r) ==> !OccursAt(s, p, j)
  {
    FindFrom(s, p, 0)
  }

  /** Python's `p in s`. */
  predicate Contains(s: string, p: string)
  {
    Find(s, p) != -1
  }

  /** Python's `s.replace(p, q)`: every occurrence, left to right, without overlaps. */
  function ReplaceAll(s: string, p: string, q: string): (r: string)
    requires |p| > 0
    ensures p == q ==> r == s
    ensures |q| >= |p| ==> |r| >= |s|
  {
    if |s| < |p| then s
    else if s[..|p|] == p then q + ReplaceAll(s[|p|..], p, q)
    else [s[0]] + ReplaceAll(s[1..], p, q)
  }

  /** Python's `s.replace(p, q, 1)`. */
  function ReplaceFirst(s: string, p: string, q: string): (r: string)
    ensures Find(s, p) == -1 ==> r == s
    ensures Find(s, p) != -1 ==> |r| == |s| - |p| + |q| && r[..Find(s, p)] == s[..Find(s, p)]
  {
    var k := Find(s, p);
    if k == -1 then s else s[..k] + q + s[k + |p|..]
  }

  /** Python's `s[a:b]` on integer bounds: negative bounds count from the end, then both are clamped. */
  function PySlice(s: string, a: int, b: int): (r: string)
    ensures |r| <= |s|
    ensures 0 <= a <= b <= |s| ==> r == s[a..b]
    ensures 0 <= b <= a ==> r == []
    ensures a < 0 && b < 0 && -|s| <= a <= b ==> r == s[|s| + a..|s| + b]
  {
    var lo := Clamp(if a < 0 then a + |s| else a, |s|);
    var hi := Clamp(if b < 0 then b + |s| else b, |s|);
    if lo < hi then s[lo..hi] else []
  }

  function Clamp(x: int, n: nat): (r: nat)
    ensures r <= n
    ensures 0 <= x <= n ==> r == x
  {
    if x < 0 then 0 else if x > n then n else x
  }

  /** Where the trailing whitespace of `s[lo..j]` begins: the greedy run read from the right. */
  function BackRun(s: string, j: nat, lo: nat): (r: nat)
    requires lo <= j <= |s|
    ensures lo <= r <= j
    ensures forall k :: r <= k < j ==> IsSpace(s[k])
    ensures r == lo || !IsSpace(s[r - 1])
    decreases j
  {
    if j > lo && IsSpace(s[j - 1]) then BackRun(s, j - 1, lo) else j
  }

  /** Python's `s.strip()`: whitespace cut from both ends. */
  function Strip(s: string): (r: string)
    ensures |r| <= |s|
  {
    var a := RunEnd(s, 0, Space);
    s[a..BackRun(s, |s|, a)]
  }

  predicate AllSpace(s: string)
  {
    forall j :: 0 <= j < |s| ==> IsSpace(s[j])
  }

  /** What `strip()` returns is `s` with only whitespace cut from either end, and it neither starts nor ends with whitespace. */
  lemma StripShape(s: string) returns (a: nat)
    ensures Strip(s) == [] || (!IsSpace(Strip(s)[0]) && !IsSpace(Strip(s)[|Strip(s)| - 1]))
    ensures a + |Strip(s)| <= |s| && s[a..a + |Strip(s)|] == Strip(s)
    ensures AllSpace(s[..a]) && AllSpace(s[a + |Strip(s)|..])
  {
    a := RunEnd(s, 0, Space);
    var b := BackRun(s, |s|, a);
    assert Strip(s) == s[a..b];
    if a < b {
      assert s[a..b][0] == s[a] && s[a..b][b - a - 1] == s[b - 1];
      assert !InClass(s[a], Space);
    }
    assert AllSpace(s[..a]) by {
      forall j | 0 <= j < a ensures IsSpace(s[..a][j]) {
        assert InClass(s[j], Space);
      }
    }
    assert AllSpace(s[b..]) by {
      forall j | 0 <= j < |s| - b ensures IsSpace(s[b..][j]) {
        assert s[b..][j] == s[b + j];
      }
    }
  }

  /** Stripping twice is stripping once. */
  lemma StripIdempotent(s: string)
    ensures Strip(Strip(s)) == Strip(s)
  {
    var _ := StripShape(s);
    var r := Strip(s);
    if r != [] {
      assert !InClass(r[0], Space);
      StrippedIsFixed(r);
      assert !IsSpace(r[|r| - 1]);
    }
  }

  lemma StrippedIsFixed(r: string)
    requires r != [] && !IsSpace(r[0]) && !IsSpace(r[|r| - 1])
    ensures Strip(r) == r
  {
    assert RunEnd(r, 0, Space) == 0;
    assert BackRun(r, |r|, 0) == |r|;
  }

  /** Python's `s.split('\n')`. */
  function SplitLines(s: string): (r: seq<string>)
    ensures |r| >= 1
    ensures forall k :: 0 <= k < |r| ==> '\n' !in r[k]
  {
    if |s| == 0 then [""]
    else
      var rest := SplitLines(s[1..]);
      if s[0] == '\n' then [""] + rest
      else [[s[0]] + rest[0]] + rest[1..]
  }

  /** Python's `'\n'.join(lines)`. */
  function JoinLines(lines: seq<string>): string
    requires |lines| >= 1
  {
    if |lines| == 1 then lines[0] else lines[0] + "\n" + JoinLines(lines[1..])
  }

  /** Splitting at newlines loses nothing: joining the pieces gives the text back. */
  lemma {:induction false} JoinSplit(s: string)
    ensures JoinLines(SplitLines(s)) == s
  {
    if |s| > 0 {
      var rest := SplitLines(s[1..]);
      JoinSplit(s[1..]);
      if s[0] == '\n' {
        assert SplitLines(s) == [""] + rest;
        assert SplitLines(s)[1..] == rest;
      } else {
        var r := SplitLines(s);
        assert r == [[s[0]] + rest[0]] + rest[1..];
        if |rest| == 1 {
          assert r == [[s[0]] + rest[0]];
        } else {
          assert r[1..] == rest[1..];
          assert JoinLines(rest) == rest[0] + "\n" + JoinLines(rest[1..]);
        }
      }
    }
  }

  /** Joining newline-free pieces and splitting again gives the same pieces. */
  lemma {:induction false} SplitJoin(lines: seq<string>)
    requires |lines| >= 1
    requires forall k :: 0 <= k < |lines| ==> '\n' !in lines[k]
    ensures SplitLines(JoinLines(lines)) == lines
  {
    if |lines| == 1 {
      SplitNoNewline(lines[0]);
    } else {
      SplitJoin(lines[1..]);
      SplitPrefix(lines[0], JoinLines(lines[1..]));
    }
  }

  lemma {:induction false} SplitNoNewline(s: string)
    requires '\n' !in s
    ensures SplitLines(s) == [s]
  {
    if |s| > 0 {
      assert s == [s[0]] + s[1..];
      SplitNoNewline(s[1..]);
    }
  }

  /** A newline-free head followed by a newline splits off as its own first piece. */
  lemma {:induction false} SplitPrefix(a: string, b: string)
    requires '\n' !in a
    ensures SplitLines(a + "\n" + b) == [a] + SplitLines(b)
  {
    if |a| == 0 {
      assert a + "\n" + b == "\n" + b;
      assert ("\n" + b)[1..] == b;
    } else {
      assert (a + "\n" + b)[1..] == a[1..] + "\n" + b;
      assert a == [a[0]] + a[1..];
      SplitPrefix(a[1..], b);
    }
  }

  /** A slice of a slice is a slice of the original. */
  lemma SubSlice(s: string, a: nat, b: nat, i: nat, j: nat)
    requires a <= b <= |s| && i <= j <= b - a
    ensures s[a..b][i..j] == s[a + i..a + j]
  {
    assert forall k :: 0 <= k < j - i ==> s[a..b][i..j][k] == s[a + i + k];
  }

  /** If `x + y + z` sits at `f` in `s`, then `y` sits at `f + |x|`. */
  lemma MiddleAt(s: string, f: nat, x: string, y: string, z: string)
    requires f + |x + y + z| <= |s| && s[f..f + |x + y + z|] == x + y + z
    ensures s[f + |x|..f + |x| + |y|] == y
  {
    var w := x + y + z;
    assert w[|x|..|x| + |y|] == y;
    SubSlice(s, f, f + |w|, |x|, |x| + |y|);
  }

  /** If `a + b` sits at `j` in `s`, then `a` sits at `j` and `b` right after it. */
  lemma SplitAt(s: string, j: nat, a: string, b: string)
    requires j + |a + b| <= |s| && s[j..j + |a + b|] == a + b
    ensures s[j..j + |a|] == a && s[j + |a|..j + |a| + |b|] == b
  {
    MiddleAt(s, j, "", a, b);
    MiddleAt(s, j, a, b, "");
  }

  /** Stripping text padded with blanks on both sides gives the text back. */
  lemma StripAround(w: string, x: string, v: string)
    requires AllSpace(w) && AllSpace(v) && x != [] && !IsSpace(x[0]) && !IsSpace(x[|x| - 1])
    ensures Strip(w + x + v) == x
  {
    var s := w + x + v;
    assert s[|w|] == x[0] && s[|w| + |x| - 1] == x[|x| - 1];
    assert s[|w|..|w| + |x|] == x;
  }

  /** Where no character of `s` is `p[k]`, `p` never occurs and nothing is replaced. */
  lemma {:induction false} ReplaceAbsent(s: string, p: string, q: string, k: nat)
    requires k < |p| && p[k] !in s
    ensures ReplaceAll(s, p, q) == s
    decreases |s|
  {
    if |s| >= |p| {
      assert s[..|p|][k] == s[k];
      ReplaceAbsent(s[1..], p, q, k);
      assert s == [s[0]] + s[1..];
    }
  }

  /** An occurrence at the front is replaced and the scan goes on after it. */
  lemma ReplaceFront(p: string, rest: string, q: string)
    requires |p| > 0
    ensures ReplaceAll(p + rest, p, q) == q + ReplaceAll(rest, p, q)
  {
    assert (p + rest)[..|p|] == p && (p + rest)[|p|..] == rest;
  }

  /**
   * A prefix in which no occurrence of `p` can start is copied unchanged:
   * `p[k]` is neither in the prefix nor among the first `k` characters after it.
   */
  lemma {:induction false} ReplaceAfter(pre: string, x: string, p: string, q: string, k: nat)
    requires k < |p| <= |x| && p[k] !in pre && p[k] !in x[..k]
    ensures ReplaceAll(pre + x, p, q) == pre + ReplaceAll(x, p, q)
    decreases |pre|
  {
    if pre == [] {
      assert pre + x == x;
    } else {
      var s := pre + x;
      var t := pre[1..];
      assert s[1..] == t + x;
      assert s[..|p|][k] != p[k] by {
        if k < |pre| {
          assert s[..|p|][k] == pre[k];
        } else {
          assert s[..|p|][k] == x[..k][k - |pre|];
        }
      }
      assert p[k] !in t by {
        assert forall c | c in t :: c in pre;
      }
      ReplaceAfter(t, x, p, q, k);
      calc {
        ReplaceAll(s, p, q);
        [s[0]] + ReplaceAll(t + x, p, q);
        [pre[0]] + (t + ReplaceAll(x, p, q));
        { assert pre == [pre[0]] + t; }
        pre + ReplaceAll(x, p, q);
      }
    }
  }

  /** The first occurrence is at `k` when `p` occurs there and its first character appears nowhere before. */
  lemma FindFirstAt(s: string, p: string, k: nat)
    requires |p| > 0 && OccursAt(s, p, k) && p[0] !in s[..k]
    ensures Find(s, p) == k
  {
  }
}
