/** The Python `str` built-ins that the extraction code relies on, over `seq<char>`:
    `strip()`, `find`, the `in` operator, `split(sep, 1)`, `replace`, and the
    ASCII part of `lower()` and `upper()`. */
module PyStr {

  /** `c.isspace()`: the characters `str.strip()` removes when given no argument. */
  predicate IsSpace(c: char) {
    var n := c as int;
    (0x09 <= n <= 0x0D) || (0x1C <= n <= 0x20) || n == 0x85 || n == 0xA0 || n == 0x1680
    || (0x2000 <= n <= 0x200A) || n == 0x2028 || n == 0x2029 || n == 0x202F || n == 0x205F
    || n == 0x3000
  }

  predicate AllSpace(s: string) {
    forall k :: 0 <= k < |s| ==> IsSpace(s[k])
  }

  /** Neither end of `s` is whitespace. */
  predicate IsTrimmed(s: string) {
    s == [] || (!IsSpace(s[0]) && !IsSpace(s[|s| - 1]))
  }

  /** `s.strip()`: leading and trailing whitespace removed. */
  function Strip(s: string): (r: string)
    ensures IsTrimmed(r)
    ensures |r| <= |s|
  {
    if s == [] then s
    else if IsSpace(s[0]) then Strip(s[1..])
    else if IsSpace(s[|s| - 1]) then Strip(s[..|s| - 1])
    else s
  }

  /** `s` is a run of whitespace, then `s.strip()`, then a run of whitespace. */
  predicate StripsAt(s: string, r: string, i: int) {
    0 <= i && i + |r| <= |s| && s[i..i + |r|] == r && AllSpace(s[..i]) && AllSpace(s[i + |r|..])
  }

  lemma SpaceBefore(s: string, r: string, i: int)
    requires s != [] && IsSpace(s[0]) && StripsAt(s[1..], r, i)
    ensures StripsAt(s, r, i + 1)
  {
    assert s[i + 1..i + 1 + |r|] == s[1..][i..i + |r|];
    assert s[..i + 1] == [s[0]] + s[1..][..i];
    assert s[i + 1 + |r|..] == s[1..][i + |r|..];
  }

  lemma SpaceAfter(s: string, r: string, i: int)
    requires s != [] && IsSpace(s[|s| - 1]) && StripsAt(s[..|s| - 1], r, i)
    ensures StripsAt(s, r, i)
  {
    var init := s[..|s| - 1];
    assert s[i..i + |r|] == init[i..i + |r|];
    assert s[..i] == init[..i];
    assert s[i + |r|..] == init[i + |r|..] + [s[|s| - 1]];
  }

  lemma {:induction false} StripDecomposes(s: string)
    ensures exists i :: StripsAt(s, Strip(s), i)
  {
    if s != [] && IsSpace(s[0]) {
      StripDecomposes(s[1..]);
      var i :| StripsAt(s[1..], Strip(s), i);
      SpaceBefore(s, Strip(s), i);
    } else if s != [] && IsSpace(s[|s| - 1]) {
      StripDecomposes(s[..|s| - 1]);
      var i :| StripsAt(s[..|s| - 1], Strip(s), i);
      SpaceAfter(s, Strip(s), i);
    } else {
      assert s[0..|s|] == s;
      assert StripsAt(s, Strip(s), 0);
    }
  }

  /** Stripping a string that is already trimmed changes nothing, so `strip` is idempotent. */
  lemma StripTrimmed(s: string)
    requires IsTrimmed(s)
    ensures Strip(s) == s
  {
  }

  /** Stripping a string that starts with a non-space keeps it up to any later non-space:
      only trailing whitespace goes. */
  lemma {:induction false} StripKeepsPrefix(s: string, n: int)
    requires 0 <= n < |s| && !IsSpace(s[0]) && !IsSpace(s[n])
    ensures n < |Strip(s)| && Strip(s)[..n + 1] == s[..n + 1]
    decreases |s|
  {
    if IsSpace(s[|s| - 1]) {
      var init := s[..|s| - 1];
      StripKeepsPrefix(init, n);
      assert init[..n + 1] == s[..n + 1];
    }
  }

  /** `p` occurs in `s` starting at index `j`. */
  predicate OccursAt(s: string, p: string, j: int) {
    0 <= j && j + |p| <= |s| && s[j..j + |p|] == p
  }

  /** `s.find(p)`: the first index at which `p` occurs in `s`, or -1 when it does not occur
      (`FindFirst` states that no earlier index is an occurrence). */
  function Find(s: string, p: string): (k: int)
    ensures -1 <= k <= |s|
    ensures k >= 0 ==> OccursAt(s, p, k)
    decreases |s|
  {
    if |s| < |p| then -1
    else if s[..|p|] == p then 0
    else
      var k := Find(s[1..], p);
      if k < 0 then -1
      else
        assert s[1..][k..k + |p|] == s[k + 1..k + 1 + |p|];
        k + 1
  }

  /** `find` finds every occurrence, and none comes before the one it returns. */
  lemma {:induction false} FindFirst(s: string, p: string, j: int)
    requires OccursAt(s, p, j)
    ensures 0 <= Find(s, p) <= j
    decreases |s|
  {
    if s[..|p|] == p {
      assert Find(s, p) == 0;
    } else {
      var t := s[1..];
      assert OccursAt(t, p, j - 1) by {
        assert j != 0;
        assert t[j - 1..j - 1 + |p|] == s[j..j + |p|];
      }
      FindFirst(t, p, j - 1);
    }
  }

  /** `p in s` */
  predicate Contains(s: string, p: string) {
    Find(s, p) >= 0
  }

  lemma ContainsOccurrence(s: string, p: string, j: int)
    requires OccursAt(s, p, j)
    ensures Contains(s, p)
  {
    FindFirst(s, p, j);
  }

  /** An occurrence of `q` inside an occurrence of `p` is an occurrence of `q` in `s`. */
  lemma ContainsThrough(s: string, p: string, q: string, off: int)
    requires Contains(s, p) && OccursAt(p, q, off)
    ensures Contains(s, q)
  {
    var j := Find(s, p);
    assert s[j..j + |p|] == p;
    assert s[j + off..j + off + |q|] == s[j..j + |p|][off..off + |q|];
    ContainsOccurrence(s, q, j + off);
  }

  /** For a one-character separator, the text after its first occurrence starts right after
      the first index holding that character. */
  lemma FirstOccurrence(s: string, c: char) returns (j: int)
    requires Contains(s, [c])
    ensures 0 <= j < |s| && s[j] == c && forall i :: 0 <= i < j ==> s[i] != c
    ensures AfterFirst(s, [c]) == s[j + 1..]
  {
    j := Find(s, [c]);
    assert s[j..j + 1] == [c];
    forall i | 0 <= i < j
      ensures s[i] != c
    {
      if s[i] == c {
        assert OccursAt(s, [c], i) by {
          assert s[i..i + 1] == [s[i]];
        }
        FindFirst(s, [c], i);
      }
    }
  }

  /** Occurrences that end within the first `n` characters are the same in `s` and `s[..n]`. */
  lemma OccursInPrefix(s: string, n: int, p: string, j: int)
    requires 0 <= n <= |s| && j + |p| <= n
    ensures OccursAt(s[..n], p, j) <==> OccursAt(s, p, j)
  {
    if 0 <= j {
      assert s[..n][j..j + |p|] == s[j..j + |p|];
    }
  }

  /** `s.split(sep, 1)`: `[s]` when `sep` does not occur, otherwise the parts before and
      after the first occurrence of `sep`. */
  function SplitOnce(s: string, sep: string): (parts: seq<string>)
    requires sep != []
    ensures 1 <= |parts| <= 2
    ensures |parts| == 2 <==> Contains(s, sep)
    ensures |parts| == 1 ==> parts[0] == s
    ensures |parts| == 2 ==> s == parts[0] + sep + parts[1] && |parts[0]| == Find(s, sep)
  {
    var k := Find(s, sep);
    if k < 0 then [s]
    else
      var before, after := s[..k], s[k + |sep|..];
      assert s == before + sep + after by {
        assert s == s[..k] + s[k..k + |sep|] + s[k + |sep|..];
      }
      [before, after]
  }

  /** The text after the first occurrence of `sep`: `s.split(sep, 1)[1]`. */
  function AfterFirst(s: string, sep: string): (r: string)
    requires sep != [] && Contains(s, sep)
    ensures exists a :: s == a + sep + r
  {
    var parts := SplitOnce(s, sep);
    assert s == parts[0] + sep + parts[1];
    parts[1]
  }

  /** The text before the first occurrence of `sep`, or all of `s`: `s.split(sep)[0]`. */
  function BeforeFirst(s: string, sep: string): (r: string)
    requires sep != []
    ensures |r| <= |s| && r == s[..|r|]
    ensures Contains(s, sep) <==> |r| < |s|
  {
    SplitOnce(s, sep)[0]
  }

  /** Splitting `a + sep + b` once, where `sep` first occurs after `a`, gives `a` and `b`. */
  lemma SplitAtFirst(a: string, sep: string, b: string)
    requires sep != [] && !Contains(a + sep[..|sep| - 1], sep)
    ensures SplitOnce(a + sep + b, sep) == [a, b]
  {
    var s := a + sep + b;
    assert OccursAt(s, sep, |a|) by {
      assert s[|a|..|a| + |sep|] == sep;
    }
    FindFirst(s, sep, |a|);
    var k := Find(s, sep);
    if k < |a| {
      assert s[..|a| + |sep| - 1] == a + sep[..|sep| - 1];
      OccursInPrefix(s, |a| + |sep| - 1, sep, k);
      ContainsOccurrence(a + sep[..|sep| - 1], sep, k);
    }
    assert s[..|a|] == a && s[|a| + |sep|..] == b;
  }

  /** `s.replace(p, rep)`: every non-overlapping occurrence of `p`, taken left to right,
      replaced by `rep`. */
  function Replace(s: string, p: string, rep: string): (r: string)
    requires p != []
    ensures !Contains(s, p) ==> r == s
    ensures rep == [] ==> (|r| < |s| <==> Contains(s, p))
    decreases |s|
  {
    var k := Find(s, p);
    if k < 0 then s else s[..k] + rep + Replace(s[k + |p|..], p, rep)
  }

  /** `replace` cuts `s` at the first occurrence of `p`: whatever precedes it is kept,
      the occurrence becomes `rep`, and the rest is processed in the same way. */
  lemma ReplaceAtFirstOccurrence(a: string, p: string, b: string, rep: string)
    requires p != [] && !Contains(a + p[..|p| - 1], p)
    ensures Replace(a + p + b, p, rep) == a + rep + Replace(b, p, rep)
  {
    var s := a + p + b;
    assert OccursAt(s, p, |a|) by {
      assert s[|a|..|a| + |p|] == p;
    }
    FindFirst(s, p, |a|);
    var k := Find(s, p);
    if k < |a| {
      assert s[..|a| + |p| - 1] == a + p[..|p| - 1];
      OccursInPrefix(s, |a| + |p| - 1, p, k);
      ContainsOccurrence(a + p[..|p| - 1], p, k);
    }
    assert s[..|a|] == a && s[|a| + |p|..] == b;
  }

  predicate IsDigit(c: char) {
    '0' <= c <= '9'
  }

  function LowerChar(c: char): char {
    if 'A' <= c <= 'Z' then (c as int + 32) as char else c
  }

  function UpperChar(c: char): char {
    if 'a' <= c <= 'z' then (c as int - 32) as char else c
  }

  /** `s.lower()` on ASCII letters. */
  function Lower(s: string): (r: string)
    ensures |r| == |s| && forall i :: 0 <= i < |s| ==> r[i] == LowerChar(s[i])
  {
    if s == [] then [] else [LowerChar(s[0])] + Lower(s[1..])
  }

  /** `s.upper()` on ASCII letters. */
  function Upper(s: string): (r: string)
    ensures |r| == |s| && forall i :: 0 <= i < |s| ==> r[i] == UpperChar(s[i])
  {
    if s == [] then [] else [UpperChar(s[0])] + Upper(s[1..])
  }

  /** Upper-casing twice is upper-casing once. */
  lemma {:induction false} UpperIdempotent(s: string)
    ensures Upper(Upper(s)) == Upper(s)
  {
    var u := Upper(s);
    assert forall i :: 0 <= i < |u| ==> Upper(u)[i] == u[i];
  }

  lemma UpperOfLowerChar(c: char)
    ensures UpperChar(LowerChar(c)) == UpperChar(c)
  {
  }

  /** Upper-casing a lower-cased string is upper-casing it. */
  lemma UpperOfLower(s: string)
    ensures Upper(Lower(s)) == Upper(s)
  {
    var l := Lower(s);
    forall i | 0 <= i < |s|
      ensures Upper(l)[i] == Upper(s)[i]
    {
      UpperOfLowerChar(s[i]);
    }
  }
}
