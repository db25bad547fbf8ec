/** What `check_waiver_codes` of project_files/utils/module.py promises: where a citation
    is found, the OCR variant that drops the leading "1", the digit boundaries, and the
    rules that tell the two "107.51" columns apart. */
module WaiverCodeProperties {
  import opened PyStr
  import opened WaiverCodes

  // ---------------------------------------------------------------------------
  // Every code but "107.51"
  // ---------------------------------------------------------------------------

  /** A code of the form "107.<tail>" compiles to the bounded pattern on its tail. */
  predicate IsBoundedCode(code: string) {
    |code| > 4 && code[..4] == "107." && code != "107.51"
  }

  /** The code, with no digit right before or after it, is found. */
  lemma CitationFound(pre: string, code: string, post: string)
    requires IsBoundedCode(code)
    requires pre == [] || !IsDigit(pre[|pre| - 1])
    requires post == [] || !IsDigit(post[0])
    ensures Flag(pre + code + post, code) == "+"
  {
    var s := pre + code + post;
    assert code == "107." + Tail(code);
    assert OccursAt(s, code, |pre|) by {
      assert s[|pre|..|pre| + |code|] == code;
    }
    assert MatchesAt(s, PatternOf(code), |pre|);
  }

  /** So is the code with its leading "1" lost, as OCR sometimes reads it. */
  lemma DroppedOneFound(pre: string, code: string, post: string)
    requires IsBoundedCode(code)
    requires pre == [] || !IsDigit(pre[|pre| - 1])
    requires post == [] || !IsDigit(post[0])
    ensures Flag(pre + code[1..] + post, code) == "+"
  {
    var lit := code[1..];
    var s := pre + lit + post;
    assert lit == "07." + Tail(code);
    assert OccursAt(s, lit, |pre|) by {
      assert s[|pre|..|pre| + |lit|] == lit;
    }
    assert MatchesAt(s, PatternOf(code), |pre|);
  }

  /** Every match is the code, or the code without its leading "1", with no digit right
      before it and none right after it. */
  lemma MatchHasDigitBoundaries(s: string, code: string, i: int)
    requires IsBoundedCode(code) && MatchesAt(s, PatternOf(code), i)
    ensures !DigitAt(s, i - 1)
    ensures (OccursAt(s, code, i) && !DigitAt(s, i + |code|))
      || (OccursAt(s, code[1..], i) && !DigitAt(s, i + |code| - 1))
  {
    assert code == "107." + Tail(code);
    assert code[1..] == "07." + Tail(code);
  }

  /** The characters of an occurrence are those of the pattern. */
  lemma CharOfOccurrence(s: string, p: string, i: int, k: int)
    requires OccursAt(s, p, i) && 0 <= k < |p|
    ensures s[i + k] == p[k]
  {
    assert s[i + k] == s[i..i + |p|][k];
  }

  /** A code glued to a digit is not a citation of it: "107.290" does not cite 107.29. */
  lemma TrailingDigitNotFound()
    ensures Flag("107.290", "107.29") == ""
  {
    var s := "107.290";
    assert PatternOf("107.29") == Bounded("29");
    forall i | 0 <= i <= |s|
      ensures !MatchesAt(s, Bounded("29"), i)
    {
      if OccursAt(s, "107.29", i) {
        CharOfOccurrence(s, "107.29", i, 1);
        assert i == 0 && IsDigit(s[6]);
      }
      if OccursAt(s, "07.29", i) {
        CharOfOccurrence(s, "07.29", i, 0);
        assert i == 1 && IsDigit(s[0]);
      }
    }
  }

  // ---------------------------------------------------------------------------
  // The two "107.51" columns
  // ---------------------------------------------------------------------------

  /** A match of `(107|07)\.51\((b|c|d)\)` contains one of "07.51(b)", "07.51(c)",
      "07.51(d)", and each of those is a match. */
  lemma LimitationsNeedSuffix(s: string)
    ensures Search(s, LimitationsBcd) <==> exists i :: SuffixedAt(s, "07.51(", i)
  {
    if Search(s, LimitationsBcd) {
      var i :| 0 <= i <= |s| && MatchesAt(s, LimitationsBcd, i);
      if !SuffixedAt(s, "07.51(", i) {
        SuffixWithoutOne(s, i);
      }
    }
    if exists i :: SuffixedAt(s, "07.51(", i) {
      var i :| SuffixedAt(s, "07.51(", i);
      assert MatchesAt(s, LimitationsBcd, i);
    }
  }

  /** "107.51(x)" at `i` holds "07.51(x)" at `i + 1`. */
  lemma SuffixWithoutOne(s: string, i: int)
    requires SuffixedAt(s, "107.51(", i)
    ensures SuffixedAt(s, "07.51(", i + 1)
  {
    assert s[i + 1..i + 7] == s[i..i + 7][1..];
  }

  /** An occurrence of `q` inside an occurrence of `p` is an occurrence of `q` in `s`. */
  lemma OccursWithin(s: string, p: string, i: int, q: string, off: int)
    requires OccursAt(s, p, i) && OccursAt(p, q, off)
    ensures OccursAt(s, q, i + off)
  {
    var t := s[i + off..i + off + |q|];
    forall k | 0 <= k < |q|
      ensures t[k] == q[k]
    {
      assert q[k] == p[off..off + |q|][k] == p[off + k];
      assert p[off + k] == s[i..i + |p|][off + k] == s[i + off + k];
    }
    assert t == q;
  }

  /** "07.51(a" at `j` is "07.51(" at `j` followed by "a". */
  lemma LimitationsAAt(s: string, j: int)
    requires OccursAt(s, "07.51(a", j)
    ensures OccursAt(s, "07.51(", j) && j + 6 < |s| && s[j + 6] == 'a'
  {
    OccursWithin(s, "07.51(a", j, "07.51(", 0);
    assert s[j + 6] == s[j..j + 7][6];
  }

  lemma LimitationsALiterals()
    ensures PatternOf("107.51(a)") == Bounded("51(a)")
    ensures "107." + "51(a)" == "107.51(a)" && "07." + "51(a)" == "07.51(a)"
    ensures OccursAt("107.51(a)", "07.51(a", 1) && OccursAt("07.51(a)", "07.51(a", 0)
  {
  }

  /** The "Operating Limitations (a)" pattern matches only where "07.51(" goes on with "a". */
  lemma LimitationsAFound(s: string)
    ensures Search(s, PatternOf("107.51(a)")) ==>
      exists i :: OccursAt(s, "07.51(", i) && i + 6 < |s| && s[i + 6] == 'a'
  {
    LimitationsALiterals();
    if Search(s, Bounded("51(a)")) {
      var i :| 0 <= i <= |s| && MatchesAt(s, Bounded("51(a)"), i);
      if OccursAt(s, "107.51(a)", i) {
        OccursWithin(s, "107.51(a)", i, "07.51(a", 1);
        LimitationsAAt(s, i + 1);
      } else {
        OccursWithin(s, "07.51(a)", i, "07.51(a", 0);
        LimitationsAAt(s, i);
      }
    }
  }

  /** A subject that never continues "07.51(" sets neither "107.51" column: a bare
      "107.51" is not a citation of either. */
  lemma BareCodeSetsNeither(s: string)
    requires forall i :: !OccursAt(s, "07.51(", i)
    ensures Flag(s, "107.51") == "" && Flag(s, "107.51(a)") == ""
  {
    LimitationsNeedSuffix(s);
    LimitationsAFound(s);
  }

  /** Where every "07.51(" goes on with a letter other than b, c and d, the (b, c, d)
      column stays "". Matching is case-sensitive, so "107.51(B)" does not set it. */
  lemma OtherLetterNotBcd(s: string)
    requires forall i :: OccursAt(s, "07.51(", i) && i + 6 < |s| ==> !IsBcd(s[i + 6])
    ensures Flag(s, "107.51") == ""
  {
    LimitationsNeedSuffix(s);
  }

  /** Where no "07.51(" goes on with "a", the (a) column stays "". */
  lemma NoANotLimitationsA(s: string)
    requires forall i :: OccursAt(s, "07.51(", i) && i + 6 < |s| ==> s[i + 6] != 'a'
    ensures Flag(s, "107.51(a)") == ""
  {
    LimitationsAFound(s);
  }

  /** In a nine-character citation "107.51(x)", "07.51(" occurs only at index 1. */
  lemma OnlyOccurrence(s: string, x: char)
    requires s == "107.51(" + [x] + ")"
    ensures forall i :: OccursAt(s, "07.51(", i) ==> i == 1
  {
    forall i | OccursAt(s, "07.51(", i)
      ensures i == 1
    {
      assert s[i] == '0' && s[i + 1] == '7';
    }
  }

  /** "107.51(a)" sets the (a) column and not the (b, c, d) one. */
  lemma LimitationsAExample()
    ensures Flag("107.51(a)", "107.51(a)") == "+" && Flag("107.51(a)", "107.51") == ""
  {
    var a := "107.51(a)";
    CitationFound([], a, []);
    assert [] + a + [] == a;
    OnlyOccurrence(a, 'a');
    OtherLetterNotBcd(a);
  }

  /** "107.51(b)" sets the (b, c, d) column and not the (a) one. */
  lemma LimitationsBExample()
    ensures Flag("107.51(b)", "107.51") == "+" && Flag("107.51(b)", "107.51(a)") == ""
  {
    var b := "107.51(b)";
    OnlyOccurrence(b, 'b');
    assert SuffixedAt(b, "107.51(", 0);
    assert MatchesAt(b, PatternOf("107.51"), 0);
    NoANotLimitationsA(b);
  }

  /** Matching is case-sensitive: "107.51(B)" does not set the (b, c, d) column. */
  lemma UpperCaseLetterNotBcd()
    ensures Flag("107.51(B)", "107.51") == ""
  {
    var upper := "107.51(B)";
    OnlyOccurrence(upper, 'B');
    OtherLetterNotBcd(upper);
  }
}
