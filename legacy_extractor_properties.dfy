/** What `extract_final_info` of jsontoexcelcloud.py promises, stated over the
    specification functions of `LegacyExtractor`, and how its line classification
    differs from the later version in `Extractor`. */
module LegacyExtractorProperties {
  import opened Wrappers
  import opened PyStr
  import opened Layout
  import opened LegacyExtractor
  import Extractor

  /** The loop over all blocks is the loop over the page-1 LINE texts. */
  lemma {:induction false} ScanReadsPageOneLines(blocks: seq<Block>)
    ensures Scan(blocks) == ScanLines(PageOneLines(blocks))
  {
    if blocks != [] {
      var init, last := blocks[..|blocks| - 1], blocks[|blocks| - 1];
      ScanReadsPageOneLines(init);
      var lines := PageOneLines(init);
      if IsPageOneLine(last) {
        var all := lines + [last.text];
        assert all[..|all| - 1] == lines;
      } else {
        assert PageOneLines(blocks) == lines;
      }
    }
  }

  lemma ScanLinesLast(lines: seq<string>)
    requires lines != [] && ScanLines(lines).Success?
    ensures ScanLines(lines[..|lines| - 1]).Success?
    ensures ScanLines(lines) == Step(ScanLines(lines[..|lines| - 1]).value, lines[|lines| - 1])
  {
  }

  // ---------------------------------------------------------------------------
  // No "Responsible Party:" marker
  // ---------------------------------------------------------------------------

  /** The two versions classify every line alike, except that the later one also takes a
      "Responsible Party:" line as the responsible person; this one lets such a line fall
      through to the markers after it. */
  lemma ClassifyAcrossVersions(text: string)
    ensures Classify(text) != Extractor.Classify(text)
      <==> Extractor.Classify(text) == PersonLine && !Contains(text, PersonMarker)
    ensures Classify(text) != Extractor.Classify(text) ==> Contains(text, Extractor.PartyMarker)
    ensures Classify(text) != PersonLine || Extractor.Classify(text) == PersonLine
  {
  }

  /** Only a "Responsible Person:" line writes the responsible person. */
  lemma StepKeepsPerson(st: ScanState, text: string)
    requires HasKeys(st.info) && Classify(text) != PersonLine
    requires Step(st, text).Success?
    ensures Step(st, text).value.info[ResponsiblePerson] == st.info[ResponsiblePerson]
  {
    if Classify(text) == EffectiveFromLine {
      assert Step(st, text) == DatesStep(st, text);
      DatesStepFrame(st, text);
    }
  }

  /** A "Responsible Party:" line without the person marker leaves the responsible person
      as it was. */
  lemma PartyLineIgnored(st: ScanState, text: string)
    requires HasKeys(st.info) && Contains(text, Extractor.PartyMarker) && !Contains(text, PersonMarker)
    requires Step(st, text).Success?
    ensures Step(st, text).value.info[ResponsiblePerson] == st.info[ResponsiblePerson]
  {
    StepKeepsPerson(st, text);
  }

  /** A person or waiver-number line that both versions classify alike stores the same value
      in both. */
  lemma ColonValueAcrossVersions(text: string)
    requires Classify(text) == PersonLine || Classify(text) == WaiverNumberLine
    requires Extractor.Classify(text) == Classify(text)
    ensures ColonValue(text) == Extractor.ColonValue(text)
  {
    ColonInLine(text);
    assert ColonValue(text) == ValueAfterColon(text);
    assert Extractor.ColonValue(text) == ValueAfterColon(text);
  }

  // ---------------------------------------------------------------------------
  // "effective from"
  // ---------------------------------------------------------------------------

  /** The "effective from" branch writes the date range or nothing; it never changes the
      mode, the counter or another field. */
  lemma DatesStepFrame(st: ScanState, text: string)
    requires HasKeys(st.info) && DatesStep(st, text).Success?
    ensures var r := DatesStep(st, text).value;
      r.mode == st.mode && r.addressLineCount == st.addressLineCount
      && r.info == st.info[EffectiveDateRange := r.info[EffectiveDateRange]]
  {
  }

  /** A line that holds "effective from" only in another case raises IndexError. */
  lemma EffectiveFromMismatchRaises(st: ScanState, text: string)
    requires HasKeys(st.info) && Classify(text) == EffectiveFromLine
    ensures Step(st, text) == Failure(EffectiveFromCaseMismatch(text))
      <==> !Contains(text, EffectiveFromPhrase)
    ensures Step(st, text).Failure? ==> Step(st, text) == Failure(EffectiveFromCaseMismatch(text))
  {
  }

  /** The range stored is the text between "effective from" and the first " to " after it,
      trimmed, then " to ", then the rest of the line, trimmed. */
  lemma DateRangeStored(st: ScanState, text: string)
    requires HasKeys(st.info) && Classify(text) == EffectiveFromLine && Contains(text, EffectiveFromPhrase)
    requires Contains(AfterFirst(text, EffectiveFromPhrase), DateSeparator)
    ensures var rest := AfterFirst(text, EffectiveFromPhrase);
      Step(st, text) == Success(st.(info := st.info[EffectiveDateRange :=
        Strip(BeforeFirst(rest, DateSeparator)) + DateSeparator + Strip(AfterFirst(rest, DateSeparator))]))
  {
    var rest := AfterFirst(text, EffectiveFromPhrase);
    assert SplitOnce(text, EffectiveFromPhrase)[1] == rest;
    assert SplitOnce(rest, DateSeparator) == [BeforeFirst(rest, DateSeparator), AfterFirst(rest, DateSeparator)];
  }

  /** Without " to " after "effective from", the line changes nothing. */
  lemma DateRangeNeedsTwoParts(st: ScanState, text: string)
    requires HasKeys(st.info) && Classify(text) == EffectiveFromLine && Contains(text, EffectiveFromPhrase)
    requires !Contains(AfterFirst(text, EffectiveFromPhrase), DateSeparator)
    ensures Step(st, text) == Success(st)
  {
    assert SplitOnce(text, EffectiveFromPhrase)[1] == AfterFirst(text, EffectiveFromPhrase);
  }

  /** For a line "effective from A to B" in which A and B hold no " to ", the range is A and
      B trimmed, joined by " to ". */
  lemma DateRangeExample(st: ScanState, text: string, pre: string, a: string, b: string)
    requires HasKeys(st.info) && Classify(text) == EffectiveFromLine
    requires text == pre + EffectiveFromPhrase + a + DateSeparator + b
    requires !Contains(pre + EffectiveFromPhrase[..13], EffectiveFromPhrase)
    requires !Contains(a + DateSeparator[..3], DateSeparator)
    ensures Step(st, text) == Success(st.(info := st.info[EffectiveDateRange := Strip(a) + DateSeparator + Strip(b)]))
  {
    assert Step(st, text) == DatesStep(st, text);
    DatesStepAt(st, text, pre, a, b);
  }

  lemma DatesStepAt(st: ScanState, text: string, pre: string, a: string, b: string)
    requires HasKeys(st.info)
    requires text == pre + EffectiveFromPhrase + a + DateSeparator + b
    requires !Contains(pre + EffectiveFromPhrase[..13], EffectiveFromPhrase)
    requires !Contains(a + DateSeparator[..3], DateSeparator)
    ensures DatesStep(st, text) == Success(st.(info := st.info[EffectiveDateRange := Strip(a) + DateSeparator + Strip(b)]))
  {
    var rest := a + DateSeparator + b;
    assert text == pre + EffectiveFromPhrase + rest;
    SplitAtFirst(pre, EffectiveFromPhrase, rest);
    SplitAtFirst(a, DateSeparator, b);
  }

  // ---------------------------------------------------------------------------
  // "ISSUED TO" and the two lists
  // ---------------------------------------------------------------------------

  /** After "ISSUED TO", the next line without a marker becomes the value, as it is, and the
      mode clears. */
  lemma IssuedToCapture(st: ScanState, marker: string, text: string)
    requires HasKeys(st.info) && Classify(marker) == IssuedToLine && Classify(text) == PlainLine
    ensures Step(st, marker) == Success(st.(mode := IssuedToMode))
    ensures Step(st.(mode := IssuedToMode), text)
      == Success(ScanState(st.info[IssuedTo := text], Idle, st.addressLineCount))
  {
  }

  /** "OPERATIONS AUTHORIZED" starts the operations list afresh, and
      "LIST OF WAIVED REGULATIONS BY SECTION AND TITLE" the waived list. */
  lemma ListTriggersReset(st: ScanState, text: string)
    requires HasKeys(st.info)
    ensures Classify(text) == OperationsLine ==>
      Step(st, text) == Success(ScanState(st.info[OperationsAuthorized := ""], OperationsMode, st.addressLineCount))
    ensures Classify(text) == WaivedListLine ==>
      Step(st, text) == Success(ScanState(st.info[WaivedRegulations := ""], WaivedListMode, st.addressLineCount))
  {
  }

  /** In the waived list, a line is appended with a space, and the list ends exactly when
      the line holds "STANDARD PROVISIONS". */
  lemma WaivedListAppendsUntilProvisions(st: ScanState, text: string)
    requires HasKeys(st.info) && st.mode == WaivedListMode && Classify(text) == PlainLine
    ensures Step(st, text).Success?
    ensures var r := Step(st, text).value;
      r.info == st.info[WaivedRegulations := st.info[WaivedRegulations] + text + " "]
      && (r.mode == Idle <==> Contains(text, StandardProvisionsMarker))
      && (r.mode != Idle ==> r.mode == WaivedListMode)
  {
  }

  // ---------------------------------------------------------------------------
  // "ADDRESS"
  // ---------------------------------------------------------------------------

  lemma PlainStep(st: ScanState, text: string)
    requires HasKeys(st.info) && Classify(text) == PlainLine
    ensures Step(st, text) == Success(Accumulate(st, text))
  {
  }

  /** Two lines without a marker after "ADDRESS" are appended, each with a space; the
      section then ends, so a third such line is not taken. */
  lemma AddressTwoLines(st: ScanState, marker: string, t1: string, t2: string, t3: string)
    requires HasKeys(st.info) && Classify(marker) == AddressLine
    requires Classify(t1) == PlainLine && Classify(t2) == PlainLine && Classify(t3) == PlainLine
    ensures var s0 := ScanState(st.info, AddressMode, 0);
      var s1 := ScanState(st.info[Address := st.info[Address] + t1 + " "], AddressMode, 1);
      var s2 := ScanState(st.info[Address := st.info[Address] + t1 + " " + t2 + " "], Idle, 2);
      Step(st, marker) == Success(s0) && Step(s0, t1) == Success(s1)
      && Step(s1, t2) == Success(s2) && Step(s2, t3) == Success(s2)
  {
    var s0 := ScanState(st.info, AddressMode, 0);
    PlainStep(s0, t1);
    var a1 := st.info[Address] + t1 + " ";
    assert st.info[Address] + (t1 + " ") == a1;
    var s1 := ScanState(st.info[Address := a1], AddressMode, 1);
    PlainStep(s1, t2);
    var a2 := a1 + t2 + " ";
    assert a1 + (t2 + " ") == a2;
    assert s1.info[Address := a2] == st.info[Address := a2];
    var s2 := ScanState(st.info[Address := a2], Idle, 2);
    PlainStep(s2, t3);
  }

  /** What the scan guarantees between any two lines: in address mode the counter is below
      the limit. */
  predicate Reachable(st: ScanState) {
    HasKeys(st.info)
    && st.addressLineCount <= AddressLineLimit
    && (st.mode == AddressMode ==> st.addressLineCount < AddressLineLimit)
  }

  lemma StepPreservesReachable(st: ScanState, text: string)
    requires Reachable(st) && Step(st, text).Success?
    ensures Reachable(Step(st, text).value)
  {
    if Classify(text) == EffectiveFromLine {
      assert Step(st, text) == DatesStep(st, text);
      DatesStepFrame(st, text);
    } else if Classify(text) == PlainLine {
      PlainStep(st, text);
    }
  }

  lemma {:induction false} ScanLinesReachable(lines: seq<string>)
    requires ScanLines(lines).Success?
    ensures Reachable(ScanLines(lines).value)
  {
    if lines == [] {
      InitialInfoHasKeys();
    } else {
      var init := lines[..|lines| - 1];
      ScanLinesLast(lines);
      ScanLinesReachable(init);
      StepPreservesReachable(ScanLines(init).value, lines[|lines| - 1]);
    }
  }

  /** In address mode the counter is below two, so the line is always appended: the
      "else ''" of the append never applies. */
  lemma AddressModeAppends(st: ScanState, text: string)
    requires Reachable(st) && st.mode == AddressMode && Classify(text) == PlainLine
    ensures Step(st, text).Success?
    ensures Step(st, text).value.info[Address] == st.info[Address] + text + " "
    ensures Step(st, text).value.addressLineCount == st.addressLineCount + 1
  {
  }

  // ---------------------------------------------------------------------------
  // The output
  // ---------------------------------------------------------------------------

  /** The output is the post-pass applied to what the scan of the page-1 lines left. */
  lemma OutputOfLines(blocks: seq<Block>)
    requires Extract(blocks).Success?
    ensures ScanLines(PageOneLines(blocks)).Success?
    ensures Extract(blocks).value == PostPass(ScanLines(PageOneLines(blocks)).value.info)
  {
    ScanReadsPageOneLines(blocks);
  }

  /** This version keeps the address as scanned, only trimmed: the output address has the
      trimmed text of the address lines. */
  lemma OutputAddressTrimmed(blocks: seq<Block>)
    requires Extract(blocks).Success?
    ensures ScanLines(PageOneLines(blocks)).Success?
    ensures Extract(blocks).value[Address] == Strip(ScanLines(PageOneLines(blocks)).value.info[Address])
  {
    OutputOfLines(blocks);
    var raw := ScanLines(PageOneLines(blocks)).value.info;
    assert PostPass(raw)[Address] == FinalValue(Address, raw[Address]);
    FinalValueTrims(Address, raw[Address]);
  }

  /** The waived list usually ends with the line that holds "STANDARD PROVISIONS": that
      marker is dropped from the output. */
  lemma ProvisionsMarkerDropped(raw: string, a: string)
    requires Strip(raw) == a + StandardProvisionsMarker
    requires !Contains(a + StandardProvisionsMarker[..|StandardProvisionsMarker| - 1], StandardProvisionsMarker)
    ensures FinalValue(WaivedRegulations, raw) == Strip(a)
  {
    FinalValueRemovesProvisions(raw);
    assert a + StandardProvisionsMarker == a + StandardProvisionsMarker + [];
    ReplaceAtFirstOccurrence(a, StandardProvisionsMarker, [], "");
    assert a + "" + [] == a;
    ContainsOccurrence(Strip(raw), StandardProvisionsMarker, |a|) by {
      assert Strip(raw)[|a|..|a| + |StandardProvisionsMarker|] == StandardProvisionsMarker;
    }
  }
}
