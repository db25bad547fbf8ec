/** What `extract_final_info` of project_files/jsontoexcelcloud.py promises, stated over
    the specification functions of `Extractor`. */
module ExtractorProperties {
  import opened Wrappers
  import opened PyStr
  import opened Layout
  import opened Extractor

  // ---------------------------------------------------------------------------
  // Only page-1 LINE blocks are read
  // ---------------------------------------------------------------------------

  /** The loop over all blocks is the loop over the page-1 LINE texts. */
  lemma {:induction false} ScanReadsPageOneLines(blocks: seq<Block>, parse: DateParser)
    ensures Scan(blocks, parse) == ScanLines(PageOneLines(blocks), parse)
  {
    if blocks != [] {
      var init, last := blocks[..|blocks| - 1], blocks[|blocks| - 1];
      ScanReadsPageOneLines(init, parse);
      var lines := PageOneLines(init);
      if IsPageOneLine(last) {
        var all := lines + [last.text];
        assert all[..|all| - 1] == lines;
      } else {
        assert PageOneLines(blocks) == lines;
      }
    }
  }

  /** Two block lists with the same page-1 LINE texts give the same output. */
  lemma SameLinesSameOutput(a: seq<Block>, b: seq<Block>, parse: DateParser)
    requires PageOneLines(a) == PageOneLines(b)
    ensures Extract(a, parse) == Extract(b, parse)
  {
    ScanReadsPageOneLines(a, parse);
    ScanReadsPageOneLines(b, parse);
  }

  /** Removing a block that is not a page-1 LINE leaves the output unchanged. */
  lemma DroppingOtherBlockKeepsOutput(blocks: seq<Block>, i: int, parse: DateParser)
    requires 0 <= i < |blocks| && !IsPageOneLine(blocks[i])
    ensures Extract(blocks[..i] + blocks[i + 1..], parse) == Extract(blocks, parse)
  {
    DropOtherBlock(blocks, i);
    SameLinesSameOutput(blocks[..i] + blocks[i + 1..], blocks, parse);
  }

  // ---------------------------------------------------------------------------
  // One line at a time
  // ---------------------------------------------------------------------------

  /** The "effective from" branch writes the two dates together, as `MM/DD/YYYY`, or
      nothing; it never changes the mode, the counter or another field. */
  lemma DatesStepFrame(st: ScanState, text: string, parse: DateParser)
    requires HasKeys(st.info) && DatesStep(st, text, parse).Success?
    ensures var r := DatesStep(st, text, parse).value;
      r.mode == st.mode && r.addressLineCount == st.addressLineCount
    ensures var r := DatesStep(st, text, parse).value;
      r.info == st.info
      || (r.info == st.info[EffectiveDate := r.info[EffectiveDate]][ExpireDate := r.info[ExpireDate]]
          && IsDateText(r.info[EffectiveDate]) && IsDateText(r.info[ExpireDate]))
  {
  }

  /** A line that holds a marker is never appended to an accumulated field: the address
      and the issued-to text are kept, and the two lists are kept or reset to "". */
  lemma MarkerLineNotAccumulated(st: ScanState, text: string, parse: DateParser)
    requires HasKeys(st.info) && Classify(text) != PlainLine
    requires Step(st, text, parse).Success?
    ensures var info := Step(st, text, parse).value.info;
      info[Address] == st.info[Address] && info[IssuedTo] == st.info[IssuedTo]
      && (info[OperationsAuthorized] == st.info[OperationsAuthorized] || info[OperationsAuthorized] == "")
      && (info[WaivedRegulations] == st.info[WaivedRegulations] || info[WaivedRegulations] == "")
  {
    if Classify(text) == EffectiveFromLine {
      assert Step(st, text, parse) == DatesStep(st, text, parse);
      DatesStepFrame(st, text, parse);
      var r := Step(st, text, parse).value;
      DatesKeepOtherFields(st, r, Address);
      DatesKeepOtherFields(st, r, IssuedTo);
      DatesKeepOtherFields(st, r, OperationsAuthorized);
      DatesKeepOtherFields(st, r, WaivedRegulations);
    } else {
      MarkerStepNotAccumulated(st, text, parse);
    }
  }

  lemma MarkerStepNotAccumulated(st: ScanState, text: string, parse: DateParser)
    requires HasKeys(st.info) && Classify(text) != PlainLine && Classify(text) != EffectiveFromLine
    ensures Step(st, text, parse).Success?
    ensures var info := Step(st, text, parse).value.info;
      info[Address] == st.info[Address] && info[IssuedTo] == st.info[IssuedTo]
      && (info[OperationsAuthorized] == st.info[OperationsAuthorized] || info[OperationsAuthorized] == "")
      && (info[WaivedRegulations] == st.info[WaivedRegulations] || info[WaivedRegulations] == "")
  {
  }

  /** A line that only sets a value ("Responsible Person:", "Responsible Party:",
      "Waiver Number:", "effective from") leaves the capture mode and the counter as they were,
      so it does not interrupt an accumulation. */
  lemma FieldLineKeepsMode(st: ScanState, text: string, parse: DateParser)
    requires HasKeys(st.info)
    requires Classify(text) in {PersonLine, WaiverNumberLine, EffectiveFromLine}
    requires Step(st, text, parse).Success?
    ensures Step(st, text, parse).value.mode == st.mode
    ensures Step(st, text, parse).value.addressLineCount == st.addressLineCount
  {
    if Classify(text) == EffectiveFromLine {
      assert Step(st, text, parse) == DatesStep(st, text, parse);
      DatesStepFrame(st, text, parse);
    }
  }

  /** "OPERATIONS AUTHORIZED" starts the operations list afresh. */
  lemma OperationsTriggerResets(st: ScanState, text: string, parse: DateParser)
    requires HasKeys(st.info) && Classify(text) == OperationsLine
    ensures Step(st, text, parse) == Success(ScanState(st.info[OperationsAuthorized := ""], OperationsMode, st.addressLineCount))
  {
  }

  /** "LIST OF WAIVED REGULATIONS BY SECTION AND TITLE" starts the waived list afresh. */
  lemma WaivedListTriggerResets(st: ScanState, text: string, parse: DateParser)
    requires HasKeys(st.info) && Classify(text) == WaivedListLine
    ensures Step(st, text, parse) == Success(ScanState(st.info[WaivedRegulations := ""], WaivedListMode, st.addressLineCount))
  {
  }

  /** In the waived list, a line is appended with a space, and the list ends exactly when
      the line holds "STANDARD PROVISIONS". */
  lemma WaivedListAppendsUntilProvisions(st: ScanState, text: string, parse: DateParser)
    requires HasKeys(st.info) && st.mode == WaivedListMode && Classify(text) == PlainLine
    ensures Step(st, text, parse).Success?
    ensures var r := Step(st, text, parse).value;
      r.info == st.info[WaivedRegulations := st.info[WaivedRegulations] + text + " "]
      && (r.mode == Idle <==> Contains(text, StandardProvisionsMarker))
      && (r.mode != Idle ==> r.mode == WaivedListMode)
  {
  }

  /** Operations mode never ends by itself: a line holding the waived-list marker is taken
      by that marker's trigger, so the exit test of the operations branch is never met. */
  lemma OperationsNeverEndsIdle(st: ScanState, text: string, parse: DateParser)
    requires HasKeys(st.info) && st.mode == OperationsMode
    requires Step(st, text, parse).Success?
    ensures Step(st, text, parse).value.mode != Idle
  {
    if Classify(text) == EffectiveFromLine {
      assert Step(st, text, parse) == DatesStep(st, text, parse);
      DatesStepFrame(st, text, parse);
    } else if Classify(text) == PlainLine {
      PlainStep(st, text, parse);
      assert !Contains(text, WaivedListMarker);
    } else {
      MarkerStepKeepsCapturing(st, text, parse);
    }
  }

  /** No marker line clears an active capture mode. */
  lemma MarkerStepKeepsCapturing(st: ScanState, text: string, parse: DateParser)
    requires HasKeys(st.info) && st.mode != Idle
    requires Classify(text) != EffectiveFromLine && Classify(text) != PlainLine
    ensures Step(st, text, parse).Success? && Step(st, text, parse).value.mode != Idle
  {
  }

  /** A line that holds "effective from" only in another case raises IndexError. */
  lemma EffectiveFromMismatchRaises(st: ScanState, text: string, parse: DateParser)
    requires HasKeys(st.info) && Classify(text) == EffectiveFromLine
    ensures Step(st, text, parse) == Failure(EffectiveFromCaseMismatch(text))
      <==> !Contains(text, EffectiveFromPhrase)
  {
  }

  /** Without " to " after "effective from", the line changes nothing. */
  lemma DatesNeedTwoParts(st: ScanState, text: string, parse: DateParser)
    requires HasKeys(st.info) && Classify(text) == EffectiveFromLine && Contains(text, EffectiveFromPhrase)
    requires !Contains(AfterFirst(text, EffectiveFromPhrase), DateSeparator)
    ensures Step(st, text, parse) == Success(st)
  {
    assert SplitOnce(text, EffectiveFromPhrase)[1] == AfterFirst(text, EffectiveFromPhrase);
  }

  /** When both dates parse, both fields hold them as `MM/DD/YYYY`, and nothing else changes. */
  lemma DatesSetTogether(st: ScanState, text: string, parse: DateParser)
    requires HasKeys(st.info) && Classify(text) == EffectiveFromLine
    requires Step(st, text, parse).Success?
    ensures var r := Step(st, text, parse).value;
      (r.info[EffectiveDate] == st.info[EffectiveDate] && r.info[ExpireDate] == st.info[ExpireDate])
      || (IsDateText(r.info[EffectiveDate]) && IsDateText(r.info[ExpireDate]))
    ensures var r := Step(st, text, parse).value;
      forall f :: f != EffectiveDate && f != ExpireDate ==> r.info[f] == st.info[f]
  {
    assert Step(st, text, parse) == DatesStep(st, text, parse);
    DatesStepFrame(st, text, parse);
  }

  /** Which dates are stored: the start date is parsed from the text between "effective from"
      and the first " to ", trimmed; the end date from the rest of the line, trimmed and cut
      at its first comma. The first text the parser rejects is the error. */
  lemma DatesStored(st: ScanState, text: string, parse: DateParser)
    requires HasKeys(st.info) && Classify(text) == EffectiveFromLine && Contains(text, EffectiveFromPhrase)
    requires Contains(AfterFirst(text, EffectiveFromPhrase), DateSeparator)
    ensures var rest := AfterFirst(text, EffectiveFromPhrase);
      var startText := Strip(BeforeFirst(rest, DateSeparator));
      var endText := Strip(BeforeFirst(Strip(AfterFirst(rest, DateSeparator)), ","));
      (parse(startText).None? ==> Step(st, text, parse) == Failure(UnparsableDate(startText)))
      && (parse(startText).Some? && parse(endText).None? ==>
            Step(st, text, parse) == Failure(UnparsableDate(endText)))
      && (parse(startText).Some? && parse(endText).Some? ==>
            Step(st, text, parse) == Success(st.(info := st.info
              [EffectiveDate := FormatDate(parse(startText).value)]
              [ExpireDate := FormatDate(parse(endText).value)])))
  {
    var rest := AfterFirst(text, EffectiveFromPhrase);
    assert Step(st, text, parse) == DatesStep(st, text, parse);
    assert SplitOnce(text, EffectiveFromPhrase)[1] == rest;
    assert SplitOnce(rest, DateSeparator) == [BeforeFirst(rest, DateSeparator), AfterFirst(rest, DateSeparator)];
  }

  /** The comma cut keeps only what precedes the first comma of the end part: for
      "August 31, 2024, and ..." the parser receives "August 31", without the year. */
  lemma EndDateCutAtComma(c: string, d: string)
    requires c != [] && IsTrimmed(c) && !Contains(c, ",")
    ensures Strip(BeforeFirst(Strip(c + "," + d), ",")) == c
  {
    var s := c + "," + d;
    StripKeepsPrefix(s, |c|);
    var e := Strip(s)[|c| + 1..];
    assert Strip(s) == c + "," + e by {
      assert Strip(s)[..|c| + 1] == c + ",";
    }
    assert c + ","[..0] == c;
    SplitAtFirst(c, ",", e);
    StripTrimmed(c);
  }

  /** "May 31, 2024." as the end part of the line reaches the parser as "May 31". */
  lemma EndDateExample()
    ensures Strip(BeforeFirst(Strip(" May 31, 2024."), ",")) == "May 31"
  {
    assert Strip(" May 31, 2024.") == Strip("May 31, 2024.");
    assert "May 31, 2024." == "May 31" + "," + " 2024.";
    assert !Contains("May 31", ",");
    EndDateCutAtComma("May 31", " 2024.");
  }

  // ---------------------------------------------------------------------------
  // "Responsible Person:", "Responsible Party:" and "Waiver Number:"
  // ---------------------------------------------------------------------------

  /** `p` cannot occur in a string that lacks its first character. */
  lemma AbsentFirstChar(s: string, p: string, c: char)
    requires p != [] && p[0] == c && forall i :: 0 <= i < |s| ==> s[i] != c
    ensures !Contains(s, p)
  {
  }

  const WaiverNumberExampleText: string := "Waiver Number: 107W-2020-01234"

  /** "Waiver Number: 107W-2020-01234" holds no earlier marker, so it is a waiver-number line. */
  lemma WaiverNumberExampleKind()
    ensures Classify(WaiverNumberExampleText) == WaiverNumberLine
  {
    var text := WaiverNumberExampleText;
    assert forall i :: 0 <= i < |text| ==> text[i] != 'I' && text[i] != 'A' && text[i] != 'R';
    AbsentFirstChar(text, IssuedToMarker, 'I');
    AbsentFirstChar(text, AddressMarker, 'A');
    AbsentFirstChar(text, PersonMarker, 'R');
    AbsentFirstChar(text, PartyMarker, 'R');
    assert OccursAt(text, WaiverNumberMarker, 0);
    ContainsOccurrence(text, WaiverNumberMarker, 0);
  }

  /** The first colon of a marker line at index `j` gives the value after `j`. */
  lemma ColonValueAt(text: string, j: int)
    requires Classify(text) == PersonLine || Classify(text) == WaiverNumberLine
    requires 0 <= j < |text| && text[j] == ':' && forall i :: 0 <= i < j ==> text[i] != ':'
    ensures ColonValue(text) == Strip(text[j + 1..])
  {
    ColonInLine(text);
    var k := ValueAfterFirstColon(text);
    assert k == j;
  }

  lemma WaiverNumberExampleColon()
    ensures WaiverNumberExampleText[13] == ':'
    ensures forall i :: 0 <= i < 13 ==> WaiverNumberExampleText[i] != ':'
    ensures WaiverNumberExampleText[14..] == " 107W-2020-01234"
  {
  }

  /** Its value is the text after the colon, without the leading space. */
  lemma WaiverNumberExampleValue()
    ensures Classify(WaiverNumberExampleText) == WaiverNumberLine
    ensures ColonValue(WaiverNumberExampleText) == "107W-2020-01234"
  {
    WaiverNumberExampleKind();
    WaiverNumberExampleColon();
    ColonValueAt(WaiverNumberExampleText, 13);
    StripLeadingSpace("107W-2020-01234");
  }

  lemma StripLeadingSpace(v: string)
    requires IsTrimmed(v)
    ensures Strip(" " + v) == v
  {
    assert (" " + v)[1..] == v;
    StripTrimmed(v);
  }

  /** The line sets the waiver number and nothing else. */
  lemma WaiverNumberExample(st: ScanState, parse: DateParser)
    requires HasKeys(st.info)
    ensures Step(st, WaiverNumberExampleText, parse)
      == Success(st.(info := st.info[WaiverNumber := "107W-2020-01234"]))
  {
    WaiverNumberExampleValue();
  }

  /** The line kinds that write `f`, for the two single-value fields. */
  predicate SetsColonField(text: string, f: Field) {
    (f == ResponsiblePerson && Classify(text) == PersonLine)
    || (f == WaiverNumber && Classify(text) == WaiverNumberLine)
  }

  lemma StepKeepsColonField(st: ScanState, text: string, parse: DateParser, f: Field)
    requires HasKeys(st.info) && (f == ResponsiblePerson || f == WaiverNumber) && !SetsColonField(text, f)
    requires Step(st, text, parse).Success?
    ensures Step(st, text, parse).value.info[f] == st.info[f]
  {
    if Classify(text) == EffectiveFromLine {
      assert Step(st, text, parse) == DatesStep(st, text, parse);
      DatesStepFrame(st, text, parse);
      DatesKeepOtherFields(st, Step(st, text, parse).value, f);
    } else {
      OtherStepKeepsColonField(st, text, parse, f);
    }
  }

  /** Setting the two dates, or nothing, keeps every other field. */
  lemma DatesKeepOtherFields(st: ScanState, r: ScanState, f: Field)
    requires HasKeys(st.info) && HasKeys(r.info) && f != EffectiveDate && f != ExpireDate
    requires r.info == st.info
      || r.info == st.info[EffectiveDate := r.info[EffectiveDate]][ExpireDate := r.info[ExpireDate]]
    ensures r.info[f] == st.info[f]
  {
  }

  lemma OtherStepKeepsColonField(st: ScanState, text: string, parse: DateParser, f: Field)
    requires HasKeys(st.info) && (f == ResponsiblePerson || f == WaiverNumber) && !SetsColonField(text, f)
    requires Classify(text) != EffectiveFromLine
    ensures Step(st, text, parse).Success?
    ensures Step(st, text, parse).value.info[f] == st.info[f]
  {
  }

  /** A failed prefix makes the whole run fail. */
  lemma ScanLinesLast(lines: seq<string>, parse: DateParser)
    requires lines != [] && ScanLines(lines, parse).Success?
    ensures ScanLines(lines[..|lines| - 1], parse).Success?
    ensures ScanLines(lines, parse)
      == Step(ScanLines(lines[..|lines| - 1], parse).value, lines[|lines| - 1], parse)
  {
  }

  /** A line that writes a single-value field stores its text after the first colon. */
  lemma ColonLineSets(st: ScanState, text: string, parse: DateParser, f: Field)
    requires HasKeys(st.info) && SetsColonField(text, f)
    ensures Step(st, text, parse) == Success(st.(info := st.info[f := ColonValue(text)]))
  {
  }

  /** The last line that writes a single-value field decides its value. */
  lemma {:induction false} LastColonLineWins(lines: seq<string>, i: int, f: Field, parse: DateParser)
    requires 0 <= i < |lines| && SetsColonField(lines[i], f)
    requires forall j :: i < j < |lines| ==> !SetsColonField(lines[j], f)
    requires ScanLines(lines, parse).Success?
    ensures ScanLines(lines, parse).value.info[f] == ColonValue(lines[i])
    decreases |lines|
  {
    var init := lines[..|lines| - 1];
    ScanLinesLast(lines, parse);
    var st := ScanLines(init, parse).value;
    if i < |lines| - 1 {
      LastColonLineWins(init, i, f, parse);
      StepKeepsColonField(st, lines[|lines| - 1], parse, f);
    } else {
      ColonLineSets(st, lines[i], parse, f);
    }
  }

  /** The same in the final output, which the post-pass leaves as it is. */
  lemma LastColonLineInOutput(blocks: seq<Block>, i: int, f: Field, parse: DateParser)
    requires var lines := PageOneLines(blocks);
      0 <= i < |lines| && SetsColonField(lines[i], f)
      && forall j :: i < j < |lines| ==> !SetsColonField(lines[j], f)
    requires Extract(blocks, parse).Success?
    ensures Extract(blocks, parse).value[f] == ColonValue(PageOneLines(blocks)[i])
  {
    var lines := PageOneLines(blocks);
    ScanReadsPageOneLines(blocks, parse);
    LastColonLineWins(lines, i, f, parse);
    var raw := ScanLines(lines, parse).value.info;
    FinalValueTrims(f, raw[f]);
    StripTrimmed(ColonValue(lines[i]));
  }

  // ---------------------------------------------------------------------------
  // "ISSUED TO"
  // ---------------------------------------------------------------------------

  /** After "ISSUED TO", the next line without a marker becomes the value, as it is, and the
      mode clears. */
  lemma IssuedToCapture(st: ScanState, marker: string, text: string, parse: DateParser)
    requires HasKeys(st.info) && Classify(marker) == IssuedToLine && Classify(text) == PlainLine
    ensures Step(st, marker, parse) == Success(st.(mode := IssuedToMode))
    ensures Step(st.(mode := IssuedToMode), text, parse)
      == Success(ScanState(st.info[IssuedTo := text], Idle, st.addressLineCount))
  {
  }

  // ---------------------------------------------------------------------------
  // "ADDRESS"
  // ---------------------------------------------------------------------------

  /** Re-entering the address section only resets the counter: the text kept so far stays. */
  lemma AddressTriggerKeepsText(st: ScanState, text: string, parse: DateParser)
    requires HasKeys(st.info) && Classify(text) == AddressLine
    ensures Step(st, text, parse) == Success(ScanState(st.info, AddressMode, 0))
  {
  }

  /** A line without a marker goes to the capture mode. */
  lemma PlainStep(st: ScanState, text: string, parse: DateParser)
    requires HasKeys(st.info) && Classify(text) == PlainLine
    ensures Step(st, text, parse) == Success(Accumulate(st, text))
  {
  }

  /** Before the limit, a line without a marker is appended to the address with a space. */
  lemma AddressLineAppended(st: ScanState, text: string, parse: DateParser)
    requires HasKeys(st.info) && st.mode == AddressMode && Classify(text) == PlainLine
    requires st.addressLineCount + 1 < AddressLineLimit
    ensures Step(st, text, parse)
      == Success(ScanState(st.info[Address := st.info[Address] + (text + " ")], AddressMode, st.addressLineCount + 1))
  {
    PlainStep(st, text, parse);
  }

  /** The line that reaches the limit is appended too; then the section ends and the four
      address parts become "Unknown". */
  lemma AddressLastLine(st: ScanState, text: string, parse: DateParser)
    requires HasKeys(st.info) && st.mode == AddressMode && Classify(text) == PlainLine
    requires st.addressLineCount + 1 == AddressLineLimit
    ensures Step(st, text, parse)
      == Success(ScanState(st.info[Address := st.info[Address] + (text + " ")]
           [Street := Unknown][City := Unknown][State := Unknown][ZipCode := Unknown], Idle, AddressLineLimit))
  {
    PlainStep(st, text, parse);
  }

  /** Three lines without a marker after "ADDRESS" are appended, each with a space; then the
      section ends and the four address parts become "Unknown". */
  lemma AddressThreeLines(st: ScanState, marker: string, t1: string, t2: string, t3: string, parse: DateParser)
    requires HasKeys(st.info) && Classify(marker) == AddressLine
    requires Classify(t1) == PlainLine && Classify(t2) == PlainLine && Classify(t3) == PlainLine
    ensures var s0 := ScanState(st.info, AddressMode, 0);
      var s1 := ScanState(st.info[Address := st.info[Address] + t1 + " "], AddressMode, 1);
      var s2 := ScanState(st.info[Address := st.info[Address] + t1 + " " + t2 + " "], AddressMode, 2);
      var s3 := ScanState(st.info[Address := st.info[Address] + t1 + " " + t2 + " " + t3 + " "]
        [Street := Unknown][City := Unknown][State := Unknown][ZipCode := Unknown], Idle, 3);
      Step(st, marker, parse) == Success(s0) && Step(s0, t1, parse) == Success(s1)
      && Step(s1, t2, parse) == Success(s2) && Step(s2, t3, parse) == Success(s3)
  {
    var s0 := ScanState(st.info, AddressMode, 0);
    AddressTriggerKeepsText(st, marker, parse);
    AddressLineAppended(s0, t1, parse);
    var a1 := st.info[Address] + t1 + " ";
    assert st.info[Address] + (t1 + " ") == a1;
    var s1 := ScanState(st.info[Address := a1], AddressMode, 1);
    AddressLineAppended(s1, t2, parse);
    var a2 := a1 + t2 + " ";
    assert a1 + (t2 + " ") == a2;
    assert s1.info[Address := a2] == st.info[Address := a2];
    var s2 := ScanState(st.info[Address := a2], AddressMode, 2);
    AddressLastLine(s2, t3, parse);
    var a3 := a2 + t3 + " ";
    assert a2 + (t3 + " ") == a3;
    assert s2.info[Address := a3] == st.info[Address := a3];
  }

  /** What the scan guarantees between any two lines. */
  predicate Reachable(st: ScanState) {
    HasKeys(st.info)
    && st.addressLineCount <= AddressLineLimit
    && (st.mode == AddressMode ==> st.addressLineCount < AddressLineLimit)
    && st.info[City] == st.info[Street] && st.info[State] == st.info[Street] && st.info[ZipCode] == st.info[Street]
    && (st.info[Street] == "" || st.info[Street] == Unknown)
    && ((st.info[EffectiveDate] == "" && st.info[ExpireDate] == "")
        || (IsDateText(st.info[EffectiveDate]) && IsDateText(st.info[ExpireDate])))
  }

  lemma StepPreservesReachable(st: ScanState, text: string, parse: DateParser)
    requires Reachable(st) && Step(st, text, parse).Success?
    ensures Reachable(Step(st, text, parse).value)
  {
    if Classify(text) == EffectiveFromLine {
      assert Step(st, text, parse) == DatesStep(st, text, parse);
      DatesStepFrame(st, text, parse);
      DatesKeepReachable(st, Step(st, text, parse).value);
    } else if Classify(text) == PlainLine {
      PlainStep(st, text, parse);
      AccumulatePreservesReachable(st, text);
    } else {
      MarkerStepPreservesReachable(st, text, parse);
    }
  }

  /** Setting both dates to `MM/DD/YYYY` values, or nothing, keeps the scan reachable. */
  lemma DatesKeepReachable(st: ScanState, r: ScanState)
    requires Reachable(st) && HasKeys(r.info) && r.mode == st.mode && r.addressLineCount == st.addressLineCount
    requires r.info == st.info
      || (r.info == st.info[EffectiveDate := r.info[EffectiveDate]][ExpireDate := r.info[ExpireDate]]
          && IsDateText(r.info[EffectiveDate]) && IsDateText(r.info[ExpireDate]))
    ensures Reachable(r)
  {
  }

  lemma MarkerStepPreservesReachable(st: ScanState, text: string, parse: DateParser)
    requires Reachable(st) && Classify(text) != EffectiveFromLine && Classify(text) != PlainLine
    ensures Reachable(Step(st, text, parse).value)
  {
  }

  lemma AccumulatePreservesReachable(st: ScanState, text: string)
    requires Reachable(st)
    ensures Reachable(Accumulate(st, text))
  {
  }

  lemma {:induction false} ScanLinesReachable(lines: seq<string>, parse: DateParser)
    requires ScanLines(lines, parse).Success?
    ensures Reachable(ScanLines(lines, parse).value)
  {
    if lines == [] {
      InitialInfoHasKeys();
    } else {
      var init := lines[..|lines| - 1];
      ScanLinesLast(lines, parse);
      ScanLinesReachable(init, parse);
      StepPreservesReachable(ScanLines(init, parse).value, lines[|lines| - 1], parse);
    }
  }

  /** In address mode the counter is below three, so the line is always appended: the
      "else ''" of the append never applies. */
  lemma AddressModeAppends(st: ScanState, text: string, parse: DateParser)
    requires Reachable(st) && st.mode == AddressMode && Classify(text) == PlainLine
    ensures Step(st, text, parse).Success?
    ensures Step(st, text, parse).value.info[Address] == st.info[Address] + text + " "
    ensures Step(st, text, parse).value.addressLineCount == st.addressLineCount + 1
  {
  }

  /** A date field is never padded with whitespace, so trimming keeps it. */
  lemma DateTextTrimmed(s: string)
    requires IsDateText(s)
    ensures Strip(s) == s
  {
    assert IsDigit(s[0]) && IsDigit(s[9]);
    StripTrimmed(s);
  }

  /** The output is the post-pass applied to what the scan of the page-1 lines left. */
  lemma OutputOfLines(blocks: seq<Block>, parse: DateParser)
    requires Extract(blocks, parse).Success?
    ensures ScanLines(PageOneLines(blocks), parse).Success?
    ensures Extract(blocks, parse).value == PostPass(ScanLines(PageOneLines(blocks), parse).value.info)
  {
    ScanReadsPageOneLines(blocks, parse);
  }

  lemma PostPassAt(info: Info, f: Field)
    requires HasKeys(info)
    ensures PostPass(info)[f] == FinalValue(f, info[f])
  {
  }

  /** In the output, the four address parts are equal and either "" or "Unknown", and the two
      dates are both "" or both `MM/DD/YYYY`. */
  lemma OutputAddressPartsAndDates(blocks: seq<Block>, parse: DateParser)
    requires Extract(blocks, parse).Success?
    ensures var out := Extract(blocks, parse).value;
      out[City] == out[Street] && out[State] == out[Street] && out[ZipCode] == out[Street]
      && (out[Street] == "" || out[Street] == Unknown)
    ensures var out := Extract(blocks, parse).value;
      (out[EffectiveDate] == "" && out[ExpireDate] == "") || (IsDateText(out[EffectiveDate]) && IsDateText(out[ExpireDate]))
  {
    OutputOfLines(blocks, parse);
    ScanLinesReachable(PageOneLines(blocks), parse);
    PostPassKeepsAddressPartsAndDates(ScanLines(PageOneLines(blocks), parse).value);
  }

  /** The post-pass only trims these six fields, and trimming keeps what `Reachable` says of them. */
  lemma PostPassKeepsAddressPartsAndDates(st: ScanState)
    requires Reachable(st)
    ensures var out := PostPass(st.info);
      out[City] == out[Street] && out[State] == out[Street] && out[ZipCode] == out[Street]
      && (out[Street] == "" || out[Street] == Unknown)
    ensures var out := PostPass(st.info);
      (out[EffectiveDate] == "" && out[ExpireDate] == "") || (IsDateText(out[EffectiveDate]) && IsDateText(out[ExpireDate]))
  {
    var raw := st.info;
    forall f | f in {Street, City, State, ZipCode, EffectiveDate, ExpireDate}
      ensures PostPass(raw)[f] == Strip(raw[f])
    {
      PostPassAt(raw, f);
      FinalValueTrims(f, raw[f]);
    }
    StripTrimmed(raw[Street]);
    if raw[EffectiveDate] != "" {
      DateTextTrimmed(raw[EffectiveDate]);
      DateTextTrimmed(raw[ExpireDate]);
    }
  }

  // ---------------------------------------------------------------------------
  // The post-pass
  // ---------------------------------------------------------------------------

  /** The removal cuts the value at the first occurrence of the marker: the text before it
      stays, the occurrence goes, and the rest is cut in the same way. */
  lemma RemoveMarkerCuts(value: string, marker: string, a: string, b: string)
    requires marker != [] && value == a + marker + b && !Contains(a + marker[..|marker| - 1], marker)
    ensures RemoveMarker(value, marker) == Strip(a + Replace(b, marker, ""))
  {
    ContainsOccurrence(value, marker, |a|) by {
      assert value[|a|..|a| + |marker|] == marker;
    }
    ReplaceAtFirstOccurrence(a, marker, b, "");
    assert a + "" == a;
  }

  /** The waived list usually ends with the line that holds "STANDARD PROVISIONS": that
      marker is dropped from the output. */
  lemma WaivedListDropsProvisions(raw: string, a: string)
    requires Strip(raw) == a + StandardProvisionsMarker
    requires !Contains(a + StandardProvisionsMarker[..|StandardProvisionsMarker| - 1], StandardProvisionsMarker)
    ensures FinalValue(WaivedRegulations, raw) == Strip(a)
  {
    FinalValueRemovesProvisions(raw);
    assert a + StandardProvisionsMarker == a + StandardProvisionsMarker + [];
    RemoveMarkerCuts(Strip(raw), StandardProvisionsMarker, a, []);
    assert a + [] == a;
  }
}
