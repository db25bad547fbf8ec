/** `extract_final_info` of jsontoexcelcloud.py, the earlier version of the extractor: the
    same pass over the page-1 LINE blocks with a capture mode and an address line counter,
    over a dictionary of seven fields. It has no "Responsible Party:" marker, takes two
    address lines, keeps the date range as text, and its post-pass strips two markers.

    `Step`, `ScanLines`, `Scan`, `PostPass` and `Extract` are the specification;
    `ExtractFinalInfo` is the loop itself, proved equal to `Extract`. */
module LegacyExtractor {
  import opened Wrappers
  import opened PyStr
  import opened Layout

  // ---------------------------------------------------------------------------
  // The record
  // ---------------------------------------------------------------------------

  datatype Field =
    | IssuedTo | ResponsiblePerson | Address | WaiverNumber | OperationsAuthorized
    | WaivedRegulations | EffectiveDateRange

  /** The key text of each field, which becomes the spreadsheet column name. */
  function Key(f: Field): string {
    match f
    case IssuedTo => "Issued To"
    case ResponsiblePerson => "Responsible Person"
    case Address => "Address"
    case WaiverNumber => "Waiver Number"
    case OperationsAuthorized => "Operations Authorized"
    case WaivedRegulations => "List of Waived Regulations"
    case EffectiveDateRange => "Effective Date Range"
  }

  /** No two fields share a dictionary key. */
  lemma KeysDistinct(f: Field, g: Field)
    ensures Key(f) == Key(g) ==> f == g
  {
  }

  /** Address mode ends after this many lines. */
  const AddressLineLimit: nat := 2

  type Info = map<Field, string>

  /** `info` has an entry for every field. */
  predicate HasKeys(info: Info) {
    forall f: Field :: f in info
  }

  const InitialInfo: Info := map[IssuedTo := "", ResponsiblePerson := "", Address := "",
    WaiverNumber := "", OperationsAuthorized := "", WaivedRegulations := "", EffectiveDateRange := ""]

  /** The dictionary the loop starts from: every key present, every value "". */
  lemma InitialInfoHasKeys()
    ensures HasKeys(InitialInfo)
    ensures forall f: Field :: InitialInfo[f] == ""
  {
    forall f: Field
      ensures f in InitialInfo && InitialInfo[f] == ""
    {
      match f
      case IssuedTo =>
      case ResponsiblePerson =>
      case Address =>
      case WaiverNumber =>
      case OperationsAuthorized =>
      case WaivedRegulations =>
      case EffectiveDateRange =>
    }
  }

  // ---------------------------------------------------------------------------
  // The state machine
  // ---------------------------------------------------------------------------

  /** `info`, `capture_next` and `address_line_count` between two lines. */
  datatype ScanState = ScanState(info: Info, mode: Mode, addressLineCount: nat)

  const InitialState: ScanState := ScanState(InitialInfo, Idle, 0)

  /** The first marker the line holds, in the order the `elif` chain tests them. */
  function Classify(text: string): LineKind {
    if Contains(text, IssuedToMarker) then IssuedToLine
    else if Contains(text, AddressMarker) then AddressLine
    else if Contains(text, PersonMarker) then PersonLine
    else if Contains(text, WaiverNumberMarker) then WaiverNumberLine
    else if Contains(text, OperationsMarker) then OperationsLine
    else if Contains(text, WaivedListMarker) then WaivedListLine
    else if Contains(Lower(text), EffectiveFromPhrase) then EffectiveFromLine
    else PlainLine
  }

  /** Both `...:` markers end in a colon, so a line that holds one can be split on ":". */
  lemma ColonInLine(text: string)
    requires Classify(text) == PersonLine || Classify(text) == WaiverNumberLine
    ensures Contains(text, ":")
  {
    if Contains(text, PersonMarker) {
      ContainsThrough(text, PersonMarker, ":", 18);
    } else {
      ContainsThrough(text, WaiverNumberMarker, ":", 13);
    }
  }

  /** The value a "Responsible Person:" or "Waiver Number:" line sets. */
  function ColonValue(text: string): (r: string)
    requires Classify(text) == PersonLine || Classify(text) == WaiverNumberLine
    ensures IsTrimmed(r)
  {
    ColonInLine(text);
    ValueAfterColon(text)
  }

  /** The "effective from" branch: split after the exact-case phrase, then on " to ";
      with two parts, the range is stored as the two trimmed parts joined by " to ". */
  function DatesStep(st: ScanState, text: string): (r: Result<ScanState, ExtractError>)
    requires HasKeys(st.info)
    ensures r.Success? ==> HasKeys(r.value.info)
  {
    var parts := SplitOnce(text, EffectiveFromPhrase);
    if |parts| < 2 then Failure(EffectiveFromCaseMismatch(text))
    else
      var dateParts := SplitOnce(parts[1], DateSeparator);
      if |dateParts| != 2 then Success(st)
      else
        Success(st.(info := st.info[EffectiveDateRange := Strip(dateParts[0]) + DateSeparator + Strip(dateParts[1])]))
  }

  /** The `elif capture_next:` branch: a line with no marker goes to the current mode. */
  function Accumulate(st: ScanState, text: string): (r: ScanState)
    requires HasKeys(st.info)
    ensures HasKeys(r.info)
  {
    match st.mode
    case Idle => st
    case AddressMode =>
      var added := if st.addressLineCount < AddressLineLimit then text + " " else "";
      var count := st.addressLineCount + 1;
      ScanState(st.info[Address := st.info[Address] + added],
        if count == AddressLineLimit then Idle else AddressMode, count)
    case WaivedListMode =>
      ScanState(st.info[WaivedRegulations := st.info[WaivedRegulations] + text + " "],
        if Contains(text, StandardProvisionsMarker) then Idle else WaivedListMode,
        st.addressLineCount)
    case OperationsMode =>
      ScanState(st.info[OperationsAuthorized := st.info[OperationsAuthorized] + text + " "],
        if Contains(text, WaivedListMarker) then Idle else OperationsMode,
        st.addressLineCount)
    case IssuedToMode =>
      ScanState(st.info[IssuedTo := text], Idle, st.addressLineCount)
  }

  /** One page-1 LINE. */
  function Step(st: ScanState, text: string): (r: Result<ScanState, ExtractError>)
    requires HasKeys(st.info)
    ensures r.Success? ==> HasKeys(r.value.info)
  {
    match Classify(text)
    case IssuedToLine => Success(st.(mode := IssuedToMode))
    case AddressLine => Success(st.(mode := AddressMode, addressLineCount := 0))
    case PersonLine => Success(st.(info := st.info[ResponsiblePerson := ColonValue(text)]))
    case WaiverNumberLine => Success(st.(info := st.info[WaiverNumber := ColonValue(text)]))
    case OperationsLine => Success(st.(info := st.info[OperationsAuthorized := ""], mode := OperationsMode))
    case WaivedListLine => Success(st.(info := st.info[WaivedRegulations := ""], mode := WaivedListMode))
    case EffectiveFromLine => DatesStep(st, text)
    case PlainLine => Success(Accumulate(st, text))
  }

  /** The loop over the lines that pass the page-1 LINE filter. */
  function ScanLines(lines: seq<string>): (r: Result<ScanState, ExtractError>)
    ensures r.Success? ==> HasKeys(r.value.info)
  {
    if lines == [] then InitialInfoHasKeys(); Success(InitialState)
    else
      match ScanLines(lines[..|lines| - 1])
      case Failure(e) => Failure(e)
      case Success(st) => Step(st, lines[|lines| - 1])
  }

  /** The loop over all blocks, filter included. */
  function Scan(blocks: seq<Block>): (r: Result<ScanState, ExtractError>)
    ensures r.Success? ==> HasKeys(r.value.info)
  {
    if blocks == [] then InitialInfoHasKeys(); Success(InitialState)
    else
      var last := blocks[|blocks| - 1];
      match Scan(blocks[..|blocks| - 1])
      case Failure(e) => Failure(e)
      case Success(st) => if IsPageOneLine(last) then Step(st, last.text) else Success(st)
  }

  // ---------------------------------------------------------------------------
  // The post-pass
  // ---------------------------------------------------------------------------

  /** What the post-pass leaves of one field: the value trimmed, then for the two lists
      the marker that ended them stripped. */
  function FinalValue(f: Field, raw: string): (r: string)
    ensures IsTrimmed(r)
  {
    match f
    case WaivedRegulations => RemoveMarker(Strip(raw), StandardProvisionsMarker)
    case OperationsAuthorized => RemoveMarker(Strip(raw), WaivedListMarker)
    case _ => Strip(raw)
  }

  lemma FinalValueRemovesProvisions(raw: string)
    ensures FinalValue(WaivedRegulations, raw) == RemoveMarker(Strip(raw), StandardProvisionsMarker)
  {
  }

  lemma FinalValueRemovesWaivedList(raw: string)
    ensures FinalValue(OperationsAuthorized, raw) == RemoveMarker(Strip(raw), WaivedListMarker)
  {
  }

  /** Outside the two lists, the post-pass only trims: this version leaves the address as
      it is. */
  lemma FinalValueTrims(f: Field, raw: string)
    requires f != WaivedRegulations && f != OperationsAuthorized
    ensures FinalValue(f, raw) == Strip(raw)
  {
  }

  function PostPass(info: Info): (r: Info)
    requires HasKeys(info)
    ensures HasKeys(r)
    ensures forall k :: k in r ==> IsTrimmed(r[k])
  {
    map k | k in info :: FinalValue(k, info[k])
  }

  /** `extract_final_info(blocks)`: the seven fields, each trimmed, or the error raised. */
  function Extract(blocks: seq<Block>): (r: Result<Info, ExtractError>)
    ensures r.Success? ==> HasKeys(r.value) && forall k :: k in r.value ==> IsTrimmed(r.value[k])
  {
    match Scan(blocks)
    case Failure(e) => Failure(e)
    case Success(st) => Success(PostPass(st.info))
  }

  /** The post-pass, written as the source does it: trim all, then two removals in turn. */
  lemma PostPassRemovesInTurn(info: Info)
    requires HasKeys(info)
    ensures var t := StripAll(info);
      PostPass(info) == t[WaivedRegulations := RemoveMarker(t[WaivedRegulations], StandardProvisionsMarker)]
        [OperationsAuthorized := RemoveMarker(t[OperationsAuthorized], WaivedListMarker)]
  {
    var t := StripAll(info);
    var p := PostPass(info);
    var waived := RemoveMarker(t[WaivedRegulations], StandardProvisionsMarker);
    var operations := RemoveMarker(t[OperationsAuthorized], WaivedListMarker);
    FinalValueRemovesProvisions(info[WaivedRegulations]);
    FinalValueRemovesWaivedList(info[OperationsAuthorized]);
    forall k | k != WaivedRegulations && k != OperationsAuthorized
      ensures p[k] == t[k]
    {
      assert p[k] == FinalValue(k, info[k]);
      FinalValueTrims(k, info[k]);
    }
    AgreeOutsideTwo(p, t, waived, operations);
  }

  /** Two records that agree on all but the two lists differ by two updates. */
  lemma AgreeOutsideTwo(p: Info, t: Info, waived: string, operations: string)
    requires HasKeys(p) && HasKeys(t)
    requires p[WaivedRegulations] == waived && p[OperationsAuthorized] == operations
    requires forall k :: k != WaivedRegulations && k != OperationsAuthorized ==> p[k] == t[k]
    ensures p == t[WaivedRegulations := waived][OperationsAuthorized := operations]
  {
    var u := t[WaivedRegulations := waived][OperationsAuthorized := operations];
    assert p.Keys == u.Keys;
  }

  // ---------------------------------------------------------------------------
  // The loop as the source writes it
  // ---------------------------------------------------------------------------

  /** The post-pass as the source writes it: every field trimmed in place, then the two
      removals. */
  method FinishFields(scanned: Info) returns (info: Info)
    requires HasKeys(scanned)
    ensures info == PostPass(scanned)
  {
    info := StripFields(scanned);
    info := RemoveFrom(info, WaivedRegulations, StandardProvisionsMarker);
    info := RemoveFrom(info, OperationsAuthorized, WaivedListMarker);
    PostPassRemovesInTurn(scanned);
  }

  lemma {:induction false} ScanFailurePersists(blocks: seq<Block>, i: nat)
    requires i <= |blocks| && Scan(blocks[..i]).Failure?
    ensures Scan(blocks) == Scan(blocks[..i])
    decreases |blocks| - i
  {
    if i < |blocks| {
      assert blocks[..i + 1][..i] == blocks[..i];
      ScanFailurePersists(blocks, i + 1);
    } else {
      assert blocks[..i] == blocks;
    }
  }

  /** `extract_final_info(blocks)`: the loop over the blocks, then the post-pass. A line
      that makes the source raise ends the call with that error. */
  method ExtractFinalInfo(blocks: seq<Block>) returns (r: Result<Info, ExtractError>)
    ensures r == Extract(blocks)
  {
    var info: Info := InitialInfo;
    var captureNext: Mode := Idle;
    var addressLineCount: nat := 0;
    InitialInfoHasKeys();

    for i := 0 to |blocks|
      invariant HasKeys(info)
      invariant Scan(blocks[..i]) == Success(ScanState(info, captureNext, addressLineCount))
    {
      assert blocks[..i + 1][..i] == blocks[..i];
      var block := blocks[i];
      if block.blockType == "LINE" && block.page == 1 {
        var outcome := ProcessLine(ScanState(info, captureNext, addressLineCount), block.text);
        if outcome.Failure? {
          r := Failure(outcome.error);
          ScanFailurePersists(blocks, i + 1);
          return;
        }
        info, captureNext, addressLineCount := outcome.value.info, outcome.value.mode, outcome.value.addressLineCount;
      }
    }
    assert blocks[..|blocks|] == blocks;

    info := FinishFields(info);
    r := Success(info);
  }

  /** The body of the loop for one page-1 LINE: the `elif` chain over the markers. */
  method ProcessLine(st: ScanState, text: string) returns (r: Result<ScanState, ExtractError>)
    requires HasKeys(st.info)
    ensures r == Step(st, text)
  {
    var info, captureNext, addressLineCount := st.info, st.mode, st.addressLineCount;
    if Contains(text, IssuedToMarker) {
      captureNext := IssuedToMode;
      assert Classify(text) == IssuedToLine;
      assert Step(st, text) == Success(ScanState(info, captureNext, addressLineCount));
    } else if Contains(text, AddressMarker) {
      captureNext := AddressMode;
      addressLineCount := 0;
      assert Classify(text) == AddressLine;
      assert Step(st, text) == Success(ScanState(info, captureNext, addressLineCount));
    } else if Contains(text, PersonMarker) {
      info := info[ResponsiblePerson := ColonValue(text)];
      assert Classify(text) == PersonLine;
      assert Step(st, text) == Success(ScanState(info, captureNext, addressLineCount));
    } else if Contains(text, WaiverNumberMarker) {
      info := info[WaiverNumber := ColonValue(text)];
      assert Classify(text) == WaiverNumberLine;
      assert Step(st, text) == Success(ScanState(info, captureNext, addressLineCount));
    } else if Contains(text, OperationsMarker) {
      captureNext := OperationsMode;
      info := info[OperationsAuthorized := ""];
      assert Classify(text) == OperationsLine;
      assert Step(st, text) == Success(ScanState(info, captureNext, addressLineCount));
    } else if Contains(text, WaivedListMarker) {
      captureNext := WaivedListMode;
      info := info[WaivedRegulations := ""];
      assert Classify(text) == WaivedListLine;
      assert Step(st, text) == Success(ScanState(info, captureNext, addressLineCount));
    } else if Contains(Lower(text), EffectiveFromPhrase) {
      assert Classify(text) == EffectiveFromLine;
      r := ParseDateRange(st, text);
      return;
    } else if captureNext != Idle {
      assert Classify(text) == PlainLine;
      r := CaptureLine(st, text);
      return;
    } else {
      assert Classify(text) == PlainLine;
      assert Step(st, text) == Success(ScanState(info, captureNext, addressLineCount));
    }
    r := Success(ScanState(info, captureNext, addressLineCount));
  }

  /** The "effective from" branch. */
  method ParseDateRange(st: ScanState, text: string) returns (r: Result<ScanState, ExtractError>)
    requires HasKeys(st.info)
    ensures r == DatesStep(st, text)
  {
    var parts := SplitOnce(text, EffectiveFromPhrase);
    if |parts| < 2 {
      // `split("effective from", 1)[1]` raises IndexError
      return Failure(EffectiveFromCaseMismatch(text));
    }
    var info := st.info;
    var dateParts := SplitOnce(parts[1], DateSeparator);
    if |dateParts| == 2 {
      info := info[EffectiveDateRange := Strip(dateParts[0]) + DateSeparator + Strip(dateParts[1])];
    }
    r := Success(st.(info := info));
  }

  /** The `elif capture_next:` branch, for a line with no marker while a mode is active. */
  method CaptureLine(st: ScanState, text: string) returns (r: Result<ScanState, ExtractError>)
    requires HasKeys(st.info) && st.mode != Idle
    ensures r == Success(Accumulate(st, text))
  {
    var info, captureNext, addressLineCount := st.info, st.mode, st.addressLineCount;
    if captureNext == AddressMode {
      info := info[Address := info[Address] + (if addressLineCount < AddressLineLimit then text + " " else "")];
      addressLineCount := addressLineCount + 1;
      if addressLineCount == AddressLineLimit {
        captureNext := Idle;
      }
    } else if captureNext == WaivedListMode {
      info := info[WaivedRegulations := info[WaivedRegulations] + text + " "];
      if Contains(text, StandardProvisionsMarker) {
        captureNext := Idle;
      }
    } else if captureNext == OperationsMode {
      info := info[OperationsAuthorized := info[OperationsAuthorized] + text + " "];
      if Contains(text, WaivedListMarker) {
        captureNext := Idle;
      }
    } else {
      info := info[IssuedTo := text];
      captureNext := Idle;
    }
    r := Success(ScanState(info, captureNext, addressLineCount));
  }
}
