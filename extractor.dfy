/** `extract_final_info` of project_files/jsontoexcelcloud.py: one pass over the page-1
    LINE blocks that keeps a capture mode (`capture_next`) and an address line counter
    and fills a dictionary of twelve fields, followed by a post-pass that trims every
    field and strips the marker and boilerplate texts.

    `Step`, `ScanLines`, `Scan`, `PostPass` and `Extract` are the specification;
    `ExtractFinalInfo` is the loop itself, proved equal to `Extract`. */
module Extractor {
  import opened Wrappers
  import opened PyStr
  import opened Layout

  // ---------------------------------------------------------------------------
  // The record
  // ---------------------------------------------------------------------------

  /** The dictionary's keys, in the order the dictionary literal lists them. */
  datatype Field =
    | IssuedTo | ResponsiblePerson | Address | Street | City | State | ZipCode
    | WaiverNumber | OperationsAuthorized | WaivedRegulations | EffectiveDate | ExpireDate

  /** The key text of each field, which becomes the spreadsheet column name. */
  function Key(f: Field): string {
    match f
    case IssuedTo => "Issued To"
    case ResponsiblePerson => "Responsible Person"
    case Address => "Address"
    case Street => "Street Name and Number"
    case City => "City"
    case State => "State"
    case ZipCode => "Zip Code"
    case WaiverNumber => "Waiver Number"
    case OperationsAuthorized => "Operations Authorized"
    case WaivedRegulations => "List of Waived Regulations"
    case EffectiveDate => "Effective Date"
    case ExpireDate => "Expire Date"
  }

  /** No two fields share a dictionary key. */
  lemma KeysDistinct(f: Field, g: Field)
    ensures Key(f) == Key(g) ==> f == g
  {
  }

  /** Only this version of the extractor also accepts "Responsible Party:". */
  const PartyMarker: string := "Responsible Party:"

  /** `string_remove["location"]`: a sentence of the certificate that OCR places among the address lines. */
  const LocationBoilerplate: string := "This certificate is issued for the operations specifically described hereinafter. No person shall conduct any operation pursuant to the"

  /** What the address parts are set to when no geocoder result is available. */
  const Unknown: string := "Unknown"

  /** Address mode ends after this many lines. */
  const AddressLineLimit: nat := 3

  type Info = map<Field, string>

  /** The dictionary the loop starts from: every key present, every value "". */
  lemma InitialInfoHasKeys()
    ensures HasKeys(InitialInfo)
    ensures forall f: Field :: InitialInfo[f] == ""
  {
    forall f: Field
      ensures f in InitialInfo && InitialInfo[f] == ""
    {
      match f
      case IssuedTo =>
      case ResponsiblePerson =>
      case Address =>
      case Street =>
      case City =>
      case State =>
      case ZipCode =>
      case WaiverNumber =>
      case OperationsAuthorized =>
      case WaivedRegulations =>
      case EffectiveDate =>
      case ExpireDate =>
    }
  }

  /** `info` has an entry for every field. */
  predicate HasKeys(info: Info) {
    forall f: Field :: f in info
  }

  const InitialInfo: Info := map[IssuedTo := "", ResponsiblePerson := "", Address := "",
    Street := "", City := "", State := "", ZipCode := "", WaiverNumber := "",
    OperationsAuthorized := "", WaivedRegulations := "", EffectiveDate := "", ExpireDate := ""]

  // ---------------------------------------------------------------------------
  // Dates
  // ---------------------------------------------------------------------------

  datatype Date = Date(year: int, month: int, day: int)

  /** A date as the date parser returns it, with a four-digit year: `%Y` of glibc's
      `strftime` prints a year below 1000 without padding, which `FormatDate` does not model. */
  type ParsedDate = d: Date | 1000 <= d.year <= 9999 && 1 <= d.month <= 12 && 1 <= d.day <= 31
    witness Date(2000, 1, 1)

  /** `dateutil.parser.parse`, which lies outside the model: `None` stands for the parser raising. */
  type DateParser = string -> Option<ParsedDate>

  function Digit(n: int): char
    requires 0 <= n <= 9
  {
    ('0' as int + n) as char
  }

  /** The number written by a string of decimal digits. */
  function DecimalValue(s: string): int {
    if s == [] then 0 else DecimalValue(s[..|s| - 1]) * 10 + (s[|s| - 1] as int - '0' as int)
  }

  /** `MM/DD/YYYY` */
  predicate IsDateText(s: string) {
    |s| == 10 && s[2] == '/' && s[5] == '/'
    && forall i :: 0 <= i < 10 && i != 2 && i != 5 ==> IsDigit(s[i])
  }

  lemma DecimalValueTwo(s: string)
    requires |s| == 2
    ensures DecimalValue(s) == (s[0] as int - '0' as int) * 10 + (s[1] as int - '0' as int)
  {
    var first := s[..|s| - 1];
    assert first == [s[0]] && first[..0] == [];
    assert DecimalValue(first) == s[0] as int - '0' as int;
  }

  lemma DecimalValueFour(s: string)
    requires |s| == 4
    ensures DecimalValue(s) == (s[0] as int - '0' as int) * 1000 + (s[1] as int - '0' as int) * 100
      + (s[2] as int - '0' as int) * 10 + (s[3] as int - '0' as int)
  {
    assert s[..3][..2] == s[..2] && s[..|s| - 1] == s[..3];
    assert s[..3][..|s[..3]| - 1] == s[..2];
    DecimalValueTwo(s[..2]);
  }

  lemma YearDigits(y: int)
    requires 0 <= y <= 9999
    ensures y / 1000 * 1000 + y / 100 % 10 * 100 + y / 10 % 10 * 10 + y % 10 == y
  {
    var a, b := y / 100, y % 100;
    assert y == a * 100 + b;
    assert a == a / 10 * 10 + a % 10;
    assert y / 1000 == a / 10;
    assert y / 10 == a * 10 + b / 10;
    assert y / 10 % 10 == b / 10;
    assert y % 10 == b % 10;
  }

  /** `d.strftime('%m/%d/%Y')` */
  function FormatDate(d: ParsedDate): (r: string)
    ensures IsDateText(r)
  {
    [Digit(d.month / 10), Digit(d.month % 10), '/', Digit(d.day / 10), Digit(d.day % 10), '/',
      Digit(d.year / 1000), Digit(d.year / 100 % 10), Digit(d.year / 10 % 10), Digit(d.year % 10)]
  }

  /** Month, day and year can be read back from the formatted text. */
  lemma FormatDateReadsBack(d: ParsedDate)
    ensures var r := FormatDate(d);
      DecimalValue(r[..2]) == d.month && DecimalValue(r[3..5]) == d.day && DecimalValue(r[6..]) == d.year
  {
    var r := FormatDate(d);
    DecimalValueTwo(r[..2]);
    DecimalValueTwo(r[3..5]);
    DecimalValueFour(r[6..]);
    YearDigits(d.year);
  }

  // ---------------------------------------------------------------------------
  // The state machine
  // ---------------------------------------------------------------------------

  /** `info`, `capture_next` and `address_line_count` between two lines. */
  datatype ScanState = ScanState(info: Info, mode: Mode, addressLineCount: nat)

  const InitialState: ScanState := ScanState(InitialInfo, Idle, 0)

  /** The first marker the line holds, in the order the `elif` chain tests them;
      `PlainLine` when it holds none and falls through to the capture mode. */
  function Classify(text: string): LineKind {
    if Contains(text, IssuedToMarker) then IssuedToLine
    else if Contains(text, AddressMarker) then AddressLine
    else if Contains(text, PersonMarker) || Contains(text, PartyMarker) then PersonLine
    else if Contains(text, WaiverNumberMarker) then WaiverNumberLine
    else if Contains(text, OperationsMarker) then OperationsLine
    else if Contains(text, WaivedListMarker) then WaivedListLine
    else if Contains(Lower(text), EffectiveFromPhrase) then EffectiveFromLine
    else PlainLine
  }

  /** The three `...:` markers end in a colon, so a line that holds one can be split on ":". */
  lemma ColonInLine(text: string)
    requires Classify(text) == PersonLine || Classify(text) == WaiverNumberLine
    ensures Contains(text, ":")
  {
    if Contains(text, PersonMarker) {
      ContainsThrough(text, PersonMarker, ":", 18);
    } else if Contains(text, PartyMarker) {
      ContainsThrough(text, PartyMarker, ":", 17);
    } else {
      ContainsThrough(text, WaiverNumberMarker, ":", 13);
    }
  }

  /** The value a "Responsible Person:", "Responsible Party:" or "Waiver Number:" line sets. */
  function ColonValue(text: string): (r: string)
    requires Classify(text) == PersonLine || Classify(text) == WaiverNumberLine
    ensures IsTrimmed(r)
  {
    ColonInLine(text);
    ValueAfterColon(text)
  }

  /** The "effective from" branch: split after the exact-case phrase, then on " to ";
      with two parts, both are parsed and stored as `MM/DD/YYYY`. */
  function DatesStep(st: ScanState, text: string, parse: DateParser): (r: Result<ScanState, ExtractError>)
    requires HasKeys(st.info)
    ensures r.Success? ==> HasKeys(r.value.info)
  {
    var parts := SplitOnce(text, EffectiveFromPhrase);
    if |parts| < 2 then Failure(EffectiveFromCaseMismatch(text))
    else
      var dateParts := SplitOnce(parts[1], DateSeparator);
      if |dateParts| != 2 then Success(st)
      else
        var startText := Strip(dateParts[0]);
        match parse(startText)
        case None => Failure(UnparsableDate(startText))
        case Some(startDate) =>
          var endText := Strip(BeforeFirst(Strip(dateParts[1]), ","));
          match parse(endText)
          case None => Failure(UnparsableDate(endText))
          case Some(endDate) =>
            Success(st.(info := st.info[EffectiveDate := FormatDate(startDate)]
                                       [ExpireDate := FormatDate(endDate)]))
  }

  /** The `elif capture_next:` branch: a line with no marker goes to the current mode. */
  function Accumulate(st: ScanState, text: string): (r: ScanState)
    requires HasKeys(st.info)
    ensures HasKeys(r.info)
  {
    match st.mode
    case Idle => st
    case AddressMode =>
      var added := if st.addressLineCount < AddressLineLimit then text + " " else "";
      var info := st.info[Address := st.info[Address] + added];
      var count := st.addressLineCount + 1;
      if count == AddressLineLimit then
        // the geocoder call is disabled: `address_components` is always None
        ScanState(info[Street := Unknown][City := Unknown][State := Unknown][ZipCode := Unknown],
          Idle, count)
      else
        ScanState(info, AddressMode, count)
    case WaivedListMode =>
      ScanState(st.info[WaivedRegulations := st.info[WaivedRegulations] + text + " "],
        if Contains(text, StandardProvisionsMarker) then Idle else WaivedListMode,
        st.addressLineCount)
    case OperationsMode =>
      ScanState(st.info[OperationsAuthorized := st.info[OperationsAuthorized] + text + " "],
        if Contains(text, WaivedListMarker) then Idle else OperationsMode,
        st.addressLineCount)
    case IssuedToMode =>
      ScanState(st.info[IssuedTo := text], Idle, st.addressLineCount)
  }

  /** One page-1 LINE. */
  function Step(st: ScanState, text: string, parse: DateParser): (r: Result<ScanState, ExtractError>)
    requires HasKeys(st.info)
    ensures r.Success? ==> HasKeys(r.value.info)
  {
    match Classify(text)
    case IssuedToLine => Success(st.(mode := IssuedToMode))
    case AddressLine => Success(st.(mode := AddressMode, addressLineCount := 0))
    case PersonLine => Success(st.(info := st.info[ResponsiblePerson := ColonValue(text)]))
    case WaiverNumberLine => Success(st.(info := st.info[WaiverNumber := ColonValue(text)]))
    case OperationsLine => Success(st.(info := st.info[OperationsAuthorized := ""], mode := OperationsMode))
    case WaivedListLine => Success(st.(info := st.info[WaivedRegulations := ""], mode := WaivedListMode))
    case EffectiveFromLine => DatesStep(st, text, parse)
    case PlainLine => Success(Accumulate(st, text))
  }

  /** The loop over the lines that pass the page-1 LINE filter. */
  function ScanLines(lines: seq<string>, parse: DateParser): (r: Result<ScanState, ExtractError>)
    ensures r.Success? ==> HasKeys(r.value.info)
  {
    if lines == [] then InitialInfoHasKeys(); Success(InitialState)
    else
      match ScanLines(lines[..|lines| - 1], parse)
      case Failure(e) => Failure(e)
      case Success(st) => Step(st, lines[|lines| - 1], parse)
  }

  /** The loop over all blocks, filter included. */
  function Scan(blocks: seq<Block>, parse: DateParser): (r: Result<ScanState, ExtractError>)
    ensures r.Success? ==> HasKeys(r.value.info)
  {
    if blocks == [] then InitialInfoHasKeys(); Success(InitialState)
    else
      var last := blocks[|blocks| - 1];
      match Scan(blocks[..|blocks| - 1], parse)
      case Failure(e) => Failure(e)
      case Success(st) => if IsPageOneLine(last) then Step(st, last.text, parse) else Success(st)
  }

  // ---------------------------------------------------------------------------
  // The post-pass
  // ---------------------------------------------------------------------------

  /** What the post-pass leaves of one field: the value trimmed, then for three fields a
      marker or boilerplate text stripped. */
  function FinalValue(f: Field, raw: string): (r: string)
    ensures IsTrimmed(r)
  {
    match f
    case WaivedRegulations => RemoveMarker(Strip(raw), StandardProvisionsMarker)
    case OperationsAuthorized => RemoveMarker(Strip(raw), WaivedListMarker)
    case Address => RemoveMarker(Strip(raw), LocationBoilerplate)
    case _ => Strip(raw)
  }

  lemma FinalValueRemovesProvisions(raw: string)
    ensures FinalValue(WaivedRegulations, raw) == RemoveMarker(Strip(raw), StandardProvisionsMarker)
  {
  }

  lemma FinalValueRemovesWaivedList(raw: string)
    ensures FinalValue(OperationsAuthorized, raw) == RemoveMarker(Strip(raw), WaivedListMarker)
  {
  }

  lemma FinalValueRemovesBoilerplate(raw: string)
    ensures FinalValue(Address, raw) == RemoveMarker(Strip(raw), LocationBoilerplate)
  {
  }

  /** Outside the three fields with a marker, the post-pass only trims. */
  lemma FinalValueTrims(f: Field, raw: string)
    requires f != WaivedRegulations && f != OperationsAuthorized && f != Address
    ensures FinalValue(f, raw) == Strip(raw)
  {
  }

  /** The post-pass: the loop that strips every field, then the three removals. Each removal
      reads and writes its own field only. */
  function PostPass(info: Info): (r: Info)
    requires HasKeys(info)
    ensures HasKeys(r)
    ensures forall k :: k in r ==> IsTrimmed(r[k])
  {
    map k | k in info :: FinalValue(k, info[k])
  }

  /** `extract_final_info(blocks)`: the twelve fields, each trimmed, or the error raised. */
  function Extract(blocks: seq<Block>, parse: DateParser): (r: Result<Info, ExtractError>)
    ensures r.Success? ==> HasKeys(r.value) && forall k :: k in r.value ==> IsTrimmed(r.value[k])
  {
    match Scan(blocks, parse)
    case Failure(e) => Failure(e)
    case Success(st) => Success(PostPass(st.info))
  }

  // ---------------------------------------------------------------------------
  // The loop as the source writes it
  // ---------------------------------------------------------------------------

  /** The post-pass as the source writes it: every field trimmed in place, then the three
      removals. */
  method FinishFields(scanned: Info) returns (info: Info)
    requires HasKeys(scanned)
    ensures info == PostPass(scanned)
  {
    info := StripFields(scanned);
    info := RemoveFrom(info, WaivedRegulations, StandardProvisionsMarker);
    info := RemoveFrom(info, OperationsAuthorized, WaivedListMarker);
    info := RemoveFrom(info, Address, LocationBoilerplate);
    PostPassRemovesInTurn(scanned);
  }

  /** The post-pass, written as the source does it: trim all, then three removals in turn. */
  lemma PostPassRemovesInTurn(info: Info)
    requires HasKeys(info)
    ensures var t := StripAll(info);
      PostPass(info) == t[WaivedRegulations := RemoveMarker(t[WaivedRegulations], StandardProvisionsMarker)]
        [OperationsAuthorized := RemoveMarker(t[OperationsAuthorized], WaivedListMarker)]
        [Address := RemoveMarker(t[Address], LocationBoilerplate)]
  {
    var t := StripAll(info);
    var p := PostPass(info);
    var waived := RemoveMarker(t[WaivedRegulations], StandardProvisionsMarker);
    var operations := RemoveMarker(t[OperationsAuthorized], WaivedListMarker);
    var address := RemoveMarker(t[Address], LocationBoilerplate);
    FinalValueRemovesProvisions(info[WaivedRegulations]);
    FinalValueRemovesWaivedList(info[OperationsAuthorized]);
    FinalValueRemovesBoilerplate(info[Address]);
    forall k | k != WaivedRegulations && k != OperationsAuthorized && k != Address
      ensures p[k] == t[k]
    {
      assert p[k] == FinalValue(k, info[k]);
      FinalValueTrims(k, info[k]);
    }
    AgreeOutsideThree(p, t, waived, operations, address);
  }

  /** Two records that agree on all but three fields differ by three updates. */
  lemma AgreeOutsideThree(p: Info, t: Info, waived: string, operations: string, address: string)
    requires HasKeys(p) && HasKeys(t)
    requires p[WaivedRegulations] == waived && p[OperationsAuthorized] == operations && p[Address] == address
    requires forall k :: k != WaivedRegulations && k != OperationsAuthorized && k != Address ==> p[k] == t[k]
    ensures p == t[WaivedRegulations := waived][OperationsAuthorized := operations][Address := address]
  {
    var u := t[WaivedRegulations := waived][OperationsAuthorized := operations][Address := address];
    assert p.Keys == u.Keys;
  }

  lemma {:induction false} ScanFailurePersists(blocks: seq<Block>, i: nat, parse: DateParser)
    requires i <= |blocks| && Scan(blocks[..i], parse).Failure?
    ensures Scan(blocks, parse) == Scan(blocks[..i], parse)
    decreases |blocks| - i
  {
    if i < |blocks| {
      assert blocks[..i + 1][..i] == blocks[..i];
      ScanFailurePersists(blocks, i + 1, parse);
    } else {
      assert blocks[..i] == blocks;
    }
  }

  /** `extract_final_info(blocks)`: the loop over the blocks, then the post-pass. A line
      that makes the source raise ends the call with that error. */
  method ExtractFinalInfo(blocks: seq<Block>, parseDate: DateParser)
    returns (r: Result<Info, ExtractError>)
    ensures r == Extract(blocks, parseDate)
  {
    var info: Info := InitialInfo;
    var captureNext: Mode := Idle;
    var addressLineCount: nat := 0;
    InitialInfoHasKeys();

    for i := 0 to |blocks|
      invariant HasKeys(info)
      invariant Scan(blocks[..i], parseDate) == Success(ScanState(info, captureNext, addressLineCount))
    {
      assert blocks[..i + 1][..i] == blocks[..i];
      var block := blocks[i];
      if block.blockType == "LINE" && block.page == 1 {
        var outcome := ProcessLine(ScanState(info, captureNext, addressLineCount), block.text, parseDate);
        if outcome.Failure? {
          r := Failure(outcome.error);
          ScanFailurePersists(blocks, i + 1, parseDate);
          return;
        }
        info, captureNext, addressLineCount := outcome.value.info, outcome.value.mode, outcome.value.addressLineCount;
      }
    }
    assert blocks[..|blocks|] == blocks;

    info := FinishFields(info);
    r := Success(info);
  }

  /** The body of the loop for one page-1 LINE: the `elif` chain over the markers. */
  method ProcessLine(st: ScanState, text: string, parseDate: DateParser)
    returns (r: Result<ScanState, ExtractError>)
    requires HasKeys(st.info)
    ensures r == Step(st, text, parseDate)
  {
    var info, captureNext, addressLineCount := st.info, st.mode, st.addressLineCount;
    if Contains(text, IssuedToMarker) {
      captureNext := IssuedToMode;
      assert Classify(text) == IssuedToLine;
      assert Step(st, text, parseDate) == Success(ScanState(info, captureNext, addressLineCount));
    } else if Contains(text, AddressMarker) {
      captureNext := AddressMode;
      addressLineCount := 0;
      assert Classify(text) == AddressLine;
      assert Step(st, text, parseDate) == Success(ScanState(info, captureNext, addressLineCount));
    } else if Contains(text, PersonMarker) {
      info := info[ResponsiblePerson := ColonValue(text)];
      assert Classify(text) == PersonLine;
      assert Step(st, text, parseDate) == Success(ScanState(info, captureNext, addressLineCount));
    } else if Contains(text, PartyMarker) {
      info := info[ResponsiblePerson := ColonValue(text)];
      assert Classify(text) == PersonLine;
      assert Step(st, text, parseDate) == Success(ScanState(info, captureNext, addressLineCount));
    } else if Contains(text, WaiverNumberMarker) {
      info := info[WaiverNumber := ColonValue(text)];
      assert Classify(text) == WaiverNumberLine;
      assert Step(st, text, parseDate) == Success(ScanState(info, captureNext, addressLineCount));
    } else if Contains(text, OperationsMarker) {
      captureNext := OperationsMode;
      info := info[OperationsAuthorized := ""];
      assert Classify(text) == OperationsLine;
      assert Step(st, text, parseDate) == Success(ScanState(info, captureNext, addressLineCount));
    } else if Contains(text, WaivedListMarker) {
      captureNext := WaivedListMode;
      info := info[WaivedRegulations := ""];
      assert Classify(text) == WaivedListLine;
      assert Step(st, text, parseDate) == Success(ScanState(info, captureNext, addressLineCount));
    } else if Contains(Lower(text), EffectiveFromPhrase) {
      assert Classify(text) == EffectiveFromLine;
      r := ParseDates(st, text, parseDate);
      return;
    } else if captureNext != Idle {
      assert Classify(text) == PlainLine;
      r := CaptureLine(st, text);
      return;
    } else {
      assert Classify(text) == PlainLine;
      assert Step(st, text, parseDate) == Success(ScanState(info, captureNext, addressLineCount));
    }
    r := Success(ScanState(info, captureNext, addressLineCount));
  }

  /** The "effective from" branch. */
  method ParseDates(st: ScanState, text: string, parseDate: DateParser)
    returns (r: Result<ScanState, ExtractError>)
    requires HasKeys(st.info)
    ensures r == DatesStep(st, text, parseDate)
  {
    var parts := SplitOnce(text, EffectiveFromPhrase);
    if |parts| < 2 {
      // `split("effective from", 1)[1]` raises IndexError
      return Failure(EffectiveFromCaseMismatch(text));
    }
    var info := st.info;
    var dateParts := SplitOnce(parts[1], DateSeparator);
    if |dateParts| == 2 {
      var startText := Strip(dateParts[0]);
      var startDate := parseDate(startText);
      if startDate.None? {
        return Failure(UnparsableDate(startText));
      }
      var endText := Strip(BeforeFirst(Strip(dateParts[1]), ","));
      var endDate := parseDate(endText);
      if endDate.None? {
        return Failure(UnparsableDate(endText));
      }
      info := info[EffectiveDate := FormatDate(startDate.value)];
      info := info[ExpireDate := FormatDate(endDate.value)];
    }
    r := Success(st.(info := info));
  }

  /** The `elif capture_next:` branch, for a line with no marker while a mode is active. */
  method CaptureLine(st: ScanState, text: string) returns (r: Result<ScanState, ExtractError>)
    requires HasKeys(st.info) && st.mode != Idle
    ensures r == Success(Accumulate(st, text))
  {
    var info, captureNext, addressLineCount := st.info, st.mode, st.addressLineCount;
    if captureNext == AddressMode {
      info := info[Address := info[Address] + (if addressLineCount < AddressLineLimit then text + " " else "")];
      addressLineCount := addressLineCount + 1;
      if addressLineCount == AddressLineLimit {
        // the geocoder call is disabled: `address_components` is always None
        captureNext := Idle;
        info := info[Street := Unknown][City := Unknown][State := Unknown][ZipCode := Unknown];
      }
    } else if captureNext == WaivedListMode {
      info := info[WaivedRegulations := info[WaivedRegulations] + text + " "];
      if Contains(text, StandardProvisionsMarker) {
        captureNext := Idle;
      }
    } else if captureNext == OperationsMode {
      info := info[OperationsAuthorized := info[OperationsAuthorized] + text + " "];
      if Contains(text, WaivedListMarker) {
        captureNext := Idle;
      }
    } else {
      info := info[IssuedTo := text];
      captureNext := Idle;
    }
    r := Success(ScanState(info, captureNext, addressLineCount));
  }

}
