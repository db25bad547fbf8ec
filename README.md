# Waiver certificate extraction, modelled in Dafny

This project models the text logic at the centre of a pipeline that reads scanned FAA
Part 107 waiver certificates. The pipeline takes the OCR blocks of one certificate and:

- keeps the LINE blocks of page 1;
- walks them once with a small state machine, looking for substring markers ("ISSUED TO",
  "ADDRESS", "Responsible Person:", "Waiver Number:", "OPERATIONS AUTHORIZED",
  "LIST OF WAIVED REGULATIONS BY SECTION AND TITLE", "effective from");
- fills a record of fields from what follows each marker;
- trims the fields and strips leftover markers and a boilerplate sentence in a post-pass.

Two helpers sit beside it: a matcher that flags which of ten regulation codes a text cites,
and a lookup from two-letter state codes to state names.

Both versions of `extract_final_info` are modelled in their imperative form. `info`,
`capture_next` and `address_line_count` are local variables of a `for` loop over the
blocks, as in the source. Each loop is proved equal to a specification written as
functions: `Step` takes one line, `ScanLines` and `Scan` fold it over the lines, `PostPass`
is the final clean-up, and `Extract` puts them together. The properties are lemmas about
those functions.

| file | module | models |
|---|---|---|
| `wrappers.dfy` | `Wrappers` | `Option` and `Result` |
| `pystr.dfy` | `PyStr` | the `str` built-ins the code uses: `strip()`, `find`, `in`, `split(sep, 1)`, `replace`, `lower()`, `upper()` |
| `layout.dfy` | `Layout` | what both extractors share: OCR blocks, the page-1 filter, line kinds, capture modes, markers, the strip loop and the marker removal |
| `extractor.dfy`, `extractor_properties.dfy` | `Extractor`, `ExtractorProperties` | `extract_final_info` of `project_files/jsontoexcelcloud.py` |
| `legacy_extractor.dfy`, `legacy_extractor_properties.dfy` | `LegacyExtractor`, `LegacyExtractorProperties` | the older `extract_final_info` of `jsontoexcelcloud.py` |
| `waiver_codes.dfy`, `waiver_codes_properties.dfy` | `WaiverCodes`, `WaiverCodeProperties` | `waiver_codes` and `check_waiver_codes` of `project_files/utils/module.py` |
| `state_codes.dfy` | `StateCodes` | `state_mapping` and `convert_state_code_to_name` of the same file |

How the model represents the source:

- **The record.** `info` is a `map<Field, string>`, with one `Field` constructor per
  dictionary key. `Key` gives the key text. Both versions keep every key present
  (`HasKeys`).
- **Errors.** A line that makes the source raise ends the run with a `Failure`:
  - `EffectiveFromCaseMismatch` is the `IndexError` of `split("effective from", 1)[1]`,
    raised when the phrase occurs only in another case, such as "Effective From";
  - `UnparsableDate` is raised by the date parser.
- **The date parser.** `dateutil.parser.parse` is a parameter of type
  `string -> Option<ParsedDate>`, where `None` means the parser raises.
  `strftime('%m/%d/%Y')` is `FormatDate`.
- **No geocoding.** `address_components` is always `None`: the geocoder call is commented
  out. So when an address ends, the four address parts become "Unknown".

Behaviour of the code that the model reproduces:

- Matching is case-sensitive. Neither regular expression is compiled with
  `re.IGNORECASE` (`project_files/utils/module.py:60`, `:62`).
- A bare "107.51" sets neither 107.51 column. `(107|07)\.51\((b|c|d)\)` needs the
  parenthesised letter (`project_files/utils/module.py:60`), and the (a) pattern needs "(a)".
- Address lines are joined by appending `text + " "`
  (`project_files/jsontoexcelcloud.py:81`). Nothing splits the address into parts:
  `address_components = None` (`:85`), so the parts become "Unknown".
- Nothing checks for an empty `blocks`. An empty list gives the initial record, with every
  field "".
- A dates line can raise in two ways:
  - `text.split("effective from", 1)[1]` raises IndexError when the phrase occurs only in
    another case (`project_files/jsontoexcelcloud.py:72`);
  - `parser.parse` raises on a text it cannot read (`:74-75`).
- The end date is cut at its first comma before parsing (`:75`). "May 31, 2024." reaches
  the parser as "May 31", without its year.

## Model

| member | source | states |
|---|---|---|
| Layout.PageOneLines | project_files/jsontoexcelcloud.py:50-52 | the texts of the page-1 LINE blocks, in order, never more than the blocks |
| Layout.IsPageOneLine | project_files/jsontoexcelcloud.py:51 | the definition is the model: a block of type "LINE" on page 1 |
| Layout.PageOneLinesAppend | project_files/jsontoexcelcloud.py:50-51 | the page-1 filter distributes over concatenation of block lists |
| Layout.DropOtherBlock | project_files/jsontoexcelcloud.py:51 | removing a block that is not a page-1 LINE leaves the filtered lines unchanged |
| Layout.ValueAfterColon | project_files/jsontoexcelcloud.py:60 | `text.split(":", 1)[1].strip()` is trimmed |
| Layout.ValueAfterFirstColon | project_files/jsontoexcelcloud.py:60 | the value is the text after the first ':' of the line, trimmed |
| Layout.StripFields | project_files/jsontoexcelcloud.py:114-115 | the strip loop leaves every key, each value trimmed, whatever order the keys are visited in |
| Layout.StripAll | project_files/jsontoexcelcloud.py:114-115 | the definition is the model: every key kept, each value stripped |
| Layout.RemoveMarker | project_files/jsontoexcelcloud.py:118-120 | a value without the marker is unchanged; a trimmed value stays trimmed |
| Layout.RemoveFrom | project_files/jsontoexcelcloud.py:123-125 | the removal rewrites one field of the record and no other |
| Extractor.Scan | project_files/jsontoexcelcloud.py:50-112 | every successful scan state has all twelve keys |
| Extractor.InitialInfoHasKeys | project_files/jsontoexcelcloud.py:32-45 | the dictionary the loop starts from has all twelve keys, each holding "" |
| Extractor.KeysDistinct | project_files/jsontoexcelcloud.py:32-45 | the twelve fields are twelve distinct dictionary keys |
| Extractor.Classify | project_files/jsontoexcelcloud.py:54-71 | the definition is the model: the first marker the line holds in the `elif` order (issued-to, address, person or party, waiver number, operations, waived list), then "effective from" in the lower-cased line, else a plain line |
| Extractor.Step | project_files/jsontoexcelcloud.py:54-112 | a successful step keeps all twelve keys; the definition is the model: one pass of the `elif` chain, dispatching on `Classify` |
| Extractor.DatesStep | project_files/jsontoexcelcloud.py:71-77 | a successful dates step keeps all twelve keys; the definition is the model (what it stores is `DatesStored`) |
| Extractor.Accumulate | project_files/jsontoexcelcloud.py:79-112 | the capture branch keeps all twelve keys; the definition is the model of the four capture modes |
| Extractor.ScanLines | project_files/jsontoexcelcloud.py:50-112 | every successful scan of a line list keeps all twelve keys; the definition folds `Step` over the lines and stops at the first raise |
| Extractor.FinalValue | project_files/jsontoexcelcloud.py:114-130 | every final value is trimmed; the definition strips, then removes the field's marker or boilerplate |
| Extractor.PostPass | project_files/jsontoexcelcloud.py:114-130 | the post-pass keeps all twelve keys and leaves every value trimmed |
| Extractor.Extract | project_files/jsontoexcelcloud.py:31-132 | on success, the output has all twelve keys and every value is trimmed |
| Extractor.ExtractFinalInfo | project_files/jsontoexcelcloud.py:31-132 | the loop over the blocks followed by the post-pass returns exactly `Extract(blocks)`, including the error a line raises |
| Extractor.ProcessLine | project_files/jsontoexcelcloud.py:54-112 | the `elif` chain for one line computes exactly `Step` |
| Extractor.ParseDates | project_files/jsontoexcelcloud.py:71-77 | the "effective from" branch computes exactly `DatesStep`: IndexError on a case mismatch, the parser's failure, or both dates set |
| Extractor.CaptureLine | project_files/jsontoexcelcloud.py:79-112 | the `elif capture_next:` branch computes exactly `Accumulate` |
| Extractor.FinishFields | project_files/jsontoexcelcloud.py:114-130 | the strip loop and the three removals compute exactly `PostPass` |
| Extractor.PostPassRemovesInTurn | project_files/jsontoexcelcloud.py:114-130 | `PostPass` equals trimming every field and then the three removals, one after another |
| Extractor.FinalValueTrims | project_files/jsontoexcelcloud.py:114-115 | outside the three fields with a marker, the post-pass only trims |
| Extractor.FormatDate | project_files/jsontoexcelcloud.py:76-77 | `strftime('%m/%d/%Y')` gives ten characters `MM/DD/YYYY` |
| Extractor.FormatDateReadsBack | project_files/jsontoexcelcloud.py:76-77 | month, day and year can be read back from the formatted text |
| Extractor.ColonValue | project_files/jsontoexcelcloud.py:59-64 | a person, party or waiver-number line yields a trimmed value |
| Extractor.ScanFailurePersists | project_files/jsontoexcelcloud.py:50-72 | once a line raises, the rest of the blocks cannot change the outcome |
| ExtractorProperties.ScanReadsPageOneLines | project_files/jsontoexcelcloud.py:50-52 | the loop over all blocks equals the loop over the page-1 LINE texts |
| ExtractorProperties.OutputOfLines | project_files/jsontoexcelcloud.py:50-132 | the output is the post-pass applied to the scan of the page-1 lines |
| ExtractorProperties.SameLinesSameOutput | project_files/jsontoexcelcloud.py:51 | two block lists with the same page-1 LINE texts give the same output |
| ExtractorProperties.DroppingOtherBlockKeepsOutput | project_files/jsontoexcelcloud.py:51 | removing any block that is not a page-1 LINE leaves the output unchanged |
| ExtractorProperties.DatesStepFrame | project_files/jsontoexcelcloud.py:71-77 | the dates branch keeps mode, counter and every other field, and sets both dates as `MM/DD/YYYY` or neither |
| ExtractorProperties.MarkerLineNotAccumulated | project_files/jsontoexcelcloud.py:54-77 | a line holding a marker is never appended to the address, the issued-to text or the two lists |
| ExtractorProperties.FieldLineKeepsMode | project_files/jsontoexcelcloud.py:59-77 | a person, party, waiver-number or dates line leaves the capture mode and the counter as they were |
| ExtractorProperties.OperationsTriggerResets | project_files/jsontoexcelcloud.py:65-67 | "OPERATIONS AUTHORIZED" resets its field to "" and enters operations mode |
| ExtractorProperties.WaivedListTriggerResets | project_files/jsontoexcelcloud.py:68-70 | the waived-list heading resets its field to "" and enters waived-list mode |
| ExtractorProperties.WaivedListAppendsUntilProvisions | project_files/jsontoexcelcloud.py:98-103 | in waived-list mode a line is appended with a space, and the mode ends exactly when the line holds "STANDARD PROVISIONS" |
| ExtractorProperties.OperationsNeverEndsIdle | project_files/jsontoexcelcloud.py:68-109 | operations mode never ends in the idle state: the waived-list heading is taken by its trigger before the exit test |
| ExtractorProperties.MarkerStepKeepsCapturing | project_files/jsontoexcelcloud.py:54-70 | no marker line clears an active capture mode |
| ExtractorProperties.EffectiveFromMismatchRaises | project_files/jsontoexcelcloud.py:71-72 | a dates line raises IndexError if and only if the exact-case phrase is missing |
| ExtractorProperties.DatesNeedTwoParts | project_files/jsontoexcelcloud.py:72-73 | without " to " after the phrase, the line changes nothing |
| ExtractorProperties.DatesSetTogether | project_files/jsontoexcelcloud.py:71-77 | the two dates keep their values or are both set to `MM/DD/YYYY`, and nothing else changes |
| ExtractorProperties.DatesStored | project_files/jsontoexcelcloud.py:72-77 | the start date is the parse of the trimmed text before the first " to ", the end date the parse of the trimmed rest cut at its first comma, both as `MM/DD/YYYY`; either rejected text is the error |
| ExtractorProperties.EndDateCutAtComma | project_files/jsontoexcelcloud.py:75 | the end text the parser receives is what precedes the first comma of the end part |
| ExtractorProperties.EndDateExample | project_files/jsontoexcelcloud.py:75 | "May 31, 2024." reaches the parser as "May 31", without its year |
| ExtractorProperties.WaiverNumberExample | project_files/jsontoexcelcloud.py:63-64 | "Waiver Number: 107W-2020-01234" sets the waiver number to "107W-2020-01234" and nothing else |
| ExtractorProperties.WaiverNumberExampleValue | project_files/jsontoexcelcloud.py:63-64 | that line is a waiver-number line, and its value drops the leading space |
| ExtractorProperties.ColonValueAt | project_files/jsontoexcelcloud.py:59-64 | the value is the trimmed text after the first ':' of the line |
| ExtractorProperties.ColonLineSets | project_files/jsontoexcelcloud.py:59-64 | a person, party or waiver-number line stores its value in its field and nothing else |
| ExtractorProperties.StepKeepsColonField | project_files/jsontoexcelcloud.py:54-112 | no other kind of line changes the responsible person or the waiver number |
| ExtractorProperties.LastColonLineWins | project_files/jsontoexcelcloud.py:50-64 | the last line that writes the responsible person or the waiver number decides its value |
| ExtractorProperties.LastColonLineInOutput | project_files/jsontoexcelcloud.py:50-115 | the same holds in the final output |
| ExtractorProperties.IssuedToCapture | project_files/jsontoexcelcloud.py:54-112 | after "ISSUED TO", the next line without a marker becomes the value verbatim and the mode clears |
| ExtractorProperties.AddressTriggerKeepsText | project_files/jsontoexcelcloud.py:56-58 | re-entering the address section resets only the counter; the text kept so far stays |
| ExtractorProperties.AddressLineAppended | project_files/jsontoexcelcloud.py:80-82 | before the limit, a plain line is appended to the address with a space |
| ExtractorProperties.AddressLastLine | project_files/jsontoexcelcloud.py:80-96 | the third line is appended, the section ends, and the four address parts become "Unknown" |
| ExtractorProperties.AddressThreeLines | project_files/jsontoexcelcloud.py:56-96 | "ADDRESS" and three plain lines give the three lines joined with spaces, "Unknown" parts and idle mode |
| ExtractorProperties.StepPreservesReachable | project_files/jsontoexcelcloud.py:54-112 | one line keeps the scan invariant: the counter stays at most 3 (below 3 in address mode), the four parts are all "" or all "Unknown", and the dates are both blank or both `MM/DD/YYYY` |
| ExtractorProperties.ScanLinesReachable | project_files/jsontoexcelcloud.py:50-112 | every successful scan keeps that invariant |
| ExtractorProperties.AddressModeAppends | project_files/jsontoexcelcloud.py:81 | in address mode the line is always appended: the `else ""` is dead code |
| ExtractorProperties.OutputAddressPartsAndDates | project_files/jsontoexcelcloud.py:32-115 | in the output, the four address parts are equal and "" or "Unknown", and the dates are both "" or both `MM/DD/YYYY` |
| ExtractorProperties.DateTextTrimmed | project_files/jsontoexcelcloud.py:76-115 | a formatted date survives the strip loop unchanged |
| ExtractorProperties.RemoveMarkerCuts | project_files/jsontoexcelcloud.py:118-130 | the removal cuts the value at the first occurrence of the marker and treats the rest in the same way |
| ExtractorProperties.WaivedListDropsProvisions | project_files/jsontoexcelcloud.py:117-120 | a waived list ending with "STANDARD PROVISIONS" loses that marker in the output |
| LegacyExtractor.Extract | jsontoexcelcloud.py:23-94 | on success, the output has all seven keys and every value is trimmed |
| LegacyExtractor.Scan | jsontoexcelcloud.py:37-81 | every successful scan of the blocks keeps all seven keys; the definition folds `Step` over the page-1 LINE blocks and stops at the first raise |
| LegacyExtractor.InitialInfoHasKeys | jsontoexcelcloud.py:24-32 | the dictionary the loop starts from has all seven keys, each holding "" |
| LegacyExtractor.KeysDistinct | jsontoexcelcloud.py:24-32 | the seven fields are seven distinct dictionary keys |
| LegacyExtractor.Classify | jsontoexcelcloud.py:41-56 | the definition is the model: the legacy `elif` order, without "Responsible Party:" |
| LegacyExtractor.Step | jsontoexcelcloud.py:41-81 | a successful step keeps all seven keys; the definition is the model of one pass of the `elif` chain |
| LegacyExtractor.DatesStep | jsontoexcelcloud.py:56-59 | a successful dates step keeps all seven keys; what it stores is `DateRangeStored` |
| LegacyExtractor.Accumulate | jsontoexcelcloud.py:61-81 | the capture branch keeps all seven keys; the definition is the model of the four capture modes |
| LegacyExtractor.ScanLines | jsontoexcelcloud.py:37-81 | every successful scan of a line list keeps all seven keys |
| LegacyExtractor.FinalValue | jsontoexcelcloud.py:83-92 | every final value is trimmed; the definition strips, then removes the marker of the two list fields |
| LegacyExtractor.PostPass | jsontoexcelcloud.py:83-92 | the post-pass keeps all seven keys and leaves every value trimmed |
| LegacyExtractor.ExtractFinalInfo | jsontoexcelcloud.py:23-94 | the loop and the post-pass return exactly `Extract(blocks)`, including the IndexError |
| LegacyExtractor.ProcessLine | jsontoexcelcloud.py:41-81 | the `elif` chain for one line computes exactly `Step` |
| LegacyExtractor.ParseDateRange | jsontoexcelcloud.py:56-59 | the "effective from" branch computes exactly `DatesStep` |
| LegacyExtractor.CaptureLine | jsontoexcelcloud.py:61-81 | the `elif capture_next:` branch computes exactly `Accumulate` |
| LegacyExtractor.FinishFields | jsontoexcelcloud.py:83-92 | the strip loop and the two removals compute exactly `PostPass` |
| LegacyExtractor.PostPassRemovesInTurn | jsontoexcelcloud.py:83-92 | `PostPass` equals trimming every field and then the two removals in turn |
| LegacyExtractor.FinalValueTrims | jsontoexcelcloud.py:83-84 | outside the two lists, the address included, the post-pass only trims |
| LegacyExtractor.ColonValue | jsontoexcelcloud.py:46-49 | a person or waiver-number line yields a trimmed value |
| LegacyExtractor.ScanFailurePersists | jsontoexcelcloud.py:37-59 | once a line raises, the rest of the blocks cannot change the outcome |
| LegacyExtractorProperties.ScanReadsPageOneLines | jsontoexcelcloud.py:37-39 | the loop over all blocks equals the loop over the page-1 LINE texts |
| LegacyExtractorProperties.ClassifyAcrossVersions | jsontoexcelcloud.py:41-56 | the two versions classify a line differently exactly when the later one takes it as a person line without "Responsible Person:", which needs "Responsible Party:" |
| LegacyExtractorProperties.StepKeepsPerson | jsontoexcelcloud.py:41-81 | only a "Responsible Person:" line writes the responsible person |
| LegacyExtractorProperties.PartyLineIgnored | jsontoexcelcloud.py:46-47 | a "Responsible Party:" line without the person marker leaves the responsible person as it was |
| LegacyExtractorProperties.ColonValueAcrossVersions | jsontoexcelcloud.py:46-49 | a person or waiver-number line classified alike by both versions stores the same value in both |
| LegacyExtractorProperties.DatesStepFrame | jsontoexcelcloud.py:56-59 | the dates branch writes the date range or nothing and keeps mode, counter and every other field |
| LegacyExtractorProperties.EffectiveFromMismatchRaises | jsontoexcelcloud.py:56-57 | a dates line raises IndexError if and only if the exact-case phrase is missing, and that is the only failure |
| LegacyExtractorProperties.DateRangeStored | jsontoexcelcloud.py:57-59 | the range is the trimmed text between the phrase and the first " to ", then " to ", then the trimmed rest |
| LegacyExtractorProperties.DateRangeNeedsTwoParts | jsontoexcelcloud.py:57-58 | without " to " after the phrase, the line changes nothing |
| LegacyExtractorProperties.DateRangeExample | jsontoexcelcloud.py:57-59 | "…effective from A to B", where A has no " to ", stores A and B trimmed, joined by " to " |
| PyStr.SplitAtFirst | jsontoexcelcloud.py:57 | `split(sep, 1)` of `a + sep + b`, with no earlier occurrence, gives `a` and `b` |
| LegacyExtractorProperties.IssuedToCapture | jsontoexcelcloud.py:41-81 | after "ISSUED TO", the next plain line becomes the value verbatim and the mode clears |
| LegacyExtractorProperties.ListTriggersReset | jsontoexcelcloud.py:50-55 | the two list headings reset their field to "" and enter their mode |
| LegacyExtractorProperties.WaivedListAppendsUntilProvisions | jsontoexcelcloud.py:67-72 | in waived-list mode a line is appended with a space, and the mode ends exactly at "STANDARD PROVISIONS" |
| LegacyExtractorProperties.AddressTwoLines | jsontoexcelcloud.py:43-66 | "ADDRESS" and two plain lines append both with spaces and end the section, so a third plain line is not taken |
| LegacyExtractorProperties.StepPreservesReachable | jsontoexcelcloud.py:41-81 | one line keeps the counter at most 2, and below 2 in address mode |
| LegacyExtractorProperties.ScanLinesReachable | jsontoexcelcloud.py:37-81 | every successful scan keeps that invariant |
| LegacyExtractorProperties.AddressModeAppends | jsontoexcelcloud.py:63 | in address mode the line is always appended: the `else ""` is dead code |
| LegacyExtractorProperties.OutputOfLines | jsontoexcelcloud.py:37-94 | the output is the post-pass applied to the scan of the page-1 lines |
| LegacyExtractorProperties.OutputAddressTrimmed | jsontoexcelcloud.py:62-84 | the output address is the scanned address text, only trimmed: no boilerplate is removed in this version |
| LegacyExtractorProperties.ProvisionsMarkerDropped | jsontoexcelcloud.py:86-88 | a waived list ending with "STANDARD PROVISIONS" loses that marker in the output |
| WaiverCodes.Flag | project_files/utils/module.py:63-64 | the definition is the model: `"+"` if `pattern.search(entry)` succeeds, else `""` |
| WaiverCodes.PatternOf | project_files/utils/module.py:59-62 | the definition is the model: the special (b, c, d) pattern for "107.51", the digit-bounded pattern on `code[4:]` otherwise |
| WaiverCodes.Tail | project_files/utils/module.py:62 | the definition is the model: `code[4:]`, the code without its "107." |
| WaiverCodes.MatchesAt | project_files/utils/module.py:60-62 | the definition is the model: the alternation "107" or "07", with the lookbehind and lookahead for a digit, or the parenthesised b, c or d |
| WaiverCodes.Search | project_files/utils/module.py:63 | the definition is the model: `pattern.search` succeeds when the pattern matches at some index |
| WaiverCodes.FlagColumns | project_files/utils/module.py:57-65 | the loop gives exactly the table's columns, each holding the flag of its code |
| WaiverCodes.CheckWaiverCodes | project_files/utils/module.py:42-65 | the result has exactly the ten column names as keys, each holding the flag of its code |
| WaiverCodes.ColumnsDistinct | project_files/utils/module.py:42-53 | no two codes flag the same column |
| WaiverCodeProperties.CitationFound | project_files/utils/module.py:61-64 | a code other than 107.51, with no digit right before or after it, sets its column |
| WaiverCodeProperties.DroppedOneFound | project_files/utils/module.py:61-64 | so does the code with its leading "1" lost ("07.29") |
| WaiverCodeProperties.MatchHasDigitBoundaries | project_files/utils/module.py:61-62 | every match is the code, or the code without its "1", with no digit before or after it |
| WaiverCodeProperties.TrailingDigitNotFound | project_files/utils/module.py:62 | "107.290" does not cite 107.29 |
| WaiverCodeProperties.LimitationsNeedSuffix | project_files/utils/module.py:59-60 | the (b, c, d) pattern matches if and only if "07.51(" followed by b, c or d and ")" occurs |
| WaiverCodeProperties.LimitationsAFound | project_files/utils/module.py:49-62 | the (a) pattern matches only where "07.51(" goes on with "a" |
| WaiverCodeProperties.BareCodeSetsNeither | project_files/utils/module.py:49-62 | a text with no "07.51(" sets neither 107.51 column, so a bare "107.51" sets neither |
| WaiverCodeProperties.OtherLetterNotBcd | project_files/utils/module.py:59-60 | where every "07.51(" goes on with a letter other than b, c or d, the (b, c, d) column stays "" |
| WaiverCodeProperties.NoANotLimitationsA | project_files/utils/module.py:49-62 | where no "07.51(" goes on with "a", the (a) column stays "" |
| WaiverCodeProperties.LimitationsAExample | project_files/utils/module.py:49-62 | "107.51(a)" sets the (a) column and not the (b, c, d) one |
| WaiverCodeProperties.LimitationsBExample | project_files/utils/module.py:49-62 | "107.51(b)" sets the (b, c, d) column and not the (a) one |
| WaiverCodeProperties.UpperCaseLetterNotBcd | project_files/utils/module.py:60 | matching is case-sensitive: "107.51(B)" does not set the (b, c, d) column |
| StateCodes.ConvertStateCodeToName | project_files/utils/module.py:67-82 | the answer is always either one of the fifty state names of the table or "Invalid state code" |
| StateCodes.LowerCaseCodeSameName | project_files/utils/module.py:81-82 | a lower-cased code gives the same answer ("ca" and "CA" alike) |
| StateCodes.UpperCaseCodeSameName | project_files/utils/module.py:81-82 | an upper-cased code gives the same answer |
| PyStr.Strip | project_files/jsontoexcelcloud.py:115 | `strip()` returns a trimmed string no longer than its input |
| PyStr.IsSpace | project_files/jsontoexcelcloud.py:115 | the definition is the model: the code points `str.isspace()` accepts, which `strip()` removes |
| PyStr.StripKeepsPrefix | project_files/jsontoexcelcloud.py:75 | stripping a string that starts with a non-space removes only trailing whitespace, up to any later non-space |
| PyStr.StripDecomposes | project_files/jsontoexcelcloud.py:115 | the input is whitespace, then the stripped string, then whitespace |
| PyStr.FindFirst | project_files/jsontoexcelcloud.py:54 | `find` finds every occurrence, and none comes before the one it returns |
| PyStr.Find | project_files/jsontoexcelcloud.py:54 | `find` returns -1 or an index at which the pattern occurs |
| PyStr.Contains | project_files/jsontoexcelcloud.py:54 | the definition is the model: `p in s` is `s.find(p) >= 0` |
| PyStr.SplitOnce | project_files/jsontoexcelcloud.py:60-72 | `split(sep, 1)` gives two parts exactly when `sep` occurs, around its first occurrence |
| PyStr.AfterFirst | project_files/jsontoexcelcloud.py:60-72 | `split(sep, 1)[1]` is what follows an occurrence of `sep` |
| PyStr.BeforeFirst | project_files/jsontoexcelcloud.py:75 | `split(sep)[0]` is a prefix of the string, shorter exactly when `sep` occurs |
| PyStr.ReplaceAtFirstOccurrence | project_files/jsontoexcelcloud.py:119 | `replace` keeps what precedes the first occurrence, replaces it, and carries on after it |
| PyStr.Replace | project_files/jsontoexcelcloud.py:118-130 | `replace` leaves a string without the pattern unchanged, and replacing by "" shortens it exactly when the pattern occurs |
| PyStr.UpperIdempotent | project_files/utils/module.py:82 | upper-casing twice is upper-casing once |
| PyStr.Lower | project_files/jsontoexcelcloud.py:71 | `lower()` keeps the length and maps each character by the ASCII case mapping |
| PyStr.Upper | project_files/utils/module.py:82 | `upper()` keeps the length and maps each character by the ASCII case mapping |
| PyStr.UpperOfLower | project_files/utils/module.py:82 | upper-casing a lower-cased string is upper-casing it |

## Left out

- I/O is left out: the S3 reads and writes, the DataFrame and the Excel output around
  `extract_final_info`.
- `project_files/textractactioncloud.py` and `project_files/pdfdownloadcloud.py` are not
  part of this model. They contain only foreign services, HTTP and file I/O.
- `dateutil.parser.parse` is a parameter, not a model. Nothing is proved about which texts
  it accepts or what dates it returns.
- Extractor.FormatDate: a parsed year is taken to lie in 1000..9999. CPython on glibc
  passes `%Y` through unpadded, so a year below 1000 would give fewer than four digits;
  such a year does not occur on a certificate, and `ParsedDate` excludes it.
- The geocoder is left out. It is commented out in the source, and `address_components`
  is always `None`.
- In the model `\d` is 0-9, and `lower()` and `upper()` change only A-Z and a-z. Python's
  are full Unicode: its `\d` also matches U+0661, and `"\u212AS".lower()` is `"ks"`. So
  WaiverCodeProperties.CitationFound, MatchHasDigitBoundaries and TrailingDigitNotFound
  hold for ASCII neighbours of a code only, and StateCodes.LowerCaseCodeSameName and
  PyStr.UpperOfLower hold for ASCII codes only. The `"effective from" in text.lower()` test
  is unaffected.
- `IsSpace` follows `str.isspace()` on the whitespace code points Python recognises.
- Regular expressions in general are not modelled. The two patterns the source builds are
  written out as predicates on a start index (`MatchesAt`).
- `check_waiver_codes` is split in two. Its loop is `WaiverCodes.FlagColumns`, over a table
  given as a parameter. `CheckWaiverCodes` applies it to the ten-code table, because the
  loop is too costly to verify with the literal table in scope.
- StateCodes.ConvertStateCodeToName: nothing is proved about particular entries of the
  fifty-entry table. Facts about a map display that large are beyond the verifier's
  reach, so the contract and lemmas speak of the lookup and its case handling only.
- Layout.StripFields visits the keys in an unspecified order, not the dictionary's
  insertion order. Each step touches only its own key, so the result is the same.
- ProcessLine, ParseDates, ParseDateRange, CaptureLine, FinishFields and StripFields are
  sections of one Python function. They are separate methods here so that each can be
  proved on its own.
- `KeyError` on malformed blocks is not modelled. A `Block` always has its type, page and
  text.
