/** `waiver_codes` and `check_waiver_codes` of project_files/utils/module.py: ten
    regulation citations from Part 107, each flagging one spreadsheet column when the
    waived-regulations text cites it.

    The two regular expressions the source builds are written out as predicates on a
    start index: `re.search` finds a match when the pattern matches at some index. */
module WaiverCodes {
  import opened PyStr

  /** The ten codes with the column each one flags, in the order of the table. */
  const WaiverCodeTable: seq<(string, string)> := [
    ("107.29", "Daylight Operations"),
    ("107.31", "VLOS Operations"),
    ("107.33", "Visual Observer"),
    ("107.35", "Multiple UAS"),
    ("107.39", "Over People"),
    ("107.41", "Operation in Certain Airspace"),
    ("107.51(a)", "Operating Limitations (a)"),
    ("107.51", "Operating Limitations (b, c, d)"),
    ("107.25(b)", "Moving Vehicle or Aircraft"),
    ("107.145", "Over Moving Vehicles")
  ]

  /** The columns of a code table: `waiver_codes.values()` */
  function Columns(table: seq<(string, string)>): set<string> {
    set j | 0 <= j < |table| :: table[j].1
  }

  const ColumnNames: set<string> := Columns(WaiverCodeTable)

  /** No two codes of the table flag the same column. */
  predicate DistinctColumns(table: seq<(string, string)>) {
    forall j, k :: 0 <= j < k < |table| ==> table[j].1 != table[k].1
  }

  /** The two pattern shapes: `(?<!\d)(107|07)\.<tail>(?!\d)`, with the tail escaped, and the
      special case `(107|07)\.51\((b|c|d)\)`. */
  datatype Pattern = Bounded(tail: string) | LimitationsBcd

  /** `code[4:]`: the code without its "107." */
  function Tail(code: string): string {
    if |code| <= 4 then "" else code[4..]
  }

  /** The pattern compiled for `code`. */
  function PatternOf(code: string): Pattern {
    if code == "107.51" then LimitationsBcd else Bounded(Tail(code))
  }

  /** `\d` matches at index `i`. */
  predicate DigitAt(s: string, i: int) {
    0 <= i < |s| && IsDigit(s[i])
  }

  /** `(?<!\d)lit(?!\d)` matches at index `i`. */
  predicate BoundedAt(s: string, lit: string, i: int) {
    OccursAt(s, lit, i) && !DigitAt(s, i - 1) && !DigitAt(s, i + |lit|)
  }

  predicate IsBcd(c: char) {
    c == 'b' || c == 'c' || c == 'd'
  }

  /** `lit\((b|c|d)\)` matches at index `i`, where `lit` ends with the "(". */
  predicate SuffixedAt(s: string, lit: string, i: int) {
    OccursAt(s, lit, i) && i + |lit| + 2 <= |s| && IsBcd(s[i + |lit|]) && s[i + |lit| + 1] == ')'
  }

  /** The pattern matches at index `i`: the alternation tries "107" and then "07". */
  predicate MatchesAt(s: string, p: Pattern, i: int) {
    match p
    case Bounded(tail) => BoundedAt(s, "107." + tail, i) || BoundedAt(s, "07." + tail, i)
    case LimitationsBcd => SuffixedAt(s, "107.51(", i) || SuffixedAt(s, "07.51(", i)
  }

  /** `pattern.search(s)` finds a match. */
  predicate Search(s: string, p: Pattern) {
    exists i | 0 <= i <= |s| :: MatchesAt(s, p, i)
  }

  /** The value `check_waiver_codes` gives the column of `code`. */
  function Flag(entry: string, code: string): string {
    if Search(entry, PatternOf(code)) then "+" else ""
  }

  lemma ColumnsDistinct()
    ensures DistinctColumns(WaiverCodeTable)
  {
    var t := WaiverCodeTable;
    assert |t[0].1| == 19 && |t[1].1| == 15 && |t[2].1| == 15 && |t[3].1| == 12 && |t[4].1| == 11;
    assert |t[5].1| == 29 && |t[6].1| == 25 && |t[7].1| == 31 && |t[8].1| == 26 && |t[9].1| == 20;
    assert t[1].1[1] == 'L' && t[2].1[1] == 'i';
  }

  /** The loop of `check_waiver_codes` over a code table: every column starts as "", and
      the column of each code whose pattern matches becomes "+". */
  method FlagColumns(entry: string, table: seq<(string, string)>) returns (result: map<string, string>)
    requires DistinctColumns(table)
    ensures result.Keys == Columns(table)
    ensures forall j :: 0 <= j < |table| ==> result[table[j].1] == Flag(entry, table[j].0)
  {
    result := map name | name in Columns(table) :: "";
    for i := 0 to |table|
      invariant result.Keys == Columns(table)
      invariant forall j :: 0 <= j < i ==> result[table[j].1] == Flag(entry, table[j].0)
      invariant forall j :: i <= j < |table| ==> result[table[j].1] == ""
    {
      var (code, name) := table[i];
      var pattern := PatternOf(code);
      if Search(entry, pattern) {
        result := result[name := "+"];
      }
    }
  }

  /** `check_waiver_codes(entry)`: one column per code, "+" when its pattern matches the
      entry and "" otherwise. */
  method CheckWaiverCodes(entry: string) returns (result: map<string, string>)
    ensures result.Keys == ColumnNames
    ensures forall j :: 0 <= j < |WaiverCodeTable| ==>
      result[WaiverCodeTable[j].1] == Flag(entry, WaiverCodeTable[j].0)
  {
    ColumnsDistinct();
    result := FlagColumns(entry, WaiverCodeTable);
  }
}
