/** What both versions of the extractor share: the OCR text blocks they read, the
    page-1 LINE filter, the branches and capture modes of the state machine, the marker
    texts of the waiver document layout, and the string steps of the post-pass. */
module Layout {
  import opened PyStr

  /** One OCR block: its `BlockType`, its `Page` and its `Text`. */
  datatype Block = Block(blockType: string, page: int, text: string)

  /** Only LINE blocks on page 1 are read by the extractor. */
  predicate IsPageOneLine(b: Block) {
    b.blockType == "LINE" && b.page == 1
  }

  /** The texts of the page-1 LINE blocks, in document order. */
  function PageOneLines(blocks: seq<Block>): (lines: seq<string>)
    ensures |lines| <= |blocks|
  {
    if blocks == [] then []
    else
      var last := blocks[|blocks| - 1];
      PageOneLines(blocks[..|blocks| - 1]) + (if IsPageOneLine(last) then [last.text] else [])
  }

  /** Filtering distributes over concatenation. */
  lemma {:induction false} PageOneLinesAppend(a: seq<Block>, b: seq<Block>)
    ensures PageOneLines(a + b) == PageOneLines(a) + PageOneLines(b)
    decreases |b|
  {
    if b == [] {
      assert a + b == a;
    } else {
      var n := |b| - 1;
      assert (a + b)[..|a + b| - 1] == a + b[..n];
      PageOneLinesAppend(a, b[..n]);
    }
  }

  /** Removing a block that is not a page-1 LINE does not change the lines read. */
  lemma {:induction false} DropOtherBlock(blocks: seq<Block>, i: int)
    requires 0 <= i < |blocks| && !IsPageOneLine(blocks[i])
    ensures PageOneLines(blocks[..i] + blocks[i + 1..]) == PageOneLines(blocks)
  {
    var a, x, b := blocks[..i], [blocks[i]], blocks[i + 1..];
    assert blocks == (a + x) + b;
    PageOneLinesAppend(a + x, b);
    PageOneLinesAppend(a, x);
    PageOneLinesAppend(a, b);
    assert PageOneLines(x) == [] by {
      assert x[..0] == [];
      assert PageOneLines(x[..0]) == [];
    }
  }

  /** Which branch of the `elif` chain a line takes. */
  datatype LineKind =
    | IssuedToLine | AddressLine | PersonLine | WaiverNumberLine | OperationsLine
    | WaivedListLine | EffectiveFromLine | PlainLine

  /** The value of `capture_next`: False, or the field being captured. */
  datatype Mode = Idle | IssuedToMode | AddressMode | OperationsMode | WaivedListMode

  /** What a line can make the extractor raise. */
  datatype ExtractError =
    | EffectiveFromCaseMismatch(line: string)  // `split("effective from", 1)[1]` raises IndexError
    | UnparsableDate(text: string)             // the date parser raises

  const IssuedToMarker: string := "ISSUED TO"
  const AddressMarker: string := "ADDRESS"
  const PersonMarker: string := "Responsible Person:"
  const WaiverNumberMarker: string := "Waiver Number:"
  const OperationsMarker: string := "OPERATIONS AUTHORIZED"
  const WaivedListMarker: string := "LIST OF WAIVED REGULATIONS BY SECTION AND TITLE"
  const StandardProvisionsMarker: string := "STANDARD PROVISIONS"
  /** Looked for in the lower-cased line, then split on with its exact case. */
  const EffectiveFromPhrase: string := "effective from"
  const DateSeparator: string := " to "

  /** `text.split(":", 1)[1].strip()` */
  function ValueAfterColon(text: string): (r: string)
    requires Contains(text, ":")
    ensures IsTrimmed(r)
  {
    Strip(AfterFirst(text, ":"))
  }

  /** The value is what follows the first ':' of the line, trimmed. */
  lemma ValueAfterFirstColon(text: string) returns (j: int)
    requires Contains(text, ":")
    ensures 0 <= j < |text| && text[j] == ':' && forall i :: 0 <= i < j ==> text[i] != ':'
    ensures ValueAfterColon(text) == Strip(text[j + 1..])
  {
    j := FirstOccurrence(text, ':');
  }

  /** `for key in info: info[key] = info[key].strip()`, as one value. */
  function StripAll<K>(info: map<K, string>): (r: map<K, string>)
    ensures r.Keys == info.Keys
    ensures forall k :: k in info ==> r[k] == Strip(info[k])
  {
    map k | k in info :: Strip(info[k])
  }

  /** `for key in info: info[key] = info[key].strip()`. Each step reads and writes one
      key only, so the order in which the keys are visited does not matter. */
  method StripFields<K>(scanned: map<K, string>) returns (info: map<K, string>)
    ensures info == StripAll(scanned)
  {
    info := scanned;
    var remaining := scanned.Keys;
    while remaining != {}
      invariant remaining <= info.Keys == scanned.Keys
      invariant forall k :: k in info && k !in remaining ==> info[k] == Strip(scanned[k])
      invariant forall k :: k in remaining ==> info[k] == scanned[k]
      decreases remaining
    {
      var key :| key in remaining;
      info := info[key := Strip(info[key])];
      remaining := remaining - {key};
    }
  }

  /** `if marker in value: value = value.replace(marker, "").strip()` */
  function RemoveMarker(value: string, marker: string): (r: string)
    requires marker != []
    ensures !Contains(value, marker) ==> r == value
    ensures IsTrimmed(value) ==> IsTrimmed(r)
  {
    if Contains(value, marker) then Strip(Replace(value, marker, "")) else value
  }

  /** `if marker in info[f]: info[f] = info[f].replace(marker, "").strip()` */
  method RemoveFrom<K>(info: map<K, string>, f: K, marker: string) returns (r: map<K, string>)
    requires f in info && marker != []
    ensures r == info[f := RemoveMarker(info[f], marker)]
  {
    r := info;
    if Contains(r[f], marker) {
      r := r[f := Strip(Replace(r[f], marker, ""))];
    }
  }
}
