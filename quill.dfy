/**
 * The Quill Delta renderer of the non.io Android client (`QuillParser`).
 *
 * A delta document is a list of insert operations with optional formatting
 * attributes. The renderer decodes the document, splits the operations into
 * lines in one forward pass, and renders every line into a block of styled
 * runs (with an optional list marker, an optional paragraph indent and a
 * quote flag). Ordered-list numbers are kept in a per-call map from indent
 * level to the next number.
 *
 * The JSON text itself is not parsed here: the input is the decoded
 * structure (`JsonDoc`), or `None` when the text is not a JSON object.
 */
module Quill {
  import opened Wrappers
  import Strings

  // =======================================================================
  // Style configuration: the constants of DefaultQuillStyle
  // =======================================================================

  const BaseFontSize: int := 14
  const Header1FontSize: int := 24
  const Header2FontSize: int := 20
  const BulletPointSymbol: string := "\U{2022}"

  /** `indentSizeFromIndentLevel`: the paragraph indent, in sp, of an indent level */
  function IndentSize(level: int): int {
    level * 2 * BaseFontSize
  }

  /** `orderedListNumberFormat`: `"$it."` */
  function OrderedListNumberFormat(n: int): string {
    Strings.IntToString(n) + "."
  }

  // =======================================================================
  // Rendered output: AnnotatedString as runs
  // =======================================================================

  datatype FontSize = UnspecifiedSize | Header1Size | Header2Size
  datatype Decoration = NoDecoration | Underline | LineThrough
  datatype TextColor = UnspecifiedColor | LinkColor

  /** A SpanStyle; `bold`/`italic` false stands for an unset weight/style. */
  datatype SpanStyle = SpanStyle(bold: bool, italic: bool, fontSize: FontSize,
                                 decoration: Decoration, color: TextColor)

  /** Text appended outside any `withStyle` block */
  const PlainStyle := SpanStyle(false, false, UnspecifiedSize, NoDecoration, UnspecifiedColor)

  datatype Run = Run(text: string, style: SpanStyle)

  /** A string annotation with tag "URL" over the offsets [start, end) */
  datatype UrlAnnotation = UrlAnnotation(url: string, start: nat, end: nat)

  /**
   * An AnnotatedString: its runs in order, its URL annotations and, when the
   * paragraph is indented, the text indent (in sp) of its ParagraphStyle.
   */
  datatype StyledText = StyledText(runs: seq<Run>, urls: seq<UrlAnnotation>, paragraphIndent: Option<int>)

  /** QuillViewRenderObject */
  datatype RenderBlock = RenderBlock(content: StyledText, isQuote: bool)

  /** The characters of the runs, concatenated in order */
  function RunsText(runs: seq<Run>): string {
    if |runs| == 0 then "" else RunsText(runs[..|runs| - 1]) + runs[|runs| - 1].text
  }

  function BlockText(b: RenderBlock): string {
    RunsText(b.content.runs)
  }

  // =======================================================================
  // Document model
  // =======================================================================

  /** QuillAttributes: every field nullable, as in the Kotlin data class */
  datatype QuillAttributes = QuillAttributes(
    bold: Option<bool>, italic: Option<bool>, underline: Option<bool>, strike: Option<bool>,
    link: Option<string>, header: Option<int>, indent: Option<int>, list: Option<string>,
    blockquote: Option<bool>)

  datatype QuillOp = QuillOp(insert: string, attributes: Option<QuillAttributes>)

  /** The operations of one line; the last one carries the block attributes. */
  type Line = seq<QuillOp>

  // =======================================================================
  // Decoded JSON
  // =======================================================================

  /**
   * An "attributes" object. A field is `Some` when the key is present and
   * readable as the field's type (by org.json's opt* coercions).
   */
  datatype JsonAttributes = JsonAttributes(
    bold: Option<bool>, italic: Option<bool>, underline: Option<bool>, strike: Option<bool>,
    link: Option<string>, header: Option<int>, indent: Option<int>, list: Option<string>,
    blockquote: Option<bool>)

  /**
   * One element of the "ops" array that is a JSON object. `insert` is `None`
   * when the key is missing; `attributes` is `None` when it is missing or not
   * an object.
   */
  datatype JsonOp = JsonOp(insert: Option<string>, attributes: Option<JsonAttributes>)

  /**
   * The top-level JSON object. `ops` is `None` when the key is missing or not
   * an array; an element is `None` when it is not a JSON object.
   */
  datatype JsonDoc = JsonDoc(ops: Option<seq<Option<JsonOp>>>)

  /** All fields present: what the decoder produces for an "attributes" object */
  predicate Defaulted(a: QuillAttributes) {
    a.bold.Some? && a.italic.Some? && a.underline.Some? && a.strike.Some? && a.link.Some?
    && a.header.Some? && a.indent.Some? && a.list.Some? && a.blockquote.Some?
  }

  /** optBoolean / optString / optInt: a missing key reads as false, "" or 0 */
  function DecodeAttributes(a: JsonAttributes): (r: QuillAttributes)
    ensures Defaulted(r)
    ensures r.bold.value == (a.bold == Some(true)) && r.italic.value == (a.italic == Some(true))
    ensures r.underline.value == (a.underline == Some(true)) && r.strike.value == (a.strike == Some(true))
    ensures r.blockquote.value == (a.blockquote == Some(true))
    ensures r.header.value == (if a.header.Some? then a.header.value else 0)
    ensures r.indent.value == (if a.indent.Some? then a.indent.value else 0)
    ensures r.link.value == (if a.link.Some? then a.link.value else "")
    ensures r.list.value == (if a.list.Some? then a.list.value else "")
  {
    QuillAttributes(
      bold := Some(a.bold.GetOr(false)),
      italic := Some(a.italic.GetOr(false)),
      underline := Some(a.underline.GetOr(false)),
      strike := Some(a.strike.GetOr(false)),
      link := Some(a.link.GetOr("")),
      header := Some(a.header.GetOr(0)),
      indent := Some(a.indent.GetOr(0)),
      list := Some(a.list.GetOr("")),
      blockquote := Some(a.blockquote.GetOr(false)))
  }

  /** One element of "ops"; `None` when `getJSONObject` or `getString("insert")` throws */
  function DecodeOp(o: Option<JsonOp>): (r: Option<QuillOp>)
    ensures r.Some? <==> o.Some? && o.value.insert.Some?
    ensures r.Some? ==> r.value.insert == o.value.insert.value
    ensures r.Some? ==> (r.value.attributes.Some? <==> o.value.attributes.Some?)
    ensures r.Some? && r.value.attributes.Some? ==> Defaulted(r.value.attributes.value)
  {
    match o
    case None => None
    case Some(op) =>
      match op.insert
      case None => None
      case Some(text) =>
        var attrs := match op.attributes
          case None => None
          case Some(a) => Some(DecodeAttributes(a));
        Some(QuillOp(text, attrs))
  }

  /** The elements in order; `None` as soon as one of them fails */
  function DecodeOps(ops: seq<Option<JsonOp>>): Option<seq<QuillOp>> {
    if |ops| == 0 then Some([])
    else
      match DecodeOps(ops[..|ops| - 1])
      case None => None
      case Some(prefix) =>
        match DecodeOp(ops[|ops| - 1])
        case None => None
        case Some(op) => Some(prefix + [op])
  }

  /** parseJsonContent */
  function DecodeContent(json: Option<JsonDoc>): Option<seq<QuillOp>> {
    match json
    case None => None
    case Some(doc) =>
      match doc.ops
      case None => None
      case Some(ops) => DecodeOps(ops)
  }

  /** parseJsonContent: the loop that fills `opsList` */
  method ParseJsonContent(json: Option<JsonDoc>) returns (content: Option<seq<QuillOp>>)
    ensures content == DecodeContent(json)
  {
    if json.None? || json.value.ops.None? {
      return None;
    }
    var opsArray := json.value.ops.value;
    var opsList: seq<QuillOp> := [];
    for i := 0 to |opsArray|
      invariant DecodeOps(opsArray[..i]) == Some(opsList)
    {
      assert opsArray[..i + 1][..i] == opsArray[..i];
      var op := DecodeOp(opsArray[i]);
      if op.None? {
        assert DecodeOps(opsArray[..i + 1]) == None;
        DecodeFailureSticks(opsArray, i + 1);
        return None;
      }
      opsList := opsList + [op.value];
    }
    assert opsArray[..|opsArray|] == opsArray;
    content := Some(opsList);
  }

  /** A failing prefix makes the whole array fail. */
  lemma {:induction false} DecodeFailureSticks(ops: seq<Option<JsonOp>>, n: nat)
    requires n <= |ops| && DecodeOps(ops[..n]) == None
    ensures DecodeOps(ops) == None
    decreases |ops| - n
  {
    if n < |ops| {
      assert ops[..n + 1][..n] == ops[..n];
      DecodeFailureSticks(ops, n + 1);
    } else {
      assert ops[..n] == ops;
    }
  }

  // =======================================================================
  // Line segmentation (the loops of parseQuillJS)
  // =======================================================================

  /** `header != null || list != null || blockquote == true` */
  predicate IsBlock(op: QuillOp) {
    op.attributes.Some? &&
    (op.attributes.value.header.Some? || op.attributes.value.list.Some?
     || op.attributes.value.blockquote == Some(true))
  }

  /**
   * The pieces of one non-block insert appended to the pending `line`:
   * every piece but the last closes a line; the last one stays pending.
   * Returns the closed lines and the new pending line.
   */
  function SplitIntoLines(pieces: seq<string>, attrs: Option<QuillAttributes>, line: Line)
    : (r: (seq<Line>, Line))
    ensures |r.0| == if |pieces| == 0 then 0 else |pieces| - 1
    ensures forall k :: 0 <= k < |r.0| ==> |r.0[k]| > 0
    ensures |pieces| > 0 ==> |r.1| > 0
  {
    if |pieces| == 0 then ([], line)
    else if |pieces| == 1 then ([], line + [QuillOp(pieces[0], attrs)])
    else
      var rest := SplitIntoLines(pieces[1..], attrs, []);
      ([line + [QuillOp(pieces[0], attrs)]] + rest.0, rest.1)
  }

  /** The lines closed by `ops`, starting with `line` pending; a pending line at the end is dropped. */
  function SegmentFrom(ops: seq<QuillOp>, line: Line): (lines: seq<Line>)
    ensures forall k :: 0 <= k < |lines| ==> |lines[k]| > 0
  {
    if |ops| == 0 then []
    else if IsBlock(ops[0]) then
      [line + [QuillOp("", ops[0].attributes)]] + SegmentFrom(ops[1..], [])
    else
      var r := SplitIntoLines(Strings.Split(ops[0].insert, '\n'), ops[0].attributes, line);
      r.0 + SegmentFrom(ops[1..], r.1)
  }

  function Segment(ops: seq<QuillOp>): (lines: seq<Line>)
    ensures forall k :: 0 <= k < |lines| ==> |lines[k]| > 0
  {
    SegmentFrom(ops, [])
  }

  // =======================================================================
  // Block rendering (stringFromLines, orderListNumber)
  // =======================================================================

  function HeaderLevel(attrs: Option<QuillAttributes>): int {
    if attrs.Some? && attrs.value.header.Some? then attrs.value.header.value else 0
  }

  function IndentLevel(attrs: Option<QuillAttributes>): int {
    if attrs.Some? && attrs.value.indent.Some? then attrs.value.indent.value else 0
  }

  /** `currentIndentMap.getOrDefault(indent, 1)` */
  function NextNumber(counters: map<int, int>, indent: int): int {
    if indent in counters then counters[indent] else 1
  }

  /** The SpanStyle of one operation of a line whose header level is `headerLevel` */
  function StyleOf(attrs: Option<QuillAttributes>, headerLevel: int): SpanStyle {
    var a := attrs;
    SpanStyle(
      bold := a.Some? && a.value.bold == Some(true),
      italic := a.Some? && a.value.italic == Some(true),
      fontSize := if headerLevel == 1 then Header1Size
                  else if headerLevel == 2 then Header2Size
                  else UnspecifiedSize,
      decoration := if a.Some? && (a.value.underline == Some(true) || a.value.link.Some?) then Underline
                    else if a.Some? && a.value.strike == Some(true) then LineThrough
                    else NoDecoration,
      color := if a.Some? && a.value.link.Some? then LinkColor else UnspecifiedColor)
  }

  /** The inserts of a line, concatenated */
  function InsertsText(ops: Line): string {
    if |ops| == 0 then "" else InsertsText(ops[..|ops| - 1]) + ops[|ops| - 1].insert
  }

  /** One run per operation, in order */
  function OpRuns(ops: Line, headerLevel: int): seq<Run> {
    if |ops| == 0 then []
    else OpRuns(ops[..|ops| - 1], headerLevel)
         + [Run(ops[|ops| - 1].insert, StyleOf(ops[|ops| - 1].attributes, headerLevel))]
  }

  /** One URL annotation per linked operation, over its offsets after `base` characters */
  function OpUrls(ops: Line, base: nat): seq<UrlAnnotation> {
    if |ops| == 0 then []
    else
      var prefix := ops[..|ops| - 1];
      var op := ops[|ops| - 1];
      OpUrls(prefix, base)
      + (if op.attributes.Some? && op.attributes.value.link.Some?
         then [UrlAnnotation(op.attributes.value.link.value, base + |InsertsText(prefix)|,
                             base + |InsertsText(prefix)| + |op.insert|)]
         else [])
  }

  /**
   * The `when (it.list)` step: the list-marker run (if any) and the counter
   * map afterwards. Without block attributes nothing happens.
   */
  function ListPrefix(blockAttr: Option<QuillAttributes>, counters: map<int, int>)
    : (map<int, int>, seq<Run>)
  {
    if blockAttr.None? then (counters, [])
    else
      var indent := IndentLevel(blockAttr);
      if blockAttr.value.list == Some("ordered") then
        var n := NextNumber(counters, indent);
        (counters[indent := n + 1], [Run(OrderedListNumberFormat(n) + " ", PlainStyle)])
      else if blockAttr.value.list == Some("bullet") then
        (counters, [Run(BulletPointSymbol + " ", PlainStyle)])
      else (map[], [])
  }

  /** stringFromLines: one rendered block and the counter map afterwards */
  function RenderLine(line: Line, counters: map<int, int>): (RenderBlock, map<int, int>)
    requires |line| > 0
  {
    var blockAttr := line[|line| - 1].attributes;
    var header := HeaderLevel(blockAttr);
    var indent := IndentLevel(blockAttr);
    var (counters', marker) := ListPrefix(blockAttr, counters);
    var quote := blockAttr.Some? && blockAttr.value.blockquote == Some(true);
    var content := StyledText(marker + OpRuns(line, header),
                              OpUrls(line, |RunsText(marker)|),
                              if IndentSize(indent) > 0 then Some(IndentSize(indent)) else None);
    (RenderBlock(content, quote), counters')
  }

  predicate NonEmptyLines(lines: seq<Line>) {
    forall k :: 0 <= k < |lines| ==> |lines[k]| > 0
  }

  /** The lines rendered in order, threading the counter map */
  function RenderLines(lines: seq<Line>, counters: map<int, int>): (r: (seq<RenderBlock>, map<int, int>))
    requires forall k :: 0 <= k < |lines| ==> |lines[k]| > 0
    ensures |r.0| == |lines|
  {
    if |lines| == 0 then ([], counters)
    else
      var (blocks, c) := RenderLines(lines[..|lines| - 1], counters);
      var (b, c') := RenderLine(lines[|lines| - 1], c);
      (blocks + [b], c')
  }

  /** `AnnotatedString(json)` with `isQuote = false` */
  function FallbackBlock(json: string): RenderBlock {
    RenderBlock(StyledText([Run(json, PlainStyle)], [], None), false)
  }

  /** parseQuillJS: what the renderer returns for the text `json` decoded as `decoded` */
  function ParseQuill(json: string, decoded: Option<JsonDoc>): seq<RenderBlock> {
    match DecodeContent(decoded)
    case None => [FallbackBlock(json)]
    case Some(ops) => RenderLines(Segment(ops), map[]).0
  }

  // =======================================================================
  // The imperative renderer
  // =======================================================================

  /** orderListNumber */
  method OrderListNumber(currentIndentMap: map<int, int>, indent: int)
    returns (number: int, indentMap: map<int, int>)
    ensures number == NextNumber(currentIndentMap, indent)
    ensures indentMap == currentIndentMap[indent := number + 1]
  {
    number := if indent in currentIndentMap then currentIndentMap[indent] else 1;
    indentMap := currentIndentMap[indent := number + 1];
  }

  /** The `when (it.list)` step of stringFromLines */
  method ListStep(it: QuillAttributes, indentLevel: int, currentIndentMap: map<int, int>)
    returns (indentMap: map<int, int>, runs: seq<Run>, length: nat)
    requires indentLevel == IndentLevel(Some(it))
    ensures (indentMap, runs) == ListPrefix(Some(it), currentIndentMap)
    ensures length == |RunsText(runs)|
  {
    if it.list == Some("ordered") {
      var number;
      number, indentMap := OrderListNumber(currentIndentMap, indentLevel);
      var marker := OrderedListNumberFormat(number) + " ";
      runs := [Run(marker, PlainStyle)];
      length := |marker|;
    } else if it.list == Some("bullet") {
      indentMap := currentIndentMap;
      var marker := BulletPointSymbol + " ";
      runs := [Run(marker, PlainStyle)];
      length := |marker|;
    } else {
      indentMap := map[];
      runs := [];
      length := 0;
    }
    assert length == |RunsText(runs)| by {
      if |runs| == 1 {
        assert RunsText(runs) == RunsText([]) + runs[0].text;
      }
    }
  }

  /** stringFromLines */
  method StringFromLines(lines: Line, currentIndentMap: map<int, int>)
    returns (block: RenderBlock, indentMap: map<int, int>)
    requires |lines| > 0
    ensures (block, indentMap) == RenderLine(lines, currentIndentMap)
  {
    indentMap := currentIndentMap;
    var blockquote := false;
    var runs: seq<Run> := [];
    var length: nat := 0;
    var headerLevel := 0;
    var indentLevel := 0;
    var textIndent := 0;

    var blockAttr := lines[|lines| - 1].attributes;
    if blockAttr.Some? {
      var it := blockAttr.value;
      if it.header.Some? {
        headerLevel := it.header.value;
      }
      if it.indent.Some? {
        indentLevel := it.indent.value;
        if indentLevel > 0 {
          textIndent := IndentSize(indentLevel);
        }
      }
      indentMap, runs, length := ListStep(it, indentLevel, indentMap);
      if it.blockquote == Some(true) {
        blockquote := true;
      }
    }
    ghost var marker := runs;
    assert headerLevel == HeaderLevel(blockAttr);
    assert (indentMap, marker) == ListPrefix(blockAttr, currentIndentMap);

    var urls;
    runs, urls, length := AppendSpans(lines, headerLevel, runs, length);
    var paragraphIndent := if textIndent > 0 then Some(textIndent) else None;
    block := RenderBlock(StyledText(runs, urls, paragraphIndent), blockquote);
  }

  /** The `lines.forEach` loop of stringFromLines: one styled run (and URL annotation) per operation */
  method AppendSpans(lines: Line, headerLevel: int, marker: seq<Run>, markerLength: nat)
    returns (runs: seq<Run>, urls: seq<UrlAnnotation>, length: nat)
    requires markerLength == |RunsText(marker)|
    ensures runs == marker + OpRuns(lines, headerLevel)
    ensures urls == OpUrls(lines, markerLength)
    ensures length == markerLength + |InsertsText(lines)|
  {
    runs := marker;
    urls := [];
    length := markerLength;
    for i := 0 to |lines|
      invariant runs == marker + OpRuns(lines[..i], headerLevel)
      invariant urls == OpUrls(lines[..i], markerLength)
      invariant length == markerLength + |InsertsText(lines[..i])|
    {
      assert lines[..i + 1][..i] == lines[..i];
      var line := lines[i];
      var spanStyle := StyleOf(line.attributes, headerLevel);
      if line.attributes.Some? && line.attributes.value.link.Some? {
        var start := length;
        runs := runs + [Run(line.insert, spanStyle)];
        length := length + |line.insert|;
        var end := length;
        urls := urls + [UrlAnnotation(line.attributes.value.link.value, start, end)];
      } else {
        runs := runs + [Run(line.insert, spanStyle)];
        length := length + |line.insert|;
      }
    }
    assert lines[..|lines|] == lines;
  }

  /** One forward step of the segmentation at a block operation */
  lemma SegmentStepBlock(ops: seq<QuillOp>, i: nat, line: Line)
    requires i < |ops| && IsBlock(ops[i])
    ensures SegmentFrom(ops[i..], line)
            == [line + [QuillOp("", ops[i].attributes)]] + SegmentFrom(ops[i + 1..], [])
  {
    assert ops[i..][1..] == ops[i + 1..];
  }

  /** One forward step of the segmentation at a text operation */
  lemma SegmentStepText(ops: seq<QuillOp>, i: nat, line: Line)
    requires i < |ops| && !IsBlock(ops[i])
    ensures var r := SplitIntoLines(Strings.Split(ops[i].insert, '\n'), ops[i].attributes, line);
            SegmentFrom(ops[i..], line) == r.0 + SegmentFrom(ops[i + 1..], r.1)
  {
    assert ops[i..][1..] == ops[i + 1..];
  }

  /** A piece before the last one closes the pending line. */
  lemma SplitStepClose(texts: seq<string>, j: nat, attrs: Option<QuillAttributes>, line: Line)
    requires j < |texts| - 1
    ensures var r := SplitIntoLines(texts[j + 1..], attrs, []);
            SplitIntoLines(texts[j..], attrs, line) == ([line + [QuillOp(texts[j], attrs)]] + r.0, r.1)
  {
    assert texts[j..][1..] == texts[j + 1..];
  }

  /** The last piece stays pending. */
  lemma SplitStepLast(texts: seq<string>, j: nat, attrs: Option<QuillAttributes>, line: Line)
    requires j == |texts| - 1
    ensures SplitIntoLines(texts[j..], attrs, line) == ([], line + [QuillOp(texts[j], attrs)])
    ensures SplitIntoLines(texts[j + 1..], attrs, line + [QuillOp(texts[j], attrs)])
            == ([], line + [QuillOp(texts[j], attrs)])
  {
    assert |texts[j..]| == 1;
  }

  /** Rendering one more line extends the blocks by that line's block. */
  lemma RenderLinesSnoc(lines: seq<Line>, line: Line, counters: map<int, int>)
    requires forall k :: 0 <= k < |lines| ==> |lines[k]| > 0
    requires |line| > 0
    ensures RenderLines(lines + [line], counters).0
            == RenderLines(lines, counters).0 + [RenderLine(line, RenderLines(lines, counters).1).0]
    ensures RenderLines(lines + [line], counters).1 == RenderLine(line, RenderLines(lines, counters).1).1
  {
    assert (lines + [line])[..|lines|] == lines;
  }

  /** parseQuillJS */
  method ParseQuillJS(json: string, decoded: Option<JsonDoc>) returns (result: seq<RenderBlock>)
    ensures result == ParseQuill(json, decoded)
  {
    var content := ParseJsonContent(decoded);
    if content.None? {
      return [FallbackBlock(json)];
    }
    var ops := content.value;
    result := [];
    var line: Line := [];
    var currentIndentMap: map<int, int> := map[];
    ghost var closed: seq<Line> := [];

    for i := 0 to |ops|
      invariant NonEmptyLines(closed)
      invariant Segment(ops) == closed + SegmentFrom(ops[i..], line)
      invariant result == RenderLines(closed, map[]).0 && currentIndentMap == RenderLines(closed, map[]).1
    {
      var op := ops[i];
      var texts := Strings.Split(op.insert, '\n');
      var isBlock := IsBlock(op);
      if isBlock {
        SegmentStepBlock(ops, i, line);
        ghost var rest := SegmentFrom(ops[i + 1..], []);
        line := line + [QuillOp("", op.attributes)];
        assert Segment(ops) == (closed + [line]) + rest;
        closed, result, currentIndentMap := CloseLine(closed, line, result, currentIndentMap);
        line := [];
      } else {
        SegmentStepText(ops, i, line);
        ghost var r := SplitIntoLines(texts, op.attributes, line);
        assert Segment(ops) == closed + r.0 + SegmentFrom(ops[i + 1..], r.1);
        closed, line, result, currentIndentMap := AppendPieces(op, texts, closed, line, result, currentIndentMap);
      }
    }
    assert ops[|ops|..] == [];
    assert Segment(ops) == closed;
    assert DecodeContent(decoded) == Some(ops);
  }

  /**
   * The `texts.forEachIndexed` loop of parseQuillJS for one text operation:
   * every piece but the last closes and renders the pending line.
   */
  method AppendPieces(op: QuillOp, texts: seq<string>, ghost closed: seq<Line>, line: Line,
                      result: seq<RenderBlock>, currentIndentMap: map<int, int>)
    returns (ghost closed': seq<Line>, line': Line, result': seq<RenderBlock>, indentMap': map<int, int>)
    requires texts == Strings.Split(op.insert, '\n')
    requires NonEmptyLines(closed)
    requires result == RenderLines(closed, map[]).0 && currentIndentMap == RenderLines(closed, map[]).1
    ensures var r := SplitIntoLines(texts, op.attributes, line);
            closed' == closed + r.0 && line' == r.1
    ensures NonEmptyLines(closed')
    ensures result' == RenderLines(closed', map[]).0 && indentMap' == RenderLines(closed', map[]).1
  {
    ghost var target := SplitIntoLines(texts, op.attributes, line);
    var hasNewline := '\n' in op.insert;
    if !hasNewline {
      Strings.SplitWithoutDelimiter(op.insert, '\n');
    }
    closed', line', result', indentMap' := closed, line, result, currentIndentMap;
    assert texts[0..] == texts;
    for j := 0 to |texts|
      invariant NonEmptyLines(closed')
      invariant closed' + SplitIntoLines(texts[j..], op.attributes, line').0 == closed + target.0
      invariant SplitIntoLines(texts[j..], op.attributes, line').1 == target.1
      invariant result' == RenderLines(closed', map[]).0 && indentMap' == RenderLines(closed', map[]).1
    {
      ghost var rest := SplitIntoLines(texts[j + 1..], op.attributes, []);
      if j < |texts| - 1 {
        SplitStepClose(texts, j, op.attributes, line');
      } else {
        SplitStepLast(texts, j, op.attributes, line');
      }
      line' := line' + [QuillOp(texts[j], op.attributes)];
      if hasNewline && j < |texts| - 1 {
        assert closed' + ([line'] + rest.0) == (closed' + [line']) + rest.0;
        closed', result', indentMap' := CloseLine(closed', line', result', indentMap');
        line' := [];
      }
    }
    assert texts[|texts|..] == [];
  }

  /** `result.add(stringFromLines(line, currentIndentMap, blockquote))` */
  method CloseLine(ghost closed: seq<Line>, line: Line, result: seq<RenderBlock>, currentIndentMap: map<int, int>)
    returns (ghost closed': seq<Line>, result': seq<RenderBlock>, indentMap': map<int, int>)
    requires NonEmptyLines(closed) && |line| > 0
    requires result == RenderLines(closed, map[]).0 && currentIndentMap == RenderLines(closed, map[]).1
    ensures closed' == closed + [line] && NonEmptyLines(closed')
    ensures result' == RenderLines(closed', map[]).0 && indentMap' == RenderLines(closed', map[]).1
  {
    RenderLinesSnoc(closed, line, map[]);
    var block;
    block, indentMap' := StringFromLines(line, currentIndentMap);
    result' := result + [block];
    closed' := closed + [line];
  }

  // =======================================================================
  // convertStringToQuillJson
  // =======================================================================

  /**
   * `convertStringToQuillJson`: a one-operation document inserting the text
   * followed by a newline, without attributes (as the decoded structure of the
   * JSON text it serialises to).
   */
  function ConvertStringToQuillJson(s: string): (doc: JsonDoc)
  {
    JsonDoc(Some([Some(JsonOp(Some(s + "\n"), None))]))
  }
}
