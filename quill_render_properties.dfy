/**
 * Properties of rendering lines into blocks: block text, runs, URL
 * annotations, ordered-list numbering across a document, the styling a
 * decoded document can produce, and the `convertStringToQuillJson` round trip.
 */
module QuillRenderProperties {
  import opened Wrappers
  import opened Strings
  import opened Quill
  import opened QuillProperties

  // =======================================================================
  // Runs and text of one block
  // =======================================================================

  lemma {:induction false} RunsTextAppend(a: seq<Run>, b: seq<Run>)
    ensures RunsText(a + b) == RunsText(a) + RunsText(b)
  {
    if |b| == 0 {
      assert a + b == a;
    } else {
      var b' := b[..|b| - 1];
      assert (a + b)[..|a + b| - 1] == a + b';
      RunsTextAppend(a, b');
      Associative(RunsText(a), RunsText(b'), b[|b| - 1].text);
    }
  }

  /** One run per operation, holding its insert in the operation's style */
  lemma {:induction false} OpRunsShape(line: Line, headerLevel: int)
    ensures |OpRuns(line, headerLevel)| == |line|
    ensures forall m :: 0 <= m < |line| ==>
              OpRuns(line, headerLevel)[m] == Run(line[m].insert, StyleOf(line[m].attributes, headerLevel))
    ensures RunsText(OpRuns(line, headerLevel)) == InsertsText(line)
  {
    if |line| > 0 {
      var prefix := line[..|line| - 1];
      OpRunsShape(prefix, headerLevel);
      var runs := OpRuns(line, headerLevel);
      assert runs[..|runs| - 1] == OpRuns(prefix, headerLevel);
      forall m | 0 <= m < |line| - 1
        ensures runs[m] == Run(line[m].insert, StyleOf(line[m].attributes, headerLevel))
      {
        assert prefix[m] == line[m];
      }
    }
  }

  /** The list marker: `"<n>. "` for an ordered item, `"• "` for a bullet, nothing otherwise */
  function MarkerText(blockAttr: Option<QuillAttributes>, counters: map<int, int>): string {
    if blockAttr.Some? && blockAttr.value.list == Some("ordered") then
      IntToString(NextNumber(counters, IndentLevel(blockAttr))) + ". "
    else if blockAttr.Some? && blockAttr.value.list == Some("bullet") then "\U{2022} "
    else ""
  }

  /** The marker is at most one run, in the plain style. */
  lemma ListPrefixMarker(a: Option<QuillAttributes>, counters: map<int, int>)
    ensures var marker := MarkerText(a, counters);
            ListPrefix(a, counters).1 == (if marker == "" then [] else [Run(marker, PlainStyle)])
    ensures RunsText(ListPrefix(a, counters).1) == MarkerText(a, counters)
  {
    var prefix := ListPrefix(a, counters).1;
    if a.Some? && a.value.list == Some("ordered") {
      var n := NextNumber(counters, IndentLevel(a));
      Associative(IntToString(n), ".", " ");
      assert "." + " " == ". ";
    } else if a.Some? && a.value.list == Some("bullet") {
      assert BulletPointSymbol + " " == "\U{2022} ";
    }
    if |prefix| == 1 {
      assert RunsText(prefix) == RunsText([]) + prefix[0].text;
    }
  }

  /** stringFromLines: the block shows the list marker followed by the inserts of the line. */
  lemma RenderLineText(line: Line, counters: map<int, int>)
    requires |line| > 0
    ensures BlockText(RenderLine(line, counters).0)
            == MarkerText(line[|line| - 1].attributes, counters) + InsertsText(line)
  {
    var a := line[|line| - 1].attributes;
    ListPrefixMarker(a, counters);
    OpRunsShape(line, HeaderLevel(a));
    RunsTextAppend(ListPrefix(a, counters).1, OpRuns(line, HeaderLevel(a)));
  }

  /**
   * The block is a quote exactly when the last operation says so, and
   * indented (by twice the base font size per level) exactly when its indent
   * level is positive.
   */
  lemma RenderLineFlags(line: Line, counters: map<int, int>)
    requires |line| > 0
    ensures var b := RenderLine(line, counters).0;
            var a := line[|line| - 1].attributes;
            b.isQuote == (a.Some? && a.value.blockquote == Some(true))
            && b.content.paragraphIndent
               == (if IndentLevel(a) > 0 then Some(IndentLevel(a) * 2 * BaseFontSize) else None)
  {
  }

  lemma RenderLineRunsAre(line: Line, counters: map<int, int>)
    requires |line| > 0
    ensures var a := line[|line| - 1].attributes;
            RenderLine(line, counters).0.content.runs == ListPrefix(a, counters).1 + OpRuns(line, HeaderLevel(a))
  {
  }

  /**
   * The runs of a block: the marker run (if any) in the plain style, then one
   * run per operation styled by that operation and by the line's header level.
   */
  lemma RenderLineRuns(line: Line, counters: map<int, int>)
    requires |line| > 0
    ensures var runs := RenderLine(line, counters).0.content.runs;
            var a := line[|line| - 1].attributes;
            var marker := MarkerText(a, counters);
            |runs| == (if marker == "" then 0 else 1) + |line|
            && (marker != "" ==> runs[0] == Run(marker, PlainStyle))
            && forall m :: 0 <= m < |line| ==>
                 runs[|runs| - |line| + m] == Run(line[m].insert, StyleOf(line[m].attributes, HeaderLevel(a)))
  {
    var a := line[|line| - 1].attributes;
    ListPrefixMarker(a, counters);
    OpRunsShape(line, HeaderLevel(a));
    RenderLineRunsAre(line, counters);
    var prefix, ops := ListPrefix(a, counters).1, OpRuns(line, HeaderLevel(a));
    PrefixedRuns(prefix, ops, MarkerText(a, counters));
    assert |prefix + ops| - |line| == |prefix|;
  }

  /** At most one marker run, then the operations' runs: where each run sits in the block. */
  lemma PrefixedRuns(prefix: seq<Run>, ops: seq<Run>, marker: string)
    requires prefix == (if marker == "" then [] else [Run(marker, PlainStyle)])
    ensures |prefix + ops| == (if marker == "" then 0 else 1) + |ops|
    ensures marker != "" ==> (prefix + ops)[0] == Run(marker, PlainStyle)
    ensures forall m :: 0 <= m < |ops| ==> (prefix + ops)[|prefix| + m] == ops[m]
  {
  }

  // -----------------------------------------------------------------------
  // URL annotations
  // -----------------------------------------------------------------------

  /** The link of an operation, if its attributes carry one */
  function LinkOf(op: QuillOp): Option<string> {
    if op.attributes.Some? then op.attributes.value.link else None
  }

  /** The number of linked operations */
  function LinkedCount(ops: Line): nat {
    if |ops| == 0 then 0
    else LinkedCount(ops[..|ops| - 1]) + (if LinkOf(ops[|ops| - 1]).Some? then 1 else 0)
  }

  lemma {:induction false} InsertsTextAppend(a: Line, b: Line)
    ensures InsertsText(a + b) == InsertsText(a) + InsertsText(b)
  {
    if |b| == 0 {
      assert a + b == a;
    } else {
      var b' := b[..|b| - 1];
      assert (a + b)[..|a + b| - 1] == a + b';
      InsertsTextAppend(a, b');
      Associative(InsertsText(a), InsertsText(b'), b[|b| - 1].insert);
    }
  }

  /** Operation `m`'s insert sits right after the inserts before it. */
  lemma InsertsTextAt(line: Line, m: nat)
    requires m < |line|
    ensures var start := |InsertsText(line[..m])|;
            start + |line[m].insert| <= |InsertsText(line)|
            && InsertsText(line)[start..start + |line[m].insert|] == line[m].insert
  {
    assert line == line[..m] + [line[m]] + line[m + 1..];
    InsertsTextAppend(line[..m] + [line[m]], line[m + 1..]);
    InsertsTextAppend(line[..m], [line[m]]);
    assert InsertsText([line[m]]) == InsertsText([]) + line[m].insert;
  }

  /** Every annotation names a linked operation and spans exactly its insert's offsets. */
  lemma {:induction false} OpUrlsSpans(line: Line, base: nat)
    ensures |OpUrls(line, base)| == LinkedCount(line)
    ensures forall u :: u in OpUrls(line, base) ==>
              exists m :: 0 <= m < |line| && LinkOf(line[m]) == Some(u.url)
                          && u.start == base + |InsertsText(line[..m])|
                          && u.end == u.start + |line[m].insert|
  {
    OpUrlsCount(line, base);
    if |line| > 0 {
      var prefix, last := line[..|line| - 1], line[|line| - 1];
      OpUrlsSpans(prefix, base);
      var start := base + |InsertsText(prefix)|;
      var extra := if LinkOf(last).Some? then [UrlAnnotation(LinkOf(last).value, start, start + |last.insert|)] else [];
      assert OpUrls(line, base) == OpUrls(prefix, base) + extra;
      forall u | u in OpUrls(line, base)
        ensures exists m :: 0 <= m < |line| && LinkOf(line[m]) == Some(u.url)
                            && u.start == base + |InsertsText(line[..m])|
                            && u.end == u.start + |line[m].insert|
      {
        if u in OpUrls(prefix, base) {
          var m :| 0 <= m < |prefix| && LinkOf(prefix[m]) == Some(u.url)
                   && u.start == base + |InsertsText(prefix[..m])|
                   && u.end == u.start + |prefix[m].insert|;
          EarlierOp(line, m);
          assert LinkOf(line[m]) == Some(u.url) && u.start == base + |InsertsText(line[..m])|;
        } else {
          assert u == extra[0];
          assert line[..|line| - 1] == prefix;
        }
      }
    }
  }

  /** One annotation per linked operation */
  lemma {:induction false} OpUrlsCount(line: Line, base: nat)
    ensures |OpUrls(line, base)| == LinkedCount(line)
  {
    if |line| > 0 {
      OpUrlsCount(line[..|line| - 1], base);
    }
  }

  /** Before the last operation, the line and its prefix agree. */
  lemma EarlierOp(line: Line, m: nat)
    requires m < |line| - 1
    ensures line[..|line| - 1][..m] == line[..m] && line[..|line| - 1][m] == line[m]
  {
  }

  /**
   * The URL annotations of a block: one per linked operation, each covering
   * exactly that operation's text within the block.
   */
  lemma UrlAnnotationsCoverLinkedText(line: Line, counters: map<int, int>)
    requires |line| > 0
    ensures var b := RenderLine(line, counters).0;
            |b.content.urls| == LinkedCount(line)
            && forall u :: u in b.content.urls ==>
                 u.start <= u.end <= |BlockText(b)|
                 && exists m :: 0 <= m < |line| && LinkOf(line[m]) == Some(u.url)
                                && BlockText(b)[u.start..u.end] == line[m].insert
  {
    var a := line[|line| - 1].attributes;
    ListPrefixMarker(a, counters);
    RenderLineText(line, counters);
    assert RenderLine(line, counters).0.content.urls == OpUrls(line, |MarkerText(a, counters)|);
    OpUrlsSpans(line, |MarkerText(a, counters)|);
    LinkedSpans(line, MarkerText(a, counters));
  }

  /** The annotations over `marker + InsertsText(line)` cover the linked inserts. */
  lemma LinkedSpans(line: Line, marker: string)
    ensures var text := marker + InsertsText(line);
            forall u :: u in OpUrls(line, |marker|) ==>
              u.start <= u.end <= |text|
              && exists m :: 0 <= m < |line| && LinkOf(line[m]) == Some(u.url)
                             && text[u.start..u.end] == line[m].insert
  {
    OpUrlsSpans(line, |marker|);
    forall u | u in OpUrls(line, |marker|)
      ensures u.start <= u.end <= |marker + InsertsText(line)|
      ensures exists m :: 0 <= m < |line| && LinkOf(line[m]) == Some(u.url)
                          && (marker + InsertsText(line))[u.start..u.end] == line[m].insert
    {
      var m :| 0 <= m < |line| && LinkOf(line[m]) == Some(u.url)
               && u.start == |marker| + |InsertsText(line[..m])|
               && u.end == u.start + |line[m].insert|;
      LinkedSpan(line, marker, u, m);
    }
  }

  lemma LinkedSpan(line: Line, marker: string, u: UrlAnnotation, m: nat)
    requires m < |line|
    requires u.start == |marker| + |InsertsText(line[..m])| && u.end == u.start + |line[m].insert|
    ensures u.start <= u.end <= |marker + InsertsText(line)|
    ensures (marker + InsertsText(line))[u.start..u.end] == line[m].insert
  {
    InsertsTextAt(line, m);
    SliceAfter(marker, InsertsText(line), |InsertsText(line[..m])|, |line[m].insert|);
  }

  lemma SliceAfter(prefix: string, text: string, start: nat, len: nat)
    requires start + len <= |text|
    ensures |prefix| + start + len <= |prefix + text|
    ensures (prefix + text)[|prefix| + start..|prefix| + start + len] == text[start..start + len]
  {
  }

  // =======================================================================
  // Ordered-list numbering across a document
  // =======================================================================

  /** How a line's last operation affects the list counters */
  datatype LineKind = PlainLine | OrderedItem(level: int) | BulletItem | OtherBlock

  function KindOf(line: Line): LineKind
    requires |line| > 0
  {
    var a := line[|line| - 1].attributes;
    if a.None? then PlainLine
    else if a.value.list == Some("ordered") then OrderedItem(IndentLevel(a))
    else if a.value.list == Some("bullet") then BulletItem
    else OtherBlock
  }

  /**
   * The number the next ordered item at `level` receives after `lines`:
   * ordered items at that level count up from 1, and any attributed line that
   * is neither an ordered nor a bullet item restarts every level at 1.
   */
  function ItemNumber(lines: seq<Line>, level: int): int
    requires NonEmptyLines(lines)
  {
    if |lines| == 0 then 1
    else
      var prefix := lines[..|lines| - 1];
      match KindOf(lines[|lines| - 1])
      case OtherBlock => 1
      case OrderedItem(l) => if l == level then ItemNumber(prefix, level) + 1 else ItemNumber(prefix, level)
      case _ => ItemNumber(prefix, level)
  }

  /** The counter map parseQuillJS threads through the lines holds exactly the item numbers. */
  lemma {:induction false} CountersTrackItemNumbers(lines: seq<Line>, level: int)
    requires NonEmptyLines(lines)
    ensures NextNumber(RenderLines(lines, map[]).1, level) == ItemNumber(lines, level)
  {
    if |lines| > 0 {
      var prefix := lines[..|lines| - 1];
      CountersTrackItemNumbers(prefix, level);
      var last := lines[|lines| - 1];
      var c := RenderLines(prefix, map[]).1;
      assert RenderLines(lines, map[]).1 == ListPrefix(last[|last| - 1].attributes, c).0;
    }
  }

  /** Block `k` is line `k` rendered with the counters the earlier lines left. */
  lemma {:induction false} RenderLinesAt(lines: seq<Line>, counters: map<int, int>, k: nat)
    requires NonEmptyLines(lines) && k < |lines|
    ensures RenderLines(lines, counters).0[k] == RenderLine(lines[k], RenderLines(lines[..k], counters).1).0
  {
    var prefix := lines[..|lines| - 1];
    if k < |lines| - 1 {
      RenderLinesAt(prefix, counters, k);
      assert prefix[..k] == lines[..k];
    } else {
      assert lines[..k] == prefix;
    }
  }

  /** An ordered item shows the item number its position gives it. */
  lemma OrderedItemMarker(lines: seq<Line>, k: nat, level: int)
    requires NonEmptyLines(lines) && k < |lines|
    requires KindOf(lines[k]) == OrderedItem(level)
    ensures BlockText(RenderLines(lines, map[]).0[k])
            == IntToString(ItemNumber(lines[..k], level)) + ". " + InsertsText(lines[k])
  {
    RenderLinesAt(lines, map[], k);
    CountersTrackItemNumbers(lines[..k], level);
    RenderLineText(lines[k], RenderLines(lines[..k], map[]).1);
    Associative(IntToString(ItemNumber(lines[..k], level)), ". ", InsertsText(lines[k]));
  }

  // =======================================================================
  // Whole documents
  // =======================================================================

  /**
   * A decoded document: block `k` renders line `k` of the segmentation, with
   * the counters the earlier lines left; no rendered line holds a newline.
   */
  lemma DocumentBlocks(json: string, decoded: Option<JsonDoc>, ops: seq<QuillOp>)
    requires DecodeContent(decoded) == Some(ops)
    ensures var lines := Segment(ops);
            var blocks := ParseQuill(json, decoded);
            |blocks| == |lines|
            && forall k :: 0 <= k < |lines| ==>
                 blocks[k] == RenderLine(lines[k], RenderLines(lines[..k], map[]).1).0
                 && '\n' !in InsertsText(lines[k])
  {
    var lines := Segment(ops);
    SegmentFromWellFormed(ops, []);
    forall k | 0 <= k < |lines|
      ensures ParseQuill(json, decoded)[k] == RenderLine(lines[k], RenderLines(lines[..k], map[]).1).0
      ensures '\n' !in InsertsText(lines[k])
    {
      RenderLinesAt(lines, map[], k);
      NoNewlineInWellFormed(lines[k]);
    }
  }

  lemma {:induction false} NoNewlineInPieces(line: Line)
    requires AllPieces(line)
    ensures '\n' !in InsertsText(line)
  {
    if |line| > 0 {
      var prefix := line[..|line| - 1];
      assert AllPieces(prefix) by {
        forall m | 0 <= m < |prefix| ensures PieceOp(prefix[m]) { assert prefix[m] == line[m]; }
      }
      NoNewlineInPieces(prefix);
      assert PieceOp(line[|line| - 1]);
    }
  }

  lemma NoNewlineInWellFormed(line: Line)
    requires WellFormedLine(line)
    ensures '\n' !in InsertsText(line)
  {
    var prefix := line[..|line| - 1];
    NoNewlineInPieces(prefix);
    assert line[..|line| - 1] == prefix;
  }

  // -----------------------------------------------------------------------
  // Styling of decoded documents
  // -----------------------------------------------------------------------

  /**
   * The decoder fills a missing "link" with "", so in a decoded document
   * every attributed operation is underlined in the link colour and none is
   * ever struck through; unattributed operations carry neither.
   */
  lemma DefaultedStyle(attrs: Option<QuillAttributes>, headerLevel: int)
    requires attrs.Some? ==> Defaulted(attrs.value)
    ensures var st := StyleOf(attrs, headerLevel);
            st.decoration != LineThrough
            && (st.decoration == Underline <==> attrs.Some?)
            && (st.color == LinkColor <==> attrs.Some?)
  {
  }

  lemma {:induction false} SplitIntoLinesDefaulted(pieces: seq<string>, attrs: Option<QuillAttributes>, line: Line)
    requires AllDefaulted(line) && (attrs.Some? ==> Defaulted(attrs.value))
    ensures var r := SplitIntoLines(pieces, attrs, line);
            (forall k :: 0 <= k < |r.0| ==> AllDefaulted(r.0[k])) && AllDefaulted(r.1)
  {
    if |pieces| > 1 {
      SplitIntoLinesDefaulted(pieces[1..], attrs, []);
    }
  }

  /** Segmentation only copies attributes, so every line of a decoded document is defaulted. */
  lemma {:induction false} SegmentFromDefaulted(ops: seq<QuillOp>, line: Line)
    requires AllDefaulted(ops) && AllDefaulted(line)
    ensures forall k :: 0 <= k < |SegmentFrom(ops, line)| ==> AllDefaulted(SegmentFrom(ops, line)[k])
  {
    if |ops| > 0 {
      assert AllDefaulted(ops[1..]) by {
        forall i | 0 <= i < |ops| - 1 ensures ops[1..][i] == ops[i + 1] { }
      }
      assert ops[0].attributes.Some? ==> Defaulted(ops[0].attributes.value);
      if IsBlock(ops[0]) {
        SegmentFromDefaulted(ops[1..], []);
      } else {
        var r := SplitIntoLines(Split(ops[0].insert, '\n'), ops[0].attributes, line);
        SplitIntoLinesDefaulted(Split(ops[0].insert, '\n'), ops[0].attributes, line);
        SegmentFromDefaulted(ops[1..], r.1);
      }
    }
  }

  /** Not struck through, and underlined exactly when in the link colour */
  predicate LinkLike(st: SpanStyle) {
    st.decoration != LineThrough && (st.decoration == Underline <==> st.color == LinkColor)
  }

  lemma DefaultedLineRuns(line: Line, counters: map<int, int>)
    requires |line| > 0 && AllDefaulted(line)
    ensures var runs := RenderLine(line, counters).0.content.runs;
            forall j :: 0 <= j < |runs| ==> LinkLike(runs[j].style)
  {
    var a := line[|line| - 1].attributes;
    var runs := RenderLine(line, counters).0.content.runs;
    RenderLineRuns(line, counters);
    forall j | 0 <= j < |runs| ensures LinkLike(runs[j].style) {
      if j >= |runs| - |line| {
        var m := j - (|runs| - |line|);
        assert runs[|runs| - |line| + m] == Run(line[m].insert, StyleOf(line[m].attributes, HeaderLevel(a)));
        DefaultedStyle(line[m].attributes, HeaderLevel(a));
      }
    }
  }

  /**
   * No run of a rendered decoded document is struck through, and a run is
   * underlined exactly when it has the link colour.
   */
  lemma NoStrikethroughInDecodedDocuments(json: string, decoded: Option<JsonDoc>)
    ensures forall k, j :: 0 <= k < |ParseQuill(json, decoded)| && 0 <= j < |ParseQuill(json, decoded)[k].content.runs| ==>
              LinkLike(ParseQuill(json, decoded)[k].content.runs[j].style)
  {
    var blocks := ParseQuill(json, decoded);
    if DecodeContent(decoded).Some? {
      var ops := DecodeContent(decoded).value;
      var lines := Segment(ops);
      DecodedOps(decoded, ops);
      SegmentFromDefaulted(ops, []);
      DocumentBlocks(json, decoded, ops);
      forall k | 0 <= k < |blocks|
        ensures forall j :: 0 <= j < |blocks[k].content.runs| ==> LinkLike(blocks[k].content.runs[j].style)
      {
        DefaultedLineRuns(lines[k], RenderLines(lines[..k], map[]).1);
      }
    }
  }

  // =======================================================================
  // convertStringToQuillJson round trip
  // =======================================================================

  /** One single-operation line per piece */
  function Singles(pieces: seq<string>, attrs: Option<QuillAttributes>): (lines: seq<Line>)
    ensures |lines| == |pieces|
  {
    seq(|pieces|, k requires 0 <= k < |pieces| => [QuillOp(pieces[k], attrs)])
  }

  /** With a last piece after them, every piece closes a line of its own. */
  lemma {:induction false} SplitIntoLinesSingles(pieces: seq<string>, last: string, attrs: Option<QuillAttributes>)
    ensures SplitIntoLines(pieces + [last], attrs, []).0 == Singles(pieces, attrs)
  {
    if |pieces| > 0 {
      var rest := pieces[1..];
      assert (pieces + [last])[1..] == rest + [last];
      SplitIntoLinesSingles(rest, last, attrs);
      assert [] + [QuillOp(pieces[0], attrs)] == [QuillOp(pieces[0], attrs)];
      assert Singles(pieces, attrs) == [[QuillOp(pieces[0], attrs)]] + Singles(rest, attrs);
    }
  }

  /** The block of a line holding one unattributed operation */
  function PlainBlock(text: string): RenderBlock {
    RenderBlock(StyledText([Run(text, PlainStyle)], [], None), false)
  }

  /**
   * Rendering the document built from a plain string gives one unquoted,
   * unindented, unannotated plain block per line of the string.
   */
  lemma ConvertRoundTrip(json: string, s: string)
    ensures var blocks := ParseQuill(json, Some(ConvertStringToQuillJson(s)));
            var pieces := Split(s, '\n');
            |blocks| == |pieces| && forall k :: 0 <= k < |pieces| ==> blocks[k] == PlainBlock(pieces[k])
  {
    var pieces := Split(s, '\n');
    var lines := Singles(pieces, None);
    ConvertSegments(s);
    var blocks := ParseQuill(json, Some(ConvertStringToQuillJson(s)));
    assert blocks == RenderLines(lines, map[]).0;
    forall k | 0 <= k < |pieces|
      ensures blocks[k] == PlainBlock(pieces[k])
    {
      RenderLinesAt(lines, map[], k);
      PlainLineBlock(pieces[k], RenderLines(lines[..k], map[]).1);
    }
  }

  /** The converted document decodes to its one operation, cut into one line per piece. */
  lemma ConvertSegments(s: string)
    ensures var op := QuillOp(s + "\n", None);
            DecodeContent(Some(ConvertStringToQuillJson(s))) == Some([op])
            && Segment([op]) == Singles(Split(s, '\n'), None)
  {
    var doc := ConvertStringToQuillJson(s);
    var op := QuillOp(s + "\n", None);
    assert DecodeOps(doc.ops.value) == Some([op]) by {
      assert doc.ops.value[..0] == [];
      assert DecodeOp(doc.ops.value[0]) == Some(op);
      assert [] + [op] == [op];
    }
    var pieces := Split(s, '\n');
    SplitTrailingDelimiter(s, '\n');
    SplitIntoLinesSingles(pieces, "", None);
    assert Split(op.insert, '\n') == pieces + [""];
    var r := SplitIntoLines(pieces + [""], None, []);
    assert !IsBlock(op) && [op][1..] == [];
    assert Segment([op]) == r.0 + SegmentFrom([], r.1);
  }

  /** A line of one unattributed operation renders as a plain block, whatever the counters. */
  lemma PlainLineBlock(text: string, counters: map<int, int>)
    ensures RenderLine([QuillOp(text, None)], counters).0 == PlainBlock(text)
  {
    var line := [QuillOp(text, None)];
    assert StyleOf(None, 0) == PlainStyle;
    assert line[..0] == [];
    assert OpRuns(line, 0) == OpRuns([], 0) + [Run(text, PlainStyle)];
    assert OpUrls(line, 0) == [];
  }

  /** The lines of the rendered blocks, joined with newlines, give the string back. */
  lemma ConvertRoundTripText(json: string, s: string)
    ensures var blocks := ParseQuill(json, Some(ConvertStringToQuillJson(s)));
            Join(seq(|blocks|, k requires 0 <= k < |blocks| => BlockText(blocks[k])), '\n') == s
  {
    var blocks := ParseQuill(json, Some(ConvertStringToQuillJson(s)));
    var pieces := Split(s, '\n');
    ConvertRoundTrip(json, s);
    var texts := seq(|blocks|, k requires 0 <= k < |blocks| => BlockText(blocks[k]));
    forall k | 0 <= k < |pieces| ensures texts[k] == pieces[k] {
      assert RunsText([Run(pieces[k], PlainStyle)]) == RunsText([]) + pieces[k];
    }
    assert texts == pieces;
    JoinSplit(s, '\n');
  }
}
