/**
 * Properties of the Quill Delta renderer: when decoding fails, how a
 * document is cut into lines, what text each rendered block holds, how
 * ordered lists are numbered, how runs are styled and annotated, and the
 * round trip through `convertStringToQuillJson`.
 */
module QuillProperties {
  import opened Wrappers
  import opened Strings
  import opened Quill

  // =======================================================================
  // Decoding
  // =======================================================================

  /** An element `getJSONObject` or `getString("insert")` throws on */
  predicate OpFails(o: Option<JsonOp>) {
    o.None? || o.value.insert.None?
  }

  lemma {:induction false} DecodeOpsFailsIff(ops: seq<Option<JsonOp>>)
    ensures DecodeOps(ops).None? <==> exists i :: 0 <= i < |ops| && OpFails(ops[i])
  {
    if |ops| > 0 {
      var prefix := ops[..|ops| - 1];
      DecodeOpsFailsIff(prefix);
      if exists i :: 0 <= i < |ops| && OpFails(ops[i]) {
        var i :| 0 <= i < |ops| && OpFails(ops[i]);
        if i < |ops| - 1 {
          assert OpFails(prefix[i]);
        }
      }
      if exists i :: 0 <= i < |prefix| && OpFails(prefix[i]) {
        var i :| 0 <= i < |prefix| && OpFails(prefix[i]);
        assert OpFails(ops[i]);
      }
    }
  }

  lemma {:induction false} DecodeOpsShape(ops: seq<Option<JsonOp>>)
    requires DecodeOps(ops).Some?
    ensures |DecodeOps(ops).value| == |ops|
    ensures forall i :: 0 <= i < |ops| ==>
              DecodeOp(ops[i]).Some? && DecodeOps(ops).value[i] == DecodeOp(ops[i]).value
  {
    if |ops| > 0 {
      var prefix := ops[..|ops| - 1];
      DecodeOpsShape(prefix);
      forall i | 0 <= i < |ops| - 1
        ensures DecodeOp(ops[i]).Some? && DecodeOps(ops).value[i] == DecodeOp(ops[i]).value
      {
        assert prefix[i] == ops[i];
      }
    }
  }

  /**
   * parseJsonContent returns null exactly when the text is not an object,
   * "ops" is not an array, or some element is not an object with an
   * "insert" string; the renderer then shows the raw text as one block.
   */
  lemma DecodeContentFailsIff(json: string, decoded: Option<JsonDoc>)
    ensures DecodeContent(decoded).None? <==>
            decoded.None? || decoded.value.ops.None?
            || exists i :: 0 <= i < |decoded.value.ops.value| && OpFails(decoded.value.ops.value[i])
    ensures DecodeContent(decoded).None? ==> ParseQuill(json, decoded) == [FallbackBlock(json)]
  {
    if decoded.Some? && decoded.value.ops.Some? {
      DecodeOpsFailsIff(decoded.value.ops.value);
    }
  }

  /** All present attributes carry every field, as the decoder fills them in. */
  predicate AllDefaulted(ops: seq<QuillOp>) {
    forall i :: 0 <= i < |ops| && ops[i].attributes.Some? ==> Defaulted(ops[i].attributes.value)
  }

  /**
   * The decoder gives every attributed operation all nine fields, so every
   * attributed operation is a block and none without attributes is.
   */
  lemma DecodedOps(decoded: Option<JsonDoc>, ops: seq<QuillOp>)
    requires DecodeContent(decoded) == Some(ops)
    ensures |ops| == |decoded.value.ops.value|
    ensures forall i :: 0 <= i < |ops| ==>
              !OpFails(decoded.value.ops.value[i])
              && ops[i].insert == decoded.value.ops.value[i].value.insert.value
              && (ops[i].attributes.Some? <==> decoded.value.ops.value[i].value.attributes.Some?)
    ensures AllDefaulted(ops)
    ensures forall i :: 0 <= i < |ops| ==> (IsBlock(ops[i]) <==> ops[i].attributes.Some?)
  {
    var elements := decoded.value.ops.value;
    DecodeOpsShape(elements);
    forall i | 0 <= i < |ops|
      ensures !OpFails(elements[i]) && ops[i].insert == elements[i].value.insert.value
      ensures ops[i].attributes.Some? <==> elements[i].value.attributes.Some?
      ensures ops[i].attributes.Some? ==> Defaulted(ops[i].attributes.value)
    {
      assert ops[i] == DecodeOp(elements[i]).value;
    }
  }

  // =======================================================================
  // Line segmentation
  // =======================================================================

  /** The number of lines `ops` close: one per block, one per newline of any other op */
  function Breaks(ops: seq<QuillOp>): nat {
    if |ops| == 0 then 0
    else (if IsBlock(ops[0]) then 1 else Count(ops[0].insert, '\n')) + Breaks(ops[1..])
  }

  lemma {:induction false} SegmentFromCount(ops: seq<QuillOp>, line: Line)
    ensures |SegmentFrom(ops, line)| == Breaks(ops)
  {
    if |ops| > 0 {
      if !IsBlock(ops[0]) {
        SplitCount(ops[0].insert, '\n');
        var r := SplitIntoLines(Split(ops[0].insert, '\n'), ops[0].attributes, line);
        SegmentFromCount(ops[1..], r.1);
      } else {
        SegmentFromCount(ops[1..], []);
      }
    }
  }

  /** The same count written in terms of the decoded document: attributes close one line */
  function AttributedBreaks(ops: seq<QuillOp>): nat {
    if |ops| == 0 then 0
    else (if ops[0].attributes.Some? then 1 else Count(ops[0].insert, '\n')) + AttributedBreaks(ops[1..])
  }

  lemma {:induction false} BreaksOfDecoded(ops: seq<QuillOp>)
    requires forall i :: 0 <= i < |ops| ==> (IsBlock(ops[i]) <==> ops[i].attributes.Some?)
    ensures Breaks(ops) == AttributedBreaks(ops)
  {
    if |ops| > 0 {
      assert IsBlock(ops[0]) <==> ops[0].attributes.Some?;
      BreaksOfDecoded(ops[1..]);
    }
  }

  /**
   * A decoded document renders to one block per attributed operation plus
   * one per newline inside the unattributed ones.
   */
  lemma BlockCount(json: string, decoded: Option<JsonDoc>, ops: seq<QuillOp>)
    requires DecodeContent(decoded) == Some(ops)
    ensures |ParseQuill(json, decoded)| == AttributedBreaks(ops)
  {
    DecodedOps(decoded, ops);
    SegmentFromCount(ops, []);
    BreaksOfDecoded(ops);
  }

  /** A piece of a text operation: no newline left in it, no block attributes */
  predicate PieceOp(op: QuillOp) {
    !IsBlock(op) && '\n' !in op.insert
  }

  /** The empty operation a block operation contributes */
  predicate Terminator(op: QuillOp) {
    IsBlock(op) && op.insert == ""
  }

  predicate AllPieces(line: Line) {
    forall m :: 0 <= m < |line| ==> PieceOp(line[m])
  }

  /** Pieces followed by one last piece or the empty terminator of a block */
  predicate WellFormedLine(line: Line) {
    |line| > 0 && AllPieces(line[..|line| - 1])
    && (PieceOp(line[|line| - 1]) || Terminator(line[|line| - 1]))
  }

  lemma AllPiecesSnoc(line: Line, op: QuillOp)
    requires AllPieces(line)
    ensures PieceOp(op) ==> AllPieces(line + [op])
    ensures WellFormedLine(line + [op]) <==> PieceOp(op) || Terminator(op)
  {
    assert (line + [op])[..|line|] == line;
  }

  lemma {:induction false} SplitIntoLinesWellFormed(pieces: seq<string>, attrs: Option<QuillAttributes>, line: Line)
    requires AllPieces(line)
    requires forall k :: 0 <= k < |pieces| ==> '\n' !in pieces[k]
    requires !IsBlock(QuillOp("", attrs))
    ensures var r := SplitIntoLines(pieces, attrs, line);
            (forall k :: 0 <= k < |r.0| ==> WellFormedLine(r.0[k])) && AllPieces(r.1)
  {
    if |pieces| > 0 {
      assert PieceOp(QuillOp(pieces[0], attrs));
      AllPiecesSnoc(line, QuillOp(pieces[0], attrs));
      if |pieces| > 1 {
        SplitIntoLinesWellFormed(pieces[1..], attrs, []);
      }
    }
  }

  /**
   * Every line the segmentation closes holds newline-free pieces of text
   * operations, ended either by such a piece or by the empty operation of
   * a block.
   */
  lemma {:induction false} SegmentFromWellFormed(ops: seq<QuillOp>, line: Line)
    requires AllPieces(line)
    ensures forall k :: 0 <= k < |SegmentFrom(ops, line)| ==> WellFormedLine(SegmentFrom(ops, line)[k])
  {
    if |ops| > 0 {
      if IsBlock(ops[0]) {
        AllPiecesSnoc(line, QuillOp("", ops[0].attributes));
        SegmentFromWellFormed(ops[1..], []);
      } else {
        SplitPiecesHaveNoDelimiter(ops[0].insert, '\n');
        var r := SplitIntoLines(Split(ops[0].insert, '\n'), ops[0].attributes, line);
        SplitIntoLinesWellFormed(Split(ops[0].insert, '\n'), ops[0].attributes, line);
        SegmentFromWellFormed(ops[1..], r.1);
      }
    }
  }

  /** The line still pending after `ops` (parseQuillJS drops it) */
  function PendingAfter(ops: seq<QuillOp>, line: Line): Line {
    if |ops| == 0 then line
    else if IsBlock(ops[0]) then PendingAfter(ops[1..], [])
    else PendingAfter(ops[1..], SplitIntoLines(Split(ops[0].insert, '\n'), ops[0].attributes, line).1)
  }

  lemma {:induction false} SegmentFromAppend(a: seq<QuillOp>, b: seq<QuillOp>, line: Line)
    ensures SegmentFrom(a + b, line) == SegmentFrom(a, line) + SegmentFrom(b, PendingAfter(a, line))
    ensures PendingAfter(a + b, line) == PendingAfter(b, PendingAfter(a, line))
  {
    if |a| == 0 {
      assert a + b == b;
    } else {
      assert (a + b)[0] == a[0];
      assert (a + b)[1..] == a[1..] + b;
      if IsBlock(a[0]) {
        SegmentFromAppend(a[1..], b, []);
      } else {
        var r := SplitIntoLines(Split(a[0].insert, '\n'), a[0].attributes, line);
        SegmentFromAppend(a[1..], b, r.1);
      }
    }
  }

  /** Operations without blocks and without newlines close no line. */
  lemma {:induction false} UnterminatedCloseNothing(ops: seq<QuillOp>, line: Line)
    requires forall i :: 0 <= i < |ops| ==> PieceOp(ops[i])
    ensures SegmentFrom(ops, line) == []
  {
    if |ops| > 0 {
      SplitWithoutDelimiter(ops[0].insert, '\n');
      UnterminatedCloseNothing(ops[1..], line + [QuillOp(ops[0].insert, ops[0].attributes)]);
    }
  }

  /**
   * Text after the last line terminator is never rendered: appending
   * operations that neither are blocks nor contain a newline does not change
   * the lines.
   */
  lemma TrailingTextDropped(ops: seq<QuillOp>, tail: seq<QuillOp>)
    requires forall i :: 0 <= i < |tail| ==> PieceOp(tail[i])
    ensures Segment(ops + tail) == Segment(ops)
  {
    SegmentFromAppend(ops, tail, []);
    UnterminatedCloseNothing(tail, PendingAfter(ops, []));
  }

  // -----------------------------------------------------------------------
  // Text conservation
  // -----------------------------------------------------------------------

  /** The inserts of all lines, concatenated */
  function LinesText(lines: seq<Line>): string {
    if |lines| == 0 then "" else InsertsText(lines[0]) + LinesText(lines[1..])
  }

  /** `s` with every `c` removed */
  function Without(s: string, c: char): string {
    if |s| == 0 then "" else (if s[0] == c then "" else [s[0]]) + Without(s[1..], c)
  }

  /** The pieces of a split, concatenated */
  function Concat(pieces: seq<string>): string {
    if |pieces| == 0 then "" else pieces[0] + Concat(pieces[1..])
  }

  /** The text the lines keep: every text operation's insert without its newlines */
  function KeptText(ops: seq<QuillOp>): string {
    if |ops| == 0 then ""
    else (if IsBlock(ops[0]) then "" else Without(ops[0].insert, '\n')) + KeptText(ops[1..])
  }

  lemma {:induction false} ConcatSplit(s: string, c: char)
    ensures Concat(Split(s, c)) == Without(s, c)
  {
    if |s| > 0 {
      ConcatSplit(s[1..], c);
      var rest := Split(s[1..], c);
      if s[0] != c {
        var r := Split(s, c);
        assert r[1..] == rest[1..];
        assert Concat(rest) == rest[0] + Concat(rest[1..]);
      }
    }
  }

  lemma InsertsTextSnoc(line: Line, op: QuillOp)
    ensures InsertsText(line + [op]) == InsertsText(line) + op.insert
  {
    assert (line + [op])[..|line|] == line;
  }

  lemma {:induction false} LinesTextAppend(a: seq<Line>, b: seq<Line>)
    ensures LinesText(a + b) == LinesText(a) + LinesText(b)
  {
    if |a| > 0 {
      assert (a + b)[1..] == a[1..] + b;
      LinesTextAppend(a[1..], b);
    } else {
      assert a + b == b;
    }
  }

  /** Closing `line + [op]` in front of `rest` */
  lemma LinesTextCons(line: Line, op: QuillOp, rest: seq<Line>)
    ensures LinesText([line + [op]] + rest) == InsertsText(line) + op.insert + LinesText(rest)
  {
    LinesTextAppend([line + [op]], rest);
    InsertsTextSnoc(line, op);
    assert LinesText([line + [op]]) == InsertsText(line + [op]) + LinesText([]);
  }

  lemma {:induction false} SplitIntoLinesText(pieces: seq<string>, attrs: Option<QuillAttributes>, line: Line)
    requires |pieces| > 0
    ensures var r := SplitIntoLines(pieces, attrs, line);
            LinesText(r.0) + InsertsText(r.1) == InsertsText(line) + Concat(pieces)
  {
    var text, p, c := InsertsText(line), pieces[0], Concat(pieces[1..]);
    assert Concat(pieces) == p + c;
    if |pieces| > 1 {
      var rest := SplitIntoLines(pieces[1..], attrs, []);
      var l, q := LinesText(rest.0), InsertsText(rest.1);
      assert l + q == c by {
        SplitIntoLinesText(pieces[1..], attrs, []);
        assert InsertsText([]) == "";
      }
      assert LinesText([line + [QuillOp(p, attrs)]] + rest.0) == text + p + l by {
        LinesTextCons(line, QuillOp(p, attrs), rest.0);
      }
      assert SplitIntoLines(pieces, attrs, line) == ([line + [QuillOp(p, attrs)]] + rest.0, rest.1);
      Reassociate(text + p, l, q, c);
      Associative(text, p, c);
    } else {
      assert c == "";
      assert LinesText([]) == "";
      InsertsTextSnoc(line, QuillOp(p, attrs));
    }
  }

  lemma TextConservationBlock(ops: seq<QuillOp>, line: Line)
    requires |ops| > 0 && IsBlock(ops[0])
    requires LinesText(SegmentFrom(ops[1..], [])) + InsertsText(PendingAfter(ops[1..], []))
             == InsertsText([]) + KeptText(ops[1..])
    ensures LinesText(SegmentFrom(ops, line)) + InsertsText(PendingAfter(ops, line))
            == InsertsText(line) + KeptText(ops)
  {
    var rest := SegmentFrom(ops[1..], []);
    var l, q, k := LinesText(rest), InsertsText(PendingAfter(ops[1..], [])), KeptText(ops[1..]);
    assert l + q == k by {
      assert InsertsText([]) == "";
    }
    assert LinesText(SegmentFrom(ops, line)) == InsertsText(line) + l by {
      assert SegmentFrom(ops, line) == [line + [QuillOp("", ops[0].attributes)]] + rest;
      LinesTextCons(line, QuillOp("", ops[0].attributes), rest);
    }
    assert PendingAfter(ops, line) == PendingAfter(ops[1..], []);
    assert KeptText(ops) == k by {
      assert KeptText(ops) == "" + k;
    }
    Reassociate(InsertsText(line), l, q, k);
  }

  lemma Reassociate(a: string, b: string, c: string, d: string)
    requires b + c == d
    ensures (a + b) + c == a + d
  {
  }

  lemma Associative(a: string, b: string, c: string)
    ensures (a + b) + c == a + (b + c)
  {
  }

  lemma Regroup(x: string, y: string, z: string, m: string, k: string, i: string, w: string)
    requires y + z == m + k && x + m == i + w
    ensures (x + y) + z == i + (w + k)
  {
    Reassociate(x, y, z, m + k);
    Associative(x, m, k);
    Associative(i, w, k);
  }

  lemma TextConservationText(ops: seq<QuillOp>, line: Line)
    requires |ops| > 0 && !IsBlock(ops[0])
    requires var r := SplitIntoLines(Split(ops[0].insert, '\n'), ops[0].attributes, line);
             LinesText(SegmentFrom(ops[1..], r.1)) + InsertsText(PendingAfter(ops[1..], r.1))
             == InsertsText(r.1) + KeptText(ops[1..])
    ensures LinesText(SegmentFrom(ops, line)) + InsertsText(PendingAfter(ops, line))
            == InsertsText(line) + KeptText(ops)
  {
    var pieces := Split(ops[0].insert, '\n');
    var r := SplitIntoLines(pieces, ops[0].attributes, line);
    var rest := SegmentFrom(ops[1..], r.1);
    var l0, l, q, k := LinesText(r.0), LinesText(rest), InsertsText(PendingAfter(ops[1..], r.1)), KeptText(ops[1..]);
    var w := Without(ops[0].insert, '\n');
    assert l0 + InsertsText(r.1) == InsertsText(line) + w by {
      SplitIntoLinesText(pieces, ops[0].attributes, line);
      ConcatSplit(ops[0].insert, '\n');
    }
    assert l + q == InsertsText(r.1) + k;
    assert LinesText(SegmentFrom(ops, line)) == l0 + l by {
      LinesTextAppend(r.0, rest);
    }
    assert PendingAfter(ops, line) == PendingAfter(ops[1..], r.1);
    assert KeptText(ops) == w + k;
    Regroup(l0, l, q, InsertsText(r.1), k, InsertsText(line), w);
  }

  /**
   * Nothing is lost but the inserts of block operations (replaced by the empty
   * terminator) and the newlines: the closed lines followed by the pending one
   * hold exactly the text of the text operations, newlines removed.
   */
  lemma {:induction false} TextConservation(ops: seq<QuillOp>, line: Line)
    ensures LinesText(SegmentFrom(ops, line)) + InsertsText(PendingAfter(ops, line))
            == InsertsText(line) + KeptText(ops)
  {
    if |ops| > 0 {
      if IsBlock(ops[0]) {
        TextConservation(ops[1..], []);
        TextConservationBlock(ops, line);
      } else {
        var r := SplitIntoLines(Split(ops[0].insert, '\n'), ops[0].attributes, line);
        TextConservation(ops[1..], r.1);
        TextConservationText(ops, line);
      }
    }
  }
}
