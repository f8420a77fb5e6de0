/**
 * The tag search screen's logic: case-insensitive keyword highlighting of
 * a tag name, the visibility rule of the result list and the "create tag"
 * row.
 */
module TagSearch {
  import opened Wrappers
  import opened Strings
  import Models

  /** A styled piece of the highlighted text */
  datatype Piece = Plain(text: string) | Highlighted(text: string)

  function PiecesText(ps: seq<Piece>): string {
    if |ps| == 0 then "" else ps[0].text + PiecesText(ps[1..])
  }

  /**
   * What one found match appends: the plain text skipped over, when there
   * is any, then the match itself.
   */
  function MatchPieces(text: string, start: nat, index: nat, len: nat): (ps: seq<Piece>)
    requires start <= index && index + len <= |text|
    ensures |ps| > 0 && ps[|ps| - 1].Highlighted?
  {
    (if index > start then [Plain(text[start..index])] else []) + [Highlighted(text[index..index + len])]
  }

  /**
   * The runs from `start` on: `low` is the lower-cased text and `key` the
   * lower-cased, non-empty keyword; the runs themselves take their
   * characters from the original text.
   */
  function HighlightFrom(text: string, low: string, key: string, start: nat): seq<Piece>
    requires |low| == |text| && |key| > 0
    decreases |text| - start
  {
    if start >= |text| then []
    else
      var index := IndexOf(low, key, start);
      if index == -1 then [Plain(text[start..])]
      else MatchPieces(text, start, index, |key|) + HighlightFrom(text, low, key, index + |key|)
  }

  /** One step of the loop: the runs at `start` are either the rest of the text or a match and the runs after it. */
  lemma HighlightFromStep(text: string, low: string, key: string, start: nat)
    requires |low| == |text| && |key| > 0 && start < |text|
    ensures var index := IndexOf(low, key, start);
      (index == -1 ==> HighlightFrom(text, low, key, start) == [Plain(text[start..])])
      && (index != -1 ==>
            HighlightFrom(text, low, key, start) == MatchPieces(text, start, index, |key|) + HighlightFrom(text, low, key, index + |key|))
  {
  }

  /** `getHighlightAnnotatedString(text, keyword)` with `ignoreCase = true` */
  function Highlight(text: string, keyword: string): seq<Piece> {
    if |keyword| == 0 then [Plain(text)]
    else HighlightFrom(text, Lower(text), Lower(keyword), 0)
  }

  /** `getHighlightAnnotatedString(text, keyword)`, case-insensitive */
  method GetHighlightAnnotatedString(text: string, keyword: string) returns (pieces: seq<Piece>)
    ensures pieces == Highlight(text, keyword)
  {
    if |keyword| == 0 {
      pieces := [Plain(text)];
      return;
    }
    var textToSearch := Lower(text);
    var keywordToSearch := Lower(keyword);
    pieces := HighlightLoop(text, textToSearch, keywordToSearch);
  }

  /**
   * The search loop: find the next match at or after `startIndex`, append
   * the skipped text and the match, continue after the match.
   */
  method HighlightLoop(text: string, textToSearch: string, keywordToSearch: string) returns (pieces: seq<Piece>)
    requires |textToSearch| == |text| && |keywordToSearch| > 0
    ensures pieces == HighlightFrom(text, textToSearch, keywordToSearch, 0)
  {
    var startIndex := 0;
    pieces := [];
    while startIndex < |text|
      invariant 0 <= startIndex
      invariant pieces + HighlightFrom(text, textToSearch, keywordToSearch, startIndex)
             == HighlightFrom(text, textToSearch, keywordToSearch, 0)
      decreases |text| - startIndex
    {
      var found;
      pieces, startIndex, found := HighlightStep(text, textToSearch, keywordToSearch, pieces, startIndex);
      if !found {
        break;
      }
    }
  }

  /**
   * One pass of the loop body: with no further match the rest of the text
   * is appended as one plain piece; otherwise the skipped text and the
   * match, and the search resumes after the match.
   */
  method HighlightStep(text: string, textToSearch: string, keywordToSearch: string, pieces: seq<Piece>, startIndex: nat)
    returns (pieces': seq<Piece>, next: nat, found: bool)
    requires |textToSearch| == |text| && |keywordToSearch| > 0 && startIndex < |text|
    ensures !found ==> pieces' == pieces + HighlightFrom(text, textToSearch, keywordToSearch, startIndex)
    ensures found ==> startIndex < next
    ensures found ==> pieces' + HighlightFrom(text, textToSearch, keywordToSearch, next)
                      == pieces + HighlightFrom(text, textToSearch, keywordToSearch, startIndex)
  {
    var index := IndexOf(textToSearch, keywordToSearch, startIndex);
    HighlightFromStep(text, textToSearch, keywordToSearch, startIndex);
    if index == -1 {
      pieces' := pieces + [Plain(text[startIndex..])];
      next, found := startIndex, false;
      return;
    }
    pieces' := AppendMatch(pieces, text, startIndex, index, |keywordToSearch|);
    next, found := index + |keywordToSearch|, true;
    ghost var m := MatchPieces(text, startIndex, index, |keywordToSearch|);
    ghost var r := HighlightFrom(text, textToSearch, keywordToSearch, next);
    Regroup(pieces, m, r);
  }

  lemma Regroup(p: seq<Piece>, m: seq<Piece>, r: seq<Piece>)
    ensures (p + m) + r == p + (m + r)
  {
  }

  /** The two appends of one found match: the skipped text, if any, then the match */
  method AppendMatch(pieces: seq<Piece>, text: string, startIndex: nat, index: nat, len: nat) returns (pieces': seq<Piece>)
    requires startIndex <= index && index + len <= |text|
    ensures pieces' == pieces + MatchPieces(text, startIndex, index, len)
  {
    pieces' := pieces;
    if index > startIndex {
      pieces' := pieces' + [Plain(text[startIndex..index])];
    }
    pieces' := pieces' + [Highlighted(text[index..index + len])];
  }

  // ---------------------------------------------------------------------
  // Properties
  // ---------------------------------------------------------------------

  lemma {:induction false} PiecesTextAppend(a: seq<Piece>, b: seq<Piece>)
    ensures PiecesText(a + b) == PiecesText(a) + PiecesText(b)
    decreases |a|
  {
    if |a| == 0 {
      assert a + b == b;
    } else {
      assert (a + b)[1..] == a[1..] + b;
      PiecesTextAppend(a[1..], b);
      StringAssoc(a[0].text, PiecesText(a[1..]), PiecesText(b));
    }
  }

  lemma StringAssoc(x: string, y: string, z: string)
    ensures x + (y + z) == (x + y) + z
  {
  }

  lemma MatchPiecesText(text: string, start: nat, index: nat, len: nat)
    requires start <= index && index + len <= |text|
    ensures PiecesText(MatchPieces(text, start, index, len)) == text[start..index + len]
  {
    var ps := MatchPieces(text, start, index, len);
    var m := [Highlighted(text[index..index + len])];
    assert PiecesText(m) == text[index..index + len] by {
      assert m[1..] == [];
    }
    if index > start {
      assert ps[1..] == m;
      assert text[start..index] + text[index..index + len] == text[start..index + len];
    }
  }

  lemma SliceJoin(t: string, a: nat, b: nat)
    requires a <= b <= |t|
    ensures t[a..b] + t[b..] == t[a..]
  {
  }

  /** One found match, seen through the text the pieces spell */
  lemma PiecesTextStep(text: string, low: string, key: string, start: nat)
    requires |low| == |text| && |key| > 0 && start < |text| && IndexOf(low, key, start) != -1
    ensures var index := IndexOf(low, key, start);
      PiecesText(HighlightFrom(text, low, key, start))
      == PiecesText(MatchPieces(text, start, index, |key|)) + PiecesText(HighlightFrom(text, low, key, index + |key|))
  {
    var index := IndexOf(low, key, start);
    HighlightFromStep(text, low, key, start);
    PiecesTextAppend(MatchPieces(text, start, index, |key|), HighlightFrom(text, low, key, index + |key|));
  }

  /** A found match and the pieces after it spell the text from `start`, given that the latter spell the rest. */
  lemma FoundText(text: string, low: string, key: string, start: nat)
    requires |low| == |text| && |key| > 0 && start < |text| && IndexOf(low, key, start) != -1
    requires PiecesText(HighlightFrom(text, low, key, IndexOf(low, key, start) + |key|))
             == text[IndexOf(low, key, start) + |key|..]
    ensures PiecesText(HighlightFrom(text, low, key, start)) == text[start..]
  {
    var index := IndexOf(low, key, start);
    var mid := index + |key|;
    PiecesTextStep(text, low, key, start);
    MatchPiecesText(text, start, index, |key|);
    SliceJoin(text, start, mid);
  }

  /** The pieces from `start` on spell the rest of the original text. */
  lemma {:induction false} HighlightFromText(text: string, low: string, key: string, start: nat)
    requires |low| == |text| && |key| > 0 && start <= |text|
    ensures PiecesText(HighlightFrom(text, low, key, start)) == text[start..]
    decreases |text| - start
  {
    if start < |text| {
      var index := IndexOf(low, key, start);
      if index != -1 {
        var mid := index + |key|;
        HighlightFromText(text, low, key, mid);
        FoundText(text, low, key, start);
      } else {
        HighlightFromStep(text, low, key, start);
        assert [Plain(text[start..])][1..] == [];
      }
    }
  }

  /** Concatenating the pieces gives back the text, for every keyword. */
  lemma HighlightKeepsText(text: string, keyword: string)
    ensures PiecesText(Highlight(text, keyword)) == text
  {
    if |keyword| > 0 {
      HighlightFromText(text, Lower(text), Lower(keyword), 0);
    } else {
      assert [Plain(text)][1..] == [];
    }
  }

  /** An empty keyword gives one plain piece with the whole text. */
  lemma EmptyKeyword(text: string)
    ensures Highlight(text, "") == [Plain(text)]
  {
  }

  /** An empty text with a real keyword gives no pieces at all. */
  lemma EmptyText(keyword: string)
    requires |keyword| > 0
    ensures Highlight("", keyword) == []
  {
  }

  /** Case-insensitive equality of strings */
  predicate EqualsIgnoreCase(a: string, b: string) {
    Lower(a) == Lower(b)
  }

  /** A piece is well formed when it is what the loop may append. */
  predicate GoodPiece(p: Piece, keyword: string) {
    match p
    case Highlighted(t) => |t| == |keyword| && EqualsIgnoreCase(t, keyword)
    case Plain(t) => |t| > 0 && !Contains(Lower(t), Lower(keyword))
  }

  /** No two plain pieces are next to each other. */
  predicate NoAdjacentPlain(ps: seq<Piece>) {
    forall i :: 0 <= i < |ps| - 1 ==> !(ps[i].Plain? && ps[i + 1].Plain?)
  }

  predicate AllGood(ps: seq<Piece>, keyword: string) {
    forall k :: 0 <= k < |ps| ==> GoodPiece(ps[k], keyword)
  }

  lemma LowerSlice(text: string, i: nat, j: nat)
    requires i <= j <= |text|
    ensures Lower(text[i..j]) == Lower(text)[i..j]
  {
  }

  /** A plain slice the search skipped over has no occurrence of the keyword. */
  lemma SkippedHasNoKey(low: string, key: string, start: nat, stop: nat)
    requires start <= stop <= |low| && |key| > 0
    requires forall i :: start <= i < stop ==> !OccursAt(low, key, i)
    ensures !Contains(low[start..stop], key)
  {
    ContainsIffOccurs(low[start..stop], key);
    forall j | OccursAt(low[start..stop], key, j) ensures OccursAt(low, key, start + j) {
      var sl := low[start..stop];
      forall k | 0 <= k < |key| ensures low[start + j + k] == key[k] {
        assert sl[j..j + |key|][k] == sl[j + k];
      }
    }
  }

  /** Joining two good piece lists, the first ending in a match, keeps them good. */
  lemma JoinGood(a: seq<Piece>, b: seq<Piece>, keyword: string)
    requires AllGood(a, keyword) && AllGood(b, keyword) && NoAdjacentPlain(a) && NoAdjacentPlain(b)
    requires |a| > 0 && a[|a| - 1].Highlighted?
    ensures AllGood(a + b, keyword) && NoAdjacentPlain(a + b)
  {
    var ab := a + b;
    forall i | 0 <= i < |ab| - 1 ensures !(ab[i].Plain? && ab[i + 1].Plain?) {
      if i + 1 < |a| {
        assert ab[i] == a[i] && ab[i + 1] == a[i + 1];
      } else if i >= |a| {
        assert ab[i] == b[i - |a|] && ab[i + 1] == b[i + 1 - |a|];
      }
    }
  }

  /** The pieces a match appends are good. */
  lemma MatchPiecesGood(text: string, keyword: string, start: nat, index: nat)
    requires |keyword| > 0 && start <= index && index + |keyword| <= |text|
    requires forall i :: start <= i < index ==> !OccursAt(Lower(text), Lower(keyword), i)
    requires OccursAt(Lower(text), Lower(keyword), index)
    ensures AllGood(MatchPieces(text, start, index, |keyword|), keyword)
    ensures NoAdjacentPlain(MatchPieces(text, start, index, |keyword|))
  {
    var low, key := Lower(text), Lower(keyword);
    LowerSlice(text, index, index + |keyword|);
    assert GoodPiece(Highlighted(text[index..index + |keyword|]), keyword);
    if index > start {
      LowerSlice(text, start, index);
      SkippedHasNoKey(low, key, start, index);
      assert GoodPiece(Plain(text[start..index]), keyword);
    }
  }

  /**
   * Every piece is well formed -- highlighted ones have the keyword's
   * length and match it ignoring case, plain ones are non-empty and
   * contain no match -- and no two plain pieces touch.
   */
  lemma {:induction false} HighlightFromPieces(text: string, keyword: string, start: nat)
    requires |keyword| > 0 && start <= |text|
    ensures AllGood(HighlightFrom(text, Lower(text), Lower(keyword), start), keyword)
    ensures NoAdjacentPlain(HighlightFrom(text, Lower(text), Lower(keyword), start))
    decreases |text| - start
  {
    var low, key := Lower(text), Lower(keyword);
    if start < |text| {
      var index := IndexOf(low, key, start);
      if index == -1 {
        NoMatchPieces(text, keyword, start);
      } else {
        HighlightFromPieces(text, keyword, index + |key|);
        HeadGood(text, keyword, start);
        FoundPieces(text, low, key, keyword, start);
      }
    }
  }

  /** Without a further match the one plain piece left is good. */
  lemma NoMatchPieces(text: string, keyword: string, start: nat)
    requires |keyword| > 0 && start < |text| && IndexOf(Lower(text), Lower(keyword), start) == -1
    ensures AllGood(HighlightFrom(text, Lower(text), Lower(keyword), start), keyword)
    ensures NoAdjacentPlain(HighlightFrom(text, Lower(text), Lower(keyword), start))
  {
    var low, key := Lower(text), Lower(keyword);
    HighlightFromStep(text, low, key, start);
    IndexOfNone(low, key, start);
    LowerSlice(text, start, |text|);
    SkippedHasNoKey(low, key, start, |text|);
    assert text[start..|text|] == text[start..];
    assert low[start..|text|] == low[start..];
  }

  /** The runs of one match are good on their own. */
  lemma HeadGood(text: string, keyword: string, start: nat)
    requires |keyword| > 0 && start < |text| && IndexOf(Lower(text), Lower(keyword), start) != -1
    ensures var index := IndexOf(Lower(text), Lower(keyword), start);
      index + |Lower(keyword)| <= |text|
      && AllGood(MatchPieces(text, start, index, |Lower(keyword)|), keyword)
      && NoAdjacentPlain(MatchPieces(text, start, index, |Lower(keyword)|))
  {
    var low, key := Lower(text), Lower(keyword);
    IndexOfFound(low, key, start);
    MatchPiecesGood(text, keyword, start, IndexOf(low, key, start));
  }

  /** A match followed by good pieces gives good pieces. */
  lemma FoundPieces(text: string, low: string, key: string, keyword: string, start: nat)
    requires |low| == |text| && |key| > 0 && start < |text|
    requires var index := IndexOf(low, key, start);
      index != -1
      && AllGood(MatchPieces(text, start, index, |key|), keyword)
      && NoAdjacentPlain(MatchPieces(text, start, index, |key|))
      && AllGood(HighlightFrom(text, low, key, index + |key|), keyword)
      && NoAdjacentPlain(HighlightFrom(text, low, key, index + |key|))
    ensures AllGood(HighlightFrom(text, low, key, start), keyword)
    ensures NoAdjacentPlain(HighlightFrom(text, low, key, start))
  {
    var index := IndexOf(low, key, start);
    HighlightFromStep(text, low, key, start);
    JoinGood(MatchPieces(text, start, index, |key|), HighlightFrom(text, low, key, index + |key|), keyword);
  }

  lemma HighlightPieces(text: string, keyword: string)
    requires |keyword| > 0
    ensures AllGood(Highlight(text, keyword), keyword) && NoAdjacentPlain(Highlight(text, keyword))
  {
    HighlightFromPieces(text, keyword, 0);
  }

  // ---------------------------------------------------------------------
  // The result list and the create row
  // ---------------------------------------------------------------------

  /** The result list is shown when a tag may be created from the input, or when there are results. */
  predicate ShowResults(canCreateTag: bool, inputText: string, tags: Option<seq<Models.TagModel>>) {
    (canCreateTag && !IsBlank(inputText)) || (tags.Some? && |tags.value| > 0)
  }

  /** Tapping the create row: nothing for an empty keyword, else a new bare tag */
  function CreateTagTap(keyword: string, votes: Option<seq<Models.VoteModel>>): (r: Option<Models.TagModel>)
    ensures r.None? <==> |keyword| == 0
    ensures r.Some? ==> r.value.tag == Some(keyword) && r.value.postID.None? && r.value.tagID.None?
    ensures r.Some? ==> r.value.score.None? && r.value.count.None? && r.value.localScore == 0
  {
    if |keyword| == 0 then None
    else Some(Models.NewTagModel(None, None, Some(keyword), None, None, votes))
  }

  /** With no results the list appears only for a non-blank input that may become a tag. */
  lemma ShowResultsWithoutTags(canCreateTag: bool, inputText: string)
    ensures ShowResults(canCreateTag, inputText, None) <==> canCreateTag && !IsBlank(inputText)
    ensures ShowResults(canCreateTag, inputText, Some([])) <==> canCreateTag && !IsBlank(inputText)
  {
  }
}
