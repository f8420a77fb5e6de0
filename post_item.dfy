/**
 * The logic inside the `PostItem` card: the post's mutable tag list as the
 * card edits it (a tag chosen in the search sheet is added; a tap on a tag
 * chip toggles the vote and may drop the tag), and the displayed height of
 * an image post. The tag list is the post's `mutableTags`, passed in and
 * handed back; the callbacks the card fires are returned.
 */
module PostItems {
  import opened Wrappers
  import opened Models

  // ---------------------------------------------------------------------
  // Searching a list
  // ---------------------------------------------------------------------

  /** The first index whose element satisfies `p`, `|s|` when none does */
  function FirstWhere<T>(s: seq<T>, p: T -> bool): (k: nat)
    ensures k <= |s|
    ensures k < |s| ==> p(s[k])
    ensures forall j :: 0 <= j < k ==> !p(s[j])
  {
    if |s| == 0 then 0
    else if p(s[0]) then 0
    else 1 + FirstWhere(s[1..], p)
  }

  /** The scan `firstOrNull`, `any` and `remove` perform */
  method FindFirst<T>(s: seq<T>, p: T -> bool) returns (k: nat)
    ensures k == FirstWhere(s, p)
  {
    k := 0;
    while k < |s| && !p(s[k])
      invariant k <= |s|
      invariant forall j :: 0 <= j < k ==> !p(s[j])
    {
      k := k + 1;
    }
    FirstWhereIsFirst(s, p, k);
  }

  /** The first index is determined by "holds there, and nowhere before". */
  lemma {:induction false} FirstWhereIsFirst<T>(s: seq<T>, p: T -> bool, k: nat)
    requires k <= |s| && (k < |s| ==> p(s[k])) && forall j :: 0 <= j < k ==> !p(s[j])
    ensures FirstWhere(s, p) == k
  {
    if |s| > 0 && k > 0 {
      assert !p(s[0]);
      forall j | 0 <= j < k - 1
        ensures !p(s[1..][j])
      {
        assert s[1..][j] == s[j + 1];
      }
      FirstWhereIsFirst(s[1..], p, k - 1);
    }
  }

  // ---------------------------------------------------------------------
  // Tag names
  // ---------------------------------------------------------------------

  /** `tags.any { it.tag == name }` */
  predicate HasName(tags: seq<TagModel>, name: Option<string>) {
    exists i :: 0 <= i < |tags| && tags[i].tag == name
  }

  /** No two tags of the list share a name */
  predicate DistinctNames(tags: seq<TagModel>) {
    forall i, j :: 0 <= i < j < |tags| ==> tags[i].tag != tags[j].tag
  }

  /** Whether a tag bears the name; `TagModel.equals` compares nothing else */
  function Named(name: Option<string>): TagModel -> bool {
    (t: TagModel) => t.tag == name
  }

  /** `HasName` is what the scan finds. */
  lemma HasNameFound(tags: seq<TagModel>, name: Option<string>)
    ensures HasName(tags, name) <==> FirstWhere(tags, Named(name)) < |tags|
  {
    if HasName(tags, name) {
      var i :| 0 <= i < |tags| && tags[i].tag == name;
      assert Named(name)(tags[i]);
    }
  }

  // ---------------------------------------------------------------------
  // A tag chosen in the search sheet
  // ---------------------------------------------------------------------

  /** The copy of the chosen tag that is inserted: score 1, local score 1, liked */
  function AddedTag(t: TagModel): TagModel {
    t.(score := Some(1), localScore := 1, isLiked := true)
  }

  /** The list after choosing `t`: unchanged when a tag of that name is there, else the copy in front */
  function AddSearched(tags: seq<TagModel>, t: TagModel): seq<TagModel> {
    if HasName(tags, t.tag) then tags else [AddedTag(t)] + tags
  }

  /** The arguments of `onAddPostTag`: the post's URL and the tag name, `""` for either when null */
  function AddCall(url: Option<string>, t: TagModel): (string, string) {
    (url.GetOr(""), t.tag.GetOr(""))
  }

  /**
   * Choosing a tag leaves the name in the list, adds at most the one copy
   * in front (score 1, liked), keeps names distinct, and a second choice
   * of the same tag changes nothing.
   */
  lemma AddSearchedProperties(tags: seq<TagModel>, t: TagModel)
    ensures var r := AddSearched(tags, t);
      HasName(r, t.tag)
      && (HasName(tags, t.tag) ==> r == tags)
      && (!HasName(tags, t.tag) ==>
            |r| == |tags| + 1 && r[1..] == tags
            && r[0].tag == t.tag && r[0].score == Some(1) && r[0].localScore == 1 && r[0].isLiked)
      && (DistinctNames(tags) ==> DistinctNames(r))
      && AddSearched(r, t) == r
  {
    var r := AddSearched(tags, t);
    if !HasName(tags, t.tag) {
      assert r[0].tag == t.tag;
      assert r[1..] == tags;
      if DistinctNames(tags) {
        forall i, j | 0 <= i < j < |r|
          ensures r[i].tag != r[j].tag
        {
          if i == 0 {
            assert r[j] == tags[j - 1];
          } else {
            assert r[i] == tags[i - 1] && r[j] == tags[j - 1];
          }
        }
      }
    }
  }

  /**
   * `TagSearchPage`'s `onClose` in the card: nothing for `null`; otherwise
   * the scan for a tag of the same name, and the insertion and the
   * `onAddPostTag` call when there is none.
   */
  method OnSearchClosed(tags: seq<TagModel>, url: Option<string>, chosen: Option<TagModel>)
    returns (r: seq<TagModel>, added: Option<(string, string)>)
    ensures chosen.None? ==> r == tags && added.None?
    ensures chosen.Some? ==> r == AddSearched(tags, chosen.value)
    ensures chosen.Some? ==>
      added == (if HasName(tags, chosen.value.tag) then None else Some(AddCall(url, chosen.value)))
  {
    r, added := tags, None;
    if chosen.Some? {
      var t := chosen.value;
      var k := FindFirst(tags, Named(t.tag));
      HasNameFound(tags, t.tag);
      if k == |tags| {
        var copy := AddedTag(t);
        added := Some(AddCall(url, copy));
        r := [copy] + tags;
      }
    }
  }

  // ---------------------------------------------------------------------
  // A vote tap on a tag chip
  // ---------------------------------------------------------------------

  /** The tapped tag: a liked tag loses one point, any other gains one, and the flag flips */
  function Toggled(t: TagModel): TagModel {
    t.(localScore := if t.isLiked then t.localScore - 1 else t.localScore + 1, isLiked := !t.isLiked)
  }

  /** A second tap undoes the first: the tag is back as it was. */
  lemma ToggleTwice(t: TagModel)
    ensures Toggled(Toggled(t)) == t
    ensures Toggled(t).isLiked != t.isLiked && Toggled(t).tag == t.tag
  {
  }

  /** `tags.remove(tag)`: the first tag equal to `t`, that is of the same name, is dropped. */
  function RemoveEqual(tags: seq<TagModel>, t: TagModel): seq<TagModel> {
    var k := FirstWhere(tags, Named(t.tag));
    if k < |tags| then tags[..k] + tags[k + 1..] else tags
  }

  /**
   * The tap as written: the tag at `i` is toggled in place, and when its
   * score is no longer positive the first tag of its name is removed.
   */
  function TapAsWritten(tags: seq<TagModel>, i: nat): seq<TagModel>
    requires i < |tags|
  {
    var u := tags[i := Toggled(tags[i])];
    if u[i].localScore <= 0 then RemoveEqual(u, u[i]) else u
  }

  /** The tap as intended: the tag at `i` is toggled, and removed itself when its score is no longer positive. */
  function Tap(tags: seq<TagModel>, i: nat): seq<TagModel>
    requires i < |tags|
  {
    var t := Toggled(tags[i]);
    if t.localScore <= 0 then tags[..i] + tags[i + 1..] else tags[i := t]
  }

  /**
   * The intended tap touches only the tapped tag: the ones before and
   * after it stay, and the tapped one is either toggled or gone, gone
   * exactly when its toggled score is not positive. Names stay distinct.
   */
  lemma TapProperties(tags: seq<TagModel>, i: nat)
    requires i < |tags|
    ensures var r := Tap(tags, i);
      r[..i] == tags[..i]
      && (Toggled(tags[i]).localScore <= 0 <==> |r| == |tags| - 1)
      && (Toggled(tags[i]).localScore <= 0 ==> r[i..] == tags[i + 1..])
      && (Toggled(tags[i]).localScore > 0 ==> |r| == |tags| && r[i] == Toggled(tags[i]) && r[i + 1..] == tags[i + 1..])
      && (DistinctNames(tags) ==> DistinctNames(r))
  {
    var r := Tap(tags, i);
    if Toggled(tags[i]).localScore <= 0 {
      assert r[..i] == tags[..i];
      assert r[i..] == tags[i + 1..];
      if DistinctNames(tags) {
        forall a, b | 0 <= a < b < |r|
          ensures r[a].tag != r[b].tag
        {
          var a' := if a < i then a else a + 1;
          var b' := if b < i then b else b + 1;
          assert r[a] == tags[a'] && r[b] == tags[b'];
        }
      }
    }
  }

  /** Two taps on a tag that stays positive throughout give the list back. */
  lemma TapTwiceRestores(tags: seq<TagModel>, i: nat)
    requires i < |tags| && tags[i].localScore > 0 && Toggled(tags[i]).localScore > 0
    ensures i < |Tap(tags, i)| && Tap(Tap(tags, i), i) == tags
  {
    ToggleTwice(tags[i]);
    assert Tap(tags, i)[i] == Toggled(tags[i]);
  }

  /**
   * While no tag before the tapped one bears its name (so in particular
   * on a list of distinct names) the code does what is intended.
   */
  lemma TapAgreesWithoutEarlierNamesake(tags: seq<TagModel>, i: nat)
    requires i < |tags|
    requires forall j :: 0 <= j < i ==> tags[j].tag != tags[i].tag
    ensures TapAsWritten(tags, i) == Tap(tags, i)
  {
    var u := tags[i := Toggled(tags[i])];
    if u[i].localScore <= 0 {
      FirstWhereIsFirst(u, Named(u[i].tag), i);
      assert u[..i] == tags[..i];
      assert u[i + 1..] == tags[i + 1..];
    }
  }

  lemma TapAgreesOnDistinctNames(tags: seq<TagModel>, i: nat)
    requires i < |tags| && DistinctNames(tags)
    ensures TapAsWritten(tags, i) == Tap(tags, i)
  {
    TapAgreesWithoutEarlierNamesake(tags, i);
  }

  /**
   * With two tags of one name, tapping away the last point of the second
   * removes the first instead: the tapped chip stays, at score 0.
   */
  lemma TapRemovesNamesake()
    ensures var first := TagModel(None, Some(3), Some("news"), Some("1"), None, 3, false);
      var second := TagModel(None, Some(1), Some("news"), Some("2"), None, 1, true);
      TapAsWritten([first, second], 1) == [Toggled(second)]
      && Toggled(second).localScore == 0
      && Tap([first, second], 1) == [first]
  {
    var first := TagModel(None, Some(3), Some("news"), Some("1"), None, 3, false);
    var second := TagModel(None, Some(1), Some("news"), Some("2"), None, 1, true);
    var u := [first, Toggled(second)];
    assert FirstWhere(u, Named(Some("news"))) == 0;
    assert u[1..] == [Toggled(second)];
  }

  /**
   * The chip's click handler as written. It exists only while signed in;
   * `liked` is the tag `onLike` receives, already toggled.
   */
  method OnTagTapAsWritten(tags: seq<TagModel>, i: nat, isLogin: bool) returns (r: seq<TagModel>, liked: Option<TagModel>)
    requires i < |tags|
    ensures !isLogin ==> r == tags && liked.None?
    ensures isLogin ==> r == TapAsWritten(tags, i) && liked == Some(Toggled(tags[i]))
  {
    if !isLogin {
      return tags, None;
    }
    var tag := Toggled(tags[i]);
    r := tags[i := tag];
    if tag.localScore <= 0 {
      var k := FindFirst(r, Named(tag.tag));
      if k < |r| {
        r := r[..k] + r[k + 1..];
      }
    }
    liked := Some(tag);
  }

  /** The chip's click handler with the tapped tag itself removed */
  method OnTagTap(tags: seq<TagModel>, i: nat, isLogin: bool) returns (r: seq<TagModel>, liked: Option<TagModel>)
    requires i < |tags|
    ensures !isLogin ==> r == tags && liked.None?
    ensures isLogin ==> r == Tap(tags, i) && liked == Some(Toggled(tags[i]))
  {
    if !isLogin {
      return tags, None;
    }
    var tag := Toggled(tags[i]);
    if tag.localScore <= 0 {
      r := tags[..i] + tags[i + 1..];
    } else {
      r := tags[i := tag];
    }
    liked := Some(tag);
  }

  // ---------------------------------------------------------------------
  // Image height
  // ---------------------------------------------------------------------

  /**
   * The size an image post is laid out at, for the height limit
   * `maxHeight` (320 dp in pixels): an image taller than the limit is
   * shown at the limit, its width rescaled by `scale(width, height,
   * maxHeight)`; any other keeps its size. Unknown sizes count as 0.
   */
  function DisplaySize(width: Option<int>, height: Option<int>, maxHeight: int,
                       scale: (int, int, int) -> int): (size: (int, int))
    ensures size.1 <= maxHeight && size.1 <= height.GetOr(0)
    ensures height.GetOr(0) > maxHeight ==> size == (scale(width.GetOr(0), height.GetOr(0), maxHeight), maxHeight)
    ensures height.GetOr(0) <= maxHeight ==> size == (width.GetOr(0), height.GetOr(0))
  {
    var w := width.GetOr(0);
    var h := height.GetOr(0);
    if h > maxHeight then (scale(w, h, maxHeight), maxHeight) else (w, h)
  }

  /** Laying out the displayed size again changes nothing. */
  lemma DisplaySizeIdempotent(width: Option<int>, height: Option<int>, maxHeight: int, scale: (int, int, int) -> int)
    ensures var s := DisplaySize(width, height, maxHeight, scale);
      DisplaySize(Some(s.0), Some(s.1), maxHeight, scale) == s
  {
  }
}
