/**
 * The posts screen's own logic: how the loaded posts follow the tag and
 * vote events other screens broadcast, and what the sort sheet does when a
 * row is chosen. The loaded posts are the paging snapshot's items; a post's
 * tag list is its `mutableTags`, passed in and handed back.
 */
module PostsPage {
  import opened Wrappers
  import opened Models
  import opened PostItems

  // ---------------------------------------------------------------------
  // Tag events
  // ---------------------------------------------------------------------

  /** Whether a post has this id */
  function HasId(id: Option<string>): PostModel -> bool {
    (p: PostModel) => p.id == id
  }

  /** The tag a tag event inserts: score 1 (so local score 1), no count, liked */
  function EventTag(e: TagEvent): TagModel {
    TagModel(e.postId, Some(1), Some(e.tag), e.tagId, None, 1, true)
  }

  /** The posts after a tag event: the first post with the event's id gets the tag in front, without a duplicate check */
  function AfterTagEvent(posts: seq<PostModel>, e: TagEvent): seq<PostModel> {
    var k := FirstWhere(posts, HasId(e.postId));
    if k < |posts| then posts[k := posts[k].(mutableTags := [EventTag(e)] + posts[k].mutableTags)] else posts
  }

  /**
   * A tag event changes only the first post whose id is the event's, and
   * of it only the tag list, which gains the new tag in front; without
   * such a post nothing changes.
   */
  lemma TagEventProperties(posts: seq<PostModel>, e: TagEvent)
    ensures var r := AfterTagEvent(posts, e);
      |r| == |posts|
      && ((forall j :: 0 <= j < |posts| ==> posts[j].id != e.postId) ==> r == posts)
      && forall j :: 0 <= j < |posts| && posts[j].id == e.postId && (forall m :: 0 <= m < j ==> posts[m].id != e.postId) ==>
           r[j].mutableTags == [EventTag(e)] + posts[j].mutableTags
           && r[j].(mutableTags := posts[j].mutableTags) == posts[j]
           && forall m :: 0 <= m < |posts| && m != j ==> r[m] == posts[m]
  {
    var k := FirstWhere(posts, HasId(e.postId));
    forall j | 0 <= j < |posts| && posts[j].id == e.postId && (forall m :: 0 <= m < j ==> posts[m].id != e.postId)
      ensures k == j
    {
      assert HasId(e.postId)(posts[j]);
      FirstWhereIsFirst(posts, HasId(e.postId), j);
    }
  }

  /** Since nothing is checked, a tag event for a name the post already carries leaves two tags of that name. */
  lemma TagEventMayDuplicate(posts: seq<PostModel>, e: TagEvent, k: nat)
    requires k < |posts| && posts[k].id == e.postId && forall m :: 0 <= m < k ==> posts[m].id != e.postId
    requires HasName(posts[k].mutableTags, Some(e.tag))
    ensures !DistinctNames(AfterTagEvent(posts, e)[k].mutableTags)
  {
    assert HasId(e.postId)(posts[k]);
    FirstWhereIsFirst(posts, HasId(e.postId), k);
    var tags := posts[k].mutableTags;
    var i :| 0 <= i < |tags| && tags[i].tag == Some(e.tag);
    var r := [EventTag(e)] + tags;
    assert r[0].tag == r[i + 1].tag;
  }

  /** `tagEventFlow`'s collector: the scan for the post, and the insertion */
  method OnTagEvent(posts: seq<PostModel>, e: TagEvent) returns (r: seq<PostModel>)
    ensures r == AfterTagEvent(posts, e)
  {
    var k := FindFirst(posts, HasId(e.postId));
    r := posts;
    if k < |posts| {
      var post := posts[k];
      r := posts[k := post.(mutableTags := [EventTag(e)] + post.mutableTags)];
    }
  }

  // ---------------------------------------------------------------------
  // Like events
  // ---------------------------------------------------------------------

  /** A tag of the event's name: liked set as the event says, the local score moved one point that way */
  function Adjusted(t: TagModel, liked: bool): TagModel {
    t.(isLiked := liked, localScore := if liked then t.localScore + 1 else t.localScore - 1)
  }

  /** A post's tags after a like event: every tag of the event's name adjusted, and dropped once not positive; the rest kept */
  function LikeTags(tags: seq<TagModel>, e: LikeEvent): seq<TagModel> {
    if |tags| == 0 then []
    else
      var rest := LikeTags(tags[1..], e);
      if tags[0].tag == e.tag then
        var a := Adjusted(tags[0], e.isLiked);
        if a.localScore <= 0 then rest else [a] + rest
      else [tags[0]] + rest
  }

  /** The tags not of this name, in order */
  function OtherNames(tags: seq<TagModel>, name: Option<string>): seq<TagModel> {
    if |tags| == 0 then []
    else if tags[0].tag == name then OtherNames(tags[1..], name)
    else [tags[0]] + OtherNames(tags[1..], name)
  }

  /** Tags of other names come through a like event unchanged and in order. */
  lemma {:induction false} LikeTagsKeepsOthers(tags: seq<TagModel>, e: LikeEvent)
    ensures OtherNames(LikeTags(tags, e), e.tag) == OtherNames(tags, e.tag)
  {
    if |tags| > 0 {
      LikeTagsKeepsOthers(tags[1..], e);
      var rest := LikeTags(tags[1..], e);
      if tags[0].tag == e.tag {
        var a := Adjusted(tags[0], e.isLiked);
        if a.localScore > 0 {
          assert ([a] + rest)[1..] == rest;
        }
      } else {
        assert ([tags[0]] + rest)[1..] == rest;
      }
    }
  }

  /**
   * What a like event leaves of the event's name: only tags liked as the
   * event says with a positive score, and never more tags than before.
   */
  lemma {:induction false} LikeTagsMatching(tags: seq<TagModel>, e: LikeEvent)
    ensures |LikeTags(tags, e)| <= |tags|
    ensures forall t :: t in LikeTags(tags, e) && t.tag == e.tag ==> t.isLiked == e.isLiked && t.localScore > 0
  {
    if |tags| > 0 {
      LikeTagsMatching(tags[1..], e);
    }
  }

  /** An upvote removes nothing from a list without negative scores. */
  lemma {:induction false} UpvoteRemovesNothing(tags: seq<TagModel>, e: LikeEvent)
    requires e.isLiked && forall i :: 0 <= i < |tags| ==> tags[i].localScore >= 0
    ensures |LikeTags(tags, e)| == |tags|
  {
    if |tags| > 0 {
      UpvoteRemovesNothing(tags[1..], e);
    }
  }

  /** A list with no tag of the event's name comes through unchanged. */
  lemma {:induction false} LikeTagsWithoutName(tags: seq<TagModel>, e: LikeEvent)
    requires !HasName(tags, e.tag)
    ensures LikeTags(tags, e) == tags
  {
    if |tags| > 0 {
      assert tags[0].tag != e.tag;
      assert !HasName(tags[1..], e.tag) by {
        forall i | 0 <= i < |tags| - 1
          ensures tags[1..][i].tag != e.tag
        {
          assert tags[1..][i] == tags[i + 1];
        }
      }
      LikeTagsWithoutName(tags[1..], e);
    }
  }

  /**
   * On a list of distinct names, the event a vote on tag `i` broadcasts
   * (its name, the flipped flag) does to the list what the tap itself
   * does: the two screens agree.
   */
  lemma {:induction false} LikeEventMirrorsTap(tags: seq<TagModel>, i: nat, e: LikeEvent)
    requires i < |tags| && DistinctNames(tags)
    requires e.tag == tags[i].tag && e.isLiked == !tags[i].isLiked
    ensures LikeTags(tags, e) == Tap(tags, i)
  {
    DistinctNamesTail(tags);
    if i == 0 {
      MirrorsAtHead(tags, e);
    } else {
      assert tags[1..][i - 1] == tags[i];
      LikeEventMirrorsTap(tags[1..], i - 1, e);
      MirrorsAfterHead(tags, i, e);
    }
  }

  /** The tail of a list of distinct names has distinct names, none of them the head's. */
  lemma DistinctNamesTail(tags: seq<TagModel>)
    requires |tags| > 0 && DistinctNames(tags)
    ensures DistinctNames(tags[1..]) && !HasName(tags[1..], tags[0].tag)
  {
    var rest := tags[1..];
    forall a, b | 0 <= a < b < |rest|
      ensures rest[a].tag != rest[b].tag
    {
      assert rest[a] == tags[a + 1] && rest[b] == tags[b + 1];
    }
    forall j | 0 <= j < |rest|
      ensures rest[j].tag != tags[0].tag
    {
      assert rest[j] == tags[j + 1];
    }
  }

  /** The event for the head tag adjusts it as a tap does and leaves the rest alone. */
  lemma MirrorsAtHead(tags: seq<TagModel>, e: LikeEvent)
    requires |tags| > 0 && e.tag == tags[0].tag && e.isLiked == !tags[0].isLiked
    requires !HasName(tags[1..], e.tag)
    ensures LikeTags(tags, e) == Tap(tags, 0)
  {
    var rest := tags[1..];
    assert Adjusted(tags[0], e.isLiked) == Toggled(tags[0]);
    LikeTagsWithoutName(rest, e);
    assert tags[..0] + tags[1..] == rest;
    if Toggled(tags[0]).localScore > 0 {
      assert tags[0 := Toggled(tags[0])] == [Toggled(tags[0])] + rest;
    }
  }

  /** Past a head of another name, event and tap both keep the head and act on the tail. */
  lemma MirrorsAfterHead(tags: seq<TagModel>, i: nat, e: LikeEvent)
    requires 0 < i < |tags| && tags[0].tag != e.tag
    requires LikeTags(tags[1..], e) == Tap(tags[1..], i - 1)
    ensures LikeTags(tags, e) == Tap(tags, i)
  {
    var rest := tags[1..];
    assert rest[i - 1] == tags[i];
    if Toggled(tags[i]).localScore <= 0 {
      assert tags[..i] + tags[i + 1..] == [tags[0]] + (rest[..i - 1] + rest[i..]);
    } else {
      assert tags[i := Toggled(tags[i])] == [tags[0]] + rest[i - 1 := Toggled(tags[i])];
    }
  }

  /** The posts after a like event: the tags of the first post with the event's id follow it */
  function AfterLikeEvent(posts: seq<PostModel>, e: LikeEvent): seq<PostModel> {
    var k := FirstWhere(posts, HasId(e.postID));
    if k < |posts| then posts[k := posts[k].(mutableTags := LikeTags(posts[k].mutableTags, e))] else posts
  }

  /** A like event changes only the tag list of the first post whose id is the event's, and nothing without one. */
  lemma LikeEventProperties(posts: seq<PostModel>, e: LikeEvent)
    ensures var r := AfterLikeEvent(posts, e);
      |r| == |posts|
      && ((forall j :: 0 <= j < |posts| ==> posts[j].id != e.postID) ==> r == posts)
      && forall j :: 0 <= j < |posts| && posts[j].id == e.postID && (forall m :: 0 <= m < j ==> posts[m].id != e.postID) ==>
           r[j].mutableTags == LikeTags(posts[j].mutableTags, e)
           && r[j].(mutableTags := posts[j].mutableTags) == posts[j]
           && forall m :: 0 <= m < |posts| && m != j ==> r[m] == posts[m]
  {
    var k := FirstWhere(posts, HasId(e.postID));
    forall j | 0 <= j < |posts| && posts[j].id == e.postID && (forall m :: 0 <= m < j ==> posts[m].id != e.postID)
      ensures k == j
    {
      assert HasId(e.postID)(posts[j]);
      FirstWhereIsFirst(posts, HasId(e.postID), j);
    }
  }

  /** The iterator pass over one post's tags: each tag of the event's name adjusted, and removed once not positive */
  method AdjustTags(tags: seq<TagModel>, e: LikeEvent) returns (kept: seq<TagModel>)
    ensures kept == LikeTags(tags, e)
  {
    kept := [];
    var i := 0;
    while i < |tags|
      invariant 0 <= i <= |tags|
      invariant kept + LikeTags(tags[i..], e) == LikeTags(tags, e)
    {
      var currentTag := tags[i];
      assert tags[i..][1..] == tags[i + 1..];
      if currentTag.tag == e.tag {
        currentTag := Adjusted(currentTag, e.isLiked);
        if currentTag.localScore > 0 {
          kept := kept + [currentTag];
        }
      } else {
        kept := kept + [currentTag];
      }
      i := i + 1;
    }
    assert tags[|tags|..] == [];
  }

  /** `likeEventFlow`'s collector: the scan for the post, then the pass over its tags */
  method OnLikeEvent(posts: seq<PostModel>, e: LikeEvent) returns (r: seq<PostModel>)
    ensures r == AfterLikeEvent(posts, e)
  {
    var k := FindFirst(posts, HasId(e.postID));
    r := posts;
    if k < |posts| {
      var kept := AdjustTags(posts[k].mutableTags, e);
      r := posts[k := posts[k].(mutableTags := kept)];
    }
  }

  // ---------------------------------------------------------------------
  // The sort sheet
  // ---------------------------------------------------------------------

  /** What choosing a row does: open the timeframe list, or report a sort and close the sheet */
  datatype SheetAction = ShowTimeframes | UpdateAndClose(sort: PostSortType, time: Option<PostTimeType>)

  /** A sort row, by its index among all sort entries: the last one opens the timeframes, any other reports its sort. */
  function PressSortRow(index: nat): (a: SheetAction)
    requires index < |SortEntries|
    ensures a == ShowTimeframes <==> SortEntries[index] == TOP
    ensures a.UpdateAndClose? ==> a.sort == SortEntries[index] && a.time.None?
  {
    if index == |SortEntries| - 1 then ShowTimeframes else UpdateAndClose(SortEntries[index], None)
  }

  /** A timeframe row reports TOP with that timeframe and closes the sheet. */
  function PressTimeRow(time: PostTimeType): (a: SheetAction)
    ensures a.UpdateAndClose? && a.sort == TOP && a.time == Some(time)
  {
    UpdateAndClose(TOP, Some(time))
  }

  /** The radio button of a sort row is on for the current sort */
  predicate Selected(current: PostSortModel, index: nat)
    requires index < |SortEntries|
  {
    current.sort == SortEntries[index]
  }

  /**
   * The sort rows drawn, as indices into all sort entries: every entry in
   * order, TOP skipped when it is to be hidden.
   */
  method SortRows(isHideTop: bool) returns (rows: seq<nat>)
    ensures forall k: nat :: k in rows <==> k < |SortEntries| && !(isHideTop && SortEntries[k] == TOP)
    ensures forall a, b :: 0 <= a < b < |rows| ==> rows[a] < rows[b]
  {
    rows := [];
    var index := 0;
    while index < |SortEntries|
      invariant 0 <= index <= |SortEntries|
      invariant forall k: nat :: k in rows <==> k < index && !(isHideTop && SortEntries[k] == TOP)
      invariant forall a, b :: 0 <= a < b < |rows| ==> rows[a] < rows[b]
      invariant forall a :: 0 <= a < |rows| ==> rows[a] < index
    {
      if !(isHideTop && SortEntries[index] == TOP) {
        rows := rows + [index];
      }
      index := index + 1;
    }
  }

  /**
   * Whatever the sheet reports, a timeframe comes with TOP and only with
   * it; and where TOP is hidden, no sort row opens the timeframe list.
   */
  lemma SheetReportsTimeOnlyForTop(index: nat, time: PostTimeType, isHideTop: bool)
    requires index < |SortEntries|
    ensures PressSortRow(index).UpdateAndClose? ==> PressSortRow(index).sort != TOP
    ensures PressTimeRow(time).sort == TOP
    ensures isHideTop && !(isHideTop && SortEntries[index] == TOP) ==> PressSortRow(index).UpdateAndClose?
  {
  }

  /** Each sort is drawn at most once, so at most one visible row is selected. */
  lemma OneRowSelected(current: PostSortModel, a: nat, b: nat)
    requires a < |SortEntries| && b < |SortEntries|
    requires Selected(current, a) && Selected(current, b)
    ensures a == b
  {
  }
}
