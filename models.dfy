/**
 * The server records the application passes around -- votes, tags, posts
 * and comments -- with their hand-written `equals`/`hashCode` and the
 * small derived values (post type, media URL, formatted time).
 */
module Models {
  import opened Wrappers
  import Strings
  import Duration
  import Urls

  // ---------------------------------------------------------------------
  // 32-bit hashing, as the JVM does it
  // ---------------------------------------------------------------------

  const TWO_32: int := 0x1_0000_0000
  const TWO_31: int := 0x8000_0000

  /** The signed 32-bit value an `Int` expression wraps around to */
  function Wrap32(x: int): (r: int)
    ensures Strings.InInt32(r)
    ensures (r - x) % TWO_32 == 0
  {
    (x + TWO_31) % TWO_32 - TWO_31
  }

  /** One step of the `31 * result + h` recurrence, wrapping like `Int` */
  function HashStep(acc: int, h: int): int {
    Wrap32(Wrap32(31 * acc) + h)
  }

  /** `String.hashCode()`: the `31 * h + c` recurrence over the characters */
  function StringHash(s: string): (h: int)
    ensures Strings.InInt32(h)
  {
    if |s| == 0 then 0 else HashStep(StringHash(s[..|s| - 1]), s[|s| - 1] as int)
  }

  /** `x?.hashCode() ?: 0` for a nullable string */
  function OptStringHash(s: Option<string>): int {
    if s.Some? then StringHash(s.value) else 0
  }

  // ---------------------------------------------------------------------
  // VoteModel
  // ---------------------------------------------------------------------

  datatype VoteModel = VoteModel(postID: Option<string>, tagID: Option<string>)

  /** `VoteModel.equals`: both ids equal, null equal to null */
  predicate VoteEquals(a: VoteModel, b: VoteModel) {
    a.postID == b.postID && a.tagID == b.tagID
  }

  /** `VoteModel.hashCode` */
  function VoteHash(v: VoteModel): int {
    HashStep(OptStringHash(v.postID), OptStringHash(v.tagID))
  }

  /** Vote equality is equality of the two ids, so it is reflexive, symmetric and transitive. */
  lemma VoteEqualsIsValueEquality(a: VoteModel, b: VoteModel)
    ensures VoteEquals(a, b) <==> a == b
  {
  }

  /** Equal votes hash alike. */
  lemma VoteHashConsistent(a: VoteModel, b: VoteModel)
    requires VoteEquals(a, b)
    ensures VoteHash(a) == VoteHash(b)
  {
  }

  /**
   * `isLiked(postId, tagId)` over the cached vote list: false while there
   * is no list, otherwise whether some vote carries both ids.
   */
  predicate IsLiked(votes: Option<seq<VoteModel>>, postId: Option<string>, tagId: Option<string>) {
    votes.Some? && exists i :: 0 <= i < |votes.value| && votes.value[i].postID == postId && votes.value[i].tagID == tagId
  }

  lemma IsLikedIff(votes: Option<seq<VoteModel>>, postId: Option<string>, tagId: Option<string>)
    ensures IsLiked(votes, postId, tagId) <==> votes.Some? && VoteModel(postId, tagId) in votes.value
  {
    if votes.Some? && VoteModel(postId, tagId) in votes.value {
      var i :| 0 <= i < |votes.value| && votes.value[i] == VoteModel(postId, tagId);
    }
  }

  // ---------------------------------------------------------------------
  // TagModel
  // ---------------------------------------------------------------------

  /**
   * A tag of a post. `localScore` and `isLiked` are the two state cells
   * the screens update; they start from `score ?: 0` and the vote lookup.
   */
  datatype TagModel = TagModel(
    postID: Option<string>,
    score: Option<int>,
    tag: Option<string>,
    tagID: Option<string>,
    count: Option<int>,
    localScore: int,
    isLiked: bool)

  /** The `TagModel(...)` constructor with its default state cells */
  function NewTagModel(postID: Option<string>, score: Option<int>, tag: Option<string>, tagID: Option<string>,
                       count: Option<int>, votes: Option<seq<VoteModel>>): (t: TagModel)
    ensures t.localScore == (if score.Some? then score.value else 0)
    ensures t.isLiked <==> votes.Some? && VoteModel(postID, tagID) in votes.value
    ensures t.postID == postID && t.score == score && t.tag == tag && t.tagID == tagID && t.count == count
  {
    IsLikedIff(votes, postID, tagID);
    TagModel(postID, score, tag, tagID, count, score.GetOr(0), IsLiked(votes, postID, tagID))
  }

  /** `TagModel.equals`: only the tag name is compared */
  predicate TagEquals(a: TagModel, b: TagModel) {
    a.tag == b.tag
  }

  /** `TagModel.hashCode` */
  function TagHash(t: TagModel): int {
    OptStringHash(t.tag)
  }

  /** Tag equality ignores every field but the name, and is an equivalence. */
  lemma TagEqualsProperties(a: TagModel, b: TagModel, c: TagModel)
    ensures TagEquals(a, a)
    ensures TagEquals(a, b) ==> TagEquals(b, a)
    ensures TagEquals(a, b) && TagEquals(b, c) ==> TagEquals(a, c)
    ensures TagEquals(a, b) ==> TagHash(a) == TagHash(b)
    ensures TagEquals(a, a.(postID := b.postID, score := b.score, tagID := b.tagID, count := b.count,
                            localScore := b.localScore, isLiked := b.isLiked))
  {
  }

  /** `List<TagModel>.equals`: same length and pairwise `TagEquals` */
  predicate TagListEquals(a: seq<TagModel>, b: seq<TagModel>) {
    |a| == |b| && forall i :: 0 <= i < |a| ==> TagEquals(a[i], b[i])
  }

  /** `List.hashCode()`: starting from 1, `31 * h + element.hashCode()` */
  function TagListHash(ts: seq<TagModel>): int {
    if |ts| == 0 then 1 else HashStep(TagListHash(ts[..|ts| - 1]), TagHash(ts[|ts| - 1]))
  }

  lemma {:induction false} TagListHashConsistent(a: seq<TagModel>, b: seq<TagModel>)
    requires TagListEquals(a, b)
    ensures TagListHash(a) == TagListHash(b)
  {
    if |a| > 0 {
      var n := |a| - 1;
      assert TagListEquals(a[..n], b[..n]) by {
        forall i | 0 <= i < n ensures TagEquals(a[..n][i], b[..n][i]) {
          assert a[..n][i] == a[i] && b[..n][i] == b[i];
        }
      }
      TagListHashConsistent(a[..n], b[..n]);
      assert TagEquals(a[n], b[n]);
    }
  }

  /** `tags == other.tags` for nullable lists */
  predicate OptTagListEquals(a: Option<seq<TagModel>>, b: Option<seq<TagModel>>) {
    (a.None? && b.None?) || (a.Some? && b.Some? && TagListEquals(a.value, b.value))
  }

  /** A vote on a post's tag, broadcast so that other screens can follow it */
  datatype LikeEvent = LikeEvent(isLiked: bool, postID: Option<string>, tag: Option<string>)

  /** A tag added to a post, broadcast likewise */
  datatype TagEvent = TagEvent(postId: Option<string>, tagId: Option<string>, tag: string)

  // ---------------------------------------------------------------------
  // PostType
  // ---------------------------------------------------------------------

  datatype PostType = IMAGE | VIDEO | TEXT | HTML | LINK | BLOG

  /** `PostType.getType()` */
  function GetType(t: PostType): string {
    match t
    case IMAGE => "image"
    case VIDEO => "video"
    case TEXT => "text"
    case HTML => "html"
    case LINK => "link"
    case BLOG => "blog"
  }

  /** `getPostType()` on the server's type string */
  function PostTypeOf(type_: Option<string>): PostType {
    if type_ == Some("image") then IMAGE
    else if type_ == Some("video") then VIDEO
    else if type_ == Some("text") then TEXT
    else if type_ == Some("html") then HTML
    else if type_ == Some("blog") then BLOG
    else LINK
  }

  /** Type names round-trip. */
  lemma PostTypeRoundTrip(t: PostType)
    ensures PostTypeOf(Some(GetType(t))) == t
  {
  }

  /** Any string other than the five exact names, or no string at all, means a link. */
  lemma PostTypeFallback(type_: Option<string>)
    ensures PostTypeOf(type_) != LINK <==>
      type_.Some? && type_.value in {"image", "video", "text", "html", "blog"}
    ensures PostTypeOf(type_) != LINK ==> GetType(PostTypeOf(type_)) == type_.value
  {
  }

  /** Matching is case-sensitive. */
  lemma PostTypeIsCaseSensitive()
    ensures PostTypeOf(Some("Image")) == LINK && PostTypeOf(Some("VIDEO")) == LINK
  {
    assert "Image"[0] != "image"[0];
    assert "VIDEO"[0] != "video"[0];
  }

  // ---------------------------------------------------------------------
  // Sorting choices
  // ---------------------------------------------------------------------

  datatype PostSortType = POPULAR | NEW | TOP {
    function Type(): string {
      match this
      case POPULAR => "Popular"
      case NEW => "New"
      case TOP => "Top"
    }
    function Name(): string {
      match this
      case POPULAR => "POPULAR"
      case NEW => "NEW"
      case TOP => "TOP"
    }
  }

  datatype PostTimeType = ALL | YEAR | MONTH | WEEK | DAY {
    function Type(): string {
      match this
      case ALL => "All"
      case YEAR => "Year"
      case MONTH => "Month"
      case WEEK => "Week"
      case DAY => "Day"
    }
  }

  const SortEntries: seq<PostSortType> := [POPULAR, NEW, TOP]
  const TimeEntries: seq<PostTimeType> := [ALL, YEAR, MONTH, WEEK, DAY]

  datatype PostSortModel = PostSortModel(sort: PostSortType, time: Option<PostTimeType>)

  // ---------------------------------------------------------------------
  // PostModel
  // ---------------------------------------------------------------------

  /**
   * A post: the thirteen server fields, then the three local ones. A
   * preview's media is an opaque URI, written as its string form.
   */
  datatype PostModel = PostModel(
    commentCount: Option<int>,
    content: Option<string>,
    height: Option<int>,
    id: Option<string>,
    link: Option<string>,
    score: Option<int>,
    tags: Option<seq<TagModel>>,
    time: Option<int>,
    title: Option<string>,
    type_: Option<string>,
    url: Option<string>,
    user: Option<string>,
    width: Option<int>,
    isPreview: bool,
    previewMedia: Option<string>,
    mutableTags: seq<TagModel>)

  /** The thirteen-argument constructor, with the local fields defaulted */
  function NewPostModel(commentCount: Option<int>, content: Option<string>, height: Option<int>, id: Option<string>,
                        link: Option<string>, score: Option<int>, tags: Option<seq<TagModel>>, time: Option<int>,
                        title: Option<string>, type_: Option<string>, url: Option<string>, user: Option<string>,
                        width: Option<int>): (p: PostModel)
    ensures !p.isPreview && p.previewMedia.None?
    ensures p.mutableTags == (if tags.Some? then tags.value else [])
    ensures p.tags == tags && p.url == url && p.type_ == type_ && p.id == id
  {
    PostModel(commentCount, content, height, id, link, score, tags, time, title, type_, url, user, width,
              false, None, tags.GetOr([]))
  }

  /** `PostModel.createPreviewModel(...)`, created at time `now` */
  function CreatePreviewModel(title: string, type_: PostType, link: string, tags: Option<seq<TagModel>>,
                              content: string, url: string, uri: Option<string>, now: int): PostModel
  {
    PostModel(Some(0), Some(content), Some(0), Some(""), Some(link), Some(0), tags, Some(now), Some(title),
              Some(GetType(type_)), Some(url), Some("user"), Some(0), true, uri, tags.GetOr([]))
  }

  /** `getPostType()` */
  function GetPostType(p: PostModel): PostType {
    PostTypeOf(p.type_)
  }

  /** `getMediaUrl()` */
  function GetMediaUrl(p: PostModel): string {
    var u := p.url.GetOr("");
    if p.isPreview then u
    else match GetPostType(p)
      case IMAGE => Urls.ImageUrl(u)
      case VIDEO => Urls.VideoUrl(u, true)
      case TEXT => u
      case HTML => u
      case LINK => Urls.ImageUrl(u)
      case BLOG => u
  }

  /** `getFormatTime()` at time `now` */
  function GetFormatTime(p: PostModel, now: int): (s: string)
    ensures p.time.None? ==> s == ""
    ensures p.time.Some? ==> s == Duration.FormatDuration(p.time.value, now)
  {
    if p.time.Some? then Duration.FormatDuration(p.time.value, now) else ""
  }

  /** A preview keeps what it was created from. */
  lemma PreviewModelProperties(title: string, type_: PostType, link: string, tags: Option<seq<TagModel>>,
                               content: string, url: string, uri: Option<string>, now: int)
    ensures var p := CreatePreviewModel(title, type_, link, tags, content, url, uri, now);
      p.isPreview && GetPostType(p) == type_ && GetMediaUrl(p) == url && p.user == Some("user")
      && p.mutableTags == (if tags.Some? then tags.value else []) && p.previewMedia == uri
  {
    PostTypeRoundTrip(type_);
  }

  /**
   * The media URL of a server post: the image host for images and links,
   * the video host with `.mp4` for videos, the raw URL otherwise; in each
   * case the raw URL is recoverable from it. A preview uses its raw URL.
   */
  lemma MediaUrlCases(p: PostModel)
    ensures var u := p.url.GetOr("");
      (p.isPreview ==> GetMediaUrl(p) == u)
      && (!p.isPreview && GetPostType(p) in {IMAGE, LINK} ==>
            Urls.Strip(GetMediaUrl(p), Urls.BASE_IMAGE_URL, Urls.WEBP) == Some(u))
      && (!p.isPreview && GetPostType(p) == VIDEO ==>
            Urls.Strip(GetMediaUrl(p), Urls.BASE_VIDEO_URL, Urls.MP4) == Some(u))
      && (!p.isPreview && GetPostType(p) in {TEXT, HTML, BLOG} ==> GetMediaUrl(p) == u)
  {
    var u := p.url.GetOr("");
    Urls.ImageUrlInverse(u);
    Urls.VideoUrlInverse(u, true);
  }

  /** `PostModel.equals`: the thirteen server fields, tags compared by name */
  predicate PostEquals(a: PostModel, b: PostModel) {
    a.commentCount == b.commentCount && a.content == b.content && a.height == b.height && a.id == b.id
    && a.link == b.link && a.score == b.score && OptTagListEquals(a.tags, b.tags) && a.time == b.time
    && a.title == b.title && a.type_ == b.type_ && a.url == b.url && a.user == b.user && a.width == b.width
  }

  /** `Long.hashCode()`: the two 32-bit halves of the 64-bit value, exclusive-or'ed */
  function LongHash(v: int): int {
    var u := (v % 0x1_0000_0000_0000_0000) as bv64;
    var x := u ^ (u >> 32);
    Wrap32((x & 0xFFFF_FFFF) as int)
  }

  function OptIntHash(x: Option<int>): int { x.GetOr(0) }

  /** `PostModel.hashCode` */
  function PostHash(p: PostModel): int {
    var r0 := OptIntHash(p.commentCount);
    var r1 := HashStep(r0, OptStringHash(p.content));
    var r2 := HashStep(r1, OptIntHash(p.height));
    var r3 := HashStep(r2, OptStringHash(p.id));
    var r4 := HashStep(r3, OptStringHash(p.link));
    var r5 := HashStep(r4, OptIntHash(p.score));
    var r6 := HashStep(r5, if p.tags.Some? then TagListHash(p.tags.value) else 0);
    var r7 := HashStep(r6, if p.time.Some? then LongHash(p.time.value) else 0);
    var r8 := HashStep(r7, OptStringHash(p.title));
    var r9 := HashStep(r8, OptStringHash(p.type_));
    var r10 := HashStep(r9, OptStringHash(p.url));
    var r11 := HashStep(r10, OptStringHash(p.user));
    HashStep(r11, OptIntHash(p.width))
  }

  /** Equal posts hash alike, even when their tag lists differ in anything but names. */
  lemma PostHashConsistent(a: PostModel, b: PostModel)
    requires PostEquals(a, b)
    ensures PostHash(a) == PostHash(b)
  {
    if a.tags.Some? {
      TagListHashConsistent(a.tags.value, b.tags.value);
    }
  }

  /** Post equality ignores the three local fields. */
  lemma PostEqualsIgnoresLocalState(p: PostModel, isPreview: bool, media: Option<string>, tags: seq<TagModel>)
    ensures PostEquals(p, p.(isPreview := isPreview, previewMedia := media, mutableTags := tags))
  {
  }

  // ---------------------------------------------------------------------
  // CommentModel
  // ---------------------------------------------------------------------

  /**
   * A comment as the server sends it, plus its display level. The list of
   * replies the screen attaches to each comment is built separately, by
   * index, in the comment-tree module.
   */
  datatype CommentModel = CommentModel(
    content: Option<string>,
    date: Option<int>,
    descendentCommentCount: Option<int>,
    downvotes: Option<int>,
    edited: Option<bool>,
    id: Option<int>,
    lineageScore: Option<int>,
    parent: Option<int>,
    post: Option<string>,
    postTitle: Option<string>,
    upvotes: Option<int>,
    user: Option<string>,
    level: int)

  /** The twelve-argument constructor: level 1 */
  function NewCommentModel(content: Option<string>, date: Option<int>, descendentCommentCount: Option<int>,
                           downvotes: Option<int>, edited: Option<bool>, id: Option<int>, lineageScore: Option<int>,
                           parent: Option<int>, post: Option<string>, postTitle: Option<string>,
                           upvotes: Option<int>, user: Option<string>): (c: CommentModel)
    ensures c.level == 1 && c.id == id && c.parent == parent && c.post == post
  {
    CommentModel(content, date, descendentCommentCount, downvotes, edited, id, lineageScore, parent, post,
                 postTitle, upvotes, user, 1)
  }

  /** `isTopComment()` */
  predicate IsTopComment(c: CommentModel) {
    c.parent == Some(0)
  }

  /** `getFormatTime()` at time `now` */
  function CommentFormatTime(c: CommentModel, now: int): (s: string)
    ensures c.date.None? ==> s == ""
    ensures c.date.Some? ==> s == Duration.FormatDuration(c.date.value, now)
  {
    if c.date.Some? then Duration.FormatDuration(c.date.value, now) else ""
  }

  /** A comment without a parent is not a top comment; only parent 0 is. */
  lemma TopCommentIff(c: CommentModel)
    ensures IsTopComment(c) <==> c.parent.Some? && c.parent.value == 0
    ensures c.parent.None? ==> !IsTopComment(c)
  {
  }
}
