/**
 * The submit screen's own logic: the URL slug proposed from a link
 * preview's title, the post type each tab stands for, when the submit
 * button is enabled, and the create request it sends.
 */
module SubmitPage {
  import opened Wrappers
  import opened Strings
  import MediaTypes
  import Models
  import Quill
  import QuillRenderProperties
  import Submit

  /** The characters the slug keeps: `[A-Za-z0-9-]` */
  predicate IsSlugChar(c: char) {
    'A' <= c <= 'Z' || 'a' <= c <= 'z' || '0' <= c <= '9' || c == '-'
  }

  /** `replace(" ", "-")` */
  function ReplaceSpaces(s: string): (r: string)
    ensures |r| == |s|
    ensures forall i :: 0 <= i < |s| ==> r[i] == (if s[i] == ' ' then '-' else s[i])
  {
    seq(|s|, i requires 0 <= i < |s| => if s[i] == ' ' then '-' else s[i])
  }

  /** `replace(Regex("[^A-Za-z0-9-]"), "")` */
  function KeepSlugChars(s: string): (r: string)
    ensures |r| <= |s|
    ensures forall i :: 0 <= i < |r| ==> IsSlugChar(r[i])
  {
    if |s| == 0 then []
    else if IsSlugChar(s[0]) then [s[0]] + KeepSlugChars(s[1..])
    else KeepSlugChars(s[1..])
  }

  /**
   * The slug a title yields: spaces become dashes, everything outside
   * `[A-Za-z0-9-]` is dropped and the rest lower-cased; None when nothing
   * is left.
   */
  function SlugFromTitle(title: string): Option<string> {
    var cleaned := KeepSlugChars(ReplaceSpaces(title));
    if IsBlank(cleaned) then None else Some(Lower(cleaned))
  }

  /** The post URL after a link preview arrives: a non-blank one typed by the user is kept. */
  function PostUrlAfterPreview(postUrl: string, title: string): (r: string)
    ensures !IsBlank(postUrl) ==> r == postUrl
    ensures IsBlank(postUrl) && SlugFromTitle(title).Some? ==> r == SlugFromTitle(title).value
    ensures IsBlank(postUrl) && SlugFromTitle(title).None? ==> r == postUrl
  {
    if !IsBlank(postUrl) then postUrl
    else
      match SlugFromTitle(title)
      case Some(slug) => slug
      case None => postUrl
  }

  predicate IsSlug(s: string) {
    |s| > 0 && forall i :: 0 <= i < |s| ==> 'a' <= s[i] <= 'z' || '0' <= s[i] <= '9' || s[i] == '-'
  }

  /** Everything the filter keeps is kept in order: a string of slug characters passes unchanged. */
  lemma {:induction false} KeepSlugCharsIdentity(s: string)
    requires forall i :: 0 <= i < |s| ==> IsSlugChar(s[i])
    ensures KeepSlugChars(s) == s
  {
    if |s| > 0 {
      assert forall i :: 0 <= i < |s[1..]| ==> IsSlugChar(s[1..][i]) by {
        forall i | 0 <= i < |s[1..]| ensures IsSlugChar(s[1..][i]) { assert s[1..][i] == s[i + 1]; }
      }
      KeepSlugCharsIdentity(s[1..]);
      assert [s[0]] + s[1..] == s;
    }
  }

  /** Slug characters are not whitespace, so the cleaned title is blank exactly when it is empty. */
  lemma SlugCharsBlankIffEmpty(s: string)
    requires forall i :: 0 <= i < |s| ==> IsSlugChar(s[i])
    ensures IsBlank(s) <==> |s| == 0
  {
    if |s| > 0 {
      assert !IsWhitespace(s[0]);
    }
  }

  /** A proposed slug is non-empty and made of lower-case letters, digits and dashes only. */
  lemma SlugShape(title: string)
    ensures SlugFromTitle(title).Some? ==> IsSlug(SlugFromTitle(title).value)
    ensures SlugFromTitle(title).None? <==> |KeepSlugChars(ReplaceSpaces(title))| == 0
  {
    SlugCharsBlankIffEmpty(KeepSlugChars(ReplaceSpaces(title)));
  }

  /** Proposing a slug from a slug gives it back. */
  lemma SlugIdempotent(slug: string)
    requires IsSlug(slug)
    ensures SlugFromTitle(slug) == Some(slug)
  {
    var r := ReplaceSpaces(slug);
    assert r == slug;
    KeepSlugCharsIdentity(slug);
    SlugCharsBlankIffEmpty(slug);
    assert Lower(slug) == slug;
  }

  /** A title of letters, digits, dashes and spaces maps character for character. */
  lemma SlugOfPlainTitle(title: string)
    requires |title| > 0
    requires forall i :: 0 <= i < |title| ==> IsSlugChar(title[i]) || title[i] == ' '
    ensures SlugFromTitle(title).Some?
    ensures |SlugFromTitle(title).value| == |title|
    ensures forall i :: 0 <= i < |title| ==>
      SlugFromTitle(title).value[i] == (if title[i] == ' ' then '-' else LowerChar(title[i]))
  {
    var r := ReplaceSpaces(title);
    KeepSlugCharsIdentity(r);
    SlugCharsBlankIffEmpty(r);
  }

  /** The post type a tab selects; on the media tab a video picks VIDEO and anything else IMAGE. */
  function TabType(index: int, mediaType: Option<MediaTypes.MediaType>): (t: Models.PostType)
    ensures t == Models.LINK <==> index == 0
    ensures t == Models.VIDEO <==> index == 1 && mediaType == Some(MediaTypes.VIDEO)
    ensures t == Models.IMAGE <==> index == 1 && mediaType != Some(MediaTypes.VIDEO)
    ensures t == Models.TEXT <==> index != 0 && index != 1
  {
    if index == 0 then Models.LINK
    else if index == 1 then (if mediaType == Some(MediaTypes.VIDEO) then Models.VIDEO else Models.IMAGE)
    else Models.TEXT
  }

  /** `buttonEnable` */
  function ButtonEnable(selectIndex: int, title: string, description: string, postUrl: string, hasMedia: bool): (b: bool)
    ensures b ==> !IsBlank(title) && !IsBlank(description) && !IsBlank(postUrl)
    ensures b ==> (selectIndex == 1 ==> hasMedia)
    ensures !IsBlank(title) && !IsBlank(description) && !IsBlank(postUrl) && (selectIndex != 1 || hasMedia) ==> b
  {
    if selectIndex == 1 then
      !IsBlank(title) && !IsBlank(description) && !IsBlank(postUrl) && hasMedia
    else
      !IsBlank(title) && !IsBlank(description) && !IsBlank(postUrl)
  }

  /** The request the submit button builds; the media size is filled in later by the view model. */
  function CreateParam(type_: Models.PostType, title: string, description: string, postUrl: string,
                       tags: seq<Models.TagModel>, link: string): (p: Submit.PostCreateParam)
    ensures p.title == title && p.url == postUrl && p.type_ == Models.GetType(type_)
    ensures p.content == Quill.ConvertStringToQuillJson(description)
    ensures |p.tags| == |tags|
    ensures forall i :: 0 <= i < |tags| ==> p.tags[i] == tags[i].tag.GetOr("")
    ensures p.link.Some? <==> type_ == Models.LINK
    ensures p.link.Some? ==> p.link.value == link
    ensures p.width.None? && p.height.None?
  {
    Submit.PostCreateParam(
      Quill.ConvertStringToQuillJson(description),
      title,
      Models.GetType(type_),
      postUrl,
      seq(|tags|, i requires 0 <= i < |tags| => tags[i].tag.GetOr("")),
      if type_ == Models.LINK then Some(link) else None,
      None,
      None)
  }

  /** The request's content renders back to the description, line for line. */
  lemma CreateParamContentRoundTrip(type_: Models.PostType, title: string, description: string, postUrl: string,
                                    tags: seq<Models.TagModel>, link: string, json: string)
    ensures var blocks := Quill.ParseQuill(json, Some(CreateParam(type_, title, description, postUrl, tags, link).content));
      Join(seq(|blocks|, k requires 0 <= k < |blocks| => Quill.BlockText(blocks[k])), '\n') == description
  {
    QuillRenderProperties.ConvertRoundTripText(json, description);
  }
}
