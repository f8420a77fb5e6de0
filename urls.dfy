/**
 * The URL builders of the `Urls` object: fixed host prefixes around a path,
 * a user name or a file name. Each builder is injective, which the
 * `Strip` inverse makes precise.
 */
module Urls {
  import opened Wrappers

  const BASE_URL: string := "https://api.non.io/"
  const POST_URL_PREFIX: string := "https://non.io/"

  const BASE_IMAGE_URL: string := "https://image.non.io/"
  const BASE_THUMBNAIL_URL: string := "https://thumbnail.non.io/"
  const BASE_AVATAR_URL: string := "https://avatar.non.io/"
  const BASE_VIDEO_URL: string := "https://video.non.io/"
  const VIDEO_ENCODE_URL: string := "wss://video.non.io/encode?file="

  const UPLOAD_IMAGE: string := "https://image.non.io/upload"
  const UPLOAD_VIDEO: string := "https://video.non.io/upload"
  const MOVE_IMAGE: string := "https://image.non.io/move"
  const MOVE_VIDEO: string := "https://video.non.io/move"

  const WEBP: string := ".webp"
  const MP4: string := ".mp4"

  function ThumbnailImageUrl(path: string): string { BASE_THUMBNAIL_URL + path + WEBP }

  function AvatarImageUrl(user: string): string { BASE_AVATAR_URL + user + WEBP }

  /** `videoURL(path, isAddSuffix)`; the suffix defaults to on */
  function VideoUrl(path: string, isAddSuffix: bool): string {
    if isAddSuffix then BASE_VIDEO_URL + path + MP4 else BASE_VIDEO_URL + path
  }

  function ImageUrl(path: string): string { BASE_IMAGE_URL + path + WEBP }

  function VideoEncodeUrl(file: string): string { VIDEO_ENCODE_URL + file }

  /**
   * The inverse of wrapping a value in `prefix` and `suffix`: the middle
   * part, or None when `u` does not have that shape.
   */
  function Strip(u: string, prefix: string, suffix: string): (r: Option<string>)
    ensures r.Some? ==> prefix + r.value + suffix == u
    ensures r.None? ==> |u| < |prefix| + |suffix| || u[..|prefix|] != prefix || u[|u| - |suffix|..] != suffix
  {
    if |u| < |prefix| + |suffix| then None
    else if u[..|prefix|] == prefix && u[|u| - |suffix|..] == suffix then
      var mid := u[|prefix|..|u| - |suffix|];
      assert u == u[..|prefix|] + mid + u[|u| - |suffix|..];
      Some(mid)
    else None
  }

  /** Stripping what was added gives the middle part back. */
  lemma StripWrapped(prefix: string, mid: string, suffix: string)
    ensures Strip(prefix + mid + suffix, prefix, suffix) == Some(mid)
  {
    var u := prefix + mid + suffix;
    assert u[..|prefix|] == prefix;
    assert u[|u| - |suffix|..] == suffix;
    assert u[|prefix|..|u| - |suffix|] == mid;
  }

  lemma ImageUrlInverse(path: string)
    ensures Strip(ImageUrl(path), BASE_IMAGE_URL, WEBP) == Some(path)
  {
    StripWrapped(BASE_IMAGE_URL, path, WEBP);
  }

  lemma ThumbnailImageUrlInverse(path: string)
    ensures Strip(ThumbnailImageUrl(path), BASE_THUMBNAIL_URL, WEBP) == Some(path)
  {
    StripWrapped(BASE_THUMBNAIL_URL, path, WEBP);
  }

  lemma AvatarImageUrlInverse(user: string)
    ensures Strip(AvatarImageUrl(user), BASE_AVATAR_URL, WEBP) == Some(user)
  {
    StripWrapped(BASE_AVATAR_URL, user, WEBP);
  }

  lemma VideoUrlInverse(path: string, isAddSuffix: bool)
    ensures Strip(VideoUrl(path, isAddSuffix), BASE_VIDEO_URL, if isAddSuffix then MP4 else "") == Some(path)
  {
    if isAddSuffix {
      StripWrapped(BASE_VIDEO_URL, path, MP4);
    } else {
      assert VideoUrl(path, false) == BASE_VIDEO_URL + path + "";
      StripWrapped(BASE_VIDEO_URL, path, "");
    }
  }

  lemma VideoEncodeUrlInverse(file: string)
    ensures Strip(VideoEncodeUrl(file), VIDEO_ENCODE_URL, "") == Some(file)
  {
    assert VideoEncodeUrl(file) == VIDEO_ENCODE_URL + file + "";
    StripWrapped(VIDEO_ENCODE_URL, file, "");
  }

  /** Every builder is injective. */
  lemma BuildersInjective(p: string, q: string)
    ensures ImageUrl(p) == ImageUrl(q) ==> p == q
    ensures ThumbnailImageUrl(p) == ThumbnailImageUrl(q) ==> p == q
    ensures AvatarImageUrl(p) == AvatarImageUrl(q) ==> p == q
    ensures VideoUrl(p, true) == VideoUrl(q, true) ==> p == q
    ensures VideoUrl(p, false) == VideoUrl(q, false) ==> p == q
    ensures VideoEncodeUrl(p) == VideoEncodeUrl(q) ==> p == q
  {
    ImageUrlInverse(p); ImageUrlInverse(q);
    ThumbnailImageUrlInverse(p); ThumbnailImageUrlInverse(q);
    AvatarImageUrlInverse(p); AvatarImageUrlInverse(q);
    VideoUrlInverse(p, true); VideoUrlInverse(q, true);
    VideoUrlInverse(p, false); VideoUrlInverse(q, false);
    VideoEncodeUrlInverse(p); VideoEncodeUrlInverse(q);
  }

  /** The suffixed video URL is the unsuffixed one followed by `.mp4`. */
  lemma VideoUrlSuffix(path: string)
    ensures VideoUrl(path, true) == VideoUrl(path, false) + MP4
  {
  }

  /** Image and thumbnail URLs never coincide: the hosts differ. */
  lemma ImageAndThumbnailDiffer(p: string, q: string)
    ensures ImageUrl(p) != ThumbnailImageUrl(q)
  {
    assert ImageUrl(p)[8] == 'i';
    assert ThumbnailImageUrl(q)[8] == 't';
  }
}
