/**
 * `MediaTypeUtil`: classification of a picked file by its MIME type. Where
 * the MIME type comes from (the content resolver or the file extension)
 * is decided by the URI scheme; both lookups are platform services and
 * appear here as their answers.
 */
module MediaTypes {
  import opened Wrappers
  import opened Strings

  datatype MediaType = IMAGE | VIDEO | UNKNOWN

  const SCHEME_CONTENT: string := "content"

  /**
   * `getMimeType`: the resolver's answer for `content:` URIs, the
   * extension table's answer for every other scheme.
   */
  function MimeTypeOf(scheme: Option<string>, fromResolver: Option<string>, fromExtension: Option<string>): (r: Option<string>)
    ensures scheme == Some(SCHEME_CONTENT) ==> r == fromResolver
    ensures scheme != Some(SCHEME_CONTENT) ==> r == fromExtension
  {
    if scheme == Some(SCHEME_CONTENT) then fromResolver else fromExtension
  }

  /** `getMediaType` given the MIME type */
  function ClassifyMime(mimeType: Option<string>): MediaType {
    if mimeType.None? then UNKNOWN
    else if StartsWith(mimeType.value, "image/") then IMAGE
    else if StartsWith(mimeType.value, "video/") then VIDEO
    else UNKNOWN
  }

  /** The two prefixes exclude each other. */
  lemma PrefixesExclusive(m: string)
    ensures !(StartsWith(m, "image/") && StartsWith(m, "video/"))
  {
  }

  /** Each class, characterised by the MIME type on its own, in both directions */
  lemma ClassifyMimeIff(mimeType: Option<string>)
    ensures ClassifyMime(mimeType) == IMAGE <==> mimeType.Some? && StartsWith(mimeType.value, "image/")
    ensures ClassifyMime(mimeType) == VIDEO <==> mimeType.Some? && StartsWith(mimeType.value, "video/")
    ensures ClassifyMime(mimeType) == UNKNOWN <==>
      mimeType.None? || (!StartsWith(mimeType.value, "image/") && !StartsWith(mimeType.value, "video/"))
  {
    if mimeType.Some? {
      PrefixesExclusive(mimeType.value);
    }
  }

  /** The prefix test is case-sensitive: upper-case prefixes are not recognised. */
  lemma UpperCasePrefixUnknown(rest: string)
    ensures ClassifyMime(Some("IMAGE/" + rest)) == UNKNOWN
    ensures ClassifyMime(Some("VIDEO/" + rest)) == UNKNOWN
  {
    assert ("IMAGE/" + rest)[0] == 'I';
    assert ("VIDEO/" + rest)[0] == 'V';
  }

  /** Only the part up to the slash decides the class. */
  lemma ClassifyByPrefix(m: string, k: nat)
    requires 6 <= k <= |m|
    ensures ClassifyMime(Some(m)) == ClassifyMime(Some(m[..k]))
  {
    assert m[..k][..6] == m[..6];
  }

  /** `getMediaType(context, uri)` */
  function GetMediaType(scheme: Option<string>, fromResolver: Option<string>, fromExtension: Option<string>): (t: MediaType)
    ensures scheme == Some(SCHEME_CONTENT) ==> t == ClassifyMime(fromResolver)
    ensures scheme != Some(SCHEME_CONTENT) ==> t == ClassifyMime(fromExtension)
  {
    ClassifyMime(MimeTypeOf(scheme, fromResolver, fromExtension))
  }
}
