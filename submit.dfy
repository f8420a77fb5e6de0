/**
 * The submit screen's view model: the post-URL availability check, media
 * upload with the encoder's progress messages, moving the uploaded media to
 * its final name and creating the post. Service calls are inputs: each is
 * either an answer or a thrown exception. `toFloat` is Kotlin's
 * `String.toFloat()`, a parameter here; progress values are reals.
 */
module Submit {
  import opened Wrappers
  import opened Strings
  import opened Resolutions
  import Models
  import Urls
  import WebSockets
  import Quill

  datatype PostUrlUiState = Empty | Loading | Success | Error

  datatype Size = Size(width: int, height: int)

  datatype ResolutionProgress = ResolutionProgress(resolution: Resolution, progress: real)

  /** The create request. Its `content` is a Quill delta, kept as the decoded document. */
  datatype PostCreateParam = PostCreateParam(
    content: Quill.JsonDoc,
    title: string,
    type_: string,
    url: string,
    tags: seq<string>,
    link: Option<string>,
    width: Option<int>,
    height: Option<int>)

  datatype MoveEndpoint = MoveImage | MoveVideo

  /** A move request: endpoint, temporary name, final name */
  datatype MoveRequest = MoveRequest(endpoint: MoveEndpoint, oldUrl: string, url: string)

  /** `moveMedia(type, oldUrl, url)`: videos are moved by their name with `.mp4` removed */
  function MoveMedia(type_: Models.PostType, oldUrl: string, url: string): (m: MoveRequest)
    ensures m.url == url
    ensures m.endpoint == MoveImage <==> type_ == Models.IMAGE
    ensures type_ == Models.IMAGE ==> m.oldUrl == oldUrl
    ensures !Contains(oldUrl, Urls.MP4) ==> m.oldUrl == oldUrl
  {
    if type_ == Models.IMAGE then MoveRequest(MoveImage, oldUrl, url)
    else if Contains(oldUrl, Urls.MP4) then MoveRequest(MoveVideo, RemoveAll(oldUrl, Urls.MP4), url)
    else
      RemoveAllAbsent(oldUrl, Urls.MP4);
      MoveRequest(MoveVideo, RemoveAll(oldUrl, Urls.MP4), url)
  }

  /** A video whose temporary name is a dot-free stem plus `.mp4` is moved by its stem. */
  lemma {:induction false} MoveVideoByStem(stem: string, url: string)
    requires '.' !in stem
    ensures MoveMedia(Models.VIDEO, stem + Urls.MP4, url) == MoveRequest(MoveVideo, stem, url)
  {
    StemRemoved(stem);
    if !Contains(stem + Urls.MP4, Urls.MP4) {
      assert OccursAt(stem + Urls.MP4, Urls.MP4, |stem|);
      ContainsIffOccurs(stem + Urls.MP4, Urls.MP4);
    }
  }

  lemma {:induction false} StemRemoved(stem: string)
    requires '.' !in stem
    ensures RemoveAll(stem + Urls.MP4, Urls.MP4) == stem
  {
    var s := stem + Urls.MP4;
    if |stem| == 0 {
      assert s[..4] == Urls.MP4 && s[4..] == "";
    } else {
      assert s[0] == stem[0] != '.';
      assert s[1..] == stem[1..] + Urls.MP4;
      StemRemoved(stem[1..]);
      assert [stem[0]] + stem[1..] == stem;
    }
  }

  // ---------------------------------------------------------------------
  // Progress bookkeeping
  // ---------------------------------------------------------------------

  /** `updateProgress(resolution, p)` on a progress list */
  function ProgressUpdated(list: seq<ResolutionProgress>, resolution: Resolution, p: real): (r: seq<ResolutionProgress>)
    ensures |r| == |list|
  {
    seq(|list|, i requires 0 <= i < |list| =>
      if list[i].resolution == resolution then list[i].(progress := p) else list[i])
  }

  /** Order is kept, entries for other resolutions stay as they were, matching entries get the new progress. */
  lemma ProgressUpdatedProperties(list: seq<ResolutionProgress>, resolution: Resolution, p: real)
    ensures var r := ProgressUpdated(list, resolution, p);
      |r| == |list|
      && (forall i :: 0 <= i < |list| ==> r[i].resolution == list[i].resolution)
      && (forall i :: 0 <= i < |list| && list[i].resolution != resolution ==> r[i] == list[i])
      && (forall i :: 0 <= i < |list| && list[i].resolution == resolution ==> r[i].progress == p)
  {
  }

  /** A resolution not in the list changes nothing. */
  lemma ProgressUpdatedAbsent(list: seq<ResolutionProgress>, resolution: Resolution, p: real)
    requires forall i :: 0 <= i < |list| ==> list[i].resolution != resolution
    ensures ProgressUpdated(list, resolution, p) == list
  {
  }

  /** Every resolution that fits, at progress 0 */
  function InitialProgress(rs: seq<Resolution>): (r: seq<ResolutionProgress>)
    ensures |r| == |rs|
    ensures forall i :: 0 <= i < |rs| ==> r[i] == ResolutionProgress(rs[i], 0.0)
  {
    seq(|rs|, i requires 0 <= i < |rs| => ResolutionProgress(rs[i], 0.0))
  }

  /** The part of the view model the encoder's messages act on */
  datatype UploadState = UploadState(
    uploadingMedia: bool,
    encodingMedia: bool,
    resolutions: seq<ResolutionProgress>,
    mediaSize: Option<Size>)

  const RESOLUTION_TAG: string := "resolution:"
  const SOURCE_TAG: string := "source:"

  /** `"resolution:WxH"`: the two numbers, or None when reading them throws */
  function ParseSize(message: string): Option<Size> {
    var size := Split(RemoveFirst(message, RESOLUTION_TAG), 'x');
    var w := ParseInt(size[0]);
    if w.None? || |size| < 2 then None
    else
      var h := ParseInt(size[1]);
      if h.None? then None else Some(Size(w.value, h.value))
  }

  /**
   * The progress callback for one message. The second component is true
   * when the callback throws out of the message loop: a resolution message
   * whose size cannot be read. Failures while reading a progress message
   * are caught inside and leave the state as it was.
   */
  function OnMessage(st: UploadState, message: string, toFloat: string -> Option<real>): (UploadState, bool) {
    if Contains(message, RESOLUTION_TAG) then
      var size := ParseSize(message);
      if size.None? then (st, true)
      else
        var rs := GetLowerResolutions(size.value.width, size.value.height);
        (UploadState(false, true, InitialProgress(rs), size), false)
    else
      var data := Split(message, ':');
      if Contains(message, SOURCE_TAG) then
        if |st.resolutions| == 0 || |data| < 2 || toFloat(data[1]).None? then (st, false)
        else (st.(resolutions := ProgressUpdated(st.resolutions, st.resolutions[|st.resolutions| - 1].resolution,
                                                 toFloat(data[1]).value)), false)
      else
        var res := FindByName(Entries, data[0]);
        if res.None? || |data| < 2 || toFloat(data[1]).None? then (st, false)
        else (st.(resolutions := ProgressUpdated(st.resolutions, Entries[res.value], toFloat(data[1]).value)), false)
  }

  /** The messages in order, until one throws; the flag says whether one did */
  function OnMessages(st: UploadState, messages: seq<string>, toFloat: string -> Option<real>): (UploadState, bool)
    decreases |messages|
  {
    if |messages| == 0 then (st, false)
    else
      var step := OnMessage(st, messages[0], toFloat);
      if step.1 then step else OnMessages(step.0, messages[1..], toFloat)
  }

  // ---------------------------------------------------------------------
  // What the encoder's messages do
  // ---------------------------------------------------------------------

  /** Decimal renderings contain neither `x` nor `:`. */
  lemma NumberHasNoSeparators(n: int)
    ensures 'x' !in IntToString(n) && ':' !in IntToString(n)
  {
    var s := IntToString(n);
    IntToStringShape(n);
    forall i | 0 <= i < |s| ensures s[i] != 'x' && s[i] != ':' {
      if n < 0 && i > 0 {
        assert s[i] == s[1..][i - 1];
      }
    }
  }

  /**
   * In `name + ":" + rest` with that one colon, no tag that ends in a colon
   * and is longer than `name + ":"` occurs.
   */
  lemma ColonTagAbsent(name: string, rest: string, tag: string)
    requires ':' !in name && ':' !in rest
    requires |tag| > |name| + 1 && tag[|tag| - 1] == ':'
    ensures !Contains(name + ":" + rest, tag)
  {
    ContainsIffOccurs(name + ":" + rest, tag);
  }

  /** A message that starts with a tag contains it. */
  lemma TaggedContains(tag: string, rest: string)
    ensures Contains(tag + rest, tag)
  {
    assert OccursAt(tag + rest, tag, 0) by { assert (tag + rest)[0..|tag|] == tag; }
    ContainsIffOccurs(tag + rest, tag);
  }

  /** `name + ":" + rest` splits into the two parts. */
  lemma SplitPair(name: string, c: char, rest: string)
    requires c !in name && c !in rest
    ensures Split(name + [c] + rest, c) == [name, rest]
  {
    SplitAround(name, c, rest);
    SplitWithoutDelimiter(rest, c);
  }

  /**
   * The size message `resolution:WxH` records the size, offers every
   * resolution that fits at progress 0, and moves from uploading to encoding.
   */
  lemma ResolutionMessage(st: UploadState, w: int, h: int, toFloat: string -> Option<real>)
    requires InInt32(w) && InInt32(h)
    ensures OnMessage(st, RESOLUTION_TAG + IntToString(w) + "x" + IntToString(h), toFloat)
      == (UploadState(false, true, InitialProgress(GetLowerResolutions(w, h)), Some(Size(w, h))), false)
  {
    var a, b := IntToString(w), IntToString(h);
    var m := RESOLUTION_TAG + a + "x" + b;
    assert m == RESOLUTION_TAG + (a + "x" + b);
    TaggedContains(RESOLUTION_TAG, a + "x" + b);
    RemoveFirstPrefix(RESOLUTION_TAG, a + "x" + b);
    NumberHasNoSeparators(w);
    NumberHasNoSeparators(h);
    SplitPair(a, 'x', b);
    ParseIntToString(w);
    ParseIntToString(h);
  }

  /** A size message whose numbers cannot be read throws out of the message loop and changes nothing. */
  lemma UnreadableSizeThrows(st: UploadState, message: string, toFloat: string -> Option<real>)
    requires Contains(message, RESOLUTION_TAG) && ParseSize(message).None?
    ensures OnMessage(st, message, toFloat) == (st, true)
  {
  }

  /** `source:P` sets the progress of the last (largest) resolution to P. */
  lemma SourceProgressMessage(st: UploadState, p: string, v: real, toFloat: string -> Option<real>)
    requires ':' !in p && toFloat(p) == Some(v) && |st.resolutions| > 0
    ensures OnMessage(st, SOURCE_TAG + p, toFloat)
      == (st.(resolutions := ProgressUpdated(st.resolutions, st.resolutions[|st.resolutions| - 1].resolution, v)), false)
  {
    assert SOURCE_TAG + p == "source" + ":" + p;
    ColonTagAbsent("source", p, RESOLUTION_TAG);
    TaggedContains(SOURCE_TAG, p);
    SplitPair("source", ':', p);
  }

  /** `NAME:P` for a resolution's display name sets that resolution's progress to P. */
  lemma NamedProgressMessage(st: UploadState, r: Resolution, p: string, v: real, toFloat: string -> Option<real>)
    requires ':' !in p && toFloat(p) == Some(v)
    ensures OnMessage(st, DisplayName(r) + ":" + p, toFloat)
      == (st.(resolutions := ProgressUpdated(st.resolutions, r, v)), false)
  {
    var name := DisplayName(r);
    DisplayNames();
    assert ':' !in name && |name| <= 5;
    ColonTagAbsent(name, p, RESOLUTION_TAG);
    ColonTagAbsent(name, p, SOURCE_TAG);
    SplitPair(name, ':', p);
    FindEntryByName(r);
  }

  /** A progress message for a name no resolution displays is swallowed. */
  lemma UnknownNameIgnored(st: UploadState, name: string, p: string, toFloat: string -> Option<real>)
    requires ':' !in name && |name| < 6 && ':' !in p
    requires forall r: Resolution :: DisplayName(r) != name
    ensures OnMessage(st, name + ":" + p, toFloat) == (st, false)
  {
    ColonTagAbsent(name, p, RESOLUTION_TAG);
    ColonTagAbsent(name, p, SOURCE_TAG);
    SplitPair(name, ':', p);
  }

  /** Before the size message there is no list, and `source:` progress is swallowed. */
  lemma SourceProgressBeforeSize(st: UploadState, p: string, toFloat: string -> Option<real>)
    requires st.resolutions == [] && ':' !in p
    ensures OnMessage(st, SOURCE_TAG + p, toFloat) == (st, false)
  {
    assert SOURCE_TAG + p == "source" + ":" + p;
    ColonTagAbsent("source", p, RESOLUTION_TAG);
  }

  /** Progress messages never change which resolutions are listed, nor the size, nor the flags. */
  predicate SameLadder(a: seq<ResolutionProgress>, b: seq<ResolutionProgress>) {
    |a| == |b| && forall i :: 0 <= i < |a| ==> a[i].resolution == b[i].resolution
  }

  lemma {:induction false} ProgressKeepsLadder(st: UploadState, messages: seq<string>, toFloat: string -> Option<real>)
    requires forall k :: 0 <= k < |messages| ==> !Contains(messages[k], RESOLUTION_TAG)
    ensures var r := OnMessages(st, messages, toFloat);
      !r.1 && SameLadder(r.0.resolutions, st.resolutions) && r.0.mediaSize == st.mediaSize
      && r.0.uploadingMedia == st.uploadingMedia && r.0.encodingMedia == st.encodingMedia
    decreases |messages|
  {
    if |messages| > 0 {
      var step := OnMessage(st, messages[0], toFloat);
      assert SameLadder(step.0.resolutions, st.resolutions);
      ProgressKeepsLadder(step.0, messages[1..], toFloat);
    }
  }

  /** Once a message throws, the ones after it have no effect. */
  lemma {:induction false} ThrowStopsTheLoop(st: UploadState, before: seq<string>, m: string, after: seq<string>,
                                              toFloat: string -> Option<real>)
    requires !OnMessages(st, before, toFloat).1
    requires OnMessage(OnMessages(st, before, toFloat).0, m, toFloat).1
    ensures OnMessages(st, before + [m] + after, toFloat) == OnMessage(OnMessages(st, before, toFloat).0, m, toFloat)
    decreases |before|
  {
    if |before| == 0 {
      assert (before + [m] + after)[0] == m;
    } else {
      assert (before + [m] + after)[1..] == before[1..] + [m] + after;
      ThrowStopsTheLoop(OnMessage(st, before[0], toFloat).0, before[1..], m, after, toFloat);
    }
  }

  /** The uploaded file's name when the upload answered with a non-blank one */
  function UploadedName(fileName: Outcome<Option<string>>): (r: Option<string>)
    ensures r.Some? <==> fileName.Returned? && fileName.value.Some? && !IsBlank(fileName.value.value)
    ensures r.Some? ==> r.value == fileName.value.value
  {
    match fileName
    case Returned(Some(name)) => if IsBlank(name) then None else Some(name)
    case _ => None
  }

  // ---------------------------------------------------------------------
  // The view model
  // ---------------------------------------------------------------------

  class SubmitViewModel {
    /** Every value `postUrlUiState` has taken, in order; the current one is the last */
    var postUrlStates: seq<PostUrlUiState>
    var uploadingMedia: bool
    var encodingMedia: bool
    var submitting: bool
    var resolutions: seq<ResolutionProgress>
    var currentTempMediaName: string
    var mediaSize: Option<Size>
    /** The encoder socket's address, once one was opened */
    var webSocketUrl: Option<string>

    constructor ()
      ensures postUrlStates == [Empty] && !uploadingMedia && !encodingMedia && !submitting
      ensures resolutions == [] && currentTempMediaName == "" && mediaSize.None? && webSocketUrl.None?
    {
      postUrlStates := [Empty];
      uploadingMedia, encodingMedia, submitting := false, false, false;
      resolutions := [];
      currentTempMediaName := "";
      mediaSize := None;
      webSocketUrl := None;
    }

    function Upload(): UploadState
      reads this
    {
      UploadState(uploadingMedia, encodingMedia, resolutions, mediaSize)
    }

    /**
     * `checkPostUrl(postUrl)`: Empty for a blank URL; otherwise Loading,
     * then Success only for a `true` answer.
     */
    method CheckPostUrl(postUrl: string, available: Outcome<Option<bool>>)
      modifies this
      ensures IsBlank(postUrl) ==> postUrlStates == old(postUrlStates) + [Empty]
      ensures !IsBlank(postUrl) ==> postUrlStates == old(postUrlStates) + [Loading,
        if available == Returned(Some(true)) then Success else Error]
      ensures Upload() == old(Upload()) && submitting == old(submitting)
      ensures currentTempMediaName == old(currentTempMediaName) && webSocketUrl == old(webSocketUrl)
    {
      if IsBlank(postUrl) {
        postUrlStates := postUrlStates + [Empty];
        return;
      }
      postUrlStates := postUrlStates + [Loading];
      match available {
        case Threw =>
          postUrlStates := postUrlStates + [Error];
        case Returned(answer) =>
          if answer == Some(true) {
            postUrlStates := postUrlStates + [Success];
          } else {
            postUrlStates := postUrlStates + [Error];
          }
      }
    }

    /** `updateProgress(resolution, newProgress)` */
    method UpdateProgress(resolution: Resolution, newProgress: real)
      modifies this
      ensures resolutions == ProgressUpdated(old(resolutions), resolution, newProgress)
      ensures uploadingMedia == old(uploadingMedia) && encodingMedia == old(encodingMedia)
      ensures mediaSize == old(mediaSize) && submitting == old(submitting)
      ensures postUrlStates == old(postUrlStates) && currentTempMediaName == old(currentTempMediaName)
      ensures webSocketUrl == old(webSocketUrl)
    {
      resolutions := ProgressUpdated(resolutions, resolution, newProgress);
    }

    /** `resetUploadState()` */
    method ResetUploadState()
      modifies this
      ensures !uploadingMedia && !encodingMedia && !submitting
      ensures resolutions == old(resolutions) && mediaSize == old(mediaSize)
      ensures postUrlStates == old(postUrlStates) && currentTempMediaName == old(currentTempMediaName)
      ensures webSocketUrl == old(webSocketUrl)
    {
      uploadingMedia := false;
      encodingMedia := false;
      submitting := false;
    }

    /** The first statements of an upload: every trace of the previous one is cleared. */
    method BeginUpload()
      modifies this
      ensures uploadingMedia && !encodingMedia && !submitting
      ensures resolutions == [] && currentTempMediaName == "" && mediaSize.None?
      ensures postUrlStates == old(postUrlStates) && webSocketUrl == old(webSocketUrl)
    {
      ResetUploadState();
      currentTempMediaName := "";
      mediaSize := None;
      resolutions := [];
      uploadingMedia := true;
    }

    /** The progress callback, for one encoder message; true when it throws */
    method OnProgress(message: string, toFloat: string -> Option<real>) returns (threw: bool)
      modifies this
      ensures (Upload(), threw) == OnMessage(old(Upload()), message, toFloat)
      ensures submitting == old(submitting) && postUrlStates == old(postUrlStates)
      ensures currentTempMediaName == old(currentTempMediaName) && webSocketUrl == old(webSocketUrl)
    {
      threw := false;
      if Contains(message, RESOLUTION_TAG) {
        var size := ParseSize(message);
        if size.None? {
          threw := true;
          return;
        }
        mediaSize := size;
        var resolutionList := GetLowerResolutions(size.value.width, size.value.height);
        resolutions := InitialProgress(resolutionList);
        uploadingMedia := false;
        encodingMedia := true;
      } else {
        var data := Split(message, ':');
        if Contains(message, SOURCE_TAG) {
          if |resolutions| > 0 && |data| >= 2 && toFloat(data[1]).Some? {
            UpdateProgress(resolutions[|resolutions| - 1].resolution, toFloat(data[1]).value);
          }
        } else {
          var res := FindByName(Entries, data[0]);
          if res.Some? && |data| >= 2 && toFloat(data[1]).Some? {
            UpdateProgress(Entries[res.value], toFloat(data[1]).value);
          }
        }
      }
    }

    /**
     * `uploadMedia` for a video. The upload answers with a file name (or
     * throws); the encoder then sends `messages`. The wait ends only at a
     * terminator: then the temporary video address is handed back. When the
     * messages run out without one, the upload is still `waiting`: nothing
     * is handed back yet and the flags stay as the messages left them. On
     * any failure, None is handed back and the flags come down.
     */
    method UploadVideo(fileName: Outcome<Option<string>>, messages: seq<string>, toFloat: string -> Option<real>)
      returns (onOk: Option<string>, waiting: bool)
      modifies this
      ensures var name := UploadedName(fileName);
        var r := OnMessages(UploadState(true, false, [], None), WebSockets.Delivered(messages), toFloat);
        waiting <==> name.Some? && !r.1 && !WebSockets.Completes(messages)
      ensures var name := UploadedName(fileName);
        var r := OnMessages(UploadState(true, false, [], None), WebSockets.Delivered(messages), toFloat);
        if name.Some? then
          resolutions == r.0.resolutions && mediaSize == r.0.mediaSize
          && webSocketUrl == Some(Urls.VideoEncodeUrl(name.value))
          && (!r.1 && WebSockets.Completes(messages) ==>
                onOk == Some(Urls.VideoUrl(name.value, false)) && currentTempMediaName == name.value
                && uploadingMedia == r.0.uploadingMedia && !encodingMedia)
          && (!r.1 && !WebSockets.Completes(messages) ==>
                onOk.None? && currentTempMediaName == ""
                && uploadingMedia == r.0.uploadingMedia && encodingMedia == r.0.encodingMedia)
          && (r.1 ==> onOk.None? && currentTempMediaName == "" && !uploadingMedia && !encodingMedia)
        else
          onOk.None? && !uploadingMedia && !encodingMedia && resolutions == [] && mediaSize.None?
          && currentTempMediaName == "" && webSocketUrl == old(webSocketUrl)
      ensures !submitting && postUrlStates == old(postUrlStates)
    {
      BeginUpload();
      var uploaded := UploadedName(fileName);
      if uploaded.Some? {
        var name := uploaded.value;
        webSocketUrl := Some(Urls.VideoEncodeUrl(name));
        var lastMessage, delivered, completed := WebSockets.WaitForCompletion(messages);
        var threw := false;
        var i := 0;
        while i < |delivered| && !threw
          invariant 0 <= i <= |delivered|
          invariant currentTempMediaName == "" && !submitting && postUrlStates == old(postUrlStates)
          invariant webSocketUrl == Some(Urls.VideoEncodeUrl(name))
          invariant !threw ==> OnMessages(UploadState(true, false, [], None), delivered, toFloat)
                                == OnMessages(Upload(), delivered[i..], toFloat)
          invariant threw ==> OnMessages(UploadState(true, false, [], None), delivered, toFloat) == (Upload(), true)
        {
          assert delivered[i..][1..] == delivered[i + 1..];
          threw := OnProgress(delivered[i], toFloat);
          i := i + 1;
        }
        if !threw && !completed {
          return None, true;
        }
        if !threw {
          encodingMedia := false;
          currentTempMediaName := name;
          return Some(Urls.VideoUrl(name, false)), false;
        }
      }
      uploadingMedia := false;
      encodingMedia := false;
      onOk := None;
      waiting := false;
    }

    /**
     * `uploadMedia` for an image: the upload answers with a file name (or
     * throws); `imageSize` is what the platform reads from the picked file.
     */
    method UploadImage(fileName: Outcome<Option<string>>, imageSize: Option<Size>) returns (onOk: Option<string>)
      modifies this
      ensures var name := UploadedName(fileName);
        if name.Some? then
          onOk == Some(Urls.ImageUrl(name.value)) && currentTempMediaName == name.value && mediaSize == imageSize
        else
          onOk.None? && currentTempMediaName == "" && mediaSize.None?
      ensures !uploadingMedia && !encodingMedia && !submitting && resolutions == []
      ensures postUrlStates == old(postUrlStates) && webSocketUrl == old(webSocketUrl)
    {
      BeginUpload();
      var uploaded := UploadedName(fileName);
      if uploaded.Some? {
        var name := uploaded.value;
        uploadingMedia := false;
        currentTempMediaName := name;
        mediaSize := imageSize;
        onOk := Some(Urls.ImageUrl(name));
        return;
      }
      uploadingMedia := false;
      encodingMedia := false;
      onOk := None;
    }

    /**
     * `submitLinkPost(postType, param)`. Images and videos are first moved
     * to their final name (`moved` is that request; `moveSucceeded` its
     * fate) and then carry the media size; `created` is the create call's
     * outcome. The request actually sent is `sent`.
     */
    method SubmitLinkPost(postType: Models.PostType, param: PostCreateParam, moveSucceeded: bool,
                          created: Outcome<Option<Models.PostModel>>)
      returns (result: Option<Models.PostModel>, moved: Option<MoveRequest>, sent: Option<PostCreateParam>)
      modifies this
      ensures var media := postType == Models.IMAGE || postType == Models.VIDEO;
        (media ==> moved == Some(MoveMedia(postType, old(currentTempMediaName), param.url)))
        && (!media ==> moved.None? && sent == Some(param))
        && (media && moveSucceeded ==> sent == Some(param.(width := if old(mediaSize).Some? then Some(old(mediaSize).value.width) else None,
                                                         height := if old(mediaSize).Some? then Some(old(mediaSize).value.height) else None)))
        && (media && !moveSucceeded ==> sent.None? && result.None?)
      ensures sent.Some? ==> result == (if created.Returned? then created.value else None)
      ensures !submitting
      ensures Upload() == old(Upload()) && postUrlStates == old(postUrlStates)
      ensures currentTempMediaName == old(currentTempMediaName) && webSocketUrl == old(webSocketUrl)
    {
      submitting := true;
      var realParam := param;
      moved := None;
      sent := None;
      result := None;
      if postType == Models.IMAGE || postType == Models.VIDEO {
        moved := Some(MoveMedia(postType, currentTempMediaName, param.url));
        if !moveSucceeded {
          submitting := false;
          return;
        }
        realParam := param.(width := if mediaSize.Some? then Some(mediaSize.value.width) else None,
                            height := if mediaSize.Some? then Some(mediaSize.value.height) else None);
      }
      submitting := false;
      sent := Some(realParam);
      if created.Returned? {
        result := created.value;
      }
    }
  }
}
