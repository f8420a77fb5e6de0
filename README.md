# nonio-android, modelled in Dafny

This project models the logic of the nonio Android client, a reader and
poster for the non.io link-sharing site. The Compose screens and the
network are left out. What is modelled:

- The Quill delta renderer. It decodes a post's rich-text JSON into
  operations, cuts them into lines, and renders each line as a styled block
  with list markers, ordered-list counters, headers, links and quotes.
- The pure mappings: post type and media URL, the URL builders, relative
  time, MIME classification, video resolutions and their display names.
- Votes and tags: the custom equalities and hash codes of votes, tags and
  posts; the app-wide vote set; and the tag edits the post card and the
  posts screen make when a tag is added, voted on or broadcast.
- Paging: the page keys and queries of the post and user-comment lists.
- The video player cache, and the choice of the playing post.
- The comment tree of the post detail screen.
- The submit flow: slug derivation, the tab-to-type mapping, the
  submit-enable rule, upload and encoding progress, and the create request.
- Small state machines:
  - the inbox's unread count;
  - the persisted login session;
  - the bearer-token attach-and-refresh interceptor (the header is the
    bearer form of section 2.1 of RFC 6750);
  - the login screen's outcomes and form checks;
  - the editor's emptiness test.

Each module states what the Kotlin code computes. Pure code is written as
functions. Code that loops or changes state is written as methods, each
proved against those functions. The properties the code promises are
lemmas: round trips, counts, invariants kept, what stays unchanged, and
both directions of every "exactly when".

Network answers and other outside inputs are parameters of the model:
- service answers, as `Outcome` (returned or threw);
- the JSON codecs;
- the platform's email pattern;
- the density-scaled image limit;
- the current time.

## Model

| member | source | states |
|---|---|---|
| Quill.DecodeAttributes | app/src/main/java/com/nonio/android/common/QuillParser.kt:116-129 | A present attributes object gets all nine fields: each flag is true only when the JSON says true, a missing link or list reads as `""`, a missing header or indent as 0 |
| Quill.DecodeOp | app/src/main/java/com/nonio/android/common/QuillParser.kt:113-131 | An element decodes exactly when it is an object with an `insert` string; the insert is kept, and attributes are present exactly when the element has an attributes object, then with every field filled |
| Quill.ParseJsonContent | app/src/main/java/com/nonio/android/common/QuillParser.kt:107-136 | The decoding loop gives the same answer as the element-wise decoder: the list of operations, or `null` on the first element that throws |
| Quill.DecodeFailureSticks | app/src/main/java/com/nonio/android/common/QuillParser.kt:113-135 | Once a prefix of the ops array fails to decode, the whole document does |
| Quill.SplitIntoLines | app/src/main/java/com/nonio/android/common/QuillParser.kt:94-101 | One text operation split at newlines closes one line per newline, each non-empty, and leaves a non-empty pending line |
| Quill.SegmentFrom | app/src/main/java/com/nonio/android/common/QuillParser.kt:83-104 | Every line the operation loop closes is non-empty |
| Quill.RenderLines | app/src/main/java/com/nonio/android/common/QuillParser.kt:83-103 | One rendered block per closed line, the ordered-list counters threaded from line to line |
| Quill.OrderListNumber | app/src/main/java/com/nonio/android/common/QuillParser.kt:230-237 | The number returned is the level's counter, 1 when the level is new, and the map then holds that number plus one for the level, other levels unchanged |
| Quill.ListStep | app/src/main/java/com/nonio/android/common/QuillParser.kt:160-168 | An ordered line draws the next number of its level, a bullet line draws the bullet and leaves the counters, any other line clears them; the marker length is the length of its text |
| Quill.StringFromLines | app/src/main/java/com/nonio/android/common/QuillParser.kt:138-228 | The imperative `stringFromLines` builds the block and counter map that the functional renderer gives for the line |
| Quill.AppendSpans | app/src/main/java/com/nonio/android/common/QuillParser.kt:174-210 | The span loop appends one styled run per operation after the marker, and a URL annotation for each linked one at the offsets its text lands on |
| Quill.ParseQuillJS | app/src/main/java/com/nonio/android/common/QuillParser.kt:74-105 | `parseQuillJS` gives the functional renderer's blocks: the raw text as one unquoted block when decoding fails, else one block per closed line |
| Quill.AppendPieces | app/src/main/java/com/nonio/android/common/QuillParser.kt:94-101 | The inner loop over one insert's pieces renders every line it closes, in order, and keeps the pending line, so the blocks so far are always the rendering of the lines closed so far |
| Quill.CloseLine | app/src/main/java/com/nonio/android/common/QuillParser.kt:96-100 | Closing the pending line appends its rendering and the counters it leaves |
| QuillProperties.DecodeOpsFailsIff | app/src/main/java/com/nonio/android/common/QuillParser.kt:113-115 | The ops array fails to decode exactly when some element is not an object or lacks an `insert` string |
| QuillProperties.DecodeOpsShape | app/src/main/java/com/nonio/android/common/QuillParser.kt:113-131 | A decoded array has one operation per element, each with that element's insert |
| QuillProperties.DecodeContentFailsIff | app/src/main/java/com/nonio/android/common/QuillParser.kt:107-136 | Decoding fails exactly when the text is not an object, `ops` is not an array, or some element fails; the renderer then shows the raw text as one block |
| QuillProperties.DecodedOps | app/src/main/java/com/nonio/android/common/QuillParser.kt:116-128 | In a decoded document every attributed operation has all fields filled, so an operation is a block exactly when it carries attributes |
| QuillProperties.SegmentFromCount | app/src/main/java/com/nonio/android/common/QuillParser.kt:83-103 | The number of closed lines is the number of block operations plus the number of newlines in the other inserts |
| QuillProperties.BreaksOfDecoded | app/src/main/java/com/nonio/android/common/QuillParser.kt:85-88 | For decoded operations, counting blocks is counting attributed operations |
| QuillProperties.BlockCount | app/src/main/java/com/nonio/android/common/QuillParser.kt:83-104 | A decoded document renders to one block per attributed operation plus one per newline in the unattributed inserts |
| QuillProperties.SegmentFromWellFormed | app/src/main/java/com/nonio/android/common/QuillParser.kt:84-101 | Every closed line holds newline-free pieces of text operations, ended by such a piece or by a block's empty operation |
| QuillProperties.SegmentFromAppend | app/src/main/java/com/nonio/android/common/QuillParser.kt:83-103 | Cutting two operation lists in sequence is cutting the first and then the second from the line the first left pending |
| QuillProperties.UnterminatedCloseNothing | app/src/main/java/com/nonio/android/common/QuillParser.kt:94-101 | Operations that are neither blocks nor contain a newline close no line |
| QuillProperties.TrailingTextDropped | app/src/main/java/com/nonio/android/common/QuillParser.kt:79-104 | Text after the last line end is never rendered: appending newline-free, non-block operations leaves the lines unchanged |
| QuillProperties.TextConservation | app/src/main/java/com/nonio/android/common/QuillParser.kt:83-103 | The closed lines and the pending line together hold exactly the text of the text operations with the newlines removed; only block inserts are replaced |
| QuillRenderProperties.OpRunsShape | app/src/main/java/com/nonio/android/common/QuillParser.kt:174-210 | One run per operation, holding its insert in that operation's style; the runs spell the line's inserts |
| QuillRenderProperties.ListPrefixMarker | app/src/main/java/com/nonio/android/common/QuillParser.kt:160-166 | The list marker is at most one plain run: `"n. "` for an ordered line, `"• "` for a bullet, empty otherwise |
| QuillRenderProperties.RenderLineText | app/src/main/java/com/nonio/android/common/QuillParser.kt:149-210 | A block's text is the list marker followed by the inserts of its line, in order |
| QuillRenderProperties.RenderLineFlags | app/src/main/java/com/nonio/android/common/QuillParser.kt:149-227 | A block is a quote exactly when its last operation says blockquote, and indented exactly when its indent level is positive |
| QuillRenderProperties.RenderLineRuns | app/src/main/java/com/nonio/android/common/QuillParser.kt:174-210 | The runs of a block are the marker run, if any, then one run per operation styled by that operation and by the line's header level |
| QuillRenderProperties.OpUrlsSpans | app/src/main/java/com/nonio/android/common/QuillParser.kt:196-205 | One annotation per linked operation, each naming its link and spanning exactly its insert |
| QuillRenderProperties.UrlAnnotationsCoverLinkedText | app/src/main/java/com/nonio/android/common/QuillParser.kt:196-205 | Each URL annotation of a block covers exactly its operation's text within the block |
| QuillRenderProperties.CountersTrackItemNumbers | app/src/main/java/com/nonio/android/common/QuillParser.kt:160-167 | The counter map passed between lines always holds, for every level, the number the next ordered line of that level will show |
| QuillRenderProperties.RenderLinesAt | app/src/main/java/com/nonio/android/common/QuillParser.kt:83-103 | Block `k` is line `k` rendered with the counters the earlier lines left |
| QuillRenderProperties.OrderedItemMarker | app/src/main/java/com/nonio/android/common/QuillParser.kt:161-164 | An ordered line shows the item number its position gives it: one more than the earlier ordered lines of its level since the last attributed line that is neither an ordered nor a bullet item |
| QuillRenderProperties.DocumentBlocks | app/src/main/java/com/nonio/android/common/QuillParser.kt:74-105 | In a decoded document, block `k` is line `k` of the segmentation, and no rendered line holds a newline |
| QuillRenderProperties.DefaultedStyle | app/src/main/java/com/nonio/android/common/QuillParser.kt:176-193 | Since a missing link decodes as `""`, every attributed run is underlined in the link colour and none is struck through; unattributed runs carry neither |
| QuillRenderProperties.NoStrikethroughInDecodedDocuments | app/src/main/java/com/nonio/android/common/QuillParser.kt:186-192 | No run of a rendered decoded document is struck through, and a run is underlined exactly when it has the link colour |
| QuillRenderProperties.ConvertRoundTrip | app/src/main/java/com/nonio/android/common/QuillParser.kt:240-254 | The document built from a plain string renders to one plain, unquoted, unannotated block per line of the string |
| QuillRenderProperties.ConvertRoundTripText | app/src/main/java/com/nonio/android/common/QuillParser.kt:240-254 | The lines of those blocks, joined with newlines, give the string back |
| Urls.ImageUrlInverse | app/src/main/java/com/nonio/android/network/Urls.kt:101 | An image URL is the image host, the path and `.webp`, and stripping those gives the path back |
| Urls.ThumbnailImageUrlInverse | app/src/main/java/com/nonio/android/network/Urls.kt:87 | The same round trip for thumbnail URLs, on the thumbnail host |
| Urls.AvatarImageUrlInverse | app/src/main/java/com/nonio/android/network/Urls.kt:89 | The same round trip for avatar URLs: the user name is recovered |
| Urls.VideoUrlInverse | app/src/main/java/com/nonio/android/network/Urls.kt:91-99 | A video URL, with or without the `.mp4` suffix, gives its path back once the host and that suffix are stripped |
| Urls.VideoEncodeUrlInverse | app/src/main/java/com/nonio/android/network/Urls.kt:103 | The encoding-socket URL gives the file name back once its prefix is stripped |
| Urls.BuildersInjective | app/src/main/java/com/nonio/android/network/Urls.kt:87-103 | Every URL builder is injective: two paths give the same URL only if they are equal |
| Urls.VideoUrlSuffix | app/src/main/java/com/nonio/android/network/Urls.kt:95-99 | The suffixed video URL is the unsuffixed one with `.mp4` appended |
| Urls.ImageAndThumbnailDiffer | app/src/main/java/com/nonio/android/network/Urls.kt:37-38 | An image URL and a thumbnail URL never coincide, since their hosts differ |
| Duration.TDiv | app/src/main/java/com/nonio/android/common/formatDuration.kt:7-12 | Kotlin's integer division: the ordinary quotient for a non-negative dividend, never positive for a negative one |
| Duration.FormatDurationByThresholds | app/src/main/java/com/nonio/android/common/formatDuration.kt:3-22 | The chain of truncating divisions prints the largest unit whose length the elapsed time reaches, and the elapsed time divided by that length |
| Duration.UnderAMinute | app/src/main/java/com/nonio/android/common/formatDuration.kt:14-20 | Under a minute, including a timestamp in the future, the output is the truncated seconds followed by `sec` |
| Duration.FutureTimestamp | app/src/main/java/com/nonio/android/common/formatDuration.kt:5-20 | A timestamp in the future prints a non-positive number of seconds |
| Duration.MonthsAndYears | app/src/main/java/com/nonio/android/common/formatDuration.kt:11-16 | From 30 days up to a year the output is in months; from 365 days on it is in years |
| Duration.FormatDurationShape | app/src/main/java/com/nonio/android/common/formatDuration.kt:14-21 | The output is always a decimal number followed by one of the six unit suffixes |
| MediaTypes.MimeTypeOf | app/src/main/java/com/nonio/android/common/MediaTypeUtil.kt:9-19 | A `content:` URI takes the content resolver's MIME type; every other scheme takes the extension table's |
| MediaTypes.PrefixesExclusive | app/src/main/java/com/nonio/android/common/MediaTypeUtil.kt:28-29 | No MIME type starts with both `image/` and `video/` |
| MediaTypes.ClassifyMimeIff | app/src/main/java/com/nonio/android/common/MediaTypeUtil.kt:26-31 | IMAGE exactly for a type starting with `image/`, VIDEO exactly for `video/`, UNKNOWN for none or anything else |
| MediaTypes.UpperCasePrefixUnknown | app/src/main/java/com/nonio/android/common/MediaTypeUtil.kt:28-29 | The prefix test is case-sensitive: `IMAGE/` and `VIDEO/` give UNKNOWN |
| MediaTypes.ClassifyByPrefix | app/src/main/java/com/nonio/android/common/MediaTypeUtil.kt:28-29 | Only the first six characters decide the class |
| MediaTypes.GetMediaType | app/src/main/java/com/nonio/android/common/MediaTypeUtil.kt:21-32 | `getMediaType` classifies the resolver's answer for `content:` URIs and the extension table's answer otherwise |
| Resolutions.FilterWidthAtMost | app/src/main/java/com/nonio/android/model/Resolution.kt:22-24 | The filter keeps exactly the entries no wider than the bound, and never more than it was given |
| Resolutions.GetLowerResolutions | app/src/main/java/com/nonio/android/model/Resolution.kt:17-25 | An entry is offered exactly when its width is at most the larger of the source's width and height |
| Resolutions.EntriesAscend | app/src/main/java/com/nonio/android/model/Resolution.kt:8-13 | The entries are declared in strictly ascending width |
| Resolutions.FilterAscendingIsPrefix | app/src/main/java/com/nonio/android/model/Resolution.kt:21-24 | On ascending widths the filter keeps a prefix: the leading entries no wider than the bound |
| Resolutions.LowerResolutionsArePrefix | app/src/main/java/com/nonio/android/model/Resolution.kt:17-25 | The lower resolutions are a prefix of the entry list, in declaration order |
| Resolutions.LowerResolutionsSymmetric | app/src/main/java/com/nonio/android/model/Resolution.kt:21 | Swapping width and height changes nothing |
| Resolutions.LowerResolutionsMonotone | app/src/main/java/com/nonio/android/model/Resolution.kt:21-24 | A larger source never yields fewer entries, and the smaller list is a prefix of the larger |
| Resolutions.SmallSourceHasNone | app/src/main/java/com/nonio/android/model/Resolution.kt:17-25 | A source under 854 pixels on both sides is offered no resolution at all |
| Resolutions.DisplayNames | app/src/main/java/com/nonio/android/model/Resolution.kt:29-37 | The six display names: `480p`, `720p`, `1080p`, `1440p`, `4k`, `8k` |
| Resolutions.DisplayNamesDistinct | app/src/main/java/com/nonio/android/model/Resolution.kt:29-37 | No two entries share a display name |
| Resolutions.FindByName | app/src/main/java/com/nonio/android/ui/submit/SubmitViewModel.kt:186 | The index found is the first entry with that display name; there is none exactly when no entry has it, where `first` throws |
| Resolutions.FindByNameUnique | app/src/main/java/com/nonio/android/ui/submit/SubmitViewModel.kt:186 | In a list without repeated entries, the lookup finds the only entry of that name |
| Resolutions.FindEntryByName | app/src/main/java/com/nonio/android/ui/submit/SubmitViewModel.kt:186 | Looking an entry up by its own display name finds that entry |
| Models.VoteEqualsIsValueEquality | app/src/main/java/com/nonio/android/model/VoteModel.kt:13-23 | Two votes are equal exactly when both ids agree, so vote equality is an equivalence |
| Models.VoteHashConsistent | app/src/main/java/com/nonio/android/model/VoteModel.kt:25-29 | Equal votes have equal hash codes, the `31 * h` combination of the ids' string hashes wrapped to 32 bits |
| Models.IsLikedIff | app/src/main/java/com/nonio/android/common/AppViewModel.kt:68-76 | A tag is liked exactly when the vote set is loaded and holds a vote with both its post id and its tag id |
| Models.NewTagModel | app/src/main/java/com/nonio/android/model/TagModel.kt:10-26 | A new tag's local score starts at its score, 0 when absent, and it starts liked exactly when the vote set holds its ids |
| Models.TagEqualsProperties | app/src/main/java/com/nonio/android/model/TagModel.kt:27-36 | Tag equality compares only the name: it is an equivalence, equal tags hash alike, and no other field matters |
| Models.TagListHashConsistent | app/src/main/java/com/nonio/android/model/PostModel.kt:128 | Tag lists that are equal element by element have equal list hash codes |
| Models.PostTypeRoundTrip | app/src/main/java/com/nonio/android/model/PostModel.kt:162-170 | The name each type writes is read back by `getPostType` as that type |
| Models.PostTypeFallback | app/src/main/java/com/nonio/android/model/PostModel.kt:81-89 | Every string but the five exact names, and a missing type, reads as LINK; otherwise the type read writes the string back |
| Models.PostTypeIsCaseSensitive | app/src/main/java/com/nonio/android/model/PostModel.kt:82-88 | Matching is case-sensitive: `Image` and `VIDEO` read as LINK |
| Models.NewPostModel | app/src/main/java/com/nonio/android/model/PostModel.kt:13-50 | A decoded post is not a preview, has no preview media, and its `mutableTags` start as its tags, empty when absent |
| Models.GetFormatTime | app/src/main/java/com/nonio/android/model/PostModel.kt:91-96 | The post's relative time, `""` when it has no time |
| Models.PreviewModelProperties | app/src/main/java/com/nonio/android/model/PostModel.kt:53-78 | A preview is marked so, keeps its type, URL, tags and media, is by `user`, and its media URL is the raw URL |
| Models.MediaUrlCases | app/src/main/java/com/nonio/android/model/PostModel.kt:138-150 | Images and links use the image host, videos the video host with `.mp4`, the rest and every preview the raw URL; the raw URL can always be recovered |
| Models.PostHashConsistent | app/src/main/java/com/nonio/android/model/PostModel.kt:121-136 | Equal posts have equal hash codes, even when their tags differ in anything but names |
| Models.PostEqualsIgnoresLocalState | app/src/main/java/com/nonio/android/model/PostModel.kt:98-119 | Post equality ignores the preview flag, the preview media and the mutable tag list |
| Models.NewCommentModel | app/src/main/java/com/nonio/android/model/CommentModel.kt:8-36 | A decoded comment starts at level 1 and keeps its ids |
| Models.CommentFormatTime | app/src/main/java/com/nonio/android/model/CommentModel.kt:38-43 | The comment's relative time, `""` when it has no date |
| Models.TopCommentIff | app/src/main/java/com/nonio/android/model/CommentModel.kt:45 | A comment is a top comment exactly when its parent is 0; one without a parent is not |
| TagSearch.GetHighlightAnnotatedString | app/src/main/java/com/nonio/android/ui/posts/tag/TagSearchPage.kt:296-336 | The imperative highlighter builds exactly the pieces of the functional definition |
| TagSearch.HighlightLoop | app/src/main/java/com/nonio/android/ui/posts/tag/TagSearchPage.kt:316-333 | The search loop appends, in order, the pieces from position 0 on |
| TagSearch.HighlightStep | app/src/main/java/com/nonio/android/ui/posts/tag/TagSearchPage.kt:317-332 | One pass appends the rest of the text when no match remains; otherwise it appends the skipped text and the match and moves strictly forward |
| TagSearch.AppendMatch | app/src/main/java/com/nonio/android/ui/posts/tag/TagSearchPage.kt:324-331 | A match appends the skipped text, when there is some, then the matched text |
| TagSearch.HighlightFromText | app/src/main/java/com/nonio/android/ui/posts/tag/TagSearchPage.kt:316-333 | The pieces from any position on spell the rest of the original text |
| TagSearch.HighlightKeepsText | app/src/main/java/com/nonio/android/ui/posts/tag/TagSearchPage.kt:296-336 | Concatenating the pieces gives back the text, for every keyword |
| TagSearch.EmptyKeyword | app/src/main/java/com/nonio/android/ui/posts/tag/TagSearchPage.kt:305-310 | An empty keyword gives the whole text as one plain piece |
| TagSearch.EmptyText | app/src/main/java/com/nonio/android/ui/posts/tag/TagSearchPage.kt:316 | An empty text with a non-empty keyword gives no pieces |
| TagSearch.SkippedHasNoKey | app/src/main/java/com/nonio/android/ui/posts/tag/TagSearchPage.kt:317-328 | Plain text the search skips over holds no occurrence of the keyword, ignoring case |
| TagSearch.HighlightPieces | app/src/main/java/com/nonio/android/ui/posts/tag/TagSearchPage.kt:313-333 | Every highlighted piece has the keyword's length and matches it ignoring case, every plain piece is non-empty and match-free, and no two plain pieces are adjacent |
| TagSearch.CreateTagTap | app/src/main/java/com/nonio/android/ui/posts/tag/TagSearchPage.kt:132-142 | Tapping the create row does nothing for an empty keyword, and otherwise returns a bare tag of that name with no ids, score or count |
| TagSearch.ShowResultsWithoutTags | app/src/main/java/com/nonio/android/ui/posts/tag/TagSearchPage.kt:117 | With no search results the list shows only when tags may be created and the input is not blank |
| WebSockets.WaitForCompletion | app/src/main/java/com/nonio/android/network/WebSocketHelper.kt:63-80 | The callback receives the messages up to and including the first terminator, and the result is the last of those, `""` when none arrived; the wait completes exactly when a terminator arrives (the channel is only cancelled by `close`), and otherwise is still pending |
| WebSockets.DeliveredShape | app/src/main/java/com/nonio/android/network/WebSocketHelper.kt:65-71 | What is delivered is a prefix of the stream in which only the last message can be a terminator; delivery stops early only at a terminator, and a stream without one is delivered whole |
| WebSockets.NothingAfterTerminator | app/src/main/java/com/nonio/android/network/WebSocketHelper.kt:68-70 | Messages after the first terminator never reach the callback |
| Paging.LoadPage | app/src/main/java/com/nonio/android/ui/posts/PostsViewModel.kt:42-64 | A page load is an error exactly when the call throws; otherwise the page holds the answer's list (empty for a null answer), has a previous key exactly from offset 100 on (100 back) and a next key exactly when at least 100 items came (100 on) |
| Paging.KeysStayOnGrid | app/src/main/java/com/nonio/android/ui/posts/PostsViewModel.kt:44-58 | Starting from no key or a multiple of 100, every key a page hands out is again a non-negative multiple of 100 |
| Paging.PrevOfNext | app/src/main/java/com/nonio/android/ui/posts/PostsViewModel.kt:57-58 | Following a page's next key and then that page's previous key leads back to the offset started from |
| Paging.FirstPageHasNoPrev | app/src/main/java/com/nonio/android/ui/posts/PostsViewModel.kt:44-57 | The first page, loaded without a key, has no previous page |
| Paging.ShortPageIsLast | app/src/main/java/com/nonio/android/ui/posts/PostsViewModel.kt:76 | A page that came back with fewer than 100 items has no next page |
| Paging.PostsQuery | app/src/main/java/com/nonio/android/ui/posts/PostsViewModel.kt:86-106 | The feed asks for the offset of its key (0 without one), the current tag's name, the lower-cased sort name, a lower-cased timeframe exactly when one is chosen, and a user name exactly on a user's page |
| Paging.PostsSortStrings | app/src/main/java/com/nonio/android/model/PostModel.kt:177-183 | The feed's sort parameters are "popular", "new" and "top" |
| Paging.UserCommentsQuery | app/src/main/java/com/nonio/android/ui/posts/user/UserCommentViewModel.kt:32-42 | The user's comments are asked for at the key's offset, with the lower-cased enum name of the sort and the signed-in user's name |
| Paging.SortStringsAgree | app/src/main/java/com/nonio/android/ui/posts/user/UserCommentViewModel.kt:35-38 | The comment source's sort string, built from the enum name, equals the feed's, built from the display name, for every sort |
| PostsViewModels.FirstVideo | app/src/main/java/com/nonio/android/ui/posts/PostsViewModel.kt:184-186 | The index found is the lowest video in the visible range; none is found exactly when the range is empty or lies inside the list without a video; the search throws exactly when it reaches an index outside the list before any video |
| PostsViewModels.Values | app/src/main/java/com/nonio/android/ui/posts/PostsViewModel.kt:139 | The cached players come out once each, in the order their indexes were inserted |
| PostsViewModels.GetOrCreate | app/src/main/java/com/nonio/android/ui/posts/PostsViewModel.kt:193-203 | A cached index returns its player and changes nothing; a missing one stores the new player last, and when that takes the cache past three the earliest-inserted entry is evicted and returned for release; the cache stays valid (distinct keys, at most three) |
| PostsViewModels.InsertKeepsValid | app/src/main/java/com/nonio/android/ui/posts/PostsViewModel.kt:193-203 | Storing a new index while there is room keeps every key listed once and the list equal to the map's keys |
| PostsViewModels.EvictKeepsValid | app/src/main/java/com/nonio/android/ui/posts/PostsViewModel.kt:193-203 | Storing a new index in a full cache and evicting the eldest leaves three distinct keys, all mapped, and no mapped key unlisted |
| PostsViewModels.CacheSize | app/src/main/java/com/nonio/android/ui/posts/PostsViewModel.kt:199 | The map's size, which the eviction test reads, is the number of keys in insertion order |
| PostsViewModels.HitDoesNotRefresh | app/src/main/java/com/nonio/android/ui/posts/PostsViewModel.kt:197-201 | On a full cache, a hit followed by a miss evicts the oldest entry even when the hit was on it |
| PostsViewModels.NewPlayerSurvives | app/src/main/java/com/nonio/android/ui/posts/PostsViewModel.kt:198-201 | The player just created is kept, as the newest entry, and never the one evicted |
| PostsViewModels.PostsViewModel.constructor | app/src/main/java/com/nonio/android/ui/posts/PostsViewModel.kt:79-84 | A new view model sorts by POPULAR with no timeframe, plays nothing and caches no player |
| PostsViewModels.PostsViewModel.UpdateSort | app/src/main/java/com/nonio/android/ui/posts/PostsViewModel.kt:131-136 | Sort and timeframe are replaced together and nothing else changes |
| PostsViewModels.PostsViewModel.UpdatePlayingIndex | app/src/main/java/com/nonio/android/ui/posts/PostsViewModel.kt:179-191 | The playing index becomes the first video in the visible range and is written only when it changes; a search that throws leaves everything unchanged |
| PostsViewModels.PostsViewModel.GetOrCreatePlayer | app/src/main/java/com/nonio/android/ui/posts/PostsViewModel.kt:193-203 | The cache moves as GetOrCreate says, an evicted player is released, and the cache never holds more than three players |
| PostsViewModels.PostsViewModel.OnCleared | app/src/main/java/com/nonio/android/ui/posts/PostsViewModel.kt:138-142 | Every cached player is released once, in insertion order, and the cache is emptied |
| AppViewModels.Minus | app/src/main/java/com/nonio/android/common/AppViewModel.kt:103 | Removing a vote the list does not hold changes nothing |
| AppViewModels.MinusMultiset | app/src/main/java/com/nonio/android/common/AppViewModel.kt:103 | Removal takes away one copy of the vote and keeps every other vote as often as before |
| AppViewModels.MinusSplits | app/src/main/java/com/nonio/android/common/AppViewModel.kt:103 | Only the first equal vote goes; what comes before and after it stays in order |
| AppViewModels.MinusHead | app/src/main/java/com/nonio/android/common/AppViewModel.kt:98-103 | Removing the vote just added at the front gives the list back |
| AppViewModels.MinusAppended | app/src/main/java/com/nonio/android/common/AppViewModel.kt:98-103 | Adding a vote the list did not hold and removing it again restores the list |
| AppViewModels.DuplicateSurvivesRemoval | app/src/main/java/com/nonio/android/common/AppViewModel.kt:68-76 | A vote held twice is still reported liked after one removal |
| AppViewModels.SingleRemovalUnlikes | app/src/main/java/com/nonio/android/common/AppViewModel.kt:68-76 | A vote held at most once is no longer liked after its removal |
| AppViewModels.RemovalKeepsOthers | app/src/main/java/com/nonio/android/common/AppViewModel.kt:68-76 | Removing one vote leaves whether any other post and tag pair is liked unchanged |
| AppViewModels.AppViewModel.constructor | app/src/main/java/com/nonio/android/common/AppViewModel.kt:52-62 | A new view model takes the session's sign-in state, holds no vote list, counts no notification and has the flag down |
| AppViewModels.AppViewModel.UpdateNotification | app/src/main/java/com/nonio/android/common/AppViewModel.kt:64-66 | The flag flips and nothing else changes |
| AppViewModels.AppViewModel.IsLiked | app/src/main/java/com/nonio/android/common/AppViewModel.kt:68-76 | A vote is liked exactly when a list is held and it contains the vote for that post and tag |
| AppViewModels.AppViewModel.RefreshVote | app/src/main/java/com/nonio/android/common/AppViewModel.kt:78-88 | Signed out, the list is dropped; a fetch that throws keeps the list; any answer, null included, replaces it |
| AppViewModels.AppViewModel.UpdateVote | app/src/main/java/com/nonio/android/common/AppViewModel.kt:90-107 | Without a list nothing happens; adding appends the vote, which is then liked; removing drops the first equal vote |
| Inbox.UnreadCount | app/src/main/java/com/nonio/android/ui/inbox/InboxViewModel.kt:29-39 | The unread count never exceeds the number of notifications |
| Inbox.Reversed | app/src/main/java/com/nonio/android/ui/inbox/InboxViewModel.kt:58 | The list shown holds the server's notifications in reverse order |
| Inbox.UnreadCountReversed | app/src/main/java/com/nonio/android/ui/inbox/InboxViewModel.kt:58-65 | The count published from the server's list equals the unread count of the reversed list shown |
| Inbox.ReadingOneLowersCount | app/src/main/java/com/nonio/android/ui/inbox/InboxViewModel.kt:85-93 | Marking one unread notification read lowers the unread count by exactly one |
| Inbox.CountAfterMarkReadAsWritten | app/src/main/java/com/nonio/android/ui/inbox/InboxViewModel.kt:91-93 | As written, the count after markRead equals the count before |
| Inbox.CountAfterMarkRead | app/src/main/java/com/nonio/android/ui/inbox/InboxViewModel.kt:91-93 | As intended, a non-zero count drops by one and a zero count stays zero, so the count never goes negative |
| Inbox.MarkReadDiscrepancy | app/src/main/java/com/nonio/android/ui/inbox/InboxViewModel.kt:91-93 | With one unread notification, reading it takes the true unread count from one to zero |
| Inbox.InboxViewModel.constructor | app/src/main/java/com/nonio/android/ui/inbox/InboxViewModel.kt:20-27 | A new view model shows no notification and no indicator |
| Inbox.InboxViewModel.UpCountData | app/src/main/java/com/nonio/android/ui/inbox/InboxViewModel.kt:29-39 | The app's count becomes the unread count of the list, 0 for no list, and nothing else of the app changes |
| Inbox.InboxViewModel.Poll | app/src/main/java/com/nonio/android/ui/inbox/InboxViewModel.kt:51-74 | An answer replaces the list with its reverse and republishes the count; a thrown call changes neither; a requested indicator is shown and cleared either way |
| Inbox.InboxViewModel.GetNotifications | app/src/main/java/com/nonio/android/ui/inbox/InboxViewModel.kt:41-79 | Over a run of polls only the first may show the indicator, and the list and count are those of the last answer that arrived, or unchanged when none did |
| Inbox.InboxViewModel.MarkRead | app/src/main/java/com/nonio/android/ui/inbox/InboxViewModel.kt:85-94 | The id is sent, and the count drops by one unless it is already zero |
| Inbox.InboxViewModel.MarkReadAsWritten | app/src/main/java/com/nonio/android/ui/inbox/InboxViewModel.kt:85-94 | As written, the id is sent and the count stays where it was |
| Inbox.InboxViewModel.ClearNotification | app/src/main/java/com/nonio/android/ui/inbox/InboxViewModel.kt:101-103 | The list is emptied and the indicator left alone |
| Inbox.LastReturned | app/src/main/java/com/nonio/android/ui/inbox/InboxViewModel.kt:50-77 | An answer is found exactly when some poll returned, and it is the last poll's when that one returned |
| UserHelpers.StoredModel | app/src/main/java/com/nonio/android/common/UserHelper.kt:45-54 | A fresh start finds no model while the stored text is blank, and otherwise the model the codec decodes from it |
| UserHelpers.LoginPersists | app/src/main/java/com/nonio/android/common/UserHelper.kt:56-58 | With a codec that reads back what it writes, a model written at login is the model a fresh start finds |
| UserHelpers.LogoutForgets | app/src/main/java/com/nonio/android/common/UserHelper.kt:65-67 | After logout a fresh start finds no session |
| UserHelpers.AccessToken | app/src/main/java/com/nonio/android/common/UserHelper.kt:94-99 | The access token is the session's, and `""` without a session |
| UserHelpers.RefreshToken | app/src/main/java/com/nonio/android/common/UserHelper.kt:38-43 | The refresh token is the session's, and `""` without a session |
| UserHelpers.UserName | app/src/main/java/com/nonio/android/common/UserHelper.kt:83-88 | The user name is the session's, and `""` without a session |
| UserHelpers.Avatar | app/src/main/java/com/nonio/android/common/UserHelper.kt:76-81 | The avatar is the avatar URL of the user's name when signed in, and `""` otherwise |
| UserHelpers.WithTokens | app/src/main/java/com/nonio/android/common/UserHelper.kt:105 | Updating the tokens replaces both of them and keeps the name and roles |
| UserHelpers.UserHelper.Session | app/src/main/java/com/nonio/android/common/UserHelper.kt:45-54 | The session the getters see is the cached model, or else the model decoded from the store |
| UserHelpers.UserHelper.constructor | app/src/main/java/com/nonio/android/common/UserHelper.kt:30-34 | Nothing is cached and the store has not been read |
| UserHelpers.UserHelper.GetUserModel | app/src/main/java/com/nonio/android/common/UserHelper.kt:45-54 | The store is read only while nothing is cached; a model is cached only when the stored text is not blank; the session does not change |
| UserHelpers.UserHelper.IsLogin | app/src/main/java/com/nonio/android/common/UserHelper.kt:36 | Signed in exactly when a model is cached or can be read from the store |
| UserHelpers.UserHelper.GetToken | app/src/main/java/com/nonio/android/common/UserHelper.kt:94-99 | Returns the session's access token and changes no session |
| UserHelpers.UserHelper.GetRefreshToken | app/src/main/java/com/nonio/android/common/UserHelper.kt:38-43 | Returns the session's refresh token and changes no session |
| UserHelpers.UserHelper.GetUserName | app/src/main/java/com/nonio/android/common/UserHelper.kt:83-88 | Returns the session's user name and changes no session |
| UserHelpers.UserHelper.GetUserAvatar | app/src/main/java/com/nonio/android/common/UserHelper.kt:76-81 | Returns the session's avatar URL and changes no session |
| UserHelpers.UserHelper.Login | app/src/main/java/com/nonio/android/common/UserHelper.kt:56-63 | The model is written to the store and cached, it becomes the session, and the app is told it is signed in |
| UserHelpers.UserHelper.Logout | app/src/main/java/com/nonio/android/common/UserHelper.kt:65-72 | The key is removed from the store, the cache is dropped, no session remains, and the app is told it is signed out |
| UserHelpers.UserHelper.UpdateToken | app/src/main/java/com/nonio/android/common/UserHelper.kt:101-109 | Signed out, nothing changes; signed in, the session becomes the model with both tokens replaced, and that model is stored |
| TokenInterceptors.AddHeader | app/src/main/java/com/nonio/android/network/interceptor/TokenInterceptor.kt:58-62 | Adding a header keeps the URL and every earlier header, the new one last |
| TokenInterceptors.WithoutName | app/src/main/java/com/nonio/android/network/interceptor/TokenInterceptor.kt:75 | What is kept holds no header of the removed name |
| TokenInterceptors.RemoveHeader | app/src/main/java/com/nonio/android/network/interceptor/TokenInterceptor.kt:72-77 | Removing a header keeps the URL and leaves no header of that name |
| TokenInterceptors.WithoutNameValues | app/src/main/java/com/nonio/android/network/interceptor/TokenInterceptor.kt:72-77 | After removal the name has no value and every other name has the values it had |
| TokenInterceptors.RetryReplacesCredential | app/src/main/java/com/nonio/android/network/interceptor/TokenInterceptor.kt:58-78 | The retried request carries exactly one Authorization header, with the new token, and every other header of the original request unchanged |
| TokenInterceptors.NoSessionNoRefresh | app/src/main/java/com/nonio/android/network/interceptor/TokenInterceptor.kt:19-20 | Without a session no refresh can succeed |
| TokenInterceptors.Refresh | app/src/main/java/com/nonio/android/network/interceptor/TokenInterceptor.kt:18-40 | A blank stored refresh token fails without a call; otherwise the stored token is sent, and the refresh succeeds, updating both tokens, exactly when the answer carries two non-blank tokens; a failed refresh changes no session |
| TokenInterceptors.Intercept | app/src/main/java/com/nonio/android/network/interceptor/TokenInterceptor.kt:42-86 | An unauthorised URL or a signed-out user proceeds unchanged; otherwise the request goes out with the bearer token; only a 401 triggers a refresh, and only a successful one retries, once, with the new token, returning the retry's response |
| LoginViewModels.LoginEmissions | app/src/main/java/com/nonio/android/ui/login/LoginViewModel.kt:64-110 | A login always emits Loading first; a null answer emits nothing more; an answer with a profile emits Loading, Loading, HasLogin; a 404 ends in UserInvalid and other failures in Error; the run crashes exactly when the profile answer is null |
| LoginViewModels.LoginViewModel.constructor | app/src/main/java/com/nonio/android/ui/login/LoginViewModel.kt:54 | The first state is HasLogin with a session and NoLogin without one |
| LoginViewModels.LoginViewModel.OnEmailChange | app/src/main/java/com/nonio/android/ui/login/LoginViewModel.kt:46-48 | Only the email changes |
| LoginViewModels.LoginViewModel.OnPwdChange | app/src/main/java/com/nonio/android/ui/login/LoginViewModel.kt:50-52 | Only the password changes |
| LoginViewModels.LoginViewModel.UserInfo | app/src/main/java/com/nonio/android/ui/login/LoginViewModel.kt:64-78 | The profile is asked for under the session's user name; success stores it and emits HasLogin, failure emits Error, a null answer crashes; Loading comes first only when asked for |
| LoginViewModels.LoginViewModel.Login | app/src/main/java/com/nonio/android/ui/login/LoginViewModel.kt:80-110 | The typed email and password are sent; the states emitted are those of LoginEmissions; a non-null answer signs the user in; only an unexpected exception shows the "Unknown error" toast |
| LoginPage.OnLoginPress | app/src/main/java/com/nonio/android/ui/login/LoginPage.kt:480-495 | The login call happens exactly when the email is non-empty and well-formed and the password non-empty; otherwise the first failing check's toast is shown |
| LoginPage.EmailCheckedFirst | app/src/main/java/com/nonio/android/ui/login/LoginPage.kt:480-486 | While the email is empty or malformed, the outcome is a toast and does not depend on the password |
| LoginPage.GetUserAvatar | app/src/main/java/com/nonio/android/ui/login/LoginPage.kt:77-82 | Signed in, the header shows the user's avatar URL; signed out, the bundled default |
| QuillEditors.FoundTextInObjects | app/src/main/java/com/nonio/android/ui/widget/QuillEditor.kt:26-42 | When every op is a JSON object, the editor has content exactly when some op's insert is not blank |
| QuillEditors.ConvertedHasText | app/src/main/java/com/nonio/android/ui/widget/QuillEditor.kt:26-42 | The delta built from a description has content exactly when the description is not blank |
| QuillEditors.QuillEditorController.constructor | app/src/main/java/com/nonio/android/ui/widget/QuillEditor.kt:19-22 | A new controller holds `""` and no listener |
| QuillEditors.QuillEditorController.ContentIsEmpty | app/src/main/java/com/nonio/android/ui/widget/QuillEditor.kt:26-42 | Not empty exactly when the ops hold a non-blank insert with only objects before it; unparsable content or content without ops is empty |
| QuillEditors.QuillEditorController.SetListener | app/src/main/java/com/nonio/android/ui/widget/QuillEditor.kt:45-47 | The listener is replaced and nothing else changes |
| QuillEditors.QuillEditorController.SetContent | app/src/main/java/com/nonio/android/ui/widget/QuillEditor.kt:49-52 | A null content is stored as `""`, and the listener, if any, receives the argument as given |
| QuillEditors.QuillEditorController.OnDispose | app/src/main/java/com/nonio/android/ui/widget/QuillEditor.kt:90-92 | Disposal resets the content to `""` and tells the listener |
| Comments.IdIndex | app/src/main/java/com/nonio/android/ui/posts/detail/PostDetailViewModel.kt:105 | Each id present maps to the position of the last comment carrying it, and no other id is mapped |
| Comments.Attached | app/src/main/java/com/nonio/android/ui/posts/detail/PostDetailViewModel.kt:110-118 | A comment is attached under the last comment carrying its parent id; none is found only when no comment carries that id or the comment is a root |
| Comments.BuildNestedComments | app/src/main/java/com/nonio/android/ui/posts/detail/PostDetailViewModel.kt:104-122 | The loop ends in the tree NestedTree describes |
| Comments.BuiltNodes | app/src/main/java/com/nonio/android/ui/posts/detail/PostDetailViewModel.kt:109-120 | Only levels change: every other field of every comment is as received, and comments not yet visited are untouched |
| Comments.BuiltLevels | app/src/main/java/com/nonio/android/ui/posts/detail/PostDetailViewModel.kt:109-120 | Every visited comment carries its final level |
| Comments.BuiltRoots | app/src/main/java/com/nonio/android/ui/posts/detail/PostDetailViewModel.kt:109-112 | The roots are exactly the visited comments whose parent is null or 0, in input order |
| Comments.BuiltChildren | app/src/main/java/com/nonio/android/ui/posts/detail/PostDetailViewModel.kt:113-118 | Each reply list holds exactly the visited comments attached under that comment |
| Comments.BuiltChildrenOrdered | app/src/main/java/com/nonio/android/ui/posts/detail/PostDetailViewModel.kt:113-118 | Each reply list is in input order |
| Comments.NestedComments | app/src/main/java/com/nonio/android/ui/posts/detail/PostDetailViewModel.kt:104-122 | The result's roots are the roots in order at level 1, and every comment whose parent id is present is appended, in order, to the reply list of the last comment with that id |
| Comments.ReplyLevel | app/src/main/java/com/nonio/android/ui/posts/detail/PostDetailViewModel.kt:116 | A reply sits one level below its parent's level at the moment it is placed: the parent's final level when the parent came first, its received level otherwise |
| Comments.RootLevel | app/src/main/java/com/nonio/android/ui/posts/detail/PostDetailViewModel.kt:110-111 | A root ends at level 1 |
| Comments.PlacedAtMostOnce | app/src/main/java/com/nonio/android/ui/posts/detail/PostDetailViewModel.kt:109-119 | No comment is in two lists: a root is nobody's reply, and a reply is in one parent's list only |
| Comments.OrphanDropped | app/src/main/java/com/nonio/android/ui/posts/detail/PostDetailViewModel.kt:114-118 | A comment whose parent id is absent is in no list and keeps its received level |
| Comments.DuplicateParentUsesLast | app/src/main/java/com/nonio/android/ui/posts/detail/PostDetailViewModel.kt:105 | With duplicate ids, a reply goes under the last comment carrying its parent id and not under an earlier one |
| Comments.IsVoted | app/src/main/java/com/nonio/android/ui/posts/detail/PostDetailViewModel.kt:198 | A comment counts as voted exactly when some vote for its id has upvote true |
| Comments.PostDetailViewModel.constructor | app/src/main/java/com/nonio/android/ui/posts/detail/PostDetailViewModel.kt:34-62 | A new view model holds no post, comments or votes, is not refreshing, and its state is Normal |
| Comments.PostDetailViewModel.LoadData | app/src/main/java/com/nonio/android/ui/posts/detail/PostDetailViewModel.kt:70-102 | The refreshing flag goes up when asked; the calls run in order (post, comments, then votes only when signed in) and the first one that throws ends the load, leaving the post, the comment tree and the votes as they were and the flag as set on entry; when all answer, they replace the post, the comment tree and the votes wholesale, a null answer giving none or an empty list, and the flag comes down |
| Comments.PostDetailViewModel.AddComment | app/src/main/java/com/nonio/android/ui/posts/detail/PostDetailViewModel.kt:130-156 | The body names the reply target's post (the page URL when not replying), its id as parent, and the content; the callback and the notification toggle happen exactly when the call succeeds; the state goes to loading and back to Normal |
| Comments.PostDetailViewModel.LikeComment | app/src/main/java/com/nonio/android/ui/posts/detail/PostDetailViewModel.kt:195-206 | Nothing is sent when signed out or without an id; otherwise the request carries the id and upvoted exactly when no upvote for it is recorded |
| Comments.LikeCommentToggles | app/src/main/java/com/nonio/android/ui/posts/detail/PostDetailViewModel.kt:195-206 | A comment not yet upvoted counts as upvoted once an upvote for it is recorded, so the next request for it asks to remove the vote |
| PostItems.FirstWhere | app/src/main/java/com/nonio/android/ui/posts/PostItem.kt:137 | The index found satisfies the test and none before it does; the length of the list when none does |
| PostItems.FindFirst | app/src/main/java/com/nonio/android/ui/posts/PostItem.kt:137 | The scan over the list stops at the first index FirstWhere names |
| PostItems.FirstWhereIsFirst | app/src/main/java/com/nonio/android/ui/posts/PostItem.kt:137 | Any index where the test holds with nothing before it holding is the one FirstWhere finds |
| PostItems.HasNameFound | app/src/main/java/com/nonio/android/ui/posts/PostItem.kt:137 | A tag of the name is present exactly when the scan finds one |
| PostItems.AddSearchedProperties | app/src/main/java/com/nonio/android/ui/posts/PostItem.kt:136-149 | After a tag is chosen its name is in the list; an existing name changes nothing; otherwise exactly one copy goes in front, with score 1, local score 1 and liked; distinct names stay distinct; choosing the same tag again changes nothing |
| PostItems.OnSearchClosed | app/src/main/java/com/nonio/android/ui/posts/PostItem.kt:131-150 | Closing the search with nothing chosen changes nothing; a chosen tag is added as AddSearched says, and the add call, with the post's URL and the tag's name (`""` for null), is made exactly when the tag was added |
| PostItems.ToggleTwice | app/src/main/java/com/nonio/android/ui/posts/PostItem.kt:493-495 | A tap flips the liked flag and keeps the name; a second tap restores the tag |
| PostItems.TapProperties | app/src/main/java/com/nonio/android/ui/posts/PostItem.kt:491-498 | The intended tap keeps every other tag in place and either toggles the tapped one or removes it, removing it exactly when its new score is not positive; distinct names stay distinct |
| PostItems.TapTwiceRestores | app/src/main/java/com/nonio/android/ui/posts/PostItem.kt:493-498 | Two taps on a tag whose score stays positive throughout give the list back |
| PostItems.TapAgreesWithoutEarlierNamesake | app/src/main/java/com/nonio/android/ui/posts/PostItem.kt:497-498 | When no earlier tag shares the tapped tag's name, the code as written does what is intended |
| PostItems.TapAgreesOnDistinctNames | app/src/main/java/com/nonio/android/ui/posts/PostItem.kt:497-498 | On a list of distinct names the code as written does what is intended |
| PostItems.TapRemovesNamesake | app/src/main/java/com/nonio/android/ui/posts/PostItem.kt:497-498 | With two tags named "news", taking the last point from the second removes the first, and the tapped tag stays at score 0 |
| PostItems.OnTagTapAsWritten | app/src/main/java/com/nonio/android/ui/posts/PostItem.kt:491-500 | Signed out, a tap does nothing; signed in, the list changes as TapAsWritten says and onLike receives the toggled tag |
| PostItems.OnTagTap | app/src/main/java/com/nonio/android/ui/posts/PostItem.kt:491-500 | Signed out, a tap does nothing; signed in, the list changes as Tap says and onLike receives the toggled tag |
| PostItems.DisplaySize | app/src/main/java/com/nonio/android/ui/posts/PostItem.kt:189-197 | An image never shows taller than the limit or than itself; a taller image shows at the limit with its width rescaled; any other keeps its size |
| PostItems.DisplaySizeIdempotent | app/src/main/java/com/nonio/android/ui/posts/PostItem.kt:189-197 | Laying out a size already laid out changes nothing |
| PostsPage.TagEventProperties | app/src/main/java/com/nonio/android/ui/posts/PostsPage.kt:213-230 | A tag event changes only the first post with the event's id, and only its tag list, which gains the event's tag in front (score 1, liked); without such a post nothing changes |
| PostsPage.TagEventMayDuplicate | app/src/main/java/com/nonio/android/ui/posts/PostsPage.kt:215-229 | A tag event for a name the post already carries leaves two tags of that name |
| PostsPage.OnTagEvent | app/src/main/java/com/nonio/android/ui/posts/PostsPage.kt:213-230 | The collector's scan and insertion give the list AfterTagEvent describes |
| PostsPage.LikeTagsKeepsOthers | app/src/main/java/com/nonio/android/ui/posts/PostsPage.kt:241-257 | Tags of other names come through a like event unchanged and in order |
| PostsPage.LikeTagsMatching | app/src/main/java/com/nonio/android/ui/posts/PostsPage.kt:244-254 | A like event never adds tags, and every remaining tag of its name is liked as the event says and has a positive score |
| PostsPage.UpvoteRemovesNothing | app/src/main/java/com/nonio/android/ui/posts/PostsPage.kt:247-254 | An upvote removes no tag from a list without negative scores |
| PostsPage.LikeTagsWithoutName | app/src/main/java/com/nonio/android/ui/posts/PostsPage.kt:244 | A list without the event's name comes through unchanged |
| PostsPage.LikeEventMirrorsTap | app/src/main/java/com/nonio/android/ui/posts/PostsPage.kt:233-260 | On a list of distinct names, the event broadcast for a vote on one tag does to the list what the intended tap does, so the feed and the card agree |
| PostsPage.LikeEventProperties | app/src/main/java/com/nonio/android/ui/posts/PostsPage.kt:233-260 | A like event changes only the tag list of the first post with the event's id, and nothing when no post has it |
| PostsPage.AdjustTags | app/src/main/java/com/nonio/android/ui/posts/PostsPage.kt:241-257 | The iterator pass yields the tag list LikeTags describes |
| PostsPage.OnLikeEvent | app/src/main/java/com/nonio/android/ui/posts/PostsPage.kt:233-260 | The collector's scan and pass give the posts AfterLikeEvent describes |
| PostsPage.PressSortRow | app/src/main/java/com/nonio/android/ui/posts/PostsPage.kt:459-467 | The TOP row, the last entry, opens the timeframe list; any other row reports its sort without a timeframe and closes the sheet |
| PostsPage.PressTimeRow | app/src/main/java/com/nonio/android/ui/posts/PostsPage.kt:498-503 | A timeframe row reports TOP with that timeframe and closes the sheet |
| PostsPage.SortRows | app/src/main/java/com/nonio/android/ui/posts/PostsPage.kt:453-457 | The rows drawn are exactly the sort entries, in order, with TOP skipped when it is to be hidden |
| PostsPage.SheetReportsTimeOnlyForTop | app/src/main/java/com/nonio/android/ui/posts/PostsPage.kt:453-503 | A timeframe is reported with TOP and only with it; where TOP is hidden, no drawn row opens the timeframe list |
| PostsPage.OneRowSelected | app/src/main/java/com/nonio/android/ui/posts/PostsPage.kt:476 | At most one drawn row shows as selected |
| Submit.MoveMedia | app/src/main/java/com/nonio/android/ui/submit/SubmitViewModel.kt:114-124 | An image is moved under its temporary name unchanged; a video under its name with ".mp4" removed; the final URL is passed through |
| Submit.MoveVideoByStem | app/src/main/java/com/nonio/android/ui/submit/SubmitViewModel.kt:122 | A video named by a dot-free stem plus ".mp4" is moved by the stem |
| Submit.ProgressUpdated | app/src/main/java/com/nonio/android/ui/submit/SubmitViewModel.kt:227-239 | Updating progress keeps the list's length |
| Submit.ProgressUpdatedProperties | app/src/main/java/com/nonio/android/ui/submit/SubmitViewModel.kt:231-238 | Order is kept, entries of other resolutions are unchanged, and entries of the resolution get the new progress |
| Submit.ProgressUpdatedAbsent | app/src/main/java/com/nonio/android/ui/submit/SubmitViewModel.kt:231-238 | Progress for a resolution not in the list changes nothing |
| Submit.InitialProgress | app/src/main/java/com/nonio/android/ui/submit/SubmitViewModel.kt:171-172 | The list offered holds every lower resolution, in order, at progress 0 |
| Submit.ResolutionMessage | app/src/main/java/com/nonio/android/ui/submit/SubmitViewModel.kt:157-175 | A size message records the size, offers every fitting resolution at progress 0, and moves from uploading to encoding |
| Submit.UnreadableSizeThrows | app/src/main/java/com/nonio/android/ui/submit/SubmitViewModel.kt:159-163 | A size message whose numbers cannot be read throws out of the message loop and changes nothing |
| Submit.SourceProgressMessage | app/src/main/java/com/nonio/android/ui/submit/SubmitViewModel.kt:179-183 | A "source:" message sets the progress of the last, largest resolution |
| Submit.NamedProgressMessage | app/src/main/java/com/nonio/android/ui/submit/SubmitViewModel.kt:185-187 | A message naming a resolution's display name sets that resolution's progress |
| Submit.UnknownNameIgnored | app/src/main/java/com/nonio/android/ui/submit/SubmitViewModel.kt:185-191 | A progress message whose name no resolution displays is swallowed and changes nothing |
| Submit.SourceProgressBeforeSize | app/src/main/java/com/nonio/android/ui/submit/SubmitViewModel.kt:177-191 | Before the size message there is no list, and "source:" progress is swallowed |
| Submit.ProgressKeepsLadder | app/src/main/java/com/nonio/android/ui/submit/SubmitViewModel.kt:177-191 | Progress messages never change the size, the set of resolutions offered (only their progress) or the flags |
| Submit.ThrowStopsTheLoop | app/src/main/java/com/nonio/android/ui/submit/SubmitViewModel.kt:155-193 | Once a message throws, later messages have no effect |
| Submit.UploadedName | app/src/main/java/com/nonio/android/ui/submit/SubmitViewModel.kt:149-151 | An upload counts as done exactly when it answered with a non-blank file name, which is then the name used |
| Submit.SubmitViewModel.constructor | app/src/main/java/com/nonio/android/ui/submit/SubmitViewModel.kt:40-55 | A new view model has a blank post-URL state, no upload, no resolutions, no temporary name and no size |
| Submit.SubmitViewModel.CheckPostUrl | app/src/main/java/com/nonio/android/ui/submit/SubmitViewModel.kt:72-92 | A blank URL gives Empty; any other gives Loading, then Success only for a `true` answer and Error for anything else, a thrown call included |
| Submit.SubmitViewModel.UpdateProgress | app/src/main/java/com/nonio/android/ui/submit/SubmitViewModel.kt:227-239 | The list becomes ProgressUpdated of the old one and nothing else changes |
| Submit.SubmitViewModel.ResetUploadState | app/src/main/java/com/nonio/android/ui/submit/SubmitViewModel.kt:248-252 | The three flags go down and nothing else changes |
| Submit.SubmitViewModel.BeginUpload | app/src/main/java/com/nonio/android/ui/submit/SubmitViewModel.kt:132-141 | Starting an upload clears the flags, the temporary name, the size and the resolution list, and raises the uploading flag |
| Submit.SubmitViewModel.OnProgress | app/src/main/java/com/nonio/android/ui/submit/SubmitViewModel.kt:155-193 | One encoder message moves the upload state as the message dispatch says, and reports whether it threw |
| Submit.SubmitViewModel.UploadVideo | app/src/main/java/com/nonio/android/ui/submit/SubmitViewModel.kt:126-225 | A video upload with a usable name connects to its encode socket and applies the delivered messages; only once a terminator arrives does it record the name, lower the encoding flag and hand back the temporary video URL; with no terminator it is still waiting, hands back nothing and leaves the flags as the messages set them; a failed upload or a callback that throws hands back nothing and lowers the flags |
| Submit.SubmitViewModel.UploadImage | app/src/main/java/com/nonio/android/ui/submit/SubmitViewModel.kt:126-225 | An image upload with a usable name records it and the image's size and hands back the temporary image URL; otherwise nothing, with no name or size; the flags end down |
| Submit.SubmitViewModel.SubmitLinkPost | app/src/main/java/com/nonio/android/ui/submit/SubmitViewModel.kt:94-112 | Images and videos are moved first and then sent with the recorded size; other types are sent as given; a failed move sends nothing; the result is the create call's answer, null on failure; the submitting flag ends down |
| SubmitPage.ReplaceSpaces | app/src/main/java/com/nonio/android/ui/submit/SubmitPage.kt:292 | Every space becomes a dash and every other character stays |
| SubmitPage.KeepSlugChars | app/src/main/java/com/nonio/android/ui/submit/SubmitPage.kt:293 | Only ASCII letters, digits and dashes remain |
| SubmitPage.PostUrlAfterPreview | app/src/main/java/com/nonio/android/ui/submit/SubmitPage.kt:291-297 | A non-blank post URL is kept; a blank one becomes the slug of the title when the title has one, and stays otherwise |
| SubmitPage.KeepSlugCharsIdentity | app/src/main/java/com/nonio/android/ui/submit/SubmitPage.kt:293 | A string of slug characters passes the filter unchanged |
| SubmitPage.SlugCharsBlankIffEmpty | app/src/main/java/com/nonio/android/ui/submit/SubmitPage.kt:294 | A cleaned title is blank exactly when it is empty |
| SubmitPage.SlugShape | app/src/main/java/com/nonio/android/ui/submit/SubmitPage.kt:292-295 | A proposed slug is non-empty and made only of lower-case letters, digits and dashes, and none is proposed exactly when cleaning leaves nothing |
| SubmitPage.SlugIdempotent | app/src/main/java/com/nonio/android/ui/submit/SubmitPage.kt:292-295 | The slug of a slug is itself |
| SubmitPage.SlugOfPlainTitle | app/src/main/java/com/nonio/android/ui/submit/SubmitPage.kt:292-295 | A title of letters, digits, dashes and spaces gives a slug of the same length, character for character |
| SubmitPage.TabType | app/src/main/java/com/nonio/android/ui/submit/SubmitPage.kt:383-400 | Tab 0 is LINK; tab 1 is VIDEO exactly when the media is a video and IMAGE otherwise, no media included; any other tab is TEXT |
| SubmitPage.ButtonEnable | app/src/main/java/com/nonio/android/ui/submit/SubmitPage.kt:705-710 | Submit is enabled exactly when title, description and post URL are non-blank, with media chosen on the media tab |
| SubmitPage.CreateParam | app/src/main/java/com/nonio/android/ui/submit/SubmitPage.kt:731-738 | The request carries the title, the URL, the type's wire name, the description as a delta, each tag's name (`""` for null), and the link only for a LINK post |
| SubmitPage.CreateParamContentRoundTrip | app/src/main/java/com/nonio/android/ui/submit/SubmitPage.kt:733 | The request's content renders back to the description, line for line |

## Left out

- JSON text: the org.json and Moshi parsing and serialisation are not modelled. The model starts from the decoded structure, with `None` for text that is not a JSON object. org.json's coercions (a `"true"` string read as a boolean, a number read as a string) are folded into "present and readable".
- Quill.ParseJsonContent: an `ops` key that is missing and one that is not an array are one case, since both end in the same caught exception.
- Quill.ConvertStringToQuillJson: the string escaping of the JSON text is not modelled; the result is the decoded one-op document.
- Styling: Compose colours, fonts and `sp` units become enum values and integers. The paragraph indent of a level is kept as the integer `level * 2 * 14`, not as a float.
- Strings: text is a sequence of characters with no UTF-16 surrogate handling. Lower-casing is ASCII only.
- Strings.ParseInt: reads the ASCII digits '0' to '9' only, while Kotlin's `toInt` accepts any Unicode decimal digit (it reads digits with `Character.digit`); the Unicode digit table is not modelled, so a size message written in other decimal digits is read by the source but makes Submit.UnreadableSizeThrows and Submit.SubmitViewModel.UploadVideo report a throw.
- Models.StringHash: Java's `String.hashCode` is computed per character with 32-bit wrap-around; characters outside the Basic Multilingual Plane are not split into UTF-16 halves.
- Duration: the millisecond arithmetic is on unbounded integers, so `Long` overflow is not modelled. The current time is a parameter.
- Floats: upload progress is a `real`, obtained from a `toFloat` parameter for `String.toFloat()`. The rescaled image width is a `scale` parameter, and the 320 dp limit in pixels is the `maxHeight` parameter.
- Coroutines: launches, job cancellation, `StateFlow`/`SharedFlow` delivery and `@Synchronized` are not modelled. Emitted states are appended to a sequence field in program order.
- Inbox.InboxViewModel.GetNotifications: the endless polling loop is modelled for a finite sequence of call outcomes. The delays and the exponential backoff are left out.
- Network: every service call is an input (`Outcome`, returned or threw). Request bodies are the values sent, not their JSON encoding. OkHttp's chain is the responses handed in, and `response.close()` is not modelled.
- WebSockets: the connection and its listener are not modelled; the encoder's messages are a finite sequence.
- WebSockets.WaitForCompletion and Submit.SubmitViewModel.UploadVideo: a stream with no terminator makes the source wait forever (until the next upload cancels the job); here the wait stops when the sequence runs out and is reported as still pending (`completed` false, `waiting` true), with the state the delivered messages left.
- UserHelpers: SharedPreferences is a map from keys to strings. The Moshi adapter is a pair of codec functions, assumed to read back what they write (`Codec`).
- UserHelpers.UserHelper.Login and Logout: the `refreshVote()` they launch on the app view model is not part of the method; AppViewModels.AppViewModel.RefreshVote models it as a separate call.
- LoginPage.OnLoginPress: Android's `EMAIL_ADDRESS` pattern is a predicate parameter.
- LoginViewModels.LoginViewModel.UserInfo: a null profile answer makes `it!!` throw; the model reports this as `crashed` and emits nothing after the optional `Loading`, but does not model what the platform then does with the failed coroutine.
- QuillEditors: the web page that calls `setContent` is not modelled; a listener is known by an id, and its calls are recorded.
- PostsViewModels: ExoPlayer instances are opaque ids, and releasing one is recorded in a log.
- PostsViewModel.like and PostDetailViewModel.like/addPostTag: these send a vote or a tag to the server and then call `updateVote` and emit the events. Only their effects are modelled: AppViewModels.AppViewModel.UpdateVote, and the events' handling in PostsPage.
- SubmitViewModel.parseUrl and isValidUrl (the link preview): `Patterns.WEB_URL` is a platform pattern, and the call only forwards the answer.
- Comments: each comment's `childList` is kept as a list of indexes into the received comments, not as object references. `level` is the only field the tree building writes.
- PostItems and PostsPage: a post's `mutableTags` list and its tags' `localScore`/`isLiked` state cells are modelled by value. The methods take a tag list and return the new one, so the sharing of one list between the card and the feed is not captured. `iterator.remove()` is modelled by building the list of tags kept.

## Findings

| source | as written | input that shows it | evidently intended | confidence | as-written member | corrected member |
|---|---|---|---|---|---|---|
| app/src/main/java/com/nonio/android/ui/inbox/InboxViewModel.kt:91-93 | `notificationCount = notificationCount--` assigns the value from before the decrement back to the field, so the count never changes | one unread notification, count 1: after `markRead` the badge still shows 1 while no notification is unread | the count drops by one, and never below zero | not executed | Inbox.CountAfterMarkReadAsWritten, Inbox.InboxViewModel.MarkReadAsWritten, Inbox.MarkReadDiscrepancy | Inbox.CountAfterMarkRead, Inbox.InboxViewModel.MarkRead |
| app/src/main/java/com/nonio/android/ui/posts/PostItem.kt:497-498 | `tags.remove(tag)` removes the first tag **equal** to the tapped one, and `TagModel.equals` compares only names, so with two tags of one name the earlier one is removed | tags "news" (local score 3, not liked) then "news" (local score 1, liked); tapping the second takes it to 0 and removes the first, leaving the tapped tag shown at 0 | the tapped tag itself is removed | not executed; low, since two tags of one name arise only through a tag event for a name the post already carries (PostsPage.TagEventMayDuplicate) | PostItems.TapAsWritten, PostItems.OnTagTapAsWritten, PostItems.TapRemovesNamesake | PostItems.Tap, PostItems.OnTagTap, PostItems.TapProperties |
