/**
 * The two paging sources: posts (feed, tag or user) and a user's comments.
 * Both load 100 items per page at an offset and compute the neighbouring
 * keys the same way; the service answer is an input.
 */
module Paging {
  import opened Wrappers
  import opened Strings
  import Models

  const PAGE_SIZE: int := 100

  datatype LoadResult<T> = Page(data: seq<T>, prevKey: Option<int>, nextKey: Option<int>) | Error

  /**
   * `load(params)` once the offset is known: a thrown call is an Error; a
   * null answer (or a null list in it) an empty page.
   */
  function LoadPage<T>(offset: int, answer: Outcome<Option<seq<T>>>): (r: LoadResult<T>)
    ensures answer.Threw? <==> r.Error?
    ensures r.Page? ==> r.data == answer.value.GetOr([])
    ensures r.Page? ==> (r.prevKey.Some? <==> offset >= PAGE_SIZE)
    ensures r.Page? && r.prevKey.Some? ==> r.prevKey.value == offset - PAGE_SIZE
    ensures r.Page? ==> (r.nextKey.Some? <==> |r.data| >= PAGE_SIZE)
    ensures r.Page? && r.nextKey.Some? ==> r.nextKey.value == offset + PAGE_SIZE
  {
    match answer
    case Threw => Error
    case Returned(list) =>
      var data := list.GetOr([]);
      Page(data,
           if offset >= PAGE_SIZE then Some(offset - PAGE_SIZE) else None,
           if |data| >= PAGE_SIZE then Some(offset + PAGE_SIZE) else None)
  }

  /** `params.key ?: 0` */
  function Offset(key: Option<int>): int {
    key.GetOr(0)
  }

  /** Only pages on the grid 0, 100, 200, ... are ever asked for: both keys of such a page are on it. */
  predicate OnGrid(offset: int) {
    offset >= 0 && offset % PAGE_SIZE == 0
  }

  lemma KeysStayOnGrid<T>(key: Option<int>, answer: Outcome<Option<seq<T>>>)
    requires key.None? || OnGrid(key.value)
    ensures var r := LoadPage(Offset(key), answer);
      r.Page? ==> (r.prevKey.Some? ==> OnGrid(r.prevKey.value)) && (r.nextKey.Some? ==> OnGrid(r.nextKey.value))
  {
  }

  /** Going forward then back returns to the same page; the first page has no previous one. */
  lemma PrevOfNext<T, U>(offset: int, answer: Outcome<Option<seq<T>>>, nextAnswer: Outcome<Option<seq<U>>>)
    requires offset >= 0
    requires var r := LoadPage(offset, answer); r.Page? && r.nextKey.Some?
    ensures var next := LoadPage(LoadPage(offset, answer).nextKey.value, nextAnswer);
      next.Page? ==> next.prevKey == Some(offset)
  {
  }

  lemma FirstPageHasNoPrev<T>(answer: Outcome<Option<seq<T>>>)
    ensures LoadPage(Offset(None), answer).Page? ==> LoadPage(Offset(None), answer).prevKey.None?
  {
  }

  /** A short page is the last one. */
  lemma ShortPageIsLast<T>(offset: int, answer: Outcome<Option<seq<T>>>)
    requires answer.Returned? && |answer.value.GetOr([])| < PAGE_SIZE
    ensures LoadPage(offset, answer).nextKey.None?
  {
  }

  // ---------------------------------------------------------------------
  // The posts source
  // ---------------------------------------------------------------------

  /** The query of `apiService.posts` */
  datatype PostsRequest = PostsRequest(offset: int, tag: Option<string>, sort: Option<string>,
                                       time: Option<string>, user: Option<string>)

  /**
   * The providers of a `PostsViewModel`'s source: the current tag's name,
   * the sort and time display strings lower-cased, and the user name only
   * on a user's page.
   */
  function PostsQuery(key: Option<int>, currentTag: Option<Models.TagModel>, currentSort: Models.PostSortModel,
                      isUser: bool, userName: string): (q: PostsRequest)
    ensures q.offset == key.GetOr(0)
    ensures q.tag == (if currentTag.Some? then currentTag.value.tag else None)
    ensures q.sort == Some(Lower(currentSort.sort.Type()))
    ensures q.time.Some? <==> currentSort.time.Some?
    ensures q.time.Some? ==> q.time.value == Lower(currentSort.time.value.Type())
    ensures q.user.Some? <==> isUser
    ensures q.user.Some? ==> q.user.value == userName
  {
    PostsRequest(
      Offset(key),
      if currentTag.Some? then currentTag.value.tag else None,
      Some(Lower(currentSort.sort.Type())),
      if currentSort.time.Some? then Some(Lower(currentSort.time.value.Type())) else None,
      if isUser then Some(userName) else None)
  }

  /** `PostSource.load`: the request made and the page built from its answer */
  function PostSourceLoad(key: Option<int>, currentTag: Option<Models.TagModel>, currentSort: Models.PostSortModel,
                          isUser: bool, userName: string, answer: Outcome<Option<seq<Models.PostModel>>>)
    : (PostsRequest, LoadResult<Models.PostModel>)
  {
    (PostsQuery(key, currentTag, currentSort, isUser, userName), LoadPage(Offset(key), answer))
  }

  /** The sort strings the feed sends */
  lemma PostsSortStrings()
    ensures Lower(Models.PostSortType.POPULAR.Type()) == "popular"
    ensures Lower(Models.PostSortType.NEW.Type()) == "new"
    ensures Lower(Models.PostSortType.TOP.Type()) == "top"
  {
    assert Lower("Popular") == "popular";
    assert Lower("New") == "new";
    assert Lower("Top") == "top";
  }

  // ---------------------------------------------------------------------
  // The user-comments source
  // ---------------------------------------------------------------------

  datatype UserCommentsRequest = UserCommentsRequest(offset: int, sort: Option<string>, user: string)

  /** The providers of `UserCommentViewModel`: the sort's enum name lower-cased and the signed-in user's name */
  function UserCommentsQuery(key: Option<int>, currentSort: Models.PostSortModel, userName: string)
    : (q: UserCommentsRequest)
    ensures q.offset == key.GetOr(0) && q.user == userName
    ensures q.sort == Some(Lower(currentSort.sort.Name()))
  {
    UserCommentsRequest(Offset(key), Some(Lower(currentSort.sort.Name())), userName)
  }

  /** `UserCommentsSource.load`, with the comments kept opaque */
  function UserCommentsSourceLoad<C>(key: Option<int>, currentSort: Models.PostSortModel, userName: string,
                                     answer: Outcome<Option<seq<C>>>): (UserCommentsRequest, LoadResult<C>)
  {
    (UserCommentsQuery(key, currentSort, userName), LoadPage(Offset(key), answer))
  }

  /** The comments source sends the enum name, so its strings agree with the feed's for every sort. */
  lemma SortStringsAgree(s: Models.PostSortType)
    ensures Lower(s.Name()) == Lower(s.Type())
  {
    assert Lower("POPULAR") == "popular" && Lower("Popular") == "popular";
    assert Lower("NEW") == "new" && Lower("New") == "new";
    assert Lower("TOP") == "top" && Lower("Top") == "top";
  }
}
