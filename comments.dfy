/**
 * The comment screen: the reply tree built from the server's flat comment
 * list, the list replacement on load, the body of a new comment and the
 * comment-vote toggle.
 *
 * A comment object's reply list (`childList`) is kept by index: in a
 * `Forest`, `children[j]` lists the indices of the comments appended to
 * comment `j`'s reply list, and `nodes[j]` is comment `j` with its level as
 * written.
 */
module Comments {
  import opened Wrappers
  import opened Models

  predicate IsRoot(c: CommentModel) {
    c.parent.None? || c.parent == Some(0)
  }

  /** `associateBy { it.id }`: each id to the index of the last comment carrying it */
  function IdIndex(cs: seq<CommentModel>): (m: map<Option<int>, nat>)
    ensures forall k :: k in m <==> exists i :: 0 <= i < |cs| && cs[i].id == k
    ensures forall k :: k in m ==> m[k] < |cs| && cs[m[k]].id == k
    ensures forall k :: k in m ==> forall i :: m[k] < i < |cs| ==> cs[i].id != k
  {
    if |cs| == 0 then map[]
    else
      var m := IdIndex(cs[..|cs| - 1]);
      IdIndexExtend(cs, m);
      m[cs[|cs| - 1].id := |cs| - 1]
  }

  /** Mapping the last comment's id to its index turns the index of the others into the index of all. */
  lemma IdIndexExtend(cs: seq<CommentModel>, m: map<Option<int>, nat>)
    requires |cs| > 0
    requires var init := cs[..|cs| - 1];
      (forall k :: k in m <==> exists i :: 0 <= i < |init| && init[i].id == k)
      && (forall k :: k in m ==> m[k] < |init| && init[m[k]].id == k)
      && (forall k :: k in m ==> forall i :: m[k] < i < |init| ==> init[i].id != k)
    ensures var r := m[cs[|cs| - 1].id := |cs| - 1];
      (forall k :: k in r <==> exists i :: 0 <= i < |cs| && cs[i].id == k)
      && (forall k :: k in r ==> r[k] < |cs| && cs[r[k]].id == k)
      && (forall k :: k in r ==> forall i :: r[k] < i < |cs| ==> cs[i].id != k)
  {
    var init := cs[..|cs| - 1];
    assert forall i :: 0 <= i < |init| ==> init[i] == cs[i];
  }

  /** Every index the map gives is below `n` */
  predicate IndexFits(index: map<Option<int>, nat>, n: nat) {
    forall k :: k in index ==> index[k] < n
  }

  /** The index of the comment that comment `k` is attached under, looked up in `index` */
  function AttachedBy(cs: seq<CommentModel>, index: map<Option<int>, nat>, k: nat): Option<nat>
    requires k < |cs|
  {
    if IsRoot(cs[k]) || cs[k].parent !in index then None else Some(index[cs[k].parent])
  }

  /** The index of the comment that comment `k` is attached under, if any */
  function Attached(cs: seq<CommentModel>, k: nat): (r: Option<nat>)
    requires k < |cs|
    ensures r.Some? ==> r.value < |cs| && cs[k].parent.Some? && cs[k].parent != Some(0)
    ensures r.Some? ==> cs[r.value].id == cs[k].parent
    ensures r.Some? ==> forall i :: r.value < i < |cs| ==> cs[i].id != cs[k].parent
    ensures r.None? && !IsRoot(cs[k]) ==> forall i :: 0 <= i < |cs| ==> cs[i].id != cs[k].parent
  {
    AttachedBy(cs, IdIndex(cs), k)
  }

  /**
   * The level each comment ends with: 1 for a root; one more than the
   * level its parent has at that moment, which is the parent's own final
   * level when the parent comes earlier in the list and its level as
   * received otherwise; unchanged for a comment whose parent is missing.
   */
  function FinalLevelBy(cs: seq<CommentModel>, index: map<Option<int>, nat>, k: nat): int
    requires k < |cs| && IndexFits(index, |cs|)
    decreases k
  {
    if IsRoot(cs[k]) then 1
    else match AttachedBy(cs, index, k)
      case None => cs[k].level
      case Some(j) => (if j < k then FinalLevelBy(cs, index, j) else cs[j].level) + 1
  }

  function FinalLevel(cs: seq<CommentModel>, k: nat): int
    requires k < |cs|
  {
    FinalLevelBy(cs, IdIndex(cs), k)
  }

  datatype Forest = Forest(nodes: seq<CommentModel>, children: seq<seq<nat>>, roots: seq<nat>)

  /** The loop body for comment `i` */
  function Place(f: Forest, index: map<Option<int>, nat>, i: nat): (g: Forest)
    requires |f.children| == |f.nodes| && i < |f.nodes| && IndexFits(index, |f.nodes|)
    ensures |g.nodes| == |f.nodes| && |g.children| == |f.children|
    ensures g.roots == f.roots || g.roots == f.roots + [i]
  {
    var comment := f.nodes[i];
    if comment.parent.None? || comment.parent == Some(0) then
      Forest(f.nodes[i := comment.(level := 1)], f.children, f.roots + [i])
    else if comment.parent in index then
      var j := index[comment.parent];
      Forest(f.nodes[i := comment.(level := f.nodes[j].level + 1)], f.children[j := f.children[j] + [i]], f.roots)
    else f
  }

  /** The state after the first `n` comments have been visited */
  function Built(cs: seq<CommentModel>, index: map<Option<int>, nat>, n: nat): (f: Forest)
    requires n <= |cs| && IndexFits(index, |cs|)
    ensures |f.nodes| == |cs| && |f.children| == |cs|
    ensures forall i :: 0 <= i < |f.roots| ==> f.roots[i] < n
  {
    if n == 0 then Forest(cs, seq(|cs|, _ => []), [])
    else Place(Built(cs, index, n - 1), index, n - 1)
  }

  /** The finished tree */
  function NestedTree(cs: seq<CommentModel>): (f: Forest)
    ensures |f.nodes| == |cs| && |f.children| == |cs|
  {
    Built(cs, IdIndex(cs), |cs|)
  }

  /** `buildNestedComments(comments)`: the returned list is `roots`, the reply lists are `children`. */
  method BuildNestedComments(comments: seq<CommentModel>) returns (forest: Forest)
    ensures forest == NestedTree(comments)
  {
    var commentMap := IdIndex(comments);
    var nodes := comments;
    var children: seq<seq<nat>> := seq(|comments|, _ => []);
    var roots: seq<nat> := [];
    for i := 0 to |comments|
      invariant Forest(nodes, children, roots) == Built(comments, commentMap, i)
    {
      var comment := nodes[i];
      if comment.parent.None? || comment.parent == Some(0) {
        nodes := nodes[i := comment.(level := 1)];
        roots := roots + [i];
      } else if comment.parent in commentMap {
        var j := commentMap[comment.parent];
        nodes := nodes[i := comment.(level := nodes[j].level + 1)];
        children := children[j := children[j] + [i]];
      }
    }
    forest := Forest(nodes, children, roots);
  }

  predicate Increasing(s: seq<nat>) {
    forall a, b :: 0 <= a < b < |s| ==> s[a] < s[b]
  }

  // ---------------------------------------------------------------------
  // What the tree is, for any id index
  // ---------------------------------------------------------------------

  /** Only levels are written: every other field is as received, and comments not yet visited are untouched. */
  lemma {:induction false} BuiltNodes(cs: seq<CommentModel>, index: map<Option<int>, nat>, n: nat)
    requires n <= |cs| && IndexFits(index, |cs|)
    ensures forall k :: 0 <= k < |cs| ==>
      Built(cs, index, n).nodes[k] == cs[k].(level := Built(cs, index, n).nodes[k].level)
    ensures forall k :: n <= k < |cs| ==> Built(cs, index, n).nodes[k] == cs[k]
  {
    if n > 0 {
      BuiltNodes(cs, index, n - 1);
    }
  }

  /** One visit, stated through `AttachedBy`: the three branches of the loop body. */
  lemma BuiltStep(cs: seq<CommentModel>, index: map<Option<int>, nat>, n: nat)
    requires 0 < n <= |cs| && IndexFits(index, |cs|)
    ensures var f, k := Built(cs, index, n - 1), n - 1;
      (IsRoot(cs[k]) ==> Built(cs, index, n) == Forest(f.nodes[k := cs[k].(level := 1)], f.children, f.roots + [k]))
      && (AttachedBy(cs, index, k).Some? ==>
            var j := AttachedBy(cs, index, k).value;
            Built(cs, index, n) == Forest(f.nodes[k := cs[k].(level := f.nodes[j].level + 1)],
                                          f.children[j := f.children[j] + [k]], f.roots))
      && (!IsRoot(cs[k]) && AttachedBy(cs, index, k).None? ==> Built(cs, index, n) == f)
  {
    BuiltNodes(cs, index, n - 1);
  }

  /** Every visited comment has its final level. */
  lemma {:induction false} BuiltLevels(cs: seq<CommentModel>, index: map<Option<int>, nat>, n: nat)
    requires n <= |cs| && IndexFits(index, |cs|)
    ensures forall k :: 0 <= k < n ==> Built(cs, index, n).nodes[k].level == FinalLevelBy(cs, index, k)
  {
    if n > 0 {
      BuiltLevels(cs, index, n - 1);
      BuiltNodes(cs, index, n - 1);
      BuiltStep(cs, index, n);
    }
  }

  /** The roots are exactly the visited comments without a parent (null or 0), in input order. */
  lemma {:induction false} BuiltRoots(cs: seq<CommentModel>, index: map<Option<int>, nat>, n: nat)
    requires n <= |cs| && IndexFits(index, |cs|)
    ensures forall k: nat :: k in Built(cs, index, n).roots <==> k < n && IsRoot(cs[k])
    ensures Increasing(Built(cs, index, n).roots)
  {
    if n > 0 {
      BuiltRoots(cs, index, n - 1);
      RootsStep(cs, index, n);
      var f, g := Built(cs, index, n - 1), Built(cs, index, n);
      forall a, b | 0 <= a < b < |g.roots| ensures g.roots[a] < g.roots[b] {
        if b == |f.roots| {
          assert f.roots[a] in f.roots;
        }
      }
    }
  }

  /** One visit appends to the roots exactly when the comment is a root. */
  lemma RootsStep(cs: seq<CommentModel>, index: map<Option<int>, nat>, n: nat)
    requires 0 < n <= |cs| && IndexFits(index, |cs|)
    ensures Built(cs, index, n).roots ==
      (if IsRoot(cs[n - 1]) then Built(cs, index, n - 1).roots + [n - 1] else Built(cs, index, n - 1).roots)
  {
    BuiltStep(cs, index, n);
  }

  /** One visit appends the comment to the reply list of the comment it is attached under, and to no other. */
  lemma ChildrenStep(cs: seq<CommentModel>, index: map<Option<int>, nat>, n: nat, j: nat)
    requires 0 < n <= |cs| && IndexFits(index, |cs|) && j < |cs|
    ensures Built(cs, index, n).children[j] ==
      (if AttachedBy(cs, index, n - 1) == Some(j) then Built(cs, index, n - 1).children[j] + [n - 1]
       else Built(cs, index, n - 1).children[j])
  {
    BuiltStep(cs, index, n);
  }

  /** Each reply list holds exactly the visited comments attached under that comment. */
  lemma {:induction false} BuiltChildren(cs: seq<CommentModel>, index: map<Option<int>, nat>, n: nat)
    requires n <= |cs| && IndexFits(index, |cs|)
    ensures forall j, a :: 0 <= j < |cs| && 0 <= a < |Built(cs, index, n).children[j]| ==>
      Built(cs, index, n).children[j][a] < n && AttachedBy(cs, index, Built(cs, index, n).children[j][a]) == Some(j)
    ensures forall j, k: nat :: 0 <= j < |cs| && k < n && AttachedBy(cs, index, k) == Some(j) ==>
      k in Built(cs, index, n).children[j]
  {
    if n > 0 {
      BuiltChildren(cs, index, n - 1);
      var f, g, k := Built(cs, index, n - 1), Built(cs, index, n), n - 1;
      forall j, a | 0 <= j < |cs| && 0 <= a < |g.children[j]|
        ensures g.children[j][a] < n && AttachedBy(cs, index, g.children[j][a]) == Some(j)
      {
        ChildrenStep(cs, index, n, j);
        if a < |f.children[j]| {
          assert g.children[j][a] == f.children[j][a];
        }
      }
      forall j, m: nat | 0 <= j < |cs| && m < n && AttachedBy(cs, index, m) == Some(j)
        ensures m in g.children[j]
      {
        ChildrenStep(cs, index, n, j);
        if m == k {
          assert g.children[j] == f.children[j] + [k];
          assert g.children[j][|f.children[j]|] == k;
        } else {
          assert m in f.children[j];
        }
      }
    } else {
      assert forall j :: 0 <= j < |cs| ==> Built(cs, index, 0).children[j] == [];
    }
  }

  lemma ChildVisited(cs: seq<CommentModel>, index: map<Option<int>, nat>, n: nat, j: nat, k: nat)
    requires n <= |cs| && IndexFits(index, |cs|) && j < |cs|
    requires k in Built(cs, index, n).children[j]
    ensures k < n && AttachedBy(cs, index, k) == Some(j)
  {
    BuiltChildren(cs, index, n);
  }

  /** Only visited comments are in reply lists. */
  lemma ChildrenBelow(cs: seq<CommentModel>, index: map<Option<int>, nat>, n: nat)
    requires n <= |cs| && IndexFits(index, |cs|)
    ensures forall j, a :: 0 <= j < |cs| && 0 <= a < |Built(cs, index, n).children[j]| ==> Built(cs, index, n).children[j][a] < n
  {
    BuiltChildren(cs, index, n);
  }

  /** ... and holds them in input order. */
  lemma {:induction false} BuiltChildrenOrdered(cs: seq<CommentModel>, index: map<Option<int>, nat>, n: nat)
    requires n <= |cs| && IndexFits(index, |cs|)
    ensures forall j :: 0 <= j < |cs| ==> Increasing(Built(cs, index, n).children[j])
  {
    if n > 0 {
      BuiltChildrenOrdered(cs, index, n - 1);
      ChildrenBelow(cs, index, n - 1);
      var f, g, k := Built(cs, index, n - 1), Built(cs, index, n), n - 1;
      forall j | 0 <= j < |cs| ensures Increasing(g.children[j]) {
        ChildrenStep(cs, index, n, j);
        if AttachedBy(cs, index, k) == Some(j) {
          var s := f.children[j];
          assert g.children[j] == s + [k];
          assert forall a :: 0 <= a < |s| ==> s[a] < k;
        } else {
          assert g.children[j] == f.children[j];
        }
      }
    } else {
      assert forall j :: 0 <= j < |cs| ==> Built(cs, index, 0).children[j] == [];
    }
  }

  // ---------------------------------------------------------------------
  // Consequences for the finished tree
  // ---------------------------------------------------------------------

  /**
   * The result of `buildNestedComments`: the roots in order at level 1;
   * every comment whose parent id is present appended, in order, to the
   * reply list of the last comment carrying that id; the final levels.
   */
  lemma NestedComments(cs: seq<CommentModel>)
    ensures var f := NestedTree(cs);
      (forall k: nat :: k in f.roots <==> k < |cs| && IsRoot(cs[k]))
      && Increasing(f.roots)
      && (forall j, k: nat :: 0 <= j < |cs| ==> (k in f.children[j] <==> k < |cs| && Attached(cs, k) == Some(j)))
      && (forall j :: 0 <= j < |cs| ==> Increasing(f.children[j]))
      && (forall k :: 0 <= k < |cs| ==> f.nodes[k].level == FinalLevel(cs, k))
  {
    var index := IdIndex(cs);
    BuiltRoots(cs, index, |cs|);
    BuiltChildren(cs, index, |cs|);
    BuiltChildrenOrdered(cs, index, |cs|);
    BuiltLevels(cs, index, |cs|);
  }

  /** Roots end at level 1; a reply one above its parent's level at the time it is placed. */
  lemma ReplyLevel(cs: seq<CommentModel>, j: nat, k: nat)
    requires k < |cs| && Attached(cs, k) == Some(j)
    ensures j < k ==> NestedTree(cs).nodes[k].level == NestedTree(cs).nodes[j].level + 1
    ensures j >= k ==> NestedTree(cs).nodes[k].level == cs[j].level + 1
  {
    BuiltLevels(cs, IdIndex(cs), |cs|);
  }

  lemma RootLevel(cs: seq<CommentModel>, k: nat)
    requires k < |cs| && IsRoot(cs[k])
    ensures NestedTree(cs).nodes[k].level == 1
  {
    BuiltLevels(cs, IdIndex(cs), |cs|);
  }

  /** No comment is in two lists: a root is nobody's reply, and a reply has one parent. */
  lemma PlacedAtMostOnce(cs: seq<CommentModel>, k: nat)
    requires k < |cs|
    ensures k in NestedTree(cs).roots ==> forall j :: 0 <= j < |cs| ==> k !in NestedTree(cs).children[j]
    ensures forall j1, j2 :: 0 <= j1 < |cs| && 0 <= j2 < |cs| ==>
      (k in NestedTree(cs).children[j1] && k in NestedTree(cs).children[j2] ==> j1 == j2)
  {
    var index := IdIndex(cs);
    var f := Built(cs, index, |cs|);
    BuiltRoots(cs, index, |cs|);
    forall j | 0 <= j < |cs| && k in f.roots ensures k !in f.children[j] {
      if k in f.children[j] {
        ChildVisited(cs, index, |cs|, j, k);
      }
    }
    forall j1, j2 | 0 <= j1 < |cs| && 0 <= j2 < |cs| && k in f.children[j1] && k in f.children[j2]
      ensures j1 == j2
    {
      ChildVisited(cs, index, |cs|, j1, k);
      ChildVisited(cs, index, |cs|, j2, k);
    }
  }

  /** A comment whose parent id is not in the list is dropped, with its level as received. */
  lemma OrphanDropped(cs: seq<CommentModel>, k: nat)
    requires k < |cs| && !IsRoot(cs[k])
    requires forall i :: 0 <= i < |cs| ==> cs[i].id != cs[k].parent
    ensures var f := NestedTree(cs);
      k !in f.roots && (forall j :: 0 <= j < |cs| ==> k !in f.children[j]) && f.nodes[k] == cs[k]
  {
    var index := IdIndex(cs);
    assert Attached(cs, k).None?;
    BuiltRoots(cs, index, |cs|);
    BuiltChildren(cs, index, |cs|);
    BuiltLevels(cs, index, |cs|);
    BuiltNodes(cs, index, |cs|);
  }

  /** With duplicate ids the reply goes under the last comment carrying the parent id. */
  lemma DuplicateParentUsesLast(cs: seq<CommentModel>, k: nat, a: nat, b: nat)
    requires k < |cs| && !IsRoot(cs[k]) && a < b < |cs|
    requires cs[a].id == cs[k].parent && cs[b].id == cs[k].parent
    ensures k !in NestedTree(cs).children[a]
  {
    BuiltChildren(cs, IdIndex(cs), |cs|);
    assert Attached(cs, k) != Some(a);
  }

  // ---------------------------------------------------------------------
  // The view model
  // ---------------------------------------------------------------------

  datatype CommentVoteModel = CommentVoteModel(commentId: Option<int>, upvote: Option<bool>)

  datatype PostDetailUiState = ShowAddCommentLoading | Normal

  /** The body of `addComment`: `post`, `parent` and `content` */
  datatype CommentBody = CommentBody(post: string, parent: Option<int>, content: string)

  /** The body of `likeComment`'s vote: `id` and `upvoted` */
  datatype CommentVoteRequest = CommentVoteRequest(id: int, upvoted: bool)

  /** `commentVotes.any { it.commentId == id && it.upvote == true }` */
  function IsVoted(votes: seq<CommentVoteModel>, id: int): (b: bool)
    ensures b <==> exists v :: v in votes && v.commentId == Some(id) && v.upvote == Some(true)
  {
    if |votes| == 0 then false
    else
      assert forall v :: v in votes <==> v == votes[0] || v in votes[1..];
      (votes[0].commentId == Some(id) && votes[0].upvote == Some(true)) || IsVoted(votes[1..], id)
  }

  class PostDetailViewModel {
    const url: string
    var post: Option<PostModel>
    /** The comment objects with their levels and reply lists */
    var forest: Forest
    /** The root comments on screen, in order */
    var comments: seq<CommentModel>
    var commentVotes: seq<CommentVoteModel>
    var isRefreshing: bool
    var uiStates: seq<PostDetailUiState>

    constructor (url: string)
      ensures this.url == url && post.None? && comments == [] && commentVotes == [] && !isRefreshing
      ensures forest == Forest([], [], []) && uiStates == [Normal]
    {
      this.url := url;
      post := None;
      forest := Forest([], [], []);
      comments := [];
      commentVotes := [];
      isRefreshing := false;
      uiStates := [Normal];
    }

    /**
     * `loadData(isShowRefresh)`: the three calls are made in order, before
     * any `catch` is attached, so a call that throws ends `loadData` (and the
     * coroutine running it) at once: the later calls are not made and the
     * post, the comments and the votes stay as they were, while the
     * refreshing flag keeps the value it was given on entry. When every call
     * answers, the answers (a null answer reads as none or an empty list)
     * replace the post, the comments and the comment votes wholesale and the
     * flag comes down; votes are only asked for when logged in.
     */
    method LoadData(isShowRefresh: bool, isLogin: bool, postResult: Outcome<Option<PostModel>>,
                    commentsResult: Outcome<Option<seq<CommentModel>>>,
                    votesResult: Outcome<Option<seq<CommentVoteModel>>>)
      returns (crashed: bool)
      modifies this
      ensures crashed <==> (postResult.Threw? || (postResult.Returned? && commentsResult.Threw?)
                            || (postResult.Returned? && commentsResult.Returned? && isLogin && votesResult.Threw?))
      ensures crashed ==> (post == old(post) && forest == old(forest) && comments == old(comments)
                           && commentVotes == old(commentVotes) && isRefreshing == (isShowRefresh || old(isRefreshing)))
      ensures !crashed ==> var received := if commentsResult.value.Some? then commentsResult.value.value else [];
        forest == NestedTree(received)
        && |comments| == |forest.roots|
        && (forall i :: 0 <= i < |comments| ==> comments[i] == forest.nodes[forest.roots[i]])
        && commentVotes == (if isLogin && votesResult.value.Some? then votesResult.value.value else [])
        && post == postResult.value && !isRefreshing
      ensures uiStates == old(uiStates)
    {
      if isShowRefresh {
        isRefreshing := true;
      }
      if postResult.Threw? {
        return true;
      }
      if commentsResult.Threw? {
        return true;
      }
      var votesAnswer: Option<seq<CommentVoteModel>> := None;
      if isLogin {
        if votesResult.Threw? {
          return true;
        }
        votesAnswer := votesResult.value;
      }
      crashed := false;
      var received: seq<CommentModel> := [];
      if commentsResult.value.Some? {
        received := commentsResult.value.value;
      }
      var built := BuildNestedComments(received);
      BuiltRoots(received, IdIndex(received), |received|);
      var votes: seq<CommentVoteModel> := [];
      if votesAnswer.Some? {
        votes := votesAnswer.value;
      }
      commentVotes := votes;
      post := postResult.value;
      forest := built;
      comments := seq(|built.roots|, i requires 0 <= i < |built.roots| => built.nodes[built.roots[i]]);
      isRefreshing := false;
    }

    /**
     * `addComment(content, commentModel)`: the body sent, whether the
     * callback runs, and whether the app's notification flag is toggled
     * (both exactly when the call succeeds).
     */
    method AddComment(content: string, target: Option<CommentModel>, succeeded: bool)
      returns (body: CommentBody, callbackInvoked: bool, notificationToggled: bool)
      modifies this
      ensures body.post == (if target.Some? && target.value.post.Some? then target.value.post.value else url)
      ensures body.parent == (if target.Some? then target.value.id else None)
      ensures body.content == content
      ensures callbackInvoked == succeeded && notificationToggled == succeeded
      ensures uiStates == old(uiStates) + [ShowAddCommentLoading, Normal]
      ensures post == old(post) && forest == old(forest) && comments == old(comments)
      ensures commentVotes == old(commentVotes) && isRefreshing == old(isRefreshing)
    {
      uiStates := uiStates + [ShowAddCommentLoading];
      var postOf := url;
      var parent: Option<int> := None;
      if target.Some? {
        postOf := target.value.post.GetOr(url);
        parent := target.value.id;
      }
      body := CommentBody(postOf, parent, content);
      callbackInvoked := succeeded;
      notificationToggled := succeeded;
      uiStates := uiStates + [Normal];
    }

    /** `likeComment(commentId)`: None when nothing is sent */
    method LikeComment(isLogin: bool, commentId: Option<int>) returns (request: Option<CommentVoteRequest>)
      ensures request.None? <==> !isLogin || commentId.None?
      ensures request.Some? ==> request.value.id == commentId.value
      ensures request.Some? ==> (request.value.upvoted <==>
        forall v :: v in commentVotes && v.commentId == commentId ==> v.upvote != Some(true))
    {
      if !isLogin || commentId.None? {
        return None;
      }
      var isVoted := IsVoted(commentVotes, commentId.value);
      request := Some(CommentVoteRequest(commentId.value, !isVoted));
    }
  }

  /** Voting on a comment twice, with the vote recorded in between, sends opposite requests. */
  lemma LikeCommentToggles(votes: seq<CommentVoteModel>, id: int)
    ensures !IsVoted(votes, id) ==> IsVoted(votes + [CommentVoteModel(Some(id), Some(true))], id)
  {
    var v := CommentVoteModel(Some(id), Some(true));
    assert v in votes + [v];
  }
}
