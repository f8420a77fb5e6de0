/**
 * The application-wide view model: whether a user is signed in, the
 * cached list of the user's tag votes (absent until fetched, or while
 * signed out), the unread-notification count and the flag whose every
 * flip tells the inbox to reload.
 */
module AppViewModels {
  import opened Wrappers
  import Models

  /** The position of the first vote equal to `v` */
  function IndexOf<T(==)>(s: seq<T>, v: T): (i: nat)
    requires v in s
    ensures i < |s| && s[i] == v && v !in s[..i]
  {
    if s[0] == v then 0
    else
      var j := IndexOf(s[1..], v);
      assert s[..1 + j] == [s[0]] + s[1..][..j];
      1 + j
  }

  /** `List.minus(element)`: the first element equal to `v` dropped, the rest kept in order */
  function Minus<T(==)>(s: seq<T>, v: T): (r: seq<T>)
    ensures v !in s ==> r == s
  {
    if |s| == 0 then []
    else if s[0] == v then s[1..]
    else [s[0]] + Minus(s[1..], v)
  }

  /** One copy of `v` fewer, every other element as often as before */
  lemma {:induction false} MinusMultiset<T>(s: seq<T>, v: T)
    ensures multiset(Minus(s, v)) == multiset(s) - multiset{v}
  {
    if |s| > 0 {
      assert s == [s[0]] + s[1..];
      if s[0] != v {
        MinusMultiset(s[1..], v);
      }
    }
  }

  /** Exactly the first equal element goes: what precedes it and what follows it stay. */
  lemma {:induction false} MinusSplits<T>(s: seq<T>, v: T)
    requires v in s
    ensures Minus(s, v) == s[..IndexOf(s, v)] + s[IndexOf(s, v) + 1..]
  {
    if s[0] != v {
      var t := s[1..];
      MinusSplits(t, v);
      var j := IndexOf(t, v);
      assert IndexOf(s, v) == 1 + j;
      assert Minus(s, v) == [s[0]] + Minus(t, v);
      assert Minus(t, v) == t[..j] + t[j + 1..];
      assert s[..1 + j] == [s[0]] + t[..j];
      assert s[1 + j + 1..] == t[j + 1..];
    }
  }

  /** Removing what was just added at the front gives the list back. */
  lemma MinusHead<T>(s: seq<T>, v: T)
    ensures Minus([v] + s, v) == s
  {
    assert ([v] + s)[1..] == s;
  }

  /** Removing a vote the list did not hold, after appending it, restores the list. */
  lemma {:induction false} MinusAppended<T>(s: seq<T>, v: T)
    requires v !in s
    ensures Minus(s + [v], v) == s
  {
    MinusSplits(s + [v], v);
    assert IndexOf(s + [v], v) == |s|;
    assert (s + [v])[..|s|] == s;
  }

  /** Only one copy goes: a vote added twice is still liked after one removal. */
  lemma DuplicateSurvivesRemoval(s: seq<Models.VoteModel>, v: Models.VoteModel)
    requires multiset(s)[v] >= 2
    ensures v in Minus(s, v)
    ensures Models.IsLiked(Some(Minus(s, v)), v.postID, v.tagID)
  {
    MinusMultiset(s, v);
    assert multiset(Minus(s, v))[v] >= 1;
    Models.IsLikedIff(Some(Minus(s, v)), v.postID, v.tagID);
  }

  /** A vote held once is no longer liked after its removal. */
  lemma SingleRemovalUnlikes(s: seq<Models.VoteModel>, v: Models.VoteModel)
    requires multiset(s)[v] <= 1
    ensures !Models.IsLiked(Some(Minus(s, v)), v.postID, v.tagID)
  {
    MinusMultiset(s, v);
    assert multiset(Minus(s, v))[v] == 0;
    Models.IsLikedIff(Some(Minus(s, v)), v.postID, v.tagID);
  }

  /** Removing one vote leaves every other (post, tag) pair as it was. */
  lemma RemovalKeepsOthers(s: seq<Models.VoteModel>, v: Models.VoteModel, postId: Option<string>, tagId: Option<string>)
    requires Models.VoteModel(postId, tagId) != v
    ensures Models.IsLiked(Some(Minus(s, v)), postId, tagId) <==> Models.IsLiked(Some(s), postId, tagId)
  {
    var w := Models.VoteModel(postId, tagId);
    MinusMultiset(s, v);
    assert multiset(Minus(s, v))[w] == multiset(s)[w];
    Models.IsLikedIff(Some(Minus(s, v)), postId, tagId);
    Models.IsLikedIff(Some(s), postId, tagId);
  }

  class AppViewModel {
    var isLogin: bool
    var votes: Option<seq<Models.VoteModel>>
    var notificationCount: int
    var updateNotification: bool

    /** The view model as created, with the session's sign-in state */
    constructor (isLogin: bool)
      ensures this.isLogin == isLogin && votes.None? && notificationCount == 0 && !updateNotification
    {
      this.isLogin := isLogin;
      votes := None;
      notificationCount := 0;
      updateNotification := false;
    }

    /** `updateNotification()`: the flag flips, so two calls restore it. */
    method UpdateNotification()
      modifies this
      ensures updateNotification == !old(updateNotification)
      ensures isLogin == old(isLogin) && votes == old(votes) && notificationCount == old(notificationCount)
    {
      updateNotification := !updateNotification;
    }

    /** `isLiked(postId, tagId)`: false before any list is held, else whether the list holds that vote */
    function IsLiked(postId: Option<string>, tagId: Option<string>): (b: bool)
      reads this
      ensures b <==> votes.Some? && Models.VoteModel(postId, tagId) in votes.value
    {
      Models.IsLikedIff(votes, postId, tagId);
      Models.IsLiked(votes, postId, tagId)
    }

    /**
     * `refreshVote()` with the fetch's outcome as input: signed out drops
     * the list; a thrown fetch keeps it; otherwise the answer (possibly
     * null) replaces it.
     */
    method RefreshVote(fetched: Outcome<Option<seq<Models.VoteModel>>>)
      modifies this
      ensures !isLogin ==> votes.None?
      ensures isLogin && fetched.Threw? ==> votes == old(votes)
      ensures isLogin && fetched.Returned? ==> votes == fetched.value
      ensures isLogin == old(isLogin) && notificationCount == old(notificationCount)
      ensures updateNotification == old(updateNotification)
    {
      if !isLogin {
        votes := None;
      } else if fetched.Returned? {
        votes := fetched.value;
      }
    }

    /**
     * `updateVote(vote, isAdd)`: nothing without a list; adding appends
     * (duplicates allowed), removing drops the first equal vote.
     */
    method UpdateVote(vote: Models.VoteModel, isAdd: bool)
      modifies this
      ensures old(votes).None? ==> votes.None?
      ensures old(votes).Some? && isAdd ==> votes == Some(old(votes).value + [vote])
      ensures old(votes).Some? && !isAdd ==> votes == Some(Minus(old(votes).value, vote))
      ensures old(votes).Some? && isAdd ==> IsLiked(vote.postID, vote.tagID)
      ensures isLogin == old(isLogin) && notificationCount == old(notificationCount)
      ensures updateNotification == old(updateNotification)
    {
      if votes.Some? {
        if isAdd {
          votes := Some(votes.value + [vote]);
          assert votes.value[|votes.value| - 1] == vote;
        } else {
          votes := Some(Minus(votes.value, vote));
        }
      }
    }
  }
}
