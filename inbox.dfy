/**
 * The inbox view model: each poll replaces the notification list with the
 * server's list reversed (newest first) and publishes the unread count
 * into the application view model; reading one notification lowers it.
 * The polling loop is modelled as the sequence of its iterations'
 * outcomes; delays, backoff and cancellation are not.
 */
module Inbox {
  import opened Wrappers
  import AppViewModels

  datatype Notification = Notification(
    commentId: Option<int>,
    content: Option<string>,
    date: Option<int>,
    downvotes: Option<int>,
    edited: Option<bool>,
    id: Option<int>,
    parent: Option<int>,
    parentContent: Option<string>,
    post: Option<string>,
    postTitle: Option<string>,
    postType: Option<string>,
    read: Option<bool>,
    upvotes: Option<int>,
    user: Option<string>)

  /** Only `read == false` is unread; a missing flag is not counted. */
  predicate IsUnread(n: Notification) {
    n.read == Some(false)
  }

  /** The number of unread notifications, counted from the front */
  function UnreadCount(s: seq<Notification>): (c: nat)
    ensures c <= |s|
  {
    if |s| == 0 then 0
    else UnreadCount(s[..|s| - 1]) + (if IsUnread(s[|s| - 1]) then 1 else 0)
  }

  /** `asReversed()` */
  function Reversed(s: seq<Notification>): (r: seq<Notification>)
    ensures |r| == |s|
    ensures forall i :: 0 <= i < |s| ==> r[i] == s[|s| - 1 - i]
  {
    seq(|s|, i requires 0 <= i < |s| => s[|s| - 1 - i])
  }

  lemma {:induction false} UnreadCountAppend(a: seq<Notification>, b: seq<Notification>)
    ensures UnreadCount(a + b) == UnreadCount(a) + UnreadCount(b)
  {
    if |b| > 0 {
      var b' := b[..|b| - 1];
      assert (a + b)[..|a + b| - 1] == a + b';
      assert (a + b)[|a + b| - 1] == b[|b| - 1];
      UnreadCountAppend(a, b');
    } else {
      assert a + b == a;
    }
  }

  /** The count published from the server's list is the count of the list shown. */
  lemma {:induction false} UnreadCountReversed(s: seq<Notification>)
    ensures UnreadCount(Reversed(s)) == UnreadCount(s)
  {
    if |s| > 0 {
      var front := s[..|s| - 1];
      assert Reversed(s) == [s[|s| - 1]] + Reversed(front);
      UnreadCountAppend([s[|s| - 1]], Reversed(front));
      assert UnreadCount([s[|s| - 1]]) == (if IsUnread(s[|s| - 1]) then 1 else 0) by {
        assert [s[|s| - 1]][..0] == [];
      }
      UnreadCountReversed(front);
    }
  }

  /** Reading one unread notification lowers the unread count by exactly one. */
  lemma {:induction false} ReadingOneLowersCount(s: seq<Notification>, i: nat)
    requires i < |s| && IsUnread(s[i])
    ensures UnreadCount(s[i := s[i].(read := Some(true))]) == UnreadCount(s) - 1
  {
    var t := s[i := s[i].(read := Some(true))];
    assert s == s[..i] + [s[i]] + s[i + 1..];
    assert t == s[..i] + [t[i]] + s[i + 1..];
    UnreadCountAppend(s[..i] + [s[i]], s[i + 1..]);
    UnreadCountAppend(s[..i], [s[i]]);
    UnreadCountAppend(s[..i] + [t[i]], s[i + 1..]);
    UnreadCountAppend(s[..i], [t[i]]);
    assert [s[i]][..0] == [] && [t[i]][..0] == [];
  }

  /**
   * `notificationCount = notificationCount--` as written: the postfix
   * decrement yields the old value, which is assigned back over the
   * decremented one, so the count never moves.
   */
  method CountAfterMarkReadAsWritten(count: int) returns (after: int)
    ensures after == count
  {
    var notificationCount := count;
    if notificationCount != 0 {
      var value := notificationCount;
      notificationCount := notificationCount - 1;
      notificationCount := value;
    }
    after := notificationCount;
  }

  /** The evident intent of `markRead`: one fewer unread, never below zero. */
  method CountAfterMarkRead(count: int) returns (after: int)
    ensures count != 0 ==> after == count - 1
    ensures count == 0 ==> after == 0
    ensures count >= 0 ==> after >= 0
  {
    after := count;
    if after != 0 {
      after := after - 1;
    }
  }

  /**
   * Where the two differ: with one unread notification, reading it takes
   * the true count to zero while the code as written keeps showing one.
   */
  lemma MarkReadDiscrepancy(n: Notification)
    requires IsUnread(n)
    ensures UnreadCount([n]) == 1
    ensures UnreadCount([n.(read := Some(true))]) == 0
  {
    assert [n][..0] == [];
    assert [n.(read := Some(true))][..0] == [];
  }

  class InboxViewModel {
    const app: AppViewModels.AppViewModel
    var refreshState: bool
    /** Every value written to `refreshState`, in order */
    var refreshWrites: seq<bool>
    var notifications: seq<Notification>

    constructor (app: AppViewModels.AppViewModel)
      ensures this.app == app && !refreshState && refreshWrites == [] && notifications == []
    {
      this.app := app;
      refreshState := false;
      refreshWrites := [];
      notifications := [];
    }

    /** `upCountData(list)`: the unread count of the list (0 for none) goes to the app view model. */
    method UpCountData(list: Option<seq<Notification>>)
      modifies app
      ensures app.notificationCount == UnreadCount(list.GetOr([]))
      ensures app.isLogin == old(app.isLogin) && app.votes == old(app.votes)
      ensures app.updateNotification == old(app.updateNotification)
    {
      var count := 0;
      if list.Some? {
        var s := list.value;
        var i := 0;
        while i < |s|
          invariant 0 <= i <= |s|
          invariant count == UnreadCount(s[..i])
        {
          assert s[..i + 1][..i] == s[..i];
          if s[i].read == Some(false) {
            count := count + 1;
          }
          i := i + 1;
        }
        assert s[..i] == s;
      }
      app.notificationCount := count;
    }

    /**
     * One iteration of the polling loop. `answer` is the call's outcome,
     * `Returned(None)` standing for a null answer or a null list: the list
     * is replaced by the reversed answer and the count republished; a
     * thrown call changes neither. A requested indicator is shown and
     * cleared either way.
     */
    method Poll(refresh: bool, answer: Outcome<Option<seq<Notification>>>)
      modifies this, app
      ensures answer.Returned? ==> notifications == Reversed(answer.value.GetOr([]))
      ensures answer.Returned? ==> app.notificationCount == UnreadCount(notifications)
      ensures answer.Threw? ==> notifications == old(notifications) && app.notificationCount == old(app.notificationCount)
      ensures refreshWrites == old(refreshWrites) + (if refresh then [true, false] else [])
      ensures refresh ==> !refreshState
      ensures !refresh ==> refreshState == old(refreshState)
      ensures app.isLogin == old(app.isLogin) && app.votes == old(app.votes)
      ensures app.updateNotification == old(app.updateNotification)
    {
      if refresh {
        refreshState := true;
        refreshWrites := refreshWrites + [true];
      }
      if answer.Returned? {
        notifications := Reversed(answer.value.GetOr([]));
        if refresh {
          refreshState := false;
          refreshWrites := refreshWrites + [false];
        }
        UpCountData(answer.value);
        UnreadCountReversed(answer.value.GetOr([]));
      } else {
        if refresh {
          refreshState := false;
          refreshWrites := refreshWrites + [false];
        }
      }
    }

    /**
     * `getNotifications(autoRefresh)` run for as many iterations as there
     * are outcomes: only the first may show the indicator, and the list
     * shown is the reversed list of the last answer that arrived.
     */
    method GetNotifications(autoRefresh: bool, answers: seq<Outcome<Option<seq<Notification>>>>)
      modifies this, app
      ensures refreshWrites == old(refreshWrites) + (if autoRefresh && |answers| > 0 then [true, false] else [])
      ensures LastReturned(answers).Some? ==> notifications == Reversed(LastReturned(answers).value.GetOr([]))
      ensures LastReturned(answers).Some? ==> app.notificationCount == UnreadCount(notifications)
      ensures LastReturned(answers).None? ==> notifications == old(notifications)
      ensures LastReturned(answers).None? ==> app.notificationCount == old(app.notificationCount)
      ensures app.isLogin == old(app.isLogin) && app.votes == old(app.votes)
    {
      var refresh := autoRefresh;
      var i := 0;
      while i < |answers|
        invariant 0 <= i <= |answers|
        invariant refresh == (autoRefresh && i == 0)
        invariant refreshWrites == old(refreshWrites) + (if autoRefresh && i > 0 then [true, false] else [])
        invariant LastReturned(answers[..i]).Some? ==>
          notifications == Reversed(LastReturned(answers[..i]).value.GetOr([]))
          && app.notificationCount == UnreadCount(notifications)
        invariant LastReturned(answers[..i]).None? ==>
          notifications == old(notifications) && app.notificationCount == old(app.notificationCount)
        invariant app.isLogin == old(app.isLogin) && app.votes == old(app.votes)
      {
        assert answers[..i + 1][..i] == answers[..i];
        Poll(refresh, answers[i]);
        refresh := false;
        i := i + 1;
      }
      assert answers[..i] == answers;
    }

    /** `markRead(id)`: the id sent, and the count lowered by one unless already zero */
    method MarkRead(id: int) returns (sent: int)
      modifies app
      ensures sent == id
      ensures old(app.notificationCount) != 0 ==> app.notificationCount == old(app.notificationCount) - 1
      ensures old(app.notificationCount) == 0 ==> app.notificationCount == 0
      ensures app.isLogin == old(app.isLogin) && app.votes == old(app.votes)
      ensures app.updateNotification == old(app.updateNotification)
    {
      sent := id;
      app.notificationCount := CountAfterMarkRead(app.notificationCount);
    }

    /** `markRead(id)` as the code stands: the count is left where it was. */
    method MarkReadAsWritten(id: int) returns (sent: int)
      modifies app
      ensures sent == id && app.notificationCount == old(app.notificationCount)
      ensures app.isLogin == old(app.isLogin) && app.votes == old(app.votes)
      ensures app.updateNotification == old(app.updateNotification)
    {
      sent := id;
      app.notificationCount := CountAfterMarkReadAsWritten(app.notificationCount);
    }

    /** `clearNotification()` */
    method ClearNotification()
      modifies this
      ensures notifications == [] && refreshState == old(refreshState) && refreshWrites == old(refreshWrites)
    {
      notifications := [];
    }
  }

  /** The last outcome that returned, if any */
  function LastReturned(answers: seq<Outcome<Option<seq<Notification>>>>): (r: Option<Option<seq<Notification>>>)
    ensures r.Some? <==> exists i :: 0 <= i < |answers| && answers[i].Returned?
    ensures |answers| > 0 && answers[|answers| - 1].Returned? ==> r == Some(answers[|answers| - 1].value)
  {
    if |answers| == 0 then None
    else if answers[|answers| - 1].Returned? then Some(answers[|answers| - 1].value)
    else LastReturned(answers[..|answers| - 1])
  }
}
