/**
 * `WebSocketHelper.waitForCompletion`: consume the encoder's messages in
 * arrival order, hand each to the progress callback, and stop right after
 * the first one reporting that the source is complete. The messages that
 * arrive are a finite sequence; the callback's view of the stream is the
 * sequence of messages it receives.
 */
module WebSockets {
  import opened Strings

  const TERMINATOR: string := "source:100"

  predicate IsTerminator(message: string) {
    Contains(message, TERMINATOR)
  }

  /** The messages handed to the callback: up to and including the first terminator */
  function Delivered(messages: seq<string>): (d: seq<string>)
    ensures |d| <= |messages|
  {
    if |messages| == 0 then []
    else if IsTerminator(messages[0]) then [messages[0]]
    else [messages[0]] + Delivered(messages[1..])
  }

  /** Whether the stream holds a terminator: only then does the wait end */
  predicate Completes(messages: seq<string>) {
    exists k :: 0 <= k < |messages| && IsTerminator(messages[k])
  }

  /**
   * The loop of `waitForCompletion`. `delivered` is what `onProgress`
   * received, in order; `lastMessage` is the last message consumed, or
   * `""`. The channel is only cancelled by `close`, so the loop ends only
   * at a terminator: `completed` says whether one came. Without one the
   * source goes on waiting for more messages; here the wait is left
   * pending once the sequence runs out, and `completed` is false.
   */
  method WaitForCompletion(messages: seq<string>) returns (lastMessage: string, delivered: seq<string>, completed: bool)
    ensures delivered == Delivered(messages)
    ensures lastMessage == (if |delivered| == 0 then "" else delivered[|delivered| - 1])
    ensures completed == Completes(messages)
    ensures completed <==> exists k :: 0 <= k < |delivered| && IsTerminator(delivered[k])
  {
    lastMessage := "";
    delivered := [];
    var i := 0;
    while i < |messages|
      invariant 0 <= i <= |messages|
      invariant delivered == messages[..i]
      invariant forall k :: 0 <= k < i ==> !IsTerminator(messages[k])
      invariant lastMessage == (if |delivered| == 0 then "" else delivered[|delivered| - 1])
    {
      var message := messages[i];
      lastMessage := message;
      delivered := delivered + [message];
      if IsTerminator(message) {
        StopsAt(messages, i);
        assert IsTerminator(delivered[i]);
        return lastMessage, delivered, true;
      }
      i := i + 1;
    }
    RunsOut(messages);
    assert delivered == messages;
    completed := false;
  }

  /** The first terminator, at `i`, is the last message delivered. */
  lemma StopsAt(messages: seq<string>, i: nat)
    requires i < |messages| && IsTerminator(messages[i])
    requires forall k :: 0 <= k < i ==> !IsTerminator(messages[k])
    ensures Delivered(messages) == messages[..i + 1] && Completes(messages)
  {
    Around(messages, i);
    NothingAfterTerminator(messages[..i], messages[i], messages[i + 1..]);
  }

  /** A sequence cut around its element at `i` */
  lemma Around<T>(s: seq<T>, i: nat)
    requires i < |s|
    ensures s[..i] + [s[i]] == s[..i + 1]
    ensures s[..i] + [s[i]] + s[i + 1..] == s
  {
  }

  /** A stream without a terminator is delivered whole and never completes. */
  lemma RunsOut(messages: seq<string>)
    requires forall k :: 0 <= k < |messages| ==> !IsTerminator(messages[k])
    ensures Delivered(messages) == messages && !Completes(messages)
  {
    DeliveredShape(messages);
  }

  /**
   * What is delivered is a prefix of the stream; every delivered message
   * but the last is not a terminator, and delivery stops only at a
   * terminator or at the end of the stream.
   */
  lemma {:induction false} DeliveredShape(messages: seq<string>)
    ensures Delivered(messages) <= messages
    ensures forall k :: 0 <= k < |Delivered(messages)| - 1 ==> !IsTerminator(Delivered(messages)[k])
    ensures |Delivered(messages)| < |messages| ==>
      |Delivered(messages)| > 0 && IsTerminator(Delivered(messages)[|Delivered(messages)| - 1])
    ensures (forall k :: 0 <= k < |messages| ==> !IsTerminator(messages[k])) ==> Delivered(messages) == messages
  {
    if |messages| > 0 && !IsTerminator(messages[0]) {
      DeliveredShape(messages[1..]);
      var d := Delivered(messages[1..]);
      assert Delivered(messages) == [messages[0]] + d;
      assert messages == [messages[0]] + messages[1..];
      forall k | 0 <= k < |messages[1..]| ensures messages[1..][k] == messages[k + 1] {}
    }
  }

  /** The messages after the first terminator never reach the callback. */
  lemma {:induction false} NothingAfterTerminator(prefix: seq<string>, t: string, rest: seq<string>)
    requires forall k :: 0 <= k < |prefix| ==> !IsTerminator(prefix[k])
    requires IsTerminator(t)
    ensures Delivered(prefix + [t] + rest) == prefix + [t]
  {
    if |prefix| == 0 {
      assert (prefix + [t] + rest)[0] == t;
    } else {
      assert (prefix + [t] + rest)[1..] == prefix[1..] + [t] + rest;
      NothingAfterTerminator(prefix[1..], t, rest);
    }
  }
}
