/** Backoff: the reconnect loop shared by the market-data and private feeds.

    A feed opens a connection, streams until the session ends, and then either
    stops or sleeps and reconnects. The sleep starts at 5 seconds and doubles
    after every reconnect up to 60 seconds; it is never reset. Each session's
    ending is an input: the transport, the clock and the sleep are outside the
    model. */
module Backoff {

  const InitialDelay: nat := 5
  const MaxDelay: nat := 60
  /** WebSocket close code for a normal closure. */
  const NormalClosure: int := 1000

  datatype Feed = MarketFeed | PrivateFeed

  /** How one connection session ended. */
  datatype SessionEnd =
    | StreamEnded          // the message loop finished without raising
    | Closed(code: int)    // the connection-closed exception, with its close code
    | TimedOut             // the timeout exception
    | Failed               // any other exception
    | HandlerExit          // `sys.exit` from the market-data handler: not an `Exception`, so
                           // uncaught; it ends the feed's thread, not the process

  /** Why a feed loop is no longer reconnecting. */
  datatype Stop = NormalClose | Halted | HandlerExited | StillRunning

  /** The sleeps taken between sessions, in order, and how the loop ended. */
  datatype FeedTrace = FeedTrace(sleeps: seq<nat>, stop: Stop)

  function NextDelay(d: nat): nat {
    if 2 * d < MaxDelay then 2 * d else MaxDelay
  }

  /** The delay after `k` doublings starting from `d`. */
  function DelayAfter(d: nat, k: nat): nat
    decreases k
  {
    if k == 0 then d else DelayAfter(NextDelay(d), k - 1)
  }

  /** The delay slept before reconnect number `k + 1`. */
  function DelayAt(k: nat): (d: nat)
    ensures InitialDelay <= d <= MaxDelay
  {
    DelayBounds(InitialDelay, k);
    DelayAfter(InitialDelay, k)
  }

  lemma {:induction false} DelayBounds(d: nat, k: nat)
    requires InitialDelay <= d <= MaxDelay
    ensures d <= DelayAfter(d, k) <= MaxDelay
    decreases k
  {
    if k > 0 {
      DelayBounds(NextDelay(d), k - 1);
    }
  }

  /** 5, 10, 20, 40, then 60 for ever. */
  lemma {:induction false} DelaySchedule(k: nat)
    ensures DelayAt(0) == 5 && DelayAt(1) == 10 && DelayAt(2) == 20 && DelayAt(3) == 40
    ensures k >= 4 ==> DelayAt(k) == 60
  {
    assert DelayAfter(5, 1) == DelayAfter(10, 0);
    assert DelayAfter(5, 2) == DelayAfter(20, 0);
    assert DelayAfter(5, 3) == DelayAfter(40, 0);
    if k >= 4 {
      assert DelayAfter(5, k) == DelayAfter(60, k - 4) by {
        assert DelayAfter(5, k) == DelayAfter(10, k - 1);
        assert DelayAfter(10, k - 1) == DelayAfter(20, k - 2);
        assert DelayAfter(20, k - 2) == DelayAfter(40, k - 3);
        assert DelayAfter(40, k - 3) == DelayAfter(60, k - 4);
      }
      CapIsFixed(k - 4);
    }
  }

  lemma {:induction false} CapIsFixed(k: nat)
    ensures DelayAfter(MaxDelay, k) == MaxDelay
  {
    if k > 0 {
      CapIsFixed(k - 1);
    }
  }

  /** The delay only ever grows. */
  lemma {:induction false} DelayMonotone(i: nat, j: nat)
    requires i <= j
    ensures DelayAt(i) <= DelayAt(j)
  {
    StepMonotone(InitialDelay, i, j);
  }

  lemma {:induction false} StepMonotone(d: nat, i: nat, j: nat)
    requires i <= j && d <= MaxDelay
    ensures DelayAfter(d, i) <= DelayAfter(d, j)
    decreases i
  {
    if i == 0 {
      NeverBelowStart(d, j);
    } else {
      StepMonotone(NextDelay(d), i - 1, j - 1);
    }
  }

  lemma {:induction false} NeverBelowStart(d: nat, k: nat)
    requires d <= MaxDelay
    ensures d <= DelayAfter(d, k)
    decreases k
  {
    if k > 0 {
      NeverBelowStart(NextDelay(d), k - 1);
    }
  }

  /** Whether the loop sleeps and reconnects after a session ending. */
  predicate Reconnects(feed: Feed, e: SessionEnd) {
    match e
    case StreamEnded => true
    case Closed(code) => code != NormalClosure
    case TimedOut => feed == PrivateFeed
    case Failed => false
    case HandlerExit => false
  }

  function StopFor(e: SessionEnd): Stop {
    match e
    case Closed(_) => NormalClose
    case HandlerExit => HandlerExited
    case _ => Halted
  }

  /** The reconnect loop from the current delay `d`, fed the endings of the
      successive sessions. When the endings run out the feed is still running. */
  function Supervise(feed: Feed, sessions: seq<SessionEnd>, d: nat): (t: FeedTrace)
    ensures |t.sleeps| <= |sessions|
    ensures forall i :: 0 <= i < |t.sleeps| ==> Reconnects(feed, sessions[i]) && t.sleeps[i] == DelayAfter(d, i)
    ensures t.stop == StillRunning ==> |t.sleeps| == |sessions|
    ensures t.stop != StillRunning ==>
              |t.sleeps| < |sessions|
              && !Reconnects(feed, sessions[|t.sleeps|])
              && t.stop == StopFor(sessions[|t.sleeps|])
    decreases |sessions|
  {
    if |sessions| == 0 then FeedTrace([], StillRunning)
    else if Reconnects(feed, sessions[0]) then
      var rest := Supervise(feed, sessions[1..], NextDelay(d));
      FeedTrace([d] + rest.sleeps, rest.stop)
    else FeedTrace([], StopFor(sessions[0]))
  }

  /** `websocket_handler` and `subscribe_private_ws`: the loop from its initial delay. */
  function RunFeed(feed: Feed, sessions: seq<SessionEnd>): (t: FeedTrace)
    ensures forall i :: 0 <= i < |t.sleeps| ==> t.sleeps[i] == DelayAt(i) && t.sleeps[i] <= MaxDelay
  {
    Supervise(feed, sessions, InitialDelay)
  }

  /** The loop stops at the first session ending that does not reconnect, and
      sleeps once before each earlier reconnect. */
  lemma RunFeedStopsAtFirstTerminal(feed: Feed, sessions: seq<SessionEnd>, k: nat)
    requires k < |sessions|
    requires !Reconnects(feed, sessions[k])
    requires forall i :: 0 <= i < k ==> Reconnects(feed, sessions[i])
    ensures |RunFeed(feed, sessions).sleeps| == k
    ensures RunFeed(feed, sessions).stop == StopFor(sessions[k])
  {
  }

  /** A normal closure (code 1000) ends the loop without another connection. */
  lemma NormalClosureStops(feed: Feed, rest: seq<SessionEnd>)
    ensures RunFeed(feed, [Closed(NormalClosure)] + rest) == FeedTrace([], NormalClose)
  {
  }

  /** The two feeds differ only on timeouts: the private feed reconnects,
      the market feed stops. */
  lemma FeedsDifferOnlyOnTimeout(e: SessionEnd)
    ensures Reconnects(MarketFeed, e) != Reconnects(PrivateFeed, e) <==> e == TimedOut
  {
  }
}
