/**
 The idle timeout of a prompt (`do_send_prompt`, `send_prompt_inner`).

 The loop wakes after each poll interval and compares the time since the last
 update with the limit that applies then. The environment is the times of the
 updates, the times at which some tool is open, and the time of the answer.
 Times are milliseconds; a poll may end up to `drift` late.
 */
module IdleTimeout {
  import opened Wrappers

  type Time = nat

  const DEFAULT_PROMPT_TIMEOUT: nat := 60 * 60 * 1000
  const MAX_OPEN_TOOL_TIMEOUT: nat := 7 * 24 * 60 * 60 * 1000
  const POLL_INTERVAL: nat := 5_000
  const CANCEL_GRACE: nat := 45_000

  // The effective limits of a prompt.
  datatype Limits = Limits(idle: nat, openTool: Option<nat>)

  // `updates` begins with the reset of the clock when the prompt is sent.
  datatype World = World(updates: seq<Time>, toolOpen: Time -> bool, answer: Option<Time>)

  function LimitsOf(promptTimeout: Option<nat>, openToolTimeout: Option<nat>): Limits {
    Limits(promptTimeout.GetOr(DEFAULT_PROMPT_TIMEOUT),
           match openToolTimeout
           case None => None
           case Some(t) => Some(Max(Min(t, MAX_OPEN_TOOL_TIMEOUT), 1)))
  }

  function PollEvery(l: Limits): nat {
    Min(Min(POLL_INTERVAL, l.idle), l.openTool.GetOr(POLL_INTERVAL))
  }

  function ActiveLimit(l: Limits, w: World, at: Time): nat {
    if w.toolOpen(at) && l.openTool.Some? then l.openTool.value else l.idle
  }

  // ----- The world -----

  ghost predicate IsWorld(w: World) {
    w.updates != [] && forall i, j :: 0 <= i < j < |w.updates| ==> w.updates[i] <= w.updates[j]
  }

  // The last of the first n updates that is not after `at`.
  function LastTo(updates: seq<Time>, n: nat, at: Time): Time
    requires 0 < n <= |updates|
  {
    if n == 1 || updates[n - 1] <= at then updates[n - 1] else LastTo(updates, n - 1, at)
  }

  // `last_activity` at that time.
  function LastActivity(w: World, at: Time): Time
    requires IsWorld(w)
  {
    LastTo(w.updates, |w.updates|, at)
  }

  lemma {:induction false} LastIs(updates: seq<Time>, n: nat, at: Time)
    requires 0 < n <= |updates| && updates[0] <= at
    requires forall i, j :: 0 <= i < j < n ==> updates[i] <= updates[j]
    ensures LastTo(updates, n, at) <= at
    ensures exists i :: 0 <= i < n && LastTo(updates, n, at) == updates[i] && forall j :: i < j < n ==> updates[j] > at
  {
    if n == 1 || updates[n - 1] <= at {
      assert LastTo(updates, n, at) == updates[n - 1];
    } else {
      LastIs(updates, n - 1, at);
      var i :| 0 <= i < n - 1 && LastTo(updates, n - 1, at) == updates[i]
               && forall j :: i < j < n - 1 ==> updates[j] > at;
      assert forall j :: i < j < n ==> updates[j] > at;
    }
  }

  predicate Answered(w: World, at: Time) {
    w.answer.Some? && w.answer.value <= at
  }

  // The poll that ends at this time finds the prompt idle for its limit.
  predicate Expires(l: Limits, w: World, at: Time)
    requires IsWorld(w)
  {
    !Answered(w, at) && at >= LastActivity(w, at) + ActiveLimit(l, w, at)
  }

  // ----- The program -----

  datatype Outcome =
    | StillWaiting
    | Responded(poll: nat)
    | TimedOut(poll: nat, limit: nat, back: Time)   // back: when the error is returned

  // The outcome of the polls from i on.
  function Decide(l: Limits, w: World, polls: seq<Time>, i: nat): Outcome
    requires IsWorld(w) && i <= |polls|
    decreases |polls| - i
  {
    if i == |polls| then StillWaiting
    else if Answered(w, polls[i]) then Responded(i)
    else if Expires(l, w, polls[i]) then
      var limit := ActiveLimit(l, w, polls[i]);
      var giveUp := polls[i] + Min(CANCEL_GRACE, limit);
      TimedOut(i, limit, if Answered(w, giveUp) then w.answer.value else giveUp)
    else Decide(l, w, polls, i + 1)
  }

  method SendPromptInner(l: Limits, w: World, polls: seq<Time>) returns (o: Outcome)
    requires IsWorld(w) && forall i :: 0 <= i < |polls| ==> w.updates[0] <= polls[i]
    ensures o == Decide(l, w, polls, 0)
  {
    for i := 0 to |polls|
      invariant Decide(l, w, polls, 0) == Decide(l, w, polls, i)
    {
      var now := polls[i];
      if w.answer.Some? && w.answer.value <= now {
        return Responded(i);
      }
      LastIs(w.updates, |w.updates|, now);
      var idleFor := now - LastActivity(w, now);
      var limit := if w.toolOpen(now) && l.openTool.Some? then l.openTool.value else l.idle;
      if idleFor >= limit {
        var giveUp := now + Min(CANCEL_GRACE, limit);
        return TimedOut(i, limit, if Answered(w, giveUp) then w.answer.value else giveUp);
      }
    }
    o := StillWaiting;
  }

  // `do_send_prompt`: the limits, and the poll loop with them.
  method DoSendPrompt(promptTimeout: Option<nat>, openToolTimeout: Option<nat>, w: World, polls: seq<Time>)
    returns (o: Outcome)
    requires IsWorld(w) && forall i :: 0 <= i < |polls| ==> w.updates[0] <= polls[i]
    ensures o == Decide(LimitsOf(promptTimeout, openToolTimeout), w, polls, 0)
  {
    var idle := promptTimeout.GetOr(DEFAULT_PROMPT_TIMEOUT);
    var open: Option<nat> := None;
    if openToolTimeout.Some? {
      open := Some(Max(Min(openToolTimeout.value, MAX_OPEN_TOOL_TIMEOUT), 1));
    }
    o := SendPromptInner(Limits(idle, open), w, polls);
  }

  // ----- Polls -----

  function PollStart(w: World, polls: seq<Time>, i: nat): Time
    requires IsWorld(w) && i <= |polls|
  {
    if i == 0 then w.updates[0] else polls[i - 1]
  }

  // Polls follow each other at the poll interval, each up to `drift` late.
  ghost predicate IsPolling(l: Limits, w: World, polls: seq<Time>, drift: nat)
    requires IsWorld(w)
  {
    forall i :: 0 <= i < |polls| ==>
      PollStart(w, polls, i) + PollEvery(l) <= polls[i] <= PollStart(w, polls, i) + PollEvery(l) + drift
  }

  lemma {:induction false} PollsInOrder(l: Limits, w: World, polls: seq<Time>, drift: nat, i: nat, j: nat)
    requires IsWorld(w) && IsPolling(l, w, polls, drift) && i <= j < |polls|
    ensures w.updates[0] <= polls[i] <= polls[j]
    decreases i + j
  {
    hide PollEvery;
    assert PollStart(w, polls, j) <= polls[j];
    if i < j {
      PollsInOrder(l, w, polls, drift, i, j - 1);
    } else if 0 < i {
      PollsInOrder(l, w, polls, drift, i - 1, j - 1);
    }
  }

  // The limit of an open tool applies while one is open, and the prompt's otherwise.
  predicate IsLimit(l: Limits, w: World, at: Time, limit: nat) {
    && limit == ActiveLimit(l, w, at)
    && (w.toolOpen(at) && l.openTool.Some? ==> l.openTool == Some(limit))
    && (!w.toolOpen(at) || l.openTool.None? ==> l.idle == limit)
  }

  // After the cancel at that time the error waits for the answer, but not past the grace.
  predicate IsBack(w: World, at: Time, grace: nat, back: Time) {
    && at <= back <= at + grace
    && (w.answer == Some(back) || back == at + grace)
    && (w.answer.Some? ==> back <= Max(at, w.answer.value))
  }

  lemma {:induction false} DecisionIs(l: Limits, w: World, polls: seq<Time>, i: nat)
    requires IsWorld(w) && i <= |polls|
    ensures var o := Decide(l, w, polls, i);
            && (o.Responded? ==> i <= o.poll < |polls| && Answered(w, polls[o.poll]))
            && (o.TimedOut? ==> i <= o.poll < |polls| && Expires(l, w, polls[o.poll])
                                && IsLimit(l, w, polls[o.poll], o.limit)
                                && IsBack(w, polls[o.poll], Min(CANCEL_GRACE, o.limit), o.back))
            && (forall k :: i <= k < (if o.StillWaiting? then |polls| else o.poll) ==>
                  !Answered(w, polls[k]) && !Expires(l, w, polls[k]))
    decreases |polls| - i
  {
    if i < |polls| && !Answered(w, polls[i]) && !Expires(l, w, polls[i]) {
      DecisionIs(l, w, polls, i + 1);
    }
  }

  // ----- Main results -----

  // Updates with gaps below every limit that applies keep a prompt alive for any
  // number of polls.
  lemma SteadyUpdatesNeverTimeOut(l: Limits, w: World, polls: seq<Time>, drift: nat, gap: nat)
    requires IsWorld(w) && IsPolling(l, w, polls, drift)
    requires forall i :: 0 <= i < |w.updates| - 1 ==> w.updates[i + 1] < w.updates[i] + gap
    requires forall k :: 0 <= k < |polls| ==>
               gap <= ActiveLimit(l, w, polls[k]) && polls[k] < w.updates[|w.updates| - 1] + gap
    ensures !Decide(l, w, polls, 0).TimedOut?
  {
    DecisionIs(l, w, polls, 0);
    forall k | 0 <= k < |polls| ensures !Expires(l, w, polls[k]) {
      PollsInOrder(l, w, polls, drift, k, k);
      LastIs(w.updates, |w.updates|, polls[k]);
      var i :| 0 <= i < |w.updates| && LastActivity(w, polls[k]) == w.updates[i]
               && forall j :: i < j < |w.updates| ==> w.updates[j] > polls[k];
      if i + 1 < |w.updates| {
        assert polls[k] < w.updates[i + 1] < w.updates[i] + gap;
      }
    }
  }

  // Before any update after u, `last_activity` stays at u.
  lemma QuietSince(w: World, u: Time, at: Time, now: Time)
    requires IsWorld(w) && w.updates[0] <= at && u <= at <= now && u == LastActivity(w, now)
    ensures LastActivity(w, at) == u
  {
    LastIs(w.updates, |w.updates|, at);
    LastIs(w.updates, |w.updates|, now);
    var i :| 0 <= i < |w.updates| && LastActivity(w, at) == w.updates[i]
             && forall j :: i < j < |w.updates| ==> w.updates[j] > at;
    var k :| 0 <= k < |w.updates| && u == w.updates[k] && forall j :: k < j < |w.updates| ==> w.updates[j] > now;
  }

  lemma FirstUpdate(w: World, at: Time)
    requires IsWorld(w) && w.updates[0] <= at
    ensures w.updates[0] <= LastActivity(w, at)
  {
    LastIs(w.updates, |w.updates|, at);
    var i :| 0 <= i < |w.updates| && LastActivity(w, at) == w.updates[i]
             && forall j :: i < j < |w.updates| ==> w.updates[j] > at;
    assert i == 0 || w.updates[0] <= w.updates[i];
  }

  // A poll whose predecessor did not expire ends within a poll of `most` after the last update.
  lemma DueBefore(l: Limits, w: World, polls: seq<Time>, drift: nat, k: nat, most: nat)
    requires IsWorld(w) && IsPolling(l, w, polls, drift) && k < |polls|
    requires 0 < k ==> !Answered(w, polls[k - 1]) && !Expires(l, w, polls[k - 1])
    requires 0 < k && polls[k - 1] >= LastActivity(w, polls[k]) ==> ActiveLimit(l, w, polls[k - 1]) <= most
    ensures polls[k] <= LastActivity(w, polls[k]) + most + PollEvery(l) + drift
  {
    hide PollEvery, ActiveLimit, LastActivity, IsWorld;
    PollsInOrder(l, w, polls, drift, k, k);
    assert polls[k] <= PollStart(w, polls, k) + PollEvery(l) + drift;
    if k == 0 {
      FirstUpdate(w, polls[0]);
    } else {
      PollsInOrder(l, w, polls, drift, k - 1, k);
      var u := LastActivity(w, polls[k]);
      if polls[k - 1] >= u {
        QuietSince(w, u, polls[k - 1], polls[k]);
      }
    }
  }

  // A timed-out prompt was silent for its limit, and no poll could have said so much
  // earlier: the timeout is decided within a poll of `most`, the largest limit that
  // applied since the last update, and the error is back within the grace.
  lemma TimeoutWindow(l: Limits, w: World, polls: seq<Time>, drift: nat, most: nat)
    requires IsWorld(w) && IsPolling(l, w, polls, drift)
    requires Decide(l, w, polls, 0).TimedOut?
    requires var o := Decide(l, w, polls, 0);
             o.poll < |polls| &&
             forall j :: 0 <= j <= o.poll && polls[j] >= LastActivity(w, polls[o.poll]) ==>
                 ActiveLimit(l, w, polls[j]) <= most
    ensures var o := Decide(l, w, polls, 0);
            var u, at := LastActivity(w, polls[o.poll]), polls[o.poll];
            && u + o.limit <= at <= u + most + PollEvery(l) + drift
            && o.back <= u + most + PollEvery(l) + drift + Min(CANCEL_GRACE, o.limit)
            && (w.answer == Some(o.back) || u + o.limit + Min(CANCEL_GRACE, o.limit) <= o.back)
  {
    hide PollEvery, ActiveLimit, LastActivity, IsWorld, IsPolling;
    DecisionIs(l, w, polls, 0);
    DueBefore(l, w, polls, drift, Decide(l, w, polls, 0).poll, most);
  }

  // A prompt that is silent after u and never answered does time out, once a poll
  // ends at or after u plus the limit that applies then.
  lemma SilenceTimesOut(l: Limits, w: World, polls: seq<Time>, drift: nat, u: Time, k: nat)
    requires IsWorld(w) && IsPolling(l, w, polls, drift) && w.answer.None?
    requires k < |polls| && LastActivity(w, polls[k]) == u && polls[k] >= u + ActiveLimit(l, w, polls[k])
    ensures Decide(l, w, polls, 0).TimedOut? && Decide(l, w, polls, 0).poll <= k
  {
    DecisionIs(l, w, polls, 0);
    assert Expires(l, w, polls[k]);
  }

  // ----- The coded limits -----

  // A poll goes round again with no wait exactly when the prompt timeout is zero and a
  // tool is open below its own limit: the interval takes the unclamped prompt timeout,
  // and the comparison the limit of the open tool.
  lemma RoundAtOnceIff(promptTimeout: Option<nat>, openToolTimeout: Option<nat>, w: World, at: Time)
    requires IsWorld(w) && w.updates[0] <= at
    ensures var l := LimitsOf(promptTimeout, openToolTimeout);
            PollEvery(l) == 0 && !Answered(w, at) && !Expires(l, w, at) <==>
            && promptTimeout == Some(0) && openToolTimeout.Some? && w.toolOpen(at) && !Answered(w, at)
            && at < LastActivity(w, at) + Max(Min(openToolTimeout.value, MAX_OPEN_TOOL_TIMEOUT), 1)
  {
    LastIs(w.updates, |w.updates|, at);
  }

  // With no tool open, or no limit for one, a prompt timeout of zero is decided by the
  // first poll.
  lemma ZeroTimeoutDecides(openToolTimeout: Option<nat>, w: World, polls: seq<Time>)
    requires IsWorld(w) && polls != [] && w.updates[0] <= polls[0]
    requires openToolTimeout.None? || !w.toolOpen(polls[0])
    ensures var o := Decide(LimitsOf(Some(0), openToolTimeout), w, polls, 0);
            !o.StillWaiting? && o.poll == 0
  {
    RoundAtOnceIff(Some(0), openToolTimeout, w, polls[0]);
  }

  // A prompt that is never answered, with a tool open from its start.
  ghost function BusyWorld(): World {
    World([0], _ => true, None)
  }

  // There the polls go round at once for any number of times.
  lemma {:induction false} BusyPromptSpins(n: nat, i: nat)
    requires i <= n
    ensures var l, polls := LimitsOf(Some(0), Some(1000)), seq(n, _ => 0);
            && IsWorld(BusyWorld()) && IsPolling(l, BusyWorld(), polls, 0)
            && Decide(l, BusyWorld(), polls, i) == StillWaiting
    decreases n - i
  {
    if i < n {
      BusyPromptSpins(n, i + 1);
    }
  }

  // A prompt that times out is back within the longest of its limits, one poll and the
  // grace after its last update; so within the longer of its timeout and seven days.
  lemma LongestSilence(promptTimeout: Option<nat>, openToolTimeout: Option<nat>, w: World, polls: seq<Time>,
                       drift: nat)
    requires IsWorld(w) && IsPolling(LimitsOf(promptTimeout, openToolTimeout), w, polls, drift)
    requires Decide(LimitsOf(promptTimeout, openToolTimeout), w, polls, 0).TimedOut?
    ensures var l := LimitsOf(promptTimeout, openToolTimeout);
            var o := Decide(l, w, polls, 0);
            && o.poll < |polls|
            && o.back <= LastActivity(w, polls[o.poll]) + Max(l.idle, l.openTool.GetOr(0))
                         + PollEvery(l) + drift + Min(CANCEL_GRACE, o.limit)
            && o.back <= LastActivity(w, polls[o.poll])
                         + Max(promptTimeout.GetOr(DEFAULT_PROMPT_TIMEOUT), MAX_OPEN_TOOL_TIMEOUT)
                         + POLL_INTERVAL + drift + CANCEL_GRACE
  {
    hide IsPolling, IsWorld, LastActivity, Decide;
    var l := LimitsOf(promptTimeout, openToolTimeout);
    DecisionIs(l, w, polls, 0);
    TimeoutWindow(l, w, polls, drift, Max(l.idle, l.openTool.GetOr(0)));
  }
}
