/**
 The turn driver (`run_turn_acp`): the drain loop with its stuck-turn watchdog,
 the wait for the result, and the events that end the turn.

 A run of the drain loop is the sequence of branches its `select!` takes, each at
 its time. The deadline branch may be taken up to `drift` late; no other branch
 is taken later than that.
 */
module TurnWatchdog {
  import opened Wrappers

  type Time = nat

  datatype Wake =
    | Cancelled(at: Time)
    | Deadline(at: Time)
    | Update(at: Time, event: Option<string>)   // the normalized event, if the update has one
    | Closed(at: Time)                          // the update stream ended

  // `idle` and `grace` are the watchdog's two bounds; `toolOpen` is `has_open_tools`.
  datatype Turn = Turn(start: Time, idle: nat, grace: nat, toolOpen: Time -> bool)

  // ----- The drain loop -----

  // The deadline after the first n wakes, none of which ended the loop.
  function DeadlineAt(t: Turn, wakes: seq<Wake>, n: nat): Time
    requires n <= |wakes|
  {
    if n == 0 then t.start + t.idle
    else if wakes[n - 1].Update? || wakes[n - 1].Deadline? then wakes[n - 1].at + t.idle
    else DeadlineAt(t, wakes, n - 1)
  }

  // The wake ends the loop.
  predicate Ends(t: Turn, wake: Wake) {
    match wake
    case Update(_, _) => false
    case Deadline(at) => !t.toolOpen(at)
    case _ => true
  }

  // The first wake from n on that ends the loop, or the length.
  function EndOf(t: Turn, wakes: seq<Wake>, n: nat): (k: nat)
    requires n <= |wakes|
    ensures n <= k <= |wakes|
    ensures forall i :: n <= i < k ==> !Ends(t, wakes[i])
    ensures k < |wakes| ==> Ends(t, wakes[k])
    decreases |wakes| - n
  {
    if n == |wakes| || Ends(t, wakes[n]) then n else EndOf(t, wakes, n + 1)
  }

  function Streamed(wakes: seq<Wake>, n: nat): seq<string>
    requires n <= |wakes|
  {
    if n == 0 then []
    else Streamed(wakes, n - 1)
         + if wakes[n - 1].Update? && wakes[n - 1].event.Some? then [wakes[n - 1].event.value] else []
  }

  // Wake i comes after the one before it, and the deadline does not wait for it.
  ghost predicate IsWake(t: Turn, wakes: seq<Wake>, drift: nat, i: nat)
    requires i < |wakes|
  {
    && (if i == 0 then t.start else wakes[i - 1].at) <= wakes[i].at
    && wakes[i].at <= DeadlineAt(t, wakes, i) + drift
    && (wakes[i].Deadline? ==> DeadlineAt(t, wakes, i) <= wakes[i].at)
  }

  ghost predicate IsRun(t: Turn, wakes: seq<Wake>, drift: nat) {
    forall i :: 0 <= i < |wakes| ==> IsWake(t, wakes, drift, i)
  }

  // ----- The end of the turn -----

  datatype StopReason = EndTurn | Refusal | StopCancelled | OtherStop

  // What the result channel delivers: an outcome, an error, or nothing (dropped).
  datatype Answer = Outcome(reason: StopReason, usage: Option<nat>) | Failure(text: string) | Dropped

  datatype Output =
    | Streaming(event: string)
    | UsageEvent(usage: nat)
    | ResultEvent(resultUsage: Option<nat>)
    | ErrorEvent(text: string)

  // `answer` and `at` are the result channel; `late` says whether the turn has been
  // cancelled by the time it fails.
  datatype Ending = Ending(answer: Answer, at: Time, late: bool, refusalIsError: bool)

  function Outcomes(reason: StopReason, usage: Option<nat>, refusalIsError: bool): seq<Output> {
    (if usage.Some? then [UsageEvent(usage.value)] else [])
    + [ResultEvent(usage)]
    + if refusalIsError && reason == Refusal then [ErrorEvent("turn refused")] else []
  }

  // The events after the drain loop and the time the turn is over.
  function Terminal(t: Turn, wake: Wake, e: Ending): (seq<Output>, Time)
    requires !wake.Update?
  {
    match wake
    case Cancelled(at) => ([], at)
    case Deadline(at) =>
      if e.answer.Outcome? && e.at <= at + t.grace then
        (Outcomes(e.answer.reason, e.answer.usage, e.refusalIsError), Max(at, e.at))
      else
        (Outcomes(StopCancelled, None, e.refusalIsError), if e.at <= at + t.grace then Max(at, e.at) else at + t.grace)
    case Closed(at) =>
      (match e.answer
       case Outcome(reason, usage) => Outcomes(reason, usage, e.refusalIsError)
       case Failure(text) => if e.late then [] else [ErrorEvent(text)]
       case Dropped => if e.late then [] else [ErrorEvent("ACP turn ended without a result")],
       Max(at, e.at))
  }

  function AsOutput(events: seq<string>): seq<Output> {
    seq(|events|, i requires 0 <= i < |events| => Streaming(events[i]))
  }

  // ----- The shape of the end -----

  // One error, or one result, with the usage event before it when it has usage and
  // at most the refusal after it.
  ghost predicate TerminalShape(closing: seq<Output>) {
    || (|closing| == 1 && closing[0].ErrorEvent?)
    || (exists n :: 0 <= n <= 1 && n < |closing| && |closing| <= n + 2
                    && closing[n].ResultEvent?
                    && (n == 1 <==> closing[n].resultUsage.Some?)
                    && (n == 1 ==> closing[0] == UsageEvent(closing[n].resultUsage.value))
                    && (|closing| == n + 2 ==> closing[n + 1] == ErrorEvent("turn refused")))
  }

  // What may follow the streamed events: nothing exactly when the turn was cancelled,
  // or failed after a cancel; one error exactly when it failed without one.
  ghost predicate EndsInShape(wake: Wake, e: Ending, closing: seq<Output>) {
    && (closing == [] <==> wake.Cancelled? || (wake.Closed? && !e.answer.Outcome? && e.late))
    && ((|closing| == 1 && closing[0].ErrorEvent?) <==> wake.Closed? && !e.answer.Outcome? && !e.late)
    && (closing == [] || TerminalShape(closing))
  }

  // The answer came while the turn waited for it.
  predicate InTime(t: Turn, wake: Wake, e: Ending) {
    e.answer.Outcome? && (wake.Closed? || (wake.Deadline? && e.at <= wake.at + t.grace))
  }

  // What the closing events tell of the answer: its usage and its refusal when it came
  // in time, its text when it failed, and nothing of it otherwise.
  ghost predicate TellsAnswer(t: Turn, wake: Wake, e: Ending, closing: seq<Output>) {
    && (InTime(t, wake, e) ==>
          && (forall u :: ResultEvent(u) in closing <==> u == e.answer.usage)
          && (forall u: nat :: UsageEvent(u) in closing <==> e.answer.usage == Some(u))
          && closing != []
          && (closing[|closing| - 1] == ErrorEvent("turn refused") <==> e.refusalIsError && e.answer.reason == Refusal))
    && (wake.Deadline? && !InTime(t, wake, e) ==> closing == [ResultEvent(None)])
    && (wake.Closed? && e.answer.Failure? && !e.late ==> closing == [ErrorEvent(e.answer.text)])
    && (wake.Closed? && e.answer.Dropped? && !e.late ==> closing == [ErrorEvent("ACP turn ended without a result")])
  }

  // The turn is over when it is cancelled, or when the answer is there; a fired
  // watchdog waits for the answer no longer than the grace.
  ghost predicate OverAt(t: Turn, wake: Wake, e: Ending, at: Time) {
    match wake
    case Cancelled(cancelled) => at == cancelled
    case Deadline(fired) => at == Min(Max(fired, e.at), fired + t.grace)
    case Closed(closed) => at == Max(closed, e.at)
    case Update(_, _) => false
  }

  lemma OutcomesTell(reason: StopReason, usage: Option<nat>, refusalIsError: bool)
    ensures var closing := Outcomes(reason, usage, refusalIsError);
            && (forall u :: ResultEvent(u) in closing <==> u == usage)
            && (forall u: nat :: UsageEvent(u) in closing <==> usage == Some(u))
            && closing != []
            && (closing[|closing| - 1] == ErrorEvent("turn refused") <==> refusalIsError && reason == Refusal)
  {
    var closing := Outcomes(reason, usage, refusalIsError);
    assert closing[if usage.Some? then 1 else 0] == ResultEvent(usage);
    assert usage.Some? ==> closing[0] == UsageEvent(usage.value);
  }

  lemma TurnTellsAnswer(t: Turn, wake: Wake, e: Ending)
    requires !wake.Update?
    ensures TellsAnswer(t, wake, e, Terminal(t, wake, e).0) && OverAt(t, wake, e, Terminal(t, wake, e).1)
  {
    hide Outcomes;
    if e.answer.Outcome? {
      OutcomesTell(e.answer.reason, e.answer.usage, e.refusalIsError);
    }
    assert Outcomes(StopCancelled, None, e.refusalIsError) == [ResultEvent(None)] by {
      NothingToTell(e.refusalIsError);
    }
  }

  lemma NothingToTell(refusalIsError: bool)
    ensures Outcomes(StopCancelled, None, refusalIsError) == [ResultEvent(None)]
  {
  }

  lemma OutcomesShape(reason: StopReason, usage: Option<nat>, refusalIsError: bool)
    ensures TerminalShape(Outcomes(reason, usage, refusalIsError))
    ensures Outcomes(reason, usage, refusalIsError) != [] && !Outcomes(reason, usage, refusalIsError)[0].ErrorEvent?
    ensures ErrorEvent("turn refused") in Outcomes(reason, usage, refusalIsError) <==>
            refusalIsError && reason == Refusal
  {
    var n := if usage.Some? then 1 else 0;
    assert Outcomes(reason, usage, refusalIsError)[n] == ResultEvent(usage);
    if refusalIsError && reason == Refusal {
      assert Outcomes(reason, usage, refusalIsError)[n + 1] == ErrorEvent("turn refused");
    }
  }

  lemma TurnEndsInShape(t: Turn, wake: Wake, e: Ending)
    requires !wake.Update?
    ensures EndsInShape(wake, e, Terminal(t, wake, e).0)
  {
    hide Outcomes;
    match wake {
      case Cancelled(at) =>
      case Deadline(at) =>
        OutcomesShape(StopCancelled, None, e.refusalIsError);
        if e.answer.Outcome? {
          OutcomesShape(e.answer.reason, e.answer.usage, e.refusalIsError);
        }
      case Closed(at) =>
        match e.answer {
          case Outcome(reason, usage) => OutcomesShape(reason, usage, e.refusalIsError);
          case Failure(text) => assert TerminalShape([ErrorEvent(text)]);
          case Dropped => assert TerminalShape([ErrorEvent("ACP turn ended without a result")]);
        }
    }
  }

  // ----- What is streamed -----

  predicate HasEvent(wake: Wake) {
    wake.Update? && wake.event.Some?
  }

  // The number of updates with an event among the first n wakes.
  function EventCount(wakes: seq<Wake>, n: nat): nat
    requires n <= |wakes|
  {
    if n == 0 then 0 else EventCount(wakes, n - 1) + if HasEvent(wakes[n - 1]) then 1 else 0
  }

  // The events of the first n wakes, each in its place, and nothing else.
  ghost predicate StreamsAll(wakes: seq<Wake>, n: nat, out: seq<Output>)
    requires n <= |wakes|
  {
    && |out| == EventCount(wakes, n)
    && forall i :: 0 <= i < n && HasEvent(wakes[i]) ==>
         EventCount(wakes, i) < |out| && out[EventCount(wakes, i)] == Streaming(wakes[i].event.value)
  }

  lemma {:induction false} StreamedIsAll(wakes: seq<Wake>, n: nat)
    requires n <= |wakes|
    ensures StreamsAll(wakes, n, AsOutput(Streamed(wakes, n)))
  {
    if n > 0 {
      StreamedIsAll(wakes, n - 1);
      forall i | 0 <= i < n && HasEvent(wakes[i])
        ensures EventCount(wakes, i) < |Streamed(wakes, n)|
                && Streamed(wakes, n)[EventCount(wakes, i)] == wakes[i].event.value
      {
        if i < n - 1 {
          assert AsOutput(Streamed(wakes, n - 1))[EventCount(wakes, i)] == Streaming(wakes[i].event.value);
        }
      }
    }
  }

  // ----- The program -----

  method Drain(t: Turn, wakes: seq<Wake>) returns (out: seq<Output>, k: nat)
    ensures k == EndOf(t, wakes, 0) && out == AsOutput(Streamed(wakes, k)) && StreamsAll(wakes, k, out)
  {
    hide StreamsAll;
    forall n: nat | n <= |wakes| ensures StreamsAll(wakes, n, AsOutput(Streamed(wakes, n))) {
      StreamedIsAll(wakes, n);
    }
    out, k := [], 0;
    var deadline := t.start + t.idle;
    while k < |wakes|
      invariant 0 <= k <= |wakes| && EndOf(t, wakes, k) == EndOf(t, wakes, 0)
      invariant deadline == DeadlineAt(t, wakes, k)
      invariant out == AsOutput(Streamed(wakes, k))
    {
      match wakes[k] {
        case Cancelled(_) => return;
        case Deadline(at) =>
          if !t.toolOpen(at) {
            return;
          }
          deadline := at + t.idle;
        case Update(at, event) =>
          deadline := at + t.idle;
          if event.Some? {
            out := out + [Streaming(event.value)];
          }
        case Closed(_) => return;
      }
      k := k + 1;
    }
  }

  method EmitOutcome(reason: StopReason, usage: Option<nat>, refusalIsError: bool) returns (closing: seq<Output>)
    ensures closing == Outcomes(reason, usage, refusalIsError)
    ensures TerminalShape(closing) && !closing[0].ErrorEvent?
    ensures ErrorEvent("turn refused") in closing <==> refusalIsError && reason == Refusal
  {
    OutcomesShape(reason, usage, refusalIsError);
    closing := [];
    if usage.Some? {
      closing := closing + [UsageEvent(usage.value)];
    }
    closing := closing + [ResultEvent(usage)];
    if refusalIsError && reason == Refusal {
      closing := closing + [ErrorEvent("turn refused")];
    }
  }

  method RunTurn(t: Turn, wakes: seq<Wake>, e: Ending) returns (out: seq<Output>, over: Option<Time>)
    ensures var k := EndOf(t, wakes, 0);
            && (k == |wakes| ==> over == None && out == AsOutput(Streamed(wakes, k)))
            && (k < |wakes| ==>
                  over == Some(Terminal(t, wakes[k], e).1)
                  && out == AsOutput(Streamed(wakes, k)) + Terminal(t, wakes[k], e).0
                  && EndsInShape(wakes[k], e, out[|Streamed(wakes, k)|..])
                  && TellsAnswer(t, wakes[k], e, out[|Streamed(wakes, k)|..])
                  && OverAt(t, wakes[k], e, over.value))
  {
    hide EndsInShape, Outcomes, TellsAnswer, OverAt;
    var k;
    out, k := Drain(t, wakes);
    if k == |wakes| {
      return out, None;
    }
    ghost var streamed := out;
    ghost var terminal := Terminal(t, wakes[k], e).0;
    TurnEndsInShape(t, wakes[k], e);
    TurnTellsAnswer(t, wakes[k], e);
    assert (streamed + terminal)[|streamed|..] == terminal;
    var reason, usage := StopCancelled, None;
    over := None;
    match wakes[k] {
      case Cancelled(at) =>
        assert out + [] == out;
        return out, Some(at);
      case Deadline(at) =>
        over := Some(if e.at <= at + t.grace then Max(at, e.at) else at + t.grace);
        if e.answer.Outcome? && e.at <= at + t.grace {
          reason, usage := e.answer.reason, e.answer.usage;
        }
      case Update(_, _) => assert false;
      case Closed(at) =>
        over := Some(Max(at, e.at));
        match e.answer {
          case Outcome(r, u) => reason, usage := r, u;
          case Failure(text) =>
            out := out + if e.late then [] else [ErrorEvent(text)];
            return;
          case Dropped =>
            out := out + if e.late then [] else [ErrorEvent("ACP turn ended without a result")];
            return;
        }
    }
    var closing := EmitOutcome(reason, usage, e.refusalIsError);
    out := out + closing;
  }

  // ----- When the watchdog fires -----

  // The time of the last update among the first n wakes, or the start.
  function LastUpdate(t: Turn, wakes: seq<Wake>, n: nat): Time
    requires n <= |wakes|
  {
    if n == 0 then t.start
    else if wakes[n - 1].Update? then wakes[n - 1].at
    else LastUpdate(t, wakes, n - 1)
  }

  // Where the loop stands after n wakes: the deadline was last moved by an update or
  // by an expiry that found a tool open, not before the last update.
  ghost predicate Armed(t: Turn, wakes: seq<Wake>, n: nat)
    requires n <= |wakes|
  {
    var r, u := DeadlineAt(t, wakes, n) - t.idle, LastUpdate(t, wakes, n);
    && u <= r <= (if n == 0 then t.start else wakes[n - 1].at)
    && (r == u || t.toolOpen(r))
  }

  lemma ArmedStep(t: Turn, wakes: seq<Wake>, drift: nat, n: nat)
    requires n < |wakes| && IsWake(t, wakes, drift, n) && !Ends(t, wakes[n]) && Armed(t, wakes, n)
    ensures Armed(t, wakes, n + 1)
  {
  }

  lemma {:induction false} Rearmed(t: Turn, wakes: seq<Wake>, drift: nat, n: nat)
    requires IsRun(t, wakes, drift) && n <= |wakes| && forall i :: 0 <= i < n ==> !Ends(t, wakes[i])
    ensures Armed(t, wakes, n)
  {
    hide IsWake, Ends;
    if n > 0 {
      Rearmed(t, wakes, drift, n - 1);
      ArmedStep(t, wakes, drift, n - 1);
    }
  }

  // Main result. When the watchdog ends the turn at f, no update came for the idle
  // window and no tool is open; and if no tool was open from c on, it is no later
  // than one window after the later of the last update and c.
  lemma WatchdogWindow(t: Turn, wakes: seq<Wake>, drift: nat, c: Time)
    requires IsRun(t, wakes, drift)
    requires var k := EndOf(t, wakes, 0); k < |wakes| && wakes[k].Deadline?
    requires forall x :: c <= x <= wakes[EndOf(t, wakes, 0)].at ==> !t.toolOpen(x)
    ensures var k := EndOf(t, wakes, 0);
            var f, u := wakes[k].at, LastUpdate(t, wakes, k);
            && !t.toolOpen(f)
            && u + t.idle <= f <= Max(u, c) + t.idle + drift
  {
    var k := EndOf(t, wakes, 0);
    Rearmed(t, wakes, drift, k);
    assert IsWake(t, wakes, drift, k);
  }

  // It cannot stay away: while the turn is quiet its pending deadline is at most one
  // window after the later of the last update and c, and no wake comes after it.
  lemma WatchdogIsDue(t: Turn, wakes: seq<Wake>, drift: nat, c: Time)
    requires IsRun(t, wakes, drift) && EndOf(t, wakes, 0) == |wakes|
    requires forall x :: c <= x <= (if wakes == [] then t.start else wakes[|wakes| - 1].at) ==> !t.toolOpen(x)
    ensures DeadlineAt(t, wakes, |wakes|) <= Max(LastUpdate(t, wakes, |wakes|), c) + t.idle
  {
    Rearmed(t, wakes, drift, |wakes|);
  }

  // The next time the deadline expires with no tool open, the turn is over within
  // the cancel grace.
  lemma FiredTurnCloses(t: Turn, wakes: seq<Wake>, e: Ending)
    requires var k := EndOf(t, wakes, 0); k < |wakes| && wakes[k].Deadline?
    ensures var k := EndOf(t, wakes, 0);
            var (closing, over) := Terminal(t, wakes[k], e);
            && wakes[k].at <= over <= wakes[k].at + t.grace
            && closing != [] && exists u :: ResultEvent(u) in closing
  {
    var k := EndOf(t, wakes, 0);
    var usage := if e.answer.Outcome? && e.at <= wakes[k].at + t.grace then e.answer.usage else None;
    assert ResultEvent(usage) in Terminal(t, wakes[k], e).0;
  }
}
