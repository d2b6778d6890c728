/**
 Overlapping prompt turns on one ACP connection: every interleaving of callers
 that install their sink and send a prompt, the actor that spawns it, the bounded
 wait for the prompt gate, the request, its release, notifications, and disposal
 or loss of the connection at any point.

 Each step is one locked region of the program. Steps may stop happening at any
 time (a task that is dropped takes no further steps).
 */
module AcpTurns {
  import opened Wrappers
  import opened AcpShared
  import IdleTimeout

  // PROMPT_GATE_WAIT, in milliseconds.
  const GATE_WAIT: nat := 15_000

  datatype Phase =
    | Checked     // saw the connection alive
    | Installed   // its sink is installed
    | Queued      // its command is sent
    | Waiting     // for the prompt gate
    | Ready       // past the gate
    | Cleared     // has cleared the open tools
    | InFlight    // waits for the answer to its request
    | Unwinding   // has the answer, or has given up on it
    | Closing     // has released its sink
    | Done

  // `atAgent`: the agent has the prompt and has not answered it. `abandoned`: the
  // idle timeout gave up on the answer.
  datatype Turn = Turn(phase: Phase, gated: bool, since: Time, waited: nat, atAgent: bool, abandoned: bool)

  datatype Place = AtSink(turn: nat) | OutOfBand

  // One delivered update, and the turn installed last when it was delivered.
  datatype Delivery = Delivery(id: nat, place: Place, newest: Option<nat>)

  datatype Net = Net(
    now: Time,
    shared: State,
    turns: map<nat, Turn>,
    newest: Option<nat>,          // the turn installed last
    open: bool,                   // the command channel
    queue: seq<nat>,              // commands sent and not yet taken
    gate: Option<nat>,
    waiters: seq<nat>,            // FIFO
    nextUpdate: nat,
    unrouted: map<nat, string>,   // updates that found no sink, with their session
    log: seq<Delivery>)

  const INIT: Net :=
    Net(0, State(None, false, None, false, 0, {}), map[], None, true, [], None, [], 0, map[], [])

  datatype Step =
    | Tick(ms: nat)
    | Begin(turn: nat)
    | Install(turn: nat)
    | Send(turn: nat)
    | Spawn(ok: bool)
    | Acquire
    | GiveUp(turn: nat)
    | Clear(turn: nat)
    | Request(turn: nat)
    | Finish(turn: nat)
    | Abandon(turn: nat)          // the timeout's grace passed without an answer
    | AnswerLate(turn: nat)
    | Release(turn: nat)
    | DropGate(turn: nat)
    | Notify(session: string, update: Update)
    | NotifyRest(id: nat)
    | AttachOutOfBand(on: bool)
    | SetSession(name: string)
    | ForgetTools                 // after session/new and session/load
    | MarkDisposed
    | CloseChannel
    | TakeSink                    // by disposal, or after the connection is lost
    | DetachOutOfBand

  predicate At(s: Net, t: nat, p: Phase) {
    t in s.turns && s.turns[t].phase == p
  }

  function Move(s: Net, t: nat, p: Phase): Net
    requires t in s.turns
  {
    s.(turns := s.turns[t := s.turns[t].(phase := p)])
  }

  function Without(q: seq<nat>, t: nat): seq<nat> {
    if q == [] then [] else (if q[0] == t then [] else [q[0]]) + Without(q[1..], t)
  }

  predicate Enabled(s: Net, step: Step) {
    match step
    case Begin(t) => t !in s.turns
    case Install(t) => At(s, t, Checked)
    case Send(t) => At(s, t, Installed)
    case Spawn(_) => s.open && s.queue != [] && At(s, s.queue[0], Queued)
    case Acquire => s.gate.None? && s.waiters != [] && At(s, s.waiters[0], Waiting)
    case GiveUp(t) => At(s, t, Waiting) && s.now >= s.turns[t].since + GATE_WAIT
    case Clear(t) => At(s, t, Ready)
    case Request(t) => At(s, t, Cleared)
    case Finish(t) => At(s, t, InFlight)
    case Abandon(t) => At(s, t, InFlight)
    case AnswerLate(t) => t in s.turns && s.turns[t].abandoned
    case Release(t) => At(s, t, Unwinding)
    case DropGate(t) => At(s, t, Closing)
    case NotifyRest(id) => id in s.unrouted
    case TakeSink => s.shared.disposed || !s.open
    case _ => true
  }

  function Next(s: Net, step: Step): Net
    requires Enabled(s, step)
  {
    match step
    case Tick(ms) => s.(now := s.now + ms)
    case Begin(t) =>
      s.(turns := s.turns[t := Turn(if s.shared.disposed then Done else Checked, false, 0, 0, false, false)])
    case Install(t) =>
      Move(s, t, Installed).(shared := s.shared.(sink := Some(t)), newest := Some(t))
    case Send(t) =>
      if s.open then Move(s, t, Queued).(queue := s.queue + [t])
      else Move(s, t, Done).(shared := s.shared.(sink := None))
    case Spawn(ok) =>
      var t := s.queue[0];
      var s := s.(queue := s.queue[1..]);
      if ok then s.(turns := s.turns[t := s.turns[t].(phase := Waiting, since := s.now)], waiters := s.waiters + [t])
      else Move(s, t, Done).(shared := Released(s.shared, t))
    case Acquire =>
      var t := s.waiters[0];
      s.(turns := s.turns[t := s.turns[t].(phase := Ready, gated := true)], gate := Some(t), waiters := s.waiters[1..])
    case GiveUp(t) =>
      s.(turns := s.turns[t := s.turns[t].(phase := Ready, waited := s.now - s.turns[t].since)],
         waiters := Without(s.waiters, t))
    case Clear(t) => Move(s, t, Cleared).(shared := s.shared.(tools := {}))
    case Request(t) =>
      s.(turns := s.turns[t := s.turns[t].(phase := InFlight, atAgent := true)],
         shared := s.shared.(lastActivity := s.now))
    case Finish(t) => s.(turns := s.turns[t := s.turns[t].(phase := Unwinding, atAgent := false)])
    case Abandon(t) => s.(turns := s.turns[t := s.turns[t].(phase := Unwinding, abandoned := true)])
    case AnswerLate(t) => s.(turns := s.turns[t := s.turns[t].(atAgent := false)])
    case Release(t) => Move(s, t, Closing).(shared := Released(s.shared, t))
    case DropGate(t) => Move(s, t, Done).(gate := if s.turns[t].gated then None else s.gate)
    case Notify(session, u) =>
      var n := s.nextUpdate;
      var s := s.(nextUpdate := n + 1);
      if s.shared.sink.Some? then
        s.(shared := Routed(s.shared, s.now, session, u),
           log := s.log + [Delivery(n, AtSink(s.shared.sink.value), s.newest)])
      else s.(unrouted := s.unrouted[n := session])
    case NotifyRest(id) =>
      var s' := s.(unrouted := s.unrouted - {id});
      if GoesOutOfBand(s.shared, s.unrouted[id]) then
        s'.(log := s.log + [Delivery(id, OutOfBand, s.newest)])
      else s'
    case AttachOutOfBand(on) => s.(shared := s.shared.(outOfBand := on))
    case SetSession(name) => s.(shared := s.shared.(session := Some(name)))
    case ForgetTools => s.(shared := s.shared.(tools := {}))
    case MarkDisposed => s.(shared := s.shared.(disposed := true))
    case CloseChannel => s.(open := false)
    case TakeSink => s.(shared := s.shared.(sink := None))
    case DetachOutOfBand => s.(shared := s.shared.(outOfBand := false))
  }

  ghost predicate IsRun(s: Net, steps: seq<Step>)
    decreases |steps|
  {
    steps == [] || (Enabled(s, steps[0]) && IsRun(Next(s, steps[0]), steps[1..]))
  }

  ghost function End(s: Net, steps: seq<Step>): Net
    requires IsRun(s, steps)
    decreases |steps|
  {
    if steps == [] then s else End(Next(s, steps[0]), steps[1..])
  }

  // ----- Sink ownership -----

  // From installing its sink until releasing it.
  predicate OwnsSink(p: Phase) {
    p == Installed || p == Queued || p == Waiting || p == Ready || p == Cleared || p == InFlight || p == Unwinding
  }

  predicate Usable(s: Net) {
    s.open && !s.shared.disposed
  }

  // While the connection is usable the sink is that of the turn installed last,
  // from the moment it is installed to the moment it is released, and nobody's else.
  ghost predicate SinkOwned(s: Net) {
    && (s.newest.Some? ==> s.newest.value in s.turns && s.turns[s.newest.value].phase != Checked)
    && (s.shared.sink.Some? ==> s.shared.sink == s.newest)
    && (Usable(s) ==>
          (s.shared.sink.Some? <==> s.newest.Some? && OwnsSink(s.turns[s.newest.value].phase)))
    && (Usable(s) && s.shared.tools != {} ==> s.shared.sink.Some?)
  }

  lemma SinkOwnedMoved(s: Net, t: nat, turn: Turn)
    requires SinkOwned(s) && t in s.turns && (s.newest == Some(t) ==>
             OwnsSink(turn.phase) == OwnsSink(s.turns[t].phase))
    requires s.newest == Some(t) ==> turn.phase != Checked
    ensures SinkOwned(s.(turns := s.turns[t := turn]))
  {
  }

  predicate IsTurnStep(step: Step) {
    step.Begin? || step.Install? || step.Send? || step.Spawn? || step.Acquire? || step.GiveUp? || step.Clear?
    || step.Request? || step.Finish? || step.Abandon? || step.AnswerLate? || step.Release? || step.DropGate?
  }

  lemma SinkOwnedByOthers(s: Net, step: Step)
    requires SinkOwned(s) && Enabled(s, step) && !IsTurnStep(step)
    ensures SinkOwned(Next(s, step))
  {
  }

  // The step only moves a turn that owns or does not own its sink as before.
  predicate OnlyMoves(step: Step) {
    step.Acquire? || step.GiveUp? || step.Clear? || step.Request? || step.Finish? || step.Abandon?
    || step.AnswerLate? || step.DropGate?
  }

  lemma SinkOwnedByTurns(s: Net, step: Step)
    requires SinkOwned(s) && Enabled(s, step) && IsTurnStep(step) && !OnlyMoves(step)
    ensures SinkOwned(Next(s, step))
  {
  }

  lemma SinkOwnedByMoves(s: Net, step: Step)
    requires SinkOwned(s) && Enabled(s, step) && OnlyMoves(step)
    ensures SinkOwned(Next(s, step))
  {
    match step {
      case Acquire =>
        var t := s.waiters[0];
        SinkOwnedMoved(s, t, s.turns[t].(phase := Ready, gated := true));
      case GiveUp(t) =>
        SinkOwnedMoved(s, t, s.turns[t].(phase := Ready, waited := s.now - s.turns[t].since));
      case Clear(t) => SinkOwnedMoved(s, t, s.turns[t].(phase := Cleared));
      case Request(t) => SinkOwnedMoved(s, t, s.turns[t].(phase := InFlight, atAgent := true));
      case Finish(t) => SinkOwnedMoved(s, t, s.turns[t].(phase := Unwinding, atAgent := false));
      case Abandon(t) => SinkOwnedMoved(s, t, s.turns[t].(phase := Unwinding, abandoned := true));
      case AnswerLate(t) => SinkOwnedMoved(s, t, s.turns[t].(atAgent := false));
      case DropGate(t) => SinkOwnedMoved(s, t, s.turns[t].(phase := Done));
    }
  }

  lemma SinkOwnedStep(s: Net, step: Step)
    requires SinkOwned(s) && Enabled(s, step)
    ensures SinkOwned(Next(s, step))
  {
    hide SinkOwned, Next;
    if OnlyMoves(step) {
      SinkOwnedByMoves(s, step);
    } else if IsTurnStep(step) {
      SinkOwnedByTurns(s, step);
    } else {
      SinkOwnedByOthers(s, step);
    }
  }

  lemma {:induction false} SinkOwnedAlways(s: Net, steps: seq<Step>)
    requires SinkOwned(s) && IsRun(s, steps)
    ensures SinkOwned(End(s, steps))
    decreases |steps|
  {
    hide SinkOwned, Next;
    if steps != [] {
      SinkOwnedStep(s, steps[0]);
      SinkOwnedAlways(Next(s, steps[0]), steps[1..]);
    }
  }

  // In every reachable state: the sink is that of the turn installed last, exactly
  // while that turn runs; tools are open only under an installed sink.
  lemma SinkOwnership(steps: seq<Step>)
    requires IsRun(INIT, steps)
    ensures SinkOwned(End(INIT, steps))
  {
    SinkOwnedAlways(INIT, steps);
  }

  // A turn that is not the one installed last releases nothing.
  lemma StaleReleaseIsHarmless(steps: seq<Step>, t: nat)
    requires IsRun(INIT, steps) && End(INIT, steps).newest != Some(t)
    ensures Released(End(INIT, steps).shared, t) == End(INIT, steps).shared
  {
    SinkOwnership(steps);
  }

  lemma Prepend(s: Net, step: Step, rest: seq<Step>)
    requires Enabled(s, step) && IsRun(Next(s, step), rest)
    ensures IsRun(s, [step] + rest) && End(s, [step] + rest) == End(Next(s, step), rest)
  {
    hide Enabled, Next;
    assert ([step] + rest)[1..] == rest;
  }

  lemma {:induction false} Then(s: Net, steps: seq<Step>, step: Step)
    requires IsRun(s, steps) && Enabled(End(s, steps), step)
    ensures IsRun(s, steps + [step]) && End(s, steps + [step]) == Next(End(s, steps), step)
    decreases |steps|
  {
    hide Enabled, Next;
    if steps == [] {
      Prepend(s, step, []);
      assert steps + [step] == [step] + [];
    } else {
      Then(Next(s, steps[0]), steps[1..], step);
      Prepend(s, steps[0], steps[1..] + [step]);
      assert steps + [step] == [steps[0]] + (steps[1..] + [step]);
    }
  }

  // A prompt that passed the liveness check before disposal can still install its
  // sink after it: ownership is only claimed while the connection is usable.
  lemma SinkAfterDisposal()
    ensures var steps := [Begin(0), MarkDisposed, TakeSink, Install(0)];
            IsRun(INIT, steps) && End(INIT, steps).shared.disposed && End(INIT, steps).shared.sink == Some(0)
  {
    var a := Next(INIT, Begin(0));
    var b := Next(a, MarkDisposed);
    var c := Next(b, TakeSink);
    assert At(c, 0, Checked);
    Prepend(c, Install(0), []);
    Prepend(b, TakeSink, [Install(0)] + []);
    Prepend(a, MarkDisposed, [TakeSink] + ([Install(0)] + []));
    Prepend(INIT, Begin(0), [MarkDisposed] + ([TakeSink] + ([Install(0)] + [])));
    assert [Begin(0), MarkDisposed, TakeSink, Install(0)]
           == [Begin(0)] + ([MarkDisposed] + ([TakeSink] + ([Install(0)] + [])));
  }

  // The channel is closed, and a sink is only that of a late prompt on its way to
  // find this out.
  ghost predicate Deserted(s: Net) {
    !s.open && (s.shared.sink.Some? ==> s.shared.sink == s.newest && At(s, s.shared.sink.value, Installed))
  }

  lemma DesertedMoved(s: Net, t: nat, turn: Turn)
    requires Deserted(s) && !At(s, t, Installed)
    ensures Deserted(s.(turns := s.turns[t := turn]))
  {
  }

  lemma DesertedByTurns(s: Net, step: Step)
    requires Deserted(s) && Enabled(s, step) && IsTurnStep(step)
    ensures Deserted(Next(s, step))
  {
    var next := Next(s, step);
    match step {
      case Begin(t) => DesertedMoved(s, t, next.turns[t]);
      case Install(t) =>
      case Send(t) =>
      case Acquire => DesertedMoved(s, s.waiters[0], next.turns[s.waiters[0]]);
      case GiveUp(t) => DesertedMoved(s, t, next.turns[t]);
      case Clear(t) => DesertedMoved(s, t, next.turns[t]);
      case Request(t) => DesertedMoved(s, t, next.turns[t]);
      case Finish(t) => DesertedMoved(s, t, next.turns[t]);
      case Abandon(t) => DesertedMoved(s, t, next.turns[t]);
      case AnswerLate(t) =>
      case Release(t) => DesertedMoved(s, t, next.turns[t]);
      case DropGate(t) => DesertedMoved(s, t, next.turns[t]);
      case _ =>
    }
  }

  lemma DesertedByOthers(s: Net, step: Step)
    requires Deserted(s) && Enabled(s, step) && !IsTurnStep(step)
    ensures Deserted(Next(s, step))
  {
  }

  lemma {:induction false} DesertedAlways(s: Net, steps: seq<Step>)
    requires Deserted(s) && IsRun(s, steps)
    ensures Deserted(End(s, steps))
    decreases |steps|
  {
    hide Deserted, Next;
    if steps != [] {
      if IsTurnStep(steps[0]) {
        DesertedByTurns(s, steps[0]);
      } else {
        DesertedByOthers(s, steps[0]);
      }
      DesertedAlways(Next(s, steps[0]), steps[1..]);
    }
  }

  // Once the channel is closed and the sink taken, whatever came before and comes
  // after: a sink is that of the turn installed last, and only until that turn finds
  // the channel closed. When no turn is about to send there is none, and after the
  // send of any that is there is none.
  lemma SinkGoneAfterClose(before: seq<Step>, after: seq<Step>)
    requires IsRun(INIT, before) && !End(INIT, before).open
    requires IsRun(Next(End(INIT, before), TakeSink), after)
    ensures var taken := Next(End(INIT, before), TakeSink);
            var s := End(taken, after);
            && Deserted(s)
            && ((forall t :: !At(s, t, Installed)) ==> s.shared.sink == None)
            && (forall t :: At(s, t, Installed) ==>
                  IsRun(taken, after + [Send(t)]) && End(taken, after + [Send(t)]).shared.sink == None)
  {
    var taken := Next(End(INIT, before), TakeSink);
    DesertedAlways(taken, after);
    forall t | At(End(taken, after), t, Installed)
      ensures IsRun(taken, after + [Send(t)]) && End(taken, after + [Send(t)]).shared.sink == None
    {
      Then(taken, after, Send(t));
    }
  }

  // ----- Deliveries -----

  ghost predicate DeliveredOnce(s: Net) {
    && (forall i :: 0 <= i < |s.log| ==> s.log[i].id < s.nextUpdate && s.log[i].id !in s.unrouted)
    && (forall id :: id in s.unrouted ==> id < s.nextUpdate)
    && (forall i, j :: 0 <= i < j < |s.log| ==> s.log[i].id != s.log[j].id)
    && (forall i :: 0 <= i < |s.log| && s.log[i].place.AtSink? ==> s.log[i].newest == Some(s.log[i].place.turn))
  }

  lemma SameLogSameDeliveries(s: Net, next: Net)
    requires DeliveredOnce(s) && next.log == s.log && next.unrouted == s.unrouted && next.nextUpdate == s.nextUpdate
    ensures DeliveredOnce(next)
  {
  }

  // An update that finds a sink is new, and goes to the turn installed last.
  lemma DeliveredNow(s: Net, next: Net)
    requires DeliveredOnce(s) && s.shared.sink.Some? && s.shared.sink == s.newest
    requires next.nextUpdate == s.nextUpdate + 1 && next.unrouted == s.unrouted
    requires next.log == s.log + [Delivery(s.nextUpdate, AtSink(s.shared.sink.value), s.newest)]
    ensures DeliveredOnce(next)
  {
  }

  lemma SetAside(s: Net, session: string, next: Net)
    requires DeliveredOnce(s) && next.nextUpdate == s.nextUpdate + 1 && next.log == s.log
    requires next.unrouted == s.unrouted[s.nextUpdate := session]
    ensures DeliveredOnce(next)
  {
  }

  // An update that was set aside goes out of band, or nowhere.
  lemma DeliveredLater(s: Net, id: nat, next: Net)
    requires DeliveredOnce(s) && id in s.unrouted
    requires next.nextUpdate == s.nextUpdate && next.unrouted == s.unrouted - {id}
    requires next.log == s.log || next.log == s.log + [Delivery(id, OutOfBand, s.newest)]
    ensures DeliveredOnce(next)
  {
  }

  lemma DeliveredOnceStep(s: Net, step: Step)
    requires DeliveredOnce(s) && SinkOwned(s) && Enabled(s, step)
    ensures DeliveredOnce(Next(s, step))
  {
    hide DeliveredOnce, Released, Routed, GoesOutOfBand, Without;
    var next := Next(s, step);
    match step {
      case Notify(session, u) =>
        if s.shared.sink.Some? {
          DeliveredNow(s, next);
        } else {
          SetAside(s, session, next);
        }
      case NotifyRest(id) => DeliveredLater(s, id, next);
      case _ => SameLogSameDeliveries(s, next);
    }
  }

  lemma {:induction false} DeliveredOnceAlways(s: Net, steps: seq<Step>)
    requires DeliveredOnce(s) && SinkOwned(s) && IsRun(s, steps)
    ensures DeliveredOnce(End(s, steps))
    decreases |steps|
  {
    hide SinkOwned, DeliveredOnce, Next;
    if steps != [] {
      SinkOwnedStep(s, steps[0]);
      DeliveredOnceStep(s, steps[0]);
      DeliveredOnceAlways(Next(s, steps[0]), steps[1..]);
    }
  }

  // Each update reaches at most one place, and a prompt sink only as the sink of the
  // turn installed last.
  lemma OneDestination(steps: seq<Step>)
    requires IsRun(INIT, steps)
    ensures DeliveredOnce(End(INIT, steps))
  {
    DeliveredOnceAlways(INIT, steps);
  }

  // What the step delivers: an update under a sink, to that sink; one set aside, out
  // of band, when it names the current session and someone listens.
  function Delivers(s: Net, step: Step): seq<Delivery>
    requires Enabled(s, step)
  {
    match step
    case Notify(_, _) =>
      if s.shared.sink.Some? then [Delivery(s.nextUpdate, AtSink(s.shared.sink.value), s.newest)] else []
    case NotifyRest(id) =>
      if s.shared.outOfBand && s.shared.session == Some(s.unrouted[id]) then [Delivery(id, OutOfBand, s.newest)] else []
    case _ => []
  }

  ghost function AllDelivered(s: Net, steps: seq<Step>): seq<Delivery>
    requires IsRun(s, steps)
    decreases |steps|
  {
    if steps == [] then [] else Delivers(s, steps[0]) + AllDelivered(Next(s, steps[0]), steps[1..])
  }

  lemma LogStep(s: Net, step: Step)
    requires Enabled(s, step)
    ensures Next(s, step).log == s.log + Delivers(s, step)
  {
    hide Released, Routed, Without;
  }

  // No update that finds a sink is lost, none is delivered that should not be, and
  // deliveries come in the order of the steps.
  lemma {:induction false} NothingUndelivered(s: Net, steps: seq<Step>)
    requires IsRun(s, steps)
    ensures End(s, steps).log == s.log + AllDelivered(s, steps)
    decreases |steps|
  {
    hide Next, Enabled, Delivers;
    if steps != [] {
      LogStep(s, steps[0]);
      NothingUndelivered(Next(s, steps[0]), steps[1..]);
      assert (s.log + Delivers(s, steps[0])) + AllDelivered(Next(s, steps[0]), steps[1..])
             == s.log + (Delivers(s, steps[0]) + AllDelivered(Next(s, steps[0]), steps[1..]));
    }
  }

  // ----- The prompt gate -----

  // From leaving the gate wait to giving the gate back.
  predicate PastGate(p: Phase) {
    p == Ready || p == Cleared || p == InFlight || p == Unwinding || p == Closing
  }

  ghost predicate Gated(s: Net) {
    forall t :: t in s.turns ==>
      && (PastGate(s.turns[t].phase) && s.turns[t].gated ==> s.gate == Some(t))
      && (PastGate(s.turns[t].phase) && !s.turns[t].gated ==> s.turns[t].waited >= GATE_WAIT)
      && (!PastGate(s.turns[t].phase) && s.turns[t].phase != Done ==> !s.turns[t].gated)
  }

  lemma SameTurnsSameGate(s: Net, next: Net)
    requires Gated(s) && next.turns == s.turns && next.gate == s.gate
    ensures Gated(next)
  {
  }

  // A turn moves on, keeping its place before, at or after the gate.
  lemma GatedMoved(s: Net, t: nat, turn: Turn, next: Net)
    requires Gated(s) && t in s.turns && next.gate == s.gate && next.turns == s.turns[t := turn]
    requires turn.gated == s.turns[t].gated && turn.waited == s.turns[t].waited
    requires PastGate(turn.phase) == PastGate(s.turns[t].phase) || turn.phase == Done
    requires turn.phase != Done ==> s.turns[t].phase != Done
    ensures Gated(next)
  {
  }

  predicate IsGateStep(step: Step) {
    step.Begin? || step.Spawn? || step.Acquire? || step.GiveUp? || step.DropGate?
  }

  lemma GatedBegins(s: Net, t: nat, next: Net)
    requires Gated(s) && t !in s.turns && next.gate == s.gate
    requires exists turn: Turn :: next.turns == s.turns[t := turn] && !PastGate(turn.phase) && !turn.gated
    ensures Gated(next)
  {
  }

  lemma GatedSpawns(s: Net, t: nat, turn: Turn, next: Net)
    requires Gated(s) && At(s, t, Queued) && next.gate == s.gate && next.turns == s.turns[t := turn]
    requires (turn.phase == Waiting || turn.phase == Done) && turn.gated == s.turns[t].gated
    ensures Gated(next)
  {
  }

  lemma GatedAcquires(s: Net, t: nat, next: Net)
    requires Gated(s) && s.gate.None? && t in s.turns && next.gate == Some(t)
    requires next.turns == s.turns[t := s.turns[t].(phase := Ready, gated := true)]
    ensures Gated(next)
  {
  }

  lemma GatedGivesUp(s: Net, t: nat, next: Net)
    requires Gated(s) && t in s.turns && s.turns[t].phase == Waiting && next.gate == s.gate
    requires exists waited: nat :: waited >= GATE_WAIT
               && next.turns == s.turns[t := s.turns[t].(phase := Ready, waited := waited)]
    ensures Gated(next)
  {
  }

  lemma GatedDrops(s: Net, t: nat, next: Net)
    requires Gated(s) && At(s, t, Closing)
    requires next.turns == s.turns[t := s.turns[t].(phase := Done)]
    requires next.gate == if s.turns[t].gated then None else s.gate
    ensures Gated(next)
  {
  }

  lemma GatedAtGate(s: Net, step: Step)
    requires Gated(s) && Enabled(s, step) && IsGateStep(step)
    ensures Gated(Next(s, step))
  {
    hide Released, Gated;
    var next := Next(s, step);
    match step {
      case Begin(t) => GatedBegins(s, t, next);
      case Spawn(ok) => GatedSpawns(s, s.queue[0], next.turns[s.queue[0]], next);
      case Acquire => GatedAcquires(s, s.waiters[0], next);
      case GiveUp(t) => GatedGivesUp(s, t, next);
      case DropGate(t) => GatedDrops(s, t, next);
      case _ =>
    }
  }

  lemma GatedElsewhere(s: Net, step: Step)
    requires Gated(s) && Enabled(s, step) && !IsGateStep(step)
    ensures Gated(Next(s, step))
  {
    hide Gated, Released, Routed;
    var next := Next(s, step);
    match step {
      case Install(t) => GatedMoved(s, t, next.turns[t], next);
      case Send(t) => GatedMoved(s, t, next.turns[t], next);
      case Clear(t) => GatedMoved(s, t, next.turns[t], next);
      case Request(t) => GatedMoved(s, t, next.turns[t], next);
      case Finish(t) => GatedMoved(s, t, next.turns[t], next);
      case Abandon(t) => GatedMoved(s, t, next.turns[t], next);
      case AnswerLate(t) => GatedMoved(s, t, next.turns[t], next);
      case Release(t) => GatedMoved(s, t, next.turns[t], next);
      case _ => SameTurnsSameGate(s, next);
    }
  }

  lemma GatedStep(s: Net, step: Step)
    requires Gated(s) && Enabled(s, step)
    ensures Gated(Next(s, step))
  {
    hide Gated, Next;
    if IsGateStep(step) {
      GatedAtGate(s, step);
    } else {
      GatedElsewhere(s, step);
    }
  }

  lemma {:induction false} GatedAlways(s: Net, steps: seq<Step>)
    requires Gated(s) && IsRun(s, steps)
    ensures Gated(End(s, steps))
    decreases |steps|
  {
    hide Gated, Next;
    if steps != [] {
      GatedStep(s, steps[0]);
      GatedAlways(Next(s, steps[0]), steps[1..]);
    }
  }

  // ----- Prompts at the agent -----

  // The agent has a prompt that nobody waits for only if the timeout gave up on it.
  ghost predicate Awaited(s: Net) {
    forall t :: t in s.turns && s.turns[t].atAgent && !s.turns[t].abandoned ==> s.turns[t].phase == InFlight
  }

  lemma AwaitedMoved(s: Net, t: nat, turn: Turn, next: Net)
    requires Awaited(s) && next.turns == s.turns[t := turn]
    requires turn.atAgent && !turn.abandoned ==> turn.phase == InFlight
    ensures Awaited(next)
  {
  }

  lemma AwaitedStep(s: Net, step: Step)
    requires Awaited(s) && Enabled(s, step)
    ensures Awaited(Next(s, step))
  {
    hide Released, Routed, GoesOutOfBand, Without;
    var next := Next(s, step);
    match step {
      case Begin(t) => AwaitedMoved(s, t, next.turns[t], next);
      case Install(t) => AwaitedMoved(s, t, next.turns[t], next);
      case Send(t) => AwaitedMoved(s, t, next.turns[t], next);
      case Spawn(_) => AwaitedMoved(s, s.queue[0], next.turns[s.queue[0]], next);
      case Acquire => AwaitedMoved(s, s.waiters[0], next.turns[s.waiters[0]], next);
      case GiveUp(t) => AwaitedMoved(s, t, next.turns[t], next);
      case Clear(t) => AwaitedMoved(s, t, next.turns[t], next);
      case Request(t) => AwaitedMoved(s, t, next.turns[t], next);
      case Finish(t) => AwaitedMoved(s, t, next.turns[t], next);
      case Abandon(t) => AwaitedMoved(s, t, next.turns[t], next);
      case AnswerLate(t) => AwaitedMoved(s, t, next.turns[t], next);
      case Release(t) => AwaitedMoved(s, t, next.turns[t], next);
      case DropGate(t) => AwaitedMoved(s, t, next.turns[t], next);
      case _ => assert next.turns == s.turns;
    }
  }

  lemma {:induction false} AwaitedAlways(s: Net, steps: seq<Step>)
    requires Awaited(s) && IsRun(s, steps)
    ensures Awaited(End(s, steps))
    decreases |steps|
  {
    hide Awaited, Next;
    if steps != [] {
      AwaitedStep(s, steps[0]);
      AwaitedAlways(Next(s, steps[0]), steps[1..]);
    }
  }

  predicate WaitedForGate(s: Net, t: nat)
    requires t in s.turns
  {
    !s.turns[t].gated && s.turns[t].waited >= GATE_WAIT
  }

  // Two turns wait for an answer together only if one of them waited the full bound
  // for the gate.
  lemma OverlapWaitedForGate(steps: seq<Step>, t: nat, u: nat)
    requires IsRun(INIT, steps) && t != u
    requires At(End(INIT, steps), t, InFlight) && At(End(INIT, steps), u, InFlight)
    ensures WaitedForGate(End(INIT, steps), t) || WaitedForGate(End(INIT, steps), u)
  {
    GatedAlways(INIT, steps);
  }

  // The agent has two prompts together only if one of their turns waited the full
  // bound for the gate, or gave up on its answer after the idle timeout.
  lemma OverlapWaitedOrAbandoned(steps: seq<Step>, t: nat, u: nat)
    requires IsRun(INIT, steps) && t != u
    requires var s := End(INIT, steps);
             t in s.turns && u in s.turns && s.turns[t].atAgent && s.turns[u].atAgent
    ensures var s := End(INIT, steps);
            WaitedForGate(s, t) || WaitedForGate(s, u) || s.turns[t].abandoned || s.turns[u].abandoned
  {
    GatedAlways(INIT, steps);
    AwaitedAlways(INIT, steps);
  }

  // What the way of a turn to the agent depends on.
  function Way(s: Net): Net {
    s.(shared := INIT.shared.(disposed := s.shared.disposed), newest := None)
  }

  predicate Quiet(s: Net) {
    s.open && !s.shared.disposed && s.queue == [] && s.waiters == [] && s.gate == None
  }

  // The states in which a turn has queued its command, passed the gate, and sent its prompt.
  function Queueing(s: Net, t: nat): Net {
    Way(s).(turns := s.turns[t := Turn(Queued, false, 0, 0, false, false)], queue := [t])
  }

  function Passing(s: Net, t: nat): Net {
    Way(s).(turns := s.turns[t := Turn(Ready, true, s.now, 0, false, false)], gate := Some(t))
  }

  function Sending(s: Net, t: nat): Net {
    Way(s).(turns := s.turns[t := Turn(InFlight, true, s.now, 0, true, false)], gate := Some(t))
  }

  // The prompt is given up on, and the gate free again.
  function GivingUp(s: Net, t: nat): Net {
    Way(s).(turns := s.turns[t := Turn(Done, true, s.now, 0, true, true)])
  }

  ghost predicate Reaches(steps: seq<Step>, way: Net) {
    IsRun(INIT, steps) && Way(End(INIT, steps)) == way
  }

  lemma Queues(steps: seq<Step>, t: nat) returns (more: seq<Step>)
    requires IsRun(INIT, steps) && Quiet(End(INIT, steps)) && t !in End(INIT, steps).turns
    ensures Reaches(more, Queueing(End(INIT, steps), t))
  {
    hide IsRun, End;
    Then(INIT, steps, Begin(t));
    more := steps + [Begin(t)];
    Then(INIT, more, Install(t));
    more := more + [Install(t)];
    Then(INIT, more, Send(t));
    more := more + [Send(t)];
  }

  lemma Passes(s: Net, steps: seq<Step>, t: nat) returns (more: seq<Step>)
    requires IsRun(INIT, steps) && Quiet(s) && Way(End(INIT, steps)) == Queueing(s, t)
    ensures Reaches(more, Passing(s, t))
  {
    hide IsRun, End;
    Then(INIT, steps, Spawn(true));
    more := steps + [Spawn(true)];
    Then(INIT, more, Acquire);
    more := more + [Acquire];
  }

  lemma Requests(s: Net, steps: seq<Step>, t: nat) returns (more: seq<Step>)
    requires IsRun(INIT, steps) && Way(End(INIT, steps)) == Passing(s, t)
    ensures Reaches(more, Sending(s, t))
  {
    hide IsRun, End;
    Then(INIT, steps, Clear(t));
    more := steps + [Clear(t)];
    Then(INIT, more, Request(t));
    more := more + [Request(t)];
  }

  lemma Sends(steps: seq<Step>, t: nat) returns (more: seq<Step>)
    requires IsRun(INIT, steps) && Quiet(End(INIT, steps)) && t !in End(INIT, steps).turns
    ensures Reaches(more, Sending(End(INIT, steps), t))
  {
    hide IsRun, End, Way, Queueing, Passing, Sending;
    more := Queues(steps, t);
    more := Passes(End(INIT, steps), more, t);
    more := Requests(End(INIT, steps), more, t);
  }

  lemma GivesUp(s: Net, steps: seq<Step>, t: nat) returns (more: seq<Step>)
    requires IsRun(INIT, steps) && Quiet(s) && Way(End(INIT, steps)) == Sending(s, t)
    ensures Reaches(more, GivingUp(s, t))
  {
    hide IsRun, End;
    Then(INIT, steps, Abandon(t));
    more := steps + [Abandon(t)];
    Then(INIT, more, Release(t));
    more := more + [Release(t)];
    Then(INIT, more, DropGate(t));
    more := more + [DropGate(t)];
  }

  // The agent has both prompts, and neither turn waited for the gate.
  predicate OverlapsUnwaited(s: Net, t: nat, u: nat) {
    && t in s.turns && u in s.turns && s.turns[t].atAgent && s.turns[u].atAgent
    && !WaitedForGate(s, t) && !WaitedForGate(s, u)
  }

  // Two prompts at the agent, neither of which waited: the gate is given back with
  // the answer that was given up on, while the agent still has the prompt.
  lemma AbandonedOverlaps()
    ensures exists steps :: IsRun(INIT, steps) && OverlapsUnwaited(End(INIT, steps), 0, 1)
  {
    hide IsRun, End;
    NoSteps();
    var one := Sends([], 0);
    var over := GivesUp(INIT, one, 0);
    var both := Sends(over, 1);
    assert OverlapsUnwaited(End(INIT, both), 0, 1);
  }

  lemma NoSteps()
    ensures IsRun(INIT, []) && End(INIT, []) == INIT
  {
  }

  // ----- The idle clock -----

  // The step restarts the clock that the idle timeout reads.
  predicate Restarts(s: Net, step: Step) {
    step.Request? || (step.Notify? && s.shared.sink.Some?)
  }

  // The times of the steps that do.
  ghost function RestartTimes(s: Net, steps: seq<Step>): seq<Time>
    requires IsRun(s, steps)
    decreases |steps|
  {
    if steps == [] then []
    else (if Restarts(s, steps[0]) then [s.now] else []) + RestartTimes(Next(s, steps[0]), steps[1..])
  }

  ghost predicate Ascending(times: seq<Time>) {
    forall i, j :: 0 <= i < j < |times| ==> times[i] <= times[j]
  }

  lemma ClockStep(s: Net, step: Step)
    requires Enabled(s, step)
    ensures Next(s, step).now >= s.now
    ensures Next(s, step).shared.lastActivity == if Restarts(s, step) then s.now else s.shared.lastActivity
  {
  }

  // In every run, from any state: the clock shows the time of the last step that
  // restarted it.
  lemma {:induction false} ClockIsLastRestart(s: Net, steps: seq<Step>)
    requires IsRun(s, steps)
    ensures var times := RestartTimes(s, steps);
            && End(s, steps).shared.lastActivity
               == (if times == [] then s.shared.lastActivity else times[|times| - 1])
            && Ascending(times) && forall i :: 0 <= i < |times| ==> s.now <= times[i] <= End(s, steps).now
    ensures s.now <= End(s, steps).now
    decreases |steps|
  {
    hide Next, Enabled, Restarts;
    if steps != [] {
      ClockStep(s, steps[0]);
      ClockIsLastRestart(Next(s, steps[0]), steps[1..]);
    }
  }

  // From the request of a prompt on, what the idle timeout takes for its last activity
  // is what this connection's clock shows.
  lemma IdleTimeoutSeesClock(s: Net, t: nat, steps: seq<Step>, w: IdleTimeout.World)
    requires IsRun(s, [Request(t)] + steps) && w.updates == RestartTimes(s, [Request(t)] + steps)
    ensures var now := End(s, [Request(t)] + steps).now;
            && IdleTimeout.IsWorld(w) && w.updates[0] == s.now
            && IdleTimeout.LastActivity(w, now) == End(s, [Request(t)] + steps).shared.lastActivity
  {
    ClockIsLastRestart(s, [Request(t)] + steps);
    assert ([Request(t)] + steps)[0] == Request(t);
  }

  // ----- The open tools -----

  // Whether the step says that the tool is open, or closed, or neither: an update for
  // the current session under a sink, a clearing, or the release of the sink's turn.
  function Says(s: Net, step: Step, id: string): Option<bool>
    requires Enabled(s, step)
  {
    match step
    case Notify(session, u) =>
      if s.shared.sink.Some? && (s.shared.session.None? || s.shared.session == Some(session)) then
        if SaysOpen(u, id) then Some(true) else if SaysClosed(u, id) then Some(false) else None
      else None
    case ForgetTools => Some(false)
    case Clear(_) => Some(false)
    case Release(t) => if s.shared.sink == Some(t) then Some(false) else None
    case Spawn(ok) => if !ok && s.shared.sink == Some(s.queue[0]) then Some(false) else None
    case _ => None
  }

  ghost function Sayings(s: Net, steps: seq<Step>, id: string): seq<bool>
    requires IsRun(s, steps)
    decreases |steps|
  {
    if steps == [] then []
    else
      var said := Says(s, steps[0], id);
      (if said.Some? then [said.value] else []) + Sayings(Next(s, steps[0]), steps[1..], id)
  }

  lemma SaysIsDone(s: Net, step: Step, id: string)
    requires Enabled(s, step)
    ensures id in Next(s, step).shared.tools <==> Says(s, step, id).GetOr(id in s.shared.tools)
  {
  }

  // In every run: a tool is open exactly when the last step that says whether it is,
  // says that it is open.
  lemma {:induction false} OpenIffLastSaidOpen(s: Net, steps: seq<Step>, id: string)
    requires IsRun(s, steps)
    ensures var said := Sayings(s, steps, id);
            id in End(s, steps).shared.tools <==> if said == [] then id in s.shared.tools else said[|said| - 1]
    decreases |steps|
  {
    hide Next, Enabled, Says;
    if steps != [] {
      SaysIsDone(s, steps[0], id);
      OpenIffLastSaidOpen(Next(s, steps[0]), steps[1..], id);
    }
  }
}
