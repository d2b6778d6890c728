/**
 Runs of the activity throttle: every interleaving of records, timer expiries,
 store writes, removals and the passing of time.

 `log` lists every snapshot ever taken, `inFlight` the positions in it whose
 store write has not finished, `landed` those whose write updated the store, `store`
 the tool column of the store, and `recorded` the tool most recently reported for
 each session.
 */
module ThrottleRuns {
  import opened Wrappers
  import opened ActivityThrottle

  datatype Timer = Timer(session: string, due: Time)

  datatype Taken = Taken(session: string, time: Time, snap: Snapshot)

  datatype State = State(
    now: Time,
    entries: Entries,
    timers: map<nat, Timer>,
    nextTimer: nat,
    log: seq<Taken>,
    inFlight: set<nat>,
    landed: set<nat>,
    store: map<string, Tool>,
    recorded: map<string, Tool>)

  datatype Step =
    | Wait(duration: nat)
    | Record(project: string, session: string, tool: Option<Tool>, at: string)
    | Fire(timer: nat)
    | Finish(write: nat, result: WriteResult)
    | Forget(session: string)

  const INIT: State := State(0, map[], map[], 0, [], {}, {}, map[], map[])

  function Log(st: State, session: string, snap: Option<Snapshot>): State {
    match snap
    case None => st
    case Some(c) => st.(log := st.log + [Taken(session, st.now, c)], inFlight := st.inFlight + {|st.log|})
  }

  function AfterRecord(st: State, project: string, session: string, tool: Option<Tool>, at: string): State {
    var (m, spawned) := Recorded(st.entries, st.now, at, project, session, tool);
    var st := st.(entries := m,
                  recorded := if tool.Some? then st.recorded[session := tool.value] else st.recorded);
    match spawned
    case Nothing => st
    case Write(snap) => Log(st, session, Some(snap))
    case Trailing(due) => st.(timers := st.timers[st.nextTimer := Timer(session, st.now + due)],
                              nextTimer := st.nextTimer + 1)
  }

  function AfterFire(st: State, id: nat): State
    requires id in st.timers
  {
    var session := st.timers[id].session;
    var (m, snap) := Fired(st.entries, st.now, session);
    Log(st.(entries := m, timers := st.timers - {id}), session, snap)
  }

  function AfterFinish(st: State, k: nat, result: WriteResult): State
    requires k in st.inFlight && k < |st.log|
  {
    var t := st.log[k];
    var st := st.(inFlight := st.inFlight - {k});
    match result
    case Updated =>
      var st := st.(landed := st.landed + {k});
      if t.snap.tool.Some? then st.(store := st.store[t.session := t.snap.tool.value]) else st
    case Missing => st.(entries := st.entries - {t.session})
    case Failed => st
  }

  // Every pending timer fires at most `late` after it is due.
  ghost predicate Enabled(st: State, step: Step, late: nat) {
    match step
    case Wait(d) => forall id :: id in st.timers ==> st.now + d <= st.timers[id].due + late
    case Record(_, _, _, _) => true
    case Fire(id) => id in st.timers && st.timers[id].due <= st.now
    case Finish(k, _) => k in st.inFlight && k < |st.log|
    case Forget(_) => true
  }

  ghost function Next(st: State, step: Step, late: nat): State
    requires Enabled(st, step, late)
  {
    match step
    case Wait(d) => st.(now := st.now + d)
    case Record(project, session, tool, at) => AfterRecord(st, project, session, tool, at)
    case Fire(id) => AfterFire(st, id)
    case Finish(k, result) => AfterFinish(st, k, result)
    case Forget(session) => st.(entries := st.entries - {session})
  }

  ghost predicate IsRun(st: State, steps: seq<Step>, late: nat)
    decreases |steps|
  {
    steps == [] || (Enabled(st, steps[0], late) && IsRun(Next(st, steps[0], late), steps[1..], late))
  }

  ghost function End(st: State, steps: seq<Step>, late: nat): State
    requires IsRun(st, steps, late)
    decreases |steps|
  {
    if steps == [] then st else End(Next(st, steps[0], late), steps[1..], late)
  }

  // The step removes the entry of session s: `forget`, or a write that finds no such session.
  ghost predicate Removes(st: State, step: Step, s: string) {
    match step
    case Forget(session) => session == s
    case Finish(k, result) => result == Missing && k < |st.log| && st.log[k].session == s
    case _ => false
  }

  ghost predicate NeverRemoves(st: State, steps: seq<Step>, s: string, late: nat)
    requires IsRun(st, steps, late)
    decreases |steps|
  {
    steps == [] || (!Removes(st, steps[0], s) && NeverRemoves(Next(st, steps[0], late), steps[1..], s, late))
  }

  // Every snapshot of s was taken at time t or before.
  ghost predicate TakenBy(log: seq<Taken>, s: string, t: int) {
    forall i :: 0 <= i < |log| && log[i].session == s ==> log[i].time <= t
  }

  // A full window has passed since the last snapshot of s, and no timer of s is pending.
  ghost predicate SafeToRemove(st: State, s: string) {
    && TakenBy(st.log, s, st.now - THROTTLE)
    && (forall id :: id in st.timers ==> st.timers[id].session != s)
  }

  ghost predicate OnlySafeRemovals(st: State, steps: seq<Step>, s: string, late: nat)
    requires IsRun(st, steps, late)
    decreases |steps|
  {
    steps == []
    || (&& (Removes(st, steps[0], s) ==> SafeToRemove(st, s))
        && OnlySafeRemovals(Next(st, steps[0], late), steps[1..], s, late))
  }

  // ----- No lost activity -----

  // In every reachable state a dirty entry has its timer flag set, a set flag is
  // backed by a pending timer; a timer is at most a window away and at most `late` overdue.
  ghost predicate Backed(st: State, late: nat) {
    && (forall s :: s in st.entries && st.entries[s].dirty ==> st.entries[s].timerArmed)
    && (forall s :: s in st.entries && st.entries[s].timerArmed ==>
          st.entries[s].dirty && exists id :: id in st.timers && st.timers[id].session == s)
    && (forall id :: id in st.timers ==>
          id < st.nextTimer && st.now <= st.timers[id].due + late && st.timers[id].due <= st.now + THROTTLE)
  }

  // The three things a record can do to entries, timers and log; e is the touched entry.
  function Coalesced(st: State, q: string, e: Entry): State {
    st.(entries := st.entries[q := e])
  }

  function Led(st: State, q: string, e: Entry): State {
    Log(st.(entries := Evicted(st.entries[q := Settled(e.(lastFlush := Some(st.now)))], st.now)),
        q, Some(Contents(e)))
  }

  function Armed(st: State, q: string, e: Entry): State {
    st.(entries := st.entries[q := e.(timerArmed := true)],
        timers := st.timers[st.nextTimer := Timer(q, st.now + Due(e, st.now))],
        nextTimer := st.nextTimer + 1)
  }

  lemma RecordShape(st: State, project: string, q: string, tool: Option<Tool>, at: string) returns (e: Entry)
    ensures e == Touched(st.entries, st.now, at, project, q, tool)
    ensures e.dirty && e.lastSeen == st.now && e.at == at
    ensures e.timerArmed == (q in st.entries && st.entries[q].timerArmed)
    ensures e.lastFlush == if q in st.entries then st.entries[q].lastFlush else None
    ensures var base := st.(recorded := if tool.Some? then st.recorded[q := tool.value] else st.recorded);
            AfterRecord(st, project, q, tool, at) ==
              if e.timerArmed then Coalesced(base, q, e)
              else if Due(e, st.now) == 0 then Led(base, q, e)
              else Armed(base, q, e)
  {
    e := Touched(st.entries, st.now, at, project, q, tool);
  }

  lemma BackedCoalesced(st: State, q: string, e: Entry, late: nat)
    requires Backed(st, late) && q in st.entries && st.entries[q].timerArmed && e.timerArmed && e.dirty
    ensures Backed(Coalesced(st, q, e), late)
  {
  }

  lemma BackedLed(st: State, q: string, e: Entry, late: nat)
    requires Backed(st, late) && !e.timerArmed && e.dirty
    ensures Backed(Led(st, q, e), late)
  {
  }

  lemma BackedArmed(st: State, q: string, e: Entry, late: nat)
    requires Backed(st, late) && e.dirty
    ensures Backed(Armed(st, q, e), late)
  {
    var next := Armed(st, q, e);
    assert next.timers[st.nextTimer].session == q;
    forall s | s in next.entries && next.entries[s].timerArmed && s != q
      ensures exists id :: id in next.timers && next.timers[id].session == s
    {
      var id :| id in st.timers && st.timers[id].session == s;
      assert next.timers[id] == st.timers[id];
    }
  }

  lemma BackedRecord(st: State, project: string, q: string, tool: Option<Tool>, at: string, late: nat)
    requires Backed(st, late)
    ensures Backed(AfterRecord(st, project, q, tool, at), late)
  {
    var e := RecordShape(st, project, q, tool, at);
    var base := st.(recorded := if tool.Some? then st.recorded[q := tool.value] else st.recorded);
    if e.timerArmed {
      BackedCoalesced(base, q, e, late);
    } else if Due(e, st.now) == 0 {
      BackedLed(base, q, e, late);
    } else {
      BackedArmed(base, q, e, late);
    }
  }

  lemma BackedFire(st: State, timer: nat, late: nat)
    requires Backed(st, late) && timer in st.timers
    ensures Backed(AfterFire(st, timer), late)
  {
    var next := AfterFire(st, timer);
    forall s | s in next.entries && next.entries[s].timerArmed
      ensures next.entries[s].dirty && exists id :: id in next.timers && next.timers[id].session == s
    {
      assert s != st.timers[timer].session && st.entries[s].timerArmed;
      var id :| id in st.timers && st.timers[id].session == s;
      assert id in next.timers && next.timers[id].session == s;
    }
  }

  lemma BackedWaits(st: State, duration: nat, late: nat)
    requires Backed(st, late) && Enabled(st, Wait(duration), late)
    ensures Backed(st.(now := st.now + duration), late)
  {
  }

  // Entries go, timers stay.
  lemma BackedKept(st: State, next: State, late: nat)
    requires Backed(st, late) && next.timers == st.timers && next.now == st.now && next.nextTimer == st.nextTimer
    requires forall s :: s in next.entries ==> s in st.entries && next.entries[s] == st.entries[s]
    ensures Backed(next, late)
  {
  }

  lemma BackedStep(st: State, step: Step, late: nat)
    requires Backed(st, late) && Enabled(st, step, late)
    ensures Backed(Next(st, step, late), late)
  {
    hide AfterRecord, AfterFire, Backed;
    match step {
      case Record(project, session, tool, at) => BackedRecord(st, project, session, tool, at, late);
      case Fire(timer) => BackedFire(st, timer, late);
      case Wait(duration) => BackedWaits(st, duration, late);
      case _ => BackedKept(st, Next(st, step, late), late);
    }
  }

  lemma {:induction false} BackedAlways(st: State, steps: seq<Step>, late: nat)
    requires Backed(st, late) && IsRun(st, steps, late)
    ensures Backed(End(st, steps, late), late)
    decreases |steps|
  {
    if steps != [] {
      BackedStep(st, steps[0], late);
      BackedAlways(Next(st, steps[0], late), steps[1..], late);
    }
  }

  lemma NoDirtyEntryWithoutTimer(steps: seq<Step>, late: nat)
    requires IsRun(INIT, steps, late)
    ensures Backed(End(INIT, steps, late), late)
  {
    BackedAlways(INIT, steps, late);
  }

  // The wall-clock texts of the records of s that a step, or a run, makes.
  function StepTexts(step: Step, s: string): set<string> {
    if step.Record? && step.session == s then {step.at} else {}
  }

  function TextsOf(steps: seq<Step>, s: string): set<string> {
    if steps == [] then {} else StepTexts(steps[0], s) + TextsOf(steps[1..], s)
  }

  // A record made at time r waits in the entry of s, under the text of that record
  // or a later one, and its trailing flush is near.
  ghost predicate Waiting(st: State, s: string, r: Time, texts: set<string>) {
    && s in st.entries && st.entries[s].dirty && st.entries[s].at in texts
    && exists id :: id in st.timers && st.timers[id].session == s && st.timers[id].due <= r + THROTTLE
  }

  // A snapshot of s from position `mark` on, taken by that time, carries one of the texts.
  ghost predicate Carried(log: seq<Taken>, s: string, mark: nat, texts: set<string>, deadline: Time) {
    exists k :: mark <= k < |log| && log[k].session == s && log[k].snap.at in texts && log[k].time <= deadline
  }

  lemma WaitingStep(st: State, step: Step, s: string, r: Time, texts: set<string>, late: nat)
    requires Backed(st, late) && Waiting(st, s, r, texts)
    requires Enabled(st, step, late) && !Removes(st, step, s)
    ensures var next, more := Next(st, step, late), texts + StepTexts(step, s);
            && st.log <= next.log
            && (Carried(next.log, s, |st.log|, more, r + THROTTLE + late) || Waiting(next, s, r, more))
  {
    var id :| id in st.timers && st.timers[id].session == s && st.timers[id].due <= r + THROTTLE;
    if step.Fire? && st.timers[step.timer].session == s {
      WaitingFires(st, step.timer, s, r, texts, late);
    } else {
      WaitingStays(st, step, s, late);
      assert id in Next(st, step, late).timers && Next(st, step, late).timers[id] == st.timers[id];
    }
  }

  lemma WaitingFires(st: State, timer: nat, s: string, r: Time, texts: set<string>, late: nat)
    requires Backed(st, late) && Waiting(st, s, r, texts)
    requires timer in st.timers && st.timers[timer].session == s
    ensures st.log <= AfterFire(st, timer).log
    ensures Carried(AfterFire(st, timer).log, s, |st.log|, texts, r + THROTTLE + late)
  {
    var log := AfterFire(st, timer).log;
    assert log == st.log + [Taken(s, st.now, Contents(st.entries[s]))];
    assert log[|st.log|].snap.at in texts;
  }

  // A step that is no flush of s keeps its dirty entry and its timers.
  lemma WaitingStays(st: State, step: Step, s: string, late: nat)
    requires Backed(st, late) && s in st.entries && st.entries[s].dirty
    requires Enabled(st, step, late) && !Removes(st, step, s)
    requires step.Fire? ==> st.timers[step.timer].session != s
    ensures var next := Next(st, step, late);
            && st.log <= next.log && s in next.entries && next.entries[s].dirty
            && next.entries[s].at in {st.entries[s].at} + StepTexts(step, s)
            && (forall id :: id in st.timers && st.timers[id].session == s ==>
                  id in next.timers && next.timers[id] == st.timers[id])
  {
    hide Due, Contents;
    if step.Record? {
      var e := RecordShape(st, step.project, step.session, step.tool, step.at);
    }
  }

  lemma LogGrows(st: State, step: Step, late: nat)
    requires Enabled(st, step, late)
    ensures st.log <= Next(st, step, late).log
  {
  }

  lemma {:induction false} LogKeeps(st: State, steps: seq<Step>, late: nat)
    requires IsRun(st, steps, late)
    ensures st.log <= End(st, steps, late).log
    decreases |steps|
  {
    if steps != [] {
      LogGrows(st, steps[0], late);
      LogKeeps(Next(st, steps[0], late), steps[1..], late);
    }
  }

  lemma CarriedStays(log: seq<Taken>, longer: seq<Taken>, s: string, mark: nat, from: nat,
                     texts: set<string>, more: set<string>, deadline: Time)
    requires Carried(log, s, from, texts, deadline) && log <= longer && texts <= more && mark <= from
    ensures Carried(longer, s, mark, more, deadline)
  {
    var k :| from <= k < |log| && log[k].session == s && log[k].snap.at in texts && log[k].time <= deadline;
    assert longer[k] == log[k];
  }

  lemma {:induction false} WaitingUntilFlushed(st: State, steps: seq<Step>, s: string, r: Time, texts: set<string>,
                                               late: nat)
    requires Backed(st, late) && Waiting(st, s, r, texts)
    requires IsRun(st, steps, late) && NeverRemoves(st, steps, s, late)
    ensures var end, more := End(st, steps, late), texts + TextsOf(steps, s);
            && st.log <= end.log
            && (Carried(end.log, s, |st.log|, more, r + THROTTLE + late)
                || (Backed(end, late) && Waiting(end, s, r, more)))
    decreases |steps|
  {
    hide Backed, Next, Carried, Removes, StepTexts;
    if steps == [] {
      assert texts + TextsOf(steps, s) == texts;
    } else {
      var next, rest := Next(st, steps[0], late), steps[1..];
      var some, deadline := texts + StepTexts(steps[0], s), r + THROTTLE + late;
      var more := texts + TextsOf(steps, s);
      assert more == some + TextsOf(rest, s);
      BackedStep(st, steps[0], late);
      WaitingStep(st, steps[0], s, r, texts, late);
      LogKeeps(next, rest, late);
      if Carried(next.log, s, |st.log|, some, deadline) {
        CarriedStays(next.log, End(next, rest, late).log, s, |st.log|, |st.log|, some, more, deadline);
      } else {
        WaitingUntilFlushed(next, rest, s, r, some, late);
        if Carried(End(next, rest, late).log, s, |next.log|, more, deadline) {
          CarriedStays(End(next, rest, late).log, End(next, rest, late).log, s, |st.log|, |next.log|, more, more,
              deadline);
        }
      }
    }
  }

  lemma RecordHolds(st: State, project: string, s: string, tool: Option<Tool>, at: string, late: nat)
    requires Backed(st, late)
    ensures var next := AfterRecord(st, project, s, tool, at);
            && st.log <= next.log
            && (Carried(next.log, s, |st.log|, {at}, st.now) || Waiting(next, s, st.now, {at}))
  {
    var next := AfterRecord(st, project, s, tool, at);
    var e := RecordShape(st, project, s, tool, at);
    if e.timerArmed {
      var id :| id in st.timers && st.timers[id].session == s;
      assert next.timers == st.timers;
    } else if Due(e, st.now) != 0 {
      assert next.timers[st.nextTimer] == Timer(s, st.now + Due(e, st.now));
    } else {
      assert next.log[|st.log|] == Taken(s, st.now, Contents(e));
    }
  }

  // Every record is in a snapshot, under its own text or that of a later record,
  // taken at the record or at most a window plus the timers' lateness after it,
  // unless the entry is explicitly removed first.
  lemma NoLostActivity(before: seq<Step>, project: string, s: string, tool: Option<Tool>, at: string,
                       after: seq<Step>, late: nat)
    requires IsRun(INIT, before, late)
    requires var st := End(INIT, before, late);
             var next := AfterRecord(st, project, s, tool, at);
             && IsRun(next, after, late) && NeverRemoves(next, after, s, late)
             && End(next, after, late).now > st.now + THROTTLE + late
    ensures var st := End(INIT, before, late);
            var log := End(AfterRecord(st, project, s, tool, at), after, late).log;
            Carried(log, s, |st.log|, {at} + TextsOf(after, s), st.now + THROTTLE + late)
  {
    hide AfterRecord, Carried, Next;
    BackedAlways(INIT, before, late);
    var st := End(INIT, before, late);
    var next := AfterRecord(st, project, s, tool, at);
    var end, texts, deadline := End(next, after, late), {at} + TextsOf(after, s), st.now + THROTTLE + late;
    BackedRecord(st, project, s, tool, at, late);
    RecordHolds(st, project, s, tool, at, late);
    LogKeeps(next, after, late);
    if Waiting(next, s, st.now, {at}) {
      WaitingUntilFlushed(next, after, s, st.now, {at}, late);
      if Carried(end.log, s, |next.log|, texts, deadline) {
        CarriedStays(end.log, end.log, s, |st.log|, |next.log|, texts, texts, deadline);
      }
    } else {
      CarriedBy(next.log, s, |st.log|, {at}, st.now, deadline);
      CarriedStays(next.log, end.log, s, |st.log|, |st.log|, {at}, texts, deadline);
    }
  }

  lemma CarriedBy(log: seq<Taken>, s: string, mark: nat, texts: set<string>, at: Time, later: Time)
    requires Carried(log, s, mark, texts, at) && at <= later
    ensures Carried(log, s, mark, texts, later)
  {
  }

  // ----- Spacing -----

  // The largest timer lateness under which idle eviction cannot forget a recent
  // flush: IDLE_EVICT - 2 * THROTTLE, plus the one tick by which eviction waits longer.
  const MAX_LATE: nat := IDLE_EVICT - 2 * THROTTLE + 1

  ghost predicate Spaced(log: seq<Taken>, s: string) {
    forall i, j :: 0 <= i < j < |log| && log[i].session == s && log[j].session == s ==>
      log[i].time + THROTTLE <= log[j].time
  }

  ghost predicate FlushMemory(st: State, s: string, late: nat) {
    && Spaced(st.log, s)
    && (forall i, j :: i in st.timers && j in st.timers && st.timers[i].session == st.timers[j].session == s ==>
          i == j)
    && (s !in st.entries ==>
          TakenBy(st.log, s, st.now - THROTTLE) && forall id :: id in st.timers ==> st.timers[id].session != s)
    && (s in st.entries ==>
          var e := st.entries[s];
          && e.lastFlush.Some? && e.lastFlush.value <= st.now && e.lastSeen <= st.now
          && TakenBy(st.log, s, e.lastFlush.value)
          && (e.timerArmed ==> e.lastFlush.value <= e.lastSeen)
          && (!e.timerArmed ==> e.lastFlush.value <= e.lastSeen + THROTTLE + late)
          && (forall id :: id in st.timers && st.timers[id].session == s ==>
                e.timerArmed && st.timers[id].due == e.lastFlush.value + THROTTLE))
  }

  lemma MemoryCoalesced(st: State, q: string, e: Entry, s: string, late: nat)
    requires FlushMemory(st, s, late) && q in st.entries && st.entries[q].timerArmed && e.timerArmed
    requires e.lastFlush == st.entries[q].lastFlush && e.lastSeen == st.now
    ensures FlushMemory(Coalesced(st, q, e), s, late)
  {
  }

  // The time since the last snapshot of s is a full window when the leading edge opens.
  lemma MemoryLed(st: State, e: Entry, s: string, late: nat)
    requires FlushMemory(st, s, late) && !e.timerArmed && e.dirty
    requires (s in st.entries ==> !st.entries[s].timerArmed)
    requires e.lastFlush == (if s in st.entries then st.entries[s].lastFlush else None) && e.lastSeen == st.now
    requires Due(e, st.now) == 0
    ensures FlushMemory(Led(st, s, e), s, late)
  {
    assert TakenBy(st.log, s, st.now - THROTTLE);
  }

  lemma MemoryLedOther(st: State, q: string, e: Entry, s: string, late: nat)
    requires late <= MAX_LATE && Backed(st, late) && FlushMemory(st, s, late) && q != s
    ensures FlushMemory(Led(st, q, e), s, late)
  {
    var next := Led(st, q, e);
    assert next.log == st.log + [Taken(q, st.now, Contents(e))];
    if s in st.entries && !Keeps(st.entries[s], st.now) {
      MemoryEvicted(st, s, late);
    }
  }

  // Eviction forgets a flush only when a full window has passed since.
  lemma MemoryEvicted(st: State, s: string, late: nat)
    requires late <= MAX_LATE && FlushMemory(st, s, late)
    requires s in st.entries && !Keeps(st.entries[s], st.now)
    ensures TakenBy(st.log, s, st.now - THROTTLE)
  {
  }

  lemma MemoryArmed(st: State, q: string, e: Entry, s: string, late: nat)
    requires Backed(st, late) && FlushMemory(st, s, late)
    requires !e.timerArmed && (q in st.entries ==> !st.entries[q].timerArmed)
    requires e.lastFlush == (if q in st.entries then st.entries[q].lastFlush else None) && e.lastSeen == st.now
    requires Due(e, st.now) != 0
    ensures FlushMemory(Armed(st, q, e), s, late)
  {
  }

  lemma FlushMemoryRecord(st: State, project: string, q: string, tool: Option<Tool>, at: string,
                          s: string, late: nat)
    requires late <= MAX_LATE && Backed(st, late) && FlushMemory(st, s, late)
    ensures FlushMemory(AfterRecord(st, project, q, tool, at), s, late)
  {
    var e := RecordShape(st, project, q, tool, at);
    var base := st.(recorded := if tool.Some? then st.recorded[q := tool.value] else st.recorded);
    if e.timerArmed {
      MemoryCoalesced(base, q, e, s, late);
    } else if Due(e, st.now) == 0 {
      if q == s {
        MemoryLed(base, e, s, late);
      } else {
        MemoryLedOther(base, q, e, s, late);
      }
    } else {
      MemoryArmed(base, q, e, s, late);
    }
  }

  lemma FlushMemoryFire(st: State, timer: nat, s: string, late: nat)
    requires late <= MAX_LATE && Backed(st, late) && FlushMemory(st, s, late)
    requires timer in st.timers && st.timers[timer].due <= st.now
    ensures FlushMemory(AfterFire(st, timer), s, late)
  {
    var q := st.timers[timer].session;
    if q == s {
      MemoryFiredOwn(st, timer, late);
    } else {
      MemoryFiredOther(st, timer, s, late);
    }
  }

  lemma MemoryFiredOwn(st: State, timer: nat, late: nat)
    requires late <= MAX_LATE && Backed(st, late) && timer in st.timers
    requires FlushMemory(st, st.timers[timer].session, late) && st.timers[timer].due <= st.now
    ensures FlushMemory(AfterFire(st, timer), st.timers[timer].session, late)
  {
  }

  lemma MemoryFiredOther(st: State, timer: nat, s: string, late: nat)
    requires late <= MAX_LATE && Backed(st, late) && FlushMemory(st, s, late)
    requires timer in st.timers && st.timers[timer].session != s
    ensures FlushMemory(AfterFire(st, timer), s, late)
  {
  }

  lemma MemoryWaits(st: State, duration: nat, s: string, late: nat)
    requires FlushMemory(st, s, late)
    ensures FlushMemory(st.(now := st.now + duration), s, late)
  {
    hide Spaced;
  }

  lemma MemoryKept(st: State, next: State, s: string, late: nat)
    requires FlushMemory(st, s, late)
    requires next.log == st.log && next.timers == st.timers && next.now == st.now
    requires s in st.entries <==> s in next.entries
    requires s in st.entries ==> next.entries[s] == st.entries[s]
    ensures FlushMemory(next, s, late)
  {
    hide Spaced, TakenBy;
  }

  lemma FlushMemoryRest(st: State, step: Step, s: string, late: nat)
    requires FlushMemory(st, s, late) && Enabled(st, step, late) && !Removes(st, step, s)
    requires step.Wait? || step.Finish? || step.Forget?
    ensures FlushMemory(Next(st, step, late), s, late)
  {
    hide FlushMemory, AfterRecord, AfterFire;
    if step.Wait? {
      MemoryWaits(st, step.duration, s, late);
    } else {
      MemoryKept(st, Next(st, step, late), s, late);
    }
  }

  // What a step that removes s does: the entry goes, all else stays.
  lemma RemovalShape(st: State, step: Step, s: string, late: nat)
    requires Enabled(st, step, late) && Removes(st, step, s)
    ensures var gone := Next(st, step, late);
            && gone.entries == st.entries - {s} && gone.now == st.now && gone.log == st.log
            && gone.timers == st.timers && gone.nextTimer == st.nextTimer
  {
  }

  lemma FlushMemoryRemoved(st: State, step: Step, s: string, late: nat)
    requires FlushMemory(st, s, late) && Enabled(st, step, late) && Removes(st, step, s) && SafeToRemove(st, s)
    ensures FlushMemory(Next(st, step, late), s, late)
  {
    hide Spaced, Next;
    RemovalShape(st, step, s, late);
  }

  lemma FlushMemoryStep(st: State, step: Step, s: string, late: nat)
    requires late <= MAX_LATE && Backed(st, late) && FlushMemory(st, s, late)
    requires Enabled(st, step, late) && (Removes(st, step, s) ==> SafeToRemove(st, s))
    ensures FlushMemory(Next(st, step, late), s, late)
  {
    hide Backed, FlushMemory, SafeToRemove, AfterRecord, AfterFire;
    if step.Record? {
      FlushMemoryRecord(st, step.project, step.session, step.tool, step.at, s, late);
    } else if step.Fire? {
      FlushMemoryFire(st, step.timer, s, late);
    } else if Removes(st, step, s) {
      FlushMemoryRemoved(st, step, s, late);
    } else {
      FlushMemoryRest(st, step, s, late);
    }
  }

  // The last flush an entry remembers is a snapshot.
  ghost predicate FlushLogged(st: State, s: string) {
    s in st.entries ==>
      && st.entries[s].lastFlush.Some?
      && exists k :: 0 <= k < |st.log| && st.log[k].session == s && st.log[k].time == st.entries[s].lastFlush.value
  }

  lemma LoggedStays(st: State, next: State, s: string)
    requires FlushLogged(st, s) && st.log <= next.log
    requires s in next.entries ==> s in st.entries && next.entries[s].lastFlush == st.entries[s].lastFlush
    ensures FlushLogged(next, s)
  {
    if s in next.entries {
      var k :| 0 <= k < |st.log| && st.log[k].session == s && st.log[k].time == st.entries[s].lastFlush.value;
      assert next.log[k] == st.log[k];
    }
  }

  lemma FlushLoggedRecord(st: State, project: string, q: string, tool: Option<Tool>, at: string, s: string)
    requires FlushLogged(st, s)
    ensures FlushLogged(AfterRecord(st, project, q, tool, at), s)
  {
    hide Touched, Due, Contents;
    var e := RecordShape(st, project, q, tool, at);
    var next := AfterRecord(st, project, q, tool, at);
    if q == s && !e.timerArmed && Due(e, st.now) == 0 {
      assert next.log[|st.log|].session == s && next.log[|st.log|].time == st.now;
    } else {
      if e.lastFlush.None? {
        NeverFlushed(e, st.now);
      }
      LoggedStays(st, next, s);
    }
  }

  lemma NeverFlushed(e: Entry, now: Time)
    requires e.lastFlush.None?
    ensures Due(e, now) == 0
  {
  }

  lemma FlushLoggedFire(st: State, timer: nat, s: string, late: nat)
    requires Backed(st, late) && FlushMemory(st, s, late) && FlushLogged(st, s) && timer in st.timers
    ensures FlushLogged(AfterFire(st, timer), s)
  {
    hide Spaced, TakenBy, Contents;
    var next, q := AfterFire(st, timer), st.timers[timer].session;
    if q == s {
      assert s in st.entries && st.entries[s].dirty;
      assert next.log[|st.log|].session == s && next.log[|st.log|].time == st.now;
    } else {
      LoggedStays(st, next, s);
    }
  }

  lemma FlushLoggedStep(st: State, step: Step, s: string, late: nat)
    requires Backed(st, late) && FlushMemory(st, s, late) && FlushLogged(st, s) && Enabled(st, step, late)
    ensures FlushLogged(Next(st, step, late), s)
  {
    hide Backed, FlushMemory, FlushLogged, AfterRecord, AfterFire;
    match step {
      case Record(project, session, tool, at) => FlushLoggedRecord(st, project, session, tool, at, s);
      case Fire(timer) => FlushLoggedFire(st, timer, s, late);
      case _ => LoggedStays(st, Next(st, step, late), s);
    }
  }

  lemma {:induction false} FlushMemoryAlways(st: State, steps: seq<Step>, s: string, late: nat)
    requires late <= MAX_LATE && Backed(st, late) && FlushMemory(st, s, late) && FlushLogged(st, s)
    requires IsRun(st, steps, late) && OnlySafeRemovals(st, steps, s, late)
    ensures var end := End(st, steps, late);
            Backed(end, late) && FlushMemory(end, s, late) && FlushLogged(end, s)
    decreases |steps|
  {
    hide Backed, FlushMemory, FlushLogged, Next, Removes, SafeToRemove;
    if steps != [] {
      BackedStep(st, steps[0], late);
      FlushMemoryStep(st, steps[0], s, late);
      FlushLoggedStep(st, steps[0], s, late);
      FlushMemoryAlways(Next(st, steps[0], late), steps[1..], s, late);
    }
  }

  // The promise of the throttle, for timers at most `late` late.
  ghost predicate AlwaysSpaced(late: nat) {
    forall steps, s :: IsRun(INIT, steps, late) && OnlySafeRemovals(INIT, steps, s, late) ==>
      Spaced(End(INIT, steps, late).log, s)
  }

  lemma SnapshotsAreSpaced(steps: seq<Step>, s: string, late: nat)
    requires late <= MAX_LATE && IsRun(INIT, steps, late) && OnlySafeRemovals(INIT, steps, s, late)
    ensures Spaced(End(INIT, steps, late).log, s)
  {
    FlushMemoryAlways(INIT, steps, s, late);
  }

  lemma {:induction false} NeverIsSafe(st: State, steps: seq<Step>, s: string, late: nat)
    requires IsRun(st, steps, late) && NeverRemoves(st, steps, s, late)
    ensures OnlySafeRemovals(st, steps, s, late)
    decreases |steps|
  {
    hide Next, Removes, SafeToRemove;
    if steps != [] {
      NeverIsSafe(Next(st, steps[0], late), steps[1..], s, late);
    }
  }

  // ----- Where the hypotheses are needed -----

  lemma Prepend(st: State, step: Step, rest: seq<Step>, s: string, late: nat)
    requires Enabled(st, step, late) && IsRun(Next(st, step, late), rest, late)
    ensures IsRun(st, [step] + rest, late)
    ensures End(st, [step] + rest, late) == End(Next(st, step, late), rest, late)
    ensures NeverRemoves(st, [step] + rest, s, late) <==>
            !Removes(st, step, s) && NeverRemoves(Next(st, step, late), rest, s, late)
  {
    assert ([step] + rest)[1..] == rest;
  }

  function PlainEntry(at: Time, seen: Time): Entry {
    Entry("p", "", seen, None, false, false, Some(at), false)
  }

  const PLAIN: Snapshot := Snapshot("p", "", None)

  // Two records of session a at once, the second of which arms a timer.
  const TICK_A: Step := Record("p", "a", None, "")
  const ARMED: State :=
    INIT.(entries := map["a" := PlainEntry(0, 0).(dirty := true, timerArmed := true)],
          timers := map[0 := Timer("a", THROTTLE)], nextTimer := 1,
          log := [Taken("a", 0, PLAIN)], inFlight := {0})

  lemma TwoRecords(rest: seq<Step>, late: nat)
    requires IsRun(ARMED, rest, late)
    ensures var steps := [TICK_A] + ([TICK_A] + rest);
            && IsRun(INIT, steps, late) && End(INIT, steps, late) == End(ARMED, rest, late)
            && (NeverRemoves(INIT, steps, "a", late) <==> NeverRemoves(ARMED, rest, "a", late))
  {
    hide IsRun, End, NeverRemoves;
    var one := INIT.(entries := map["a" := PlainEntry(0, 0)], log := [Taken("a", 0, PLAIN)], inFlight := {0});
    assert Next(INIT, TICK_A, late) == one && Next(one, TICK_A, late) == ARMED;
    Prepend(one, TICK_A, rest, "a", late);
    Prepend(INIT, TICK_A, [TICK_A] + rest, "a", late);
  }

  // A trailing flush that is late, and an eviction after it.
  const LATE_GAP: nat := THROTTLE + MAX_LATE + 1

  // The state after the late trailing flush of session a.
  const FLUSHED_LATE: State :=
    INIT.(now := LATE_GAP, entries := map["a" := PlainEntry(LATE_GAP, 0)], nextTimer := 1,
          log := [Taken("a", 0, PLAIN), Taken("a", LATE_GAP, PLAIN)], inFlight := {0, 1})

  // A record of b evicts the entry of a, and a record of a then writes at once.
  lemma EvictedThenRecorded(late: nat) returns (end: State)
    ensures var rest := [Wait(THROTTLE - 1), Record("p", "b", None, ""), Record("p", "a", None, "")];
            && IsRun(FLUSHED_LATE, rest, late) && NeverRemoves(FLUSHED_LATE, rest, "a", late)
            && end == End(FLUSHED_LATE, rest, late)
    ensures |end.log| == 4 && end.log[1] == Taken("a", LATE_GAP, PLAIN)
    ensures end.log[2].session == "b" && end.log[3] == Taken("a", LATE_GAP + THROTTLE - 1, PLAIN)
  {
    var a, b := Record("p", "a", None, ""), Record("p", "b", None, "");
    var s5 := FLUSHED_LATE.(now := LATE_GAP + THROTTLE - 1);
    var s6 := s5.(entries := map["b" := PlainEntry(s5.now, s5.now)],
                  log := s5.log + [Taken("b", s5.now, PLAIN)], inFlight := {0, 1, 2});
    assert Next(s5, b, late) == s6;
    end := Next(s6, a, late);
    Prepend(s6, a, [], "a", late);
    Prepend(s5, b, [a] + [], "a", late);
    Prepend(FLUSHED_LATE, Wait(THROTTLE - 1), [b] + ([a] + []), "a", late);
    assert [Wait(THROTTLE - 1), b, a] == [Wait(THROTTLE - 1)] + ([b] + ([a] + []));
  }

  lemma LateTimerBreaksSpacing(late: nat)
    requires late > MAX_LATE
    ensures !AlwaysSpaced(late)
  {
    hide IsRun, End, NeverRemoves, OnlySafeRemovals;
    var rest := [Wait(THROTTLE - 1), Record("p", "b", None, ""), TICK_A];
    var end := EvictedThenRecorded(late);
    var flushing := ARMED.(now := LATE_GAP);
    assert Next(flushing, Fire(0), late) == FLUSHED_LATE by {
      assert flushing.timers - {0} == map[];
    }
    Prepend(flushing, Fire(0), rest, "a", late);
    Prepend(ARMED, Wait(LATE_GAP), [Fire(0)] + rest, "a", late);
    TwoRecords([Wait(LATE_GAP)] + ([Fire(0)] + rest), late);
    assert !Spaced(end.log, "a");
    NeverIsSafe(INIT, [TICK_A] + ([TICK_A] + ([Wait(LATE_GAP)] + ([Fire(0)] + rest))), "a", late);
  }

  // Snapshots of a session that is only removed when that is safe are a full window
  // apart in every run exactly when timers are at most MAX_LATE late.
  lemma SpacingIffTimersPrompt(late: nat)
    ensures AlwaysSpaced(late) <==> late <= MAX_LATE
  {
    if late <= MAX_LATE {
      forall steps, s | IsRun(INIT, steps, late) && OnlySafeRemovals(INIT, steps, s, late)
        ensures Spaced(End(INIT, steps, late).log, s)
      {
        SnapshotsAreSpaced(steps, s, late);
      }
    } else {
      LateTimerBreaksSpacing(late);
    }
  }

  // ----- When a removal is safe -----

  // Every run from this state that never removes s again keeps its snapshots apart.
  ghost predicate SpacedFrom(st: State, s: string, late: nat) {
    forall steps :: IsRun(st, steps, late) && NeverRemoves(st, steps, s, late) ==>
      Spaced(End(st, steps, late).log, s)
  }

  // A record after the removal writes at once.
  lemma FirstRecord(gone: State, s: string)
    requires s !in gone.entries
    ensures var next := AfterRecord(gone, "p", s, None, "");
            && next.log == gone.log + [Taken(s, gone.now, PLAIN)]
            && next.timers == gone.timers && next.nextTimer == gone.nextTimer && next.now == gone.now
            && s in next.entries && next.entries[s] == PlainEntry(gone.now, gone.now)
  {
  }

  // A second record at the same time arms a timer.
  lemma SecondRecord(st: State, s: string)
    requires s in st.entries && st.entries[s] == PlainEntry(st.now, st.now)
    ensures var next := AfterRecord(st, "p", s, None, "");
            && next.log == st.log && next.now == st.now
            && (forall id :: id in st.timers && id != st.nextTimer ==>
                  id in next.timers && next.timers[id] == st.timers[id])
            && s in next.entries && next.entries[s].dirty
  {
  }

  lemma TooSoon(log: seq<Taken>, s: string, now: Time, snap: Snapshot)
    requires !TakenBy(log, s, now - THROTTLE)
    ensures !Spaced(log + [Taken(s, now, snap)], s)
  {
    var i :| 0 <= i < |log| && log[i].session == s && log[i].time > now - THROTTLE;
    var longer := log + [Taken(s, now, snap)];
    assert longer[i] == log[i] && longer[|log|] == Taken(s, now, snap);
  }

  // The stale timer fires on the successor, at the time of the successor's first snapshot.
  lemma StaleFires(st: State, gone: State, s: string, id: nat, late: nat) returns (steps: seq<Step>)
    requires s !in gone.entries && id in gone.timers && id < gone.nextTimer
    requires gone.timers[id].session == s && gone.timers[id].due <= gone.now
    ensures IsRun(gone, steps, late) && NeverRemoves(gone, steps, s, late)
    ensures !Spaced(End(gone, steps, late).log, s)
  {
    hide AfterRecord, AfterFire, Spaced, IsRun, End, NeverRemoves;
    var r := Record("p", s, None, "");
    var one := AfterRecord(gone, "p", s, None, "");
    FirstRecord(gone, s);
    var two := AfterRecord(one, "p", s, None, "");
    SecondRecord(one, s);
    FiresOn(two, s, id);
    TooSoon(two.log, s, two.now, Contents(two.entries[s])) by {
      assert two.log[|gone.log|] == Taken(s, gone.now, PLAIN);
    }
    NoSteps(AfterFire(two, id), s, late);
    Prepend(two, Fire(id), [], s, late);
    Prepend(one, r, [Fire(id)] + [], s, late);
    Prepend(gone, r, [r] + ([Fire(id)] + []), s, late);
    steps := [r] + ([r] + ([Fire(id)] + []));
  }

  lemma FiresOn(st: State, s: string, id: nat)
    requires id in st.timers && st.timers[id].session == s && s in st.entries && st.entries[s].dirty
    ensures AfterFire(st, id).log == st.log + [Taken(s, st.now, Contents(st.entries[s]))]
  {
  }

  lemma NoSteps(st: State, s: string, late: nat)
    ensures IsRun(st, [], late) && End(st, [], late) == st && NeverRemoves(st, [], s, late)
  {
  }

  // A pending timer of s is due once a window has passed since the last snapshot of s.
  lemma TimerIsDue(st: State, s: string, id: nat, late: nat)
    requires Backed(st, late) && FlushMemory(st, s, late) && FlushLogged(st, s)
    requires TakenBy(st.log, s, st.now - THROTTLE) && id in st.timers && st.timers[id].session == s
    ensures id < st.nextTimer && st.timers[id].due <= st.now
  {
    hide Spaced;
  }

  lemma UnsafeBreaks(st: State, gone: State, s: string, late: nat)
    requires Backed(st, late) && FlushMemory(st, s, late) && FlushLogged(st, s) && !SafeToRemove(st, s)
    requires s !in gone.entries && gone.now == st.now && gone.log == st.log
    requires gone.timers == st.timers && gone.nextTimer == st.nextTimer
    ensures !SpacedFrom(gone, s, late)
  {
    hide Backed, FlushMemory, FlushLogged, Spaced, AfterRecord;
    if !TakenBy(st.log, s, st.now - THROTTLE) {
      var r, one := Record("p", s, None, ""), AfterRecord(gone, "p", s, None, "");
      FirstRecord(gone, s);
      TooSoon(gone.log, s, gone.now, PLAIN);
      NoSteps(one, s, late);
      Prepend(gone, r, [], s, late);
      assert !Spaced(End(gone, [r] + [], late).log, s);
    } else {
      var id :| id in st.timers && st.timers[id].session == s;
      TimerIsDue(st, s, id, late);
      var steps := StaleFires(st, gone, s, id, late);
    }
  }

  // Main result on removals. After any run whose removals of s were safe, one more
  // removal keeps the promise, whatever follows, exactly when it is safe itself.
  lemma RemovalKeepsSpacingIffSafe(before: seq<Step>, step: Step, s: string, late: nat)
    requires late <= MAX_LATE && IsRun(INIT, before, late) && OnlySafeRemovals(INIT, before, s, late)
    requires Enabled(End(INIT, before, late), step, late) && Removes(End(INIT, before, late), step, s)
    ensures var st := End(INIT, before, late);
            SafeToRemove(st, s) <==> SpacedFrom(Next(st, step, late), s, late)
  {
    hide Backed, FlushMemory, FlushLogged, Spaced, Next, Removes, Enabled, SafeToRemove;
    var st := End(INIT, before, late);
    StartRemembers(s, late);
    FlushMemoryAlways(INIT, before, s, late);
    var gone := Next(st, step, late);
    RemovalShape(st, step, s, late);
    if SafeToRemove(st, s) {
      BackedStep(st, step, late);
      FlushMemoryStep(st, step, s, late);
      FlushLoggedStep(st, step, s, late);
      forall steps | IsRun(gone, steps, late) && NeverRemoves(gone, steps, s, late)
        ensures Spaced(End(gone, steps, late).log, s)
      {
        NeverIsSafe(gone, steps, s, late);
        FlushMemoryAlways(gone, steps, s, late);
        MemoryIsSpaced(End(gone, steps, late), s, late);
      }
    } else {
      UnsafeBreaks(st, gone, s, late);
    }
  }

  lemma StartRemembers(s: string, late: nat)
    ensures Backed(INIT, late) && FlushMemory(INIT, s, late) && FlushLogged(INIT, s)
  {
  }

  lemma MemoryIsSpaced(st: State, s: string, late: nat)
    requires FlushMemory(st, s, late)
    ensures Spaced(st.log, s)
  {
  }

  const STALE_RUN: seq<Step> :=
    [TICK_A, TICK_A, Forget("a"), Wait(THROTTLE - 1), TICK_A, TICK_A, Wait(1), Fire(0)]

  // The state after the removal: the entry is gone, its timer is not.
  const FORGOTTEN: State :=
    INIT.(timers := map[0 := Timer("a", THROTTLE)], nextTimer := 1,
          log := [Taken("a", 0, PLAIN)], inFlight := {0})

  // A record just before the stale timer is due created a successor.
  const SUCCEEDED: State :=
    FORGOTTEN.(now := THROTTLE - 1, entries := map["a" := PlainEntry(THROTTLE - 1, THROTTLE - 1)],
               log := FORGOTTEN.log + [Taken("a", THROTTLE - 1, PLAIN)], inFlight := {0, 1})

  lemma StaleTimerFires() returns (end: State)
    ensures IsRun(SUCCEEDED, STALE_RUN[5..], 0) && end == End(SUCCEEDED, STALE_RUN[5..], 0)
    ensures end.log == SUCCEEDED.log + [Taken("a", THROTTLE, PLAIN)]
  {
    var e := PlainEntry(THROTTLE - 1, THROTTLE - 1).(dirty := true, timerArmed := true);
    var s6 := SUCCEEDED.(entries := map["a" := e], nextTimer := 2,
                         timers := map[0 := Timer("a", THROTTLE), 1 := Timer("a", 2 * THROTTLE - 1)]);
    var s7 := s6.(now := THROTTLE);
    assert Next(SUCCEEDED, TICK_A, 0) == s6;
    end := Next(s7, Fire(0), 0);
    Prepend(s7, Fire(0), [], "a", 0);
    Prepend(s6, Wait(1), [Fire(0)] + [], "a", 0);
    Prepend(SUCCEEDED, TICK_A, [Wait(1)] + ([Fire(0)] + []), "a", 0);
    assert STALE_RUN[5..] == [TICK_A] + ([Wait(1)] + ([Fire(0)] + []));
  }

  lemma StaleTimerOnSuccessor() returns (end: State)
    ensures IsRun(FORGOTTEN, STALE_RUN[3..], 0) && end == End(FORGOTTEN, STALE_RUN[3..], 0)
    ensures end.log == FORGOTTEN.log + [Taken("a", THROTTLE - 1, PLAIN), Taken("a", THROTTLE, PLAIN)]
  {
    var s4 := FORGOTTEN.(now := THROTTLE - 1);
    assert Next(s4, TICK_A, 0) == SUCCEEDED;
    end := StaleTimerFires();
    var tail := STALE_RUN[5..];
    Prepend(s4, TICK_A, tail, "a", 0);
    Prepend(FORGOTTEN, Wait(THROTTLE - 1), [TICK_A] + tail, "a", 0);
    assert STALE_RUN[3..] == [Wait(THROTTLE - 1)] + ([TICK_A] + tail);
  }

  // After a removal the old timer fires on the entry's successor: two snapshots one
  // tick apart, both taken after the removal, with punctual timers.
  lemma StaleTimerBreaksSpacing()
    ensures IsRun(INIT, STALE_RUN, 0)
    ensures var log := End(INIT, STALE_RUN, 0).log;
            && |log| == 3 && log[1].session == log[2].session == "a"
            && log[1].time + 1 == log[2].time
  {
    hide IsRun, End, NeverRemoves;
    var end := StaleTimerOnSuccessor();
    assert ARMED.entries - {"a"} == map[] && Next(ARMED, Forget("a"), 0) == FORGOTTEN;
    var tail := STALE_RUN[3..];
    Prepend(ARMED, Forget("a"), tail, "a", 0);
    TwoRecords([Forget("a")] + tail, 0);
    assert STALE_RUN == [TICK_A] + ([TICK_A] + ([Forget("a")] + tail));
  }

  // ----- The stored tool -----

  function Find(m: map<string, Tool>, s: string): Option<Tool> {
    if s in m then Some(m[s]) else None
  }

  // The tool of the last snapshot of s that carries one.
  function LastSent(log: seq<Taken>, s: string): Option<Tool> {
    if log == [] then None
    else
      var t := log[|log| - 1];
      if t.session == s && t.snap.tool.Some? then t.snap.tool else LastSent(log[..|log| - 1], s)
  }

  ghost predicate Pending(st: State, s: string) {
    s in st.entries && st.entries[s].toolPending
  }

  // The last reported tool of s is in the entry, or the last snapshot carrying a tool carried it.
  ghost predicate ToolKnown(st: State, s: string) {
    && (s in st.entries && st.entries[s].tool.Some? ==> st.entries[s].tool == Find(st.recorded, s))
    && (Pending(st, s) ==> st.entries[s].dirty && st.entries[s].tool.Some?)
    && (!Pending(st, s) ==> LastSent(st.log, s) == Find(st.recorded, s))
  }

  // The tool of the last snapshot of s that carries one and whose write landed.
  function LastLanded(log: seq<Taken>, landed: set<nat>, s: string): Option<Tool> {
    if log == [] then None
    else
      var t := log[|log| - 1];
      if t.session == s && t.snap.tool.Some? && |log| - 1 in landed then t.snap.tool
      else LastLanded(log[..|log| - 1], landed, s)
  }

  // Writes of s below `done` are over, those from `done` on are in flight.
  ghost predicate StoredUpTo(st: State, s: string, done: nat) {
    && done <= |st.log|
    && (forall k :: k in st.inFlight ==> k < |st.log|)
    && (forall k :: 0 <= k < |st.log| && st.log[k].session == s ==> (k in st.inFlight <==> done <= k))
    && (forall k :: k in st.landed ==> k < |st.log| && (st.log[k].session == s ==> k < done))
    && Find(st.store, s) == LastLanded(st.log[..done], st.landed, s)
  }

  // Writes of s end in the order of their snapshots.
  ghost predicate InOrder(st: State, step: Step, s: string) {
    step.Finish? && step.write < |st.log| && st.log[step.write].session == s ==>
      forall k :: k in st.inFlight && k < |st.log| && st.log[k].session == s ==> step.write <= k
  }

  ghost predicate AlwaysInOrder(st: State, steps: seq<Step>, s: string, late: nat)
    requires IsRun(st, steps, late)
    decreases |steps|
  {
    steps == [] || (InOrder(st, steps[0], s) && AlwaysInOrder(Next(st, steps[0], late), steps[1..], s, late))
  }

  // The landed tool depends on the writes of s alone.
  lemma {:induction false} LandedSame(log: seq<Taken>, a: set<nat>, b: set<nat>, s: string)
    requires forall k :: 0 <= k < |log| && log[k].session == s ==> (k in a <==> k in b)
    ensures LastLanded(log, a, s) == LastLanded(log, b, s)
  {
    if log != [] {
      LandedSame(log[..|log| - 1], a, b, s);
    }
  }

  lemma {:induction false} LandedSkips(log: seq<Taken>, landed: set<nat>, s: string, m: nat, n: nat)
    requires m <= n <= |log| && forall k :: m <= k < n ==> log[k].session != s
    ensures LastLanded(log[..m], landed, s) == LastLanded(log[..n], landed, s)
    decreases n
  {
    if m < n {
      assert log[..n][..n - 1] == log[..n - 1];
      LandedSkips(log, landed, s, m, n - 1);
    }
  }

  // Without a failed write the last landed tool is the last one sent.
  lemma {:induction false} AllLanded(log: seq<Taken>, landed: set<nat>, s: string)
    requires forall k :: 0 <= k < |log| && log[k].session == s ==> k in landed
    ensures LastLanded(log, landed, s) == LastSent(log, s)
  {
    if log != [] {
      AllLanded(log[..|log| - 1], landed, s);
    }
  }

  lemma LastSentAppend(log: seq<Taken>, t: Taken, s: string)
    ensures LastSent(log + [t], s) ==
            if t.session == s && t.snap.tool.Some? then t.snap.tool else LastSent(log, s)
  {
    assert (log + [t])[..|log|] == log;
  }

  lemma ToolKnownRecord(st: State, project: string, q: string, tool: Option<Tool>, at: string, s: string)
    requires ToolKnown(st, s)
    ensures ToolKnown(AfterRecord(st, project, q, tool, at), s)
  {
    var e := RecordShape(st, project, q, tool, at);
    LastSentAppend(st.log, Taken(q, st.now, Contents(e)), s);
  }

  lemma ToolKnownFire(st: State, timer: nat, s: string)
    requires ToolKnown(st, s) && timer in st.timers
    ensures ToolKnown(AfterFire(st, timer), s)
  {
    var q := st.timers[timer].session;
    if q in st.entries {
      LastSentAppend(st.log, Taken(q, st.now, Contents(st.entries[q])), s);
    }
  }

  lemma ToolKnownStep(st: State, step: Step, s: string, late: nat)
    requires ToolKnown(st, s) && Enabled(st, step, late) && !Removes(st, step, s)
    ensures ToolKnown(Next(st, step, late), s)
  {
    match step {
      case Record(project, session, tool, at) => ToolKnownRecord(st, project, session, tool, at, s);
      case Fire(timer) => ToolKnownFire(st, timer, s);
      case _ =>
    }
  }

  lemma StoredLog(st: State, q: string, snap: Option<Snapshot>, s: string, done: nat)
    requires StoredUpTo(st, s, done)
    ensures StoredUpTo(Log(st, q, snap), s, done)
  {
    assert Log(st, q, snap).log[..done] == st.log[..done];
  }

  lemma StoredOwnFinish(st: State, k: nat, result: WriteResult, s: string, done: nat)
    requires StoredUpTo(st, s, done) && k in st.inFlight && k < |st.log| && st.log[k].session == s
    requires forall i :: i in st.inFlight && i < |st.log| && st.log[i].session == s ==> k <= i
    ensures StoredUpTo(AfterFinish(st, k, result), s, k + 1)
  {
    hide LastLanded;
    var next := AfterFinish(st, k, result);
    LandedSkips(st.log, st.landed, s, done, k);
    assert st.log[..k + 1][..k] == st.log[..k];
    LandedSame(st.log[..k], st.landed, next.landed, s);
    OwnFinishLands(st, k, result, s);
  }

  // The store after a write of s: what landed last among the writes up to it.
  lemma OwnFinishLands(st: State, k: nat, result: WriteResult, s: string)
    requires k in st.inFlight && k < |st.log| && st.log[k].session == s && k !in st.landed
    requires LastLanded(st.log[..k], AfterFinish(st, k, result).landed, s) == Find(st.store, s)
    ensures LastLanded(st.log[..k + 1], AfterFinish(st, k, result).landed, s) ==
             Find(AfterFinish(st, k, result).store, s)
  {
    assert st.log[..k + 1][..k] == st.log[..k];
  }

  lemma StoredFinish(st: State, k: nat, result: WriteResult, s: string, done: nat) returns (done': nat)
    requires StoredUpTo(st, s, done) && k in st.inFlight && k < |st.log| && InOrder(st, Finish(k, result), s)
    ensures StoredUpTo(AfterFinish(st, k, result), s, done')
  {
    if st.log[k].session == s {
      StoredOwnFinish(st, k, result, s, done);
      done' := k + 1;
    } else {
      done' := done;
      LandedSame(st.log[..done], st.landed, AfterFinish(st, k, result).landed, s);
    }
  }

  lemma StoredStep(st: State, step: Step, s: string, late: nat, done: nat) returns (done': nat)
    requires StoredUpTo(st, s, done) && Enabled(st, step, late) && InOrder(st, step, s)
    ensures StoredUpTo(Next(st, step, late), s, done')
  {
    done' := done;
    match step {
      case Record(project, q, tool, at) =>
        var e := RecordShape(st, project, q, tool, at);
        StoredLog(st, q, Some(Contents(e)), s, done);
      case Fire(timer) =>
        var q := st.timers[timer].session;
        StoredLog(st, q, Fired(st.entries, st.now, q).1, s, done);
      case Finish(k, result) => done' := StoredFinish(st, k, result, s, done);
      case _ =>
    }
  }

  lemma {:induction false} ToolAlways(st: State, steps: seq<Step>, s: string, late: nat, done: nat)
    returns (done': nat)
    requires ToolKnown(st, s) && StoredUpTo(st, s, done)
    requires IsRun(st, steps, late) && NeverRemoves(st, steps, s, late) && AlwaysInOrder(st, steps, s, late)
    ensures ToolKnown(End(st, steps, late), s) && StoredUpTo(End(st, steps, late), s, done')
    decreases |steps|
  {
    hide ToolKnown, StoredUpTo, Next, InOrder, Removes;
    done' := done;
    if steps != [] {
      ToolKnownStep(st, steps[0], s, late);
      var d := StoredStep(st, steps[0], s, late, done);
      done' := ToolAlways(Next(st, steps[0], late), steps[1..], s, late, d);
    }
  }

  ghost predicate NothingInFlight(st: State, s: string) {
    forall k :: k in st.inFlight && k < |st.log| ==> st.log[k].session != s
  }

  // At every point of every run whose writes of s end in order, failed or not: the
  // last tool reported for s waits in its entry with a flush armed, or was the last
  // one sent; and once no write of s is in flight the store holds it exactly when
  // the last tool whose write landed is the last one sent.
  lemma StoredToolAgreesIff(steps: seq<Step>, s: string, late: nat)
    requires IsRun(INIT, steps, late) && NeverRemoves(INIT, steps, s, late) && AlwaysInOrder(INIT, steps, s, late)
    ensures var end := End(INIT, steps, late);
            && (Pending(end, s) ==> end.entries[s].timerArmed && end.entries[s].tool == Find(end.recorded, s))
            && (!Pending(end, s) ==> LastSent(end.log, s) == Find(end.recorded, s))
            && (NothingInFlight(end, s) ==> Find(end.store, s) == LastLanded(end.log, end.landed, s))
            && (!Pending(end, s) && NothingInFlight(end, s) ==>
                  (Find(end.store, s) == Find(end.recorded, s) <==>
                   LastLanded(end.log, end.landed, s) == LastSent(end.log, s)))
  {
    var done := ToolAlways(INIT, steps, s, late, 0);
    BackedAlways(INIT, steps, late);
    var end := End(INIT, steps, late);
    if NothingInFlight(end, s) {
      LandedSkips(end.log, end.landed, s, done, |end.log|);
      assert end.log[..|end.log|] == end.log;
    }
  }

  // In particular it is the stored tool when no write of s failed.
  lemma StoredToolAgrees(steps: seq<Step>, s: string, late: nat)
    requires IsRun(INIT, steps, late) && NeverRemoves(INIT, steps, s, late) && AlwaysInOrder(INIT, steps, s, late)
    requires var end := End(INIT, steps, late);
             && !Pending(end, s) && NothingInFlight(end, s)
             && forall k :: 0 <= k < |end.log| && end.log[k].session == s ==> k in end.landed
    ensures var end := End(INIT, steps, late);
            Find(end.store, s) == Find(end.recorded, s)
  {
    var end := End(INIT, steps, late);
    StoredToolAgreesIff(steps, s, late);
    AllLanded(end.log, end.landed, s);
  }

  const EDIT: Tool := Tool("Edit", None)
  const LOST_TOOL_RUN: seq<Step> :=
    [Record("p", "a", Some(EDIT), ""), Finish(0, Failed), Wait(THROTTLE), Record("p", "a", Some(EDIT), ""),
        Finish(1, Updated)]

  // One failed write loses the tool for as long as it is reported unchanged.
  lemma FailedWriteLosesTool()
    ensures IsRun(INIT, LOST_TOOL_RUN, 0)
    ensures var end := End(INIT, LOST_TOOL_RUN, 0);
            && end.recorded == map["a" := EDIT] && end.store == map[]
            && !Pending(end, "a") && end.inFlight == {} && |end.log| == 2
  {
    var r := Record("p", "a", Some(EDIT), "");
    var e := Entry("p", "", 0, Some(EDIT), false, false, Some(0), false);
    var s1 := INIT.(entries := map["a" := e], recorded := map["a" := EDIT],
                    log := [Taken("a", 0, Snapshot("p", "", Some(EDIT)))], inFlight := {0});
    var s2 := s1.(inFlight := {});
    var s3 := s2.(now := THROTTLE);
    var s4 := s3.(entries := map["a" := e.(lastSeen := THROTTLE, lastFlush := Some(THROTTLE))],
                  log := s3.log + [Taken("a", THROTTLE, PLAIN)], inFlight := {1});
    assert Next(INIT, r, 0) == s1;
    assert Next(s3, r, 0) == s4;
    Prepend(s4, Finish(1, Updated), [], "a", 0);
    Prepend(s3, r, [Finish(1, Updated)] + [], "a", 0);
    var tail := [r] + ([Finish(1, Updated)] + []);
    Prepend(s2, Wait(THROTTLE), tail, "a", 0);
    Prepend(s1, Finish(0, Failed), [Wait(THROTTLE)] + tail, "a", 0);
    Prepend(INIT, r, [Finish(0, Failed)] + ([Wait(THROTTLE)] + tail), "a", 0);
    assert LOST_TOOL_RUN == [r] + ([Finish(0, Failed)] + ([Wait(THROTTLE)] + tail));
  }

  // ----- Nothing is made up -----

  datatype Report = Report(project: string, session: string, tool: Option<Tool>, at: string)

  function ReportsOf(step: Step): set<Report> {
    if step.Record? then {Report(step.project, step.session, step.tool, step.at)} else {}
  }

  function AllReports(steps: seq<Step>): set<Report> {
    if steps == [] then {} else ReportsOf(steps[0]) + AllReports(steps[1..])
  }

  // Project, text and tool were each reported for the session.
  ghost predicate Reported(reports: set<Report>, s: string, project: string, at: string, tool: Option<Tool>) {
    && (exists r :: r in reports && r.session == s && r.project == project)
    && (exists r :: r in reports && r.session == s && r.at == at)
    && (tool.Some? ==> exists r :: r in reports && r.session == s && r.tool == tool)
  }

  ghost predicate AllReported(st: State, reports: set<Report>) {
    && (forall s :: s in st.entries ==>
          Reported(reports, s, st.entries[s].project, st.entries[s].at, st.entries[s].tool))
    && (forall k :: 0 <= k < |st.log| ==>
          var t := st.log[k]; Reported(reports, t.session, t.snap.project, t.snap.at, t.snap.tool))
  }

  lemma ReportedMore(reports: set<Report>, more: set<Report>, s: string, project: string, at: string,
                     tool: Option<Tool>)
    requires Reported(reports, s, project, at, tool)
    ensures Reported(reports + more, s, project, at, tool)
  {
    var r :| r in reports && r.session == s && r.project == project;
    assert r in reports + more;
    var q :| q in reports && q.session == s && q.at == at;
    assert q in reports + more;
    if tool.Some? {
      var t :| t in reports && t.session == s && t.tool == tool;
      assert t in reports + more;
    }
  }

  lemma AllReportedMore(st: State, reports: set<Report>, more: set<Report>)
    requires AllReported(st, reports)
    ensures AllReported(st, reports + more)
  {
    hide Reported;
    forall s | s in st.entries
      ensures Reported(reports + more, s, st.entries[s].project, st.entries[s].at, st.entries[s].tool)
    {
      ReportedMore(reports, more, s, st.entries[s].project, st.entries[s].at, st.entries[s].tool);
    }
    forall k | 0 <= k < |st.log|
      ensures var t := st.log[k]; Reported(reports + more, t.session, t.snap.project, t.snap.at, t.snap.tool)
    {
      var t := st.log[k];
      ReportedMore(reports, more, t.session, t.snap.project, t.snap.at, t.snap.tool);
    }
  }

  lemma TouchedReported(m: Entries, now: Time, reports: set<Report>, r: Report)
    requires r in reports
    requires r.session in m ==>
               var e := m[r.session]; Reported(reports, r.session, e.project, e.at, e.tool)
    ensures var e := Touched(m, now, r.at, r.project, r.session, r.tool);
            Reported(reports, r.session, e.project, e.at, e.tool)
  {
  }

  // Without a tool there is less to report.
  lemma ContentsReported(reports: set<Report>, s: string, e: Entry)
    requires Reported(reports, s, e.project, e.at, e.tool)
    ensures var c := Contents(e); Reported(reports, s, c.project, c.at, c.tool)
  {
  }

  lemma ReportedRecord(st: State, reports: set<Report>, r: Report)
    requires AllReported(st, reports) && r in reports
    ensures AllReported(AfterRecord(st, r.project, r.session, r.tool, r.at), reports)
  {
    hide Reported, Touched, Due, Contents;
    var e := Touched(st.entries, st.now, r.at, r.project, r.session, r.tool);
    TouchedReported(st.entries, st.now, reports, r);
    ContentsReported(reports, r.session, e);
  }

  lemma ReportedFire(st: State, reports: set<Report>, id: nat)
    requires AllReported(st, reports) && id in st.timers
    ensures AllReported(AfterFire(st, id), reports)
  {
    hide Reported, Contents;
    var s := st.timers[id].session;
    if s in st.entries {
      ContentsReported(reports, s, st.entries[s]);
    }
  }

  lemma ReportedStep(st: State, reports: set<Report>, step: Step, late: nat)
    requires AllReported(st, reports) && Enabled(st, step, late)
    ensures AllReported(Next(st, step, late), reports + ReportsOf(step))
  {
    hide Reported, AfterRecord, AfterFire;
    AllReportedMore(st, reports, ReportsOf(step));
    match step {
      case Record(project, s, tool, at) =>
        ReportedRecord(st, reports + ReportsOf(step), Report(project, s, tool, at));
      case Fire(id) => ReportedFire(st, reports + ReportsOf(step), id);
      case _ =>
    }
  }

  lemma {:induction false} ReportedAlways(st: State, reports: set<Report>, steps: seq<Step>, late: nat)
    requires AllReported(st, reports) && IsRun(st, steps, late)
    ensures AllReported(End(st, steps, late), reports + AllReports(steps))
    decreases |steps|
  {
    hide AllReported, Next, ReportsOf;
    if steps == [] {
      assert reports + AllReports(steps) == reports;
    } else {
      ReportedStep(st, reports, steps[0], late);
      ReportedAlways(Next(st, steps[0], late), reports + ReportsOf(steps[0]), steps[1..], late);
      assert reports + ReportsOf(steps[0]) + AllReports(steps[1..]) == reports + AllReports(steps);
    }
  }

  // In every run a snapshot names a project, a text and a tool that were reported for
  // its own session.
  lemma SnapshotsAreReported(steps: seq<Step>, late: nat)
    requires IsRun(INIT, steps, late)
    ensures AllReported(End(INIT, steps, late), AllReports(steps))
  {
    ReportedAlways(INIT, {}, steps, late);
    assert {} + AllReports(steps) == AllReports(steps);
  }
}
