/**
 The per-session activity throttle: a leading flush, one trailing flush per
 window, idle eviction, and removal.

 Each method of the tracker is proved against a function of the map of entries;
 ThrottleRuns closes the program into a timed transition system. Times and
 durations are whole nanoseconds, the resolution of the program's clock.
 */
module ActivityThrottle {
  import opened Wrappers

  type Time = nat

  const THROTTLE: nat := 5_000_000_000
  const IDLE_EVICT: nat := 600_000_000_000

  datatype Tool = Tool(name: string, detail: Option<string>)

  datatype Entry = Entry(
    project: string,
    at: string,              // wall-clock text of the latest record
    lastSeen: Time,
    tool: Option<Tool>,
    toolPending: bool,       // tool changed since the last snapshot
    dirty: bool,             // a record arrived since the last snapshot
    lastFlush: Option<Time>,
    timerArmed: bool)

  datatype Snapshot = Snapshot(project: string, at: string, tool: Option<Tool>)

  // The background task a record starts.
  datatype Spawned = Nothing | Write(snap: Snapshot) | Trailing(due: nat)

  type Entries = map<string, Entry>

  // ----- What each operation does to the entries -----

  function SaturatingSub(a: nat, b: nat): nat {
    if a < b then 0 else a - b
  }

  function Keeps(e: Entry, now: Time): bool {
    e.timerArmed || e.dirty || SaturatingSub(now, e.lastSeen) <= IDLE_EVICT
  }

  function Evicted(m: Entries, now: Time): Entries {
    map s | s in m && Keeps(m[s], now) :: m[s]
  }

  function Settled(e: Entry): Entry {
    if e.dirty then e.(dirty := false, toolPending := false) else e
  }

  function Contents(e: Entry): Snapshot {
    Snapshot(e.project, e.at, if e.toolPending then e.tool else None)
  }

  function SnapshotOf(e: Entry): Option<Snapshot> {
    if e.dirty then Some(Contents(e)) else None
  }

  function Touched(m: Entries, now: Time, at: string, project: string, session: string,
                   tool: Option<Tool>): Entry
  {
    var e := if session in m then m[session]
             else Entry(project, "", now, None, false, false, None, false);
    var e := e.(at := at, dirty := true, lastSeen := now);
    if tool.Some? && e.tool != tool then e.(tool := tool, toolPending := true) else e
  }

  function Due(e: Entry, now: Time): nat {
    match e.lastFlush
    case None => 0
    case Some(t) => SaturatingSub(THROTTLE, SaturatingSub(now, t))
  }

  function Recorded(m: Entries, now: Time, at: string, project: string, session: string,
                    tool: Option<Tool>): (Entries, Spawned)
  {
    var e := Touched(m, now, at, project, session, tool);
    if e.timerArmed then (m[session := e], Nothing)
    else if Due(e, now) == 0 then
      (Evicted(m[session := Settled(e.(lastFlush := Some(now)))], now),
       Write(Contents(e)))
    else (m[session := e.(timerArmed := true)], Trailing(Due(e, now)))
  }

  function Fired(m: Entries, now: Time, session: string): (Entries, Option<Snapshot>) {
    if session !in m then (m, None)
    else
      var e := m[session];
      (Evicted(m[session := Settled(e.(timerArmed := false, lastFlush := Some(now)))], now),
       SnapshotOf(e))
  }

  // How the store answered a write: a row was updated, no such session, or an error.
  datatype WriteResult = Updated | Missing | Failed

  datatype Broadcast = SessionActivity(session: string, at: string, tool: Option<Tool>)

  // ----- The program -----

  class ActivityTracker {
    var entries: Entries

    constructor ()
      ensures entries == map[]
    {
      entries := map[];
    }

    method TakeSnapshot(session: string) returns (snap: Option<Snapshot>)
      requires session in entries
      modifies this
      ensures snap == SnapshotOf(old(entries[session]))
      ensures entries == old(entries)[session := Settled(old(entries[session]))]
    {
      var e := entries[session];
      if !e.dirty {
        snap := None;
        return;
      }
      var tool := if e.toolPending then e.tool else None;
      entries := entries[session := e.(dirty := false, toolPending := false)];
      snap := Some(Snapshot(e.project, e.at, tool));
    }

    method EvictIdle(now: Time)
      modifies this
      ensures entries == Evicted(old(entries), now)
    {
      var rest := entries.Keys;
      while rest != {}
        invariant rest <= old(entries).Keys
        invariant entries.Keys <= old(entries).Keys
        invariant forall s :: s in entries ==> entries[s] == old(entries)[s]
        invariant forall s :: s in rest ==> s in entries
        invariant forall s :: s in old(entries) && s !in rest ==> (s in entries <==> Keeps(old(entries)[s], now))
        decreases rest
      {
        var s :| s in rest;
        if !Keeps(entries[s], now) {
          entries := entries - {s};
        }
        rest := rest - {s};
      }
    }

    method RecordInner(now: Time, at: string, project: string, session: string, tool: Option<Tool>)
      returns (spawned: Spawned)
      modifies this
      ensures (entries, spawned) == Recorded(old(entries), now, at, project, session, tool)
    {
      if session !in entries {
        entries := entries[session := Entry(project, "", now, None, false, false, None, false)];
      }
      var e := entries[session].(at := at, dirty := true, lastSeen := now);
      if tool.Some? && e.tool != tool {
        e := e.(tool := tool, toolPending := true);
      }
      assert e == Touched(old(entries), now, at, project, session, tool);
      entries := entries[session := e];
      assert entries == old(entries)[session := e];
      if e.timerArmed {
        spawned := Nothing;
        return;
      }
      var due := if e.lastFlush.None? then 0
                 else SaturatingSub(THROTTLE, SaturatingSub(now, e.lastFlush.value));
      if due == 0 {
        entries := entries[session := e.(lastFlush := Some(now))];
        var snap := TakeSnapshot(session);
        assert entries == old(entries)[session := Settled(e.(lastFlush := Some(now)))];
        EvictIdle(now);
        spawned := if snap.Some? then Write(snap.value) else Nothing;
      } else {
        entries := entries[session := e.(timerArmed := true)];
        assert entries == old(entries)[session := e.(timerArmed := true)];
        spawned := Trailing(due);
      }
    }

    // The body of the task that `spawn_trailing` starts, after its sleep.
    method TrailingFlush(now: Time, session: string) returns (snap: Option<Snapshot>)
      modifies this
      ensures (entries, snap) == Fired(old(entries), now, session)
    {
      snap := None;
      if session in entries {
        entries := entries[session := entries[session].(timerArmed := false, lastFlush := Some(now))];
        var e := entries[session];
        snap := TakeSnapshot(session);
        assert entries == old(entries)[session := Settled(e)];
        EvictIdle(now);
      }
    }

    method Forget(session: string)
      modifies this
      ensures entries == old(entries) - {session}
    {
      entries := entries - {session};
    }

    // `write_snapshot` after the store answered.
    method WriteSnapshot(session: string, snap: Snapshot, result: WriteResult)
      returns (sent: Option<Broadcast>)
      modifies this
      ensures entries == if result == Missing then old(entries) - {session} else old(entries)
      ensures sent == if result == Updated then Some(SessionActivity(session, snap.at, snap.tool)) else None
    {
      sent := None;
      match result {
        case Updated => sent := Some(SessionActivity(session, snap.at, snap.tool));
        case Missing => entries := entries - {session};
        case Failed =>
      }
    }
  }
}
