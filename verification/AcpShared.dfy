/**
 The state an ACP connection shares between its handle, its notification handler
 and its actor (`Shared`), and the operations on it. Each operation is what the
 program does under one lock, or under nested ones; `Dispose` takes its locks one
 after the other, and AcpTurns takes its steps apart.
 */
module AcpShared {
  import opened Wrappers

  type Time = nat

  datatype Status = Pending | InProgress | Completed | Failed | OtherStatus

  datatype Update =
    | ToolCall(id: string, status: Status)
    | ToolCallUpdate(id: string, newStatus: Option<Status>)
    | OtherUpdate

  // `sink` is the turn whose channel receives updates; `outOfBand` says whether the
  // sink for updates outside any prompt is attached.
  datatype State = State(sink: Option<nat>, outOfBand: bool, session: Option<string>, disposed: bool,
                         lastActivity: Time, tools: set<string>)

  // ----- Open tools (`apply_tool_update`) -----

  function ToolsAfter(tools: set<string>, u: Update): set<string> {
    match u
    case ToolCall(id, status) =>
      if status == Completed || status == Failed then tools - {id} else tools + {id}
    case ToolCallUpdate(id, status) =>
      if status == Some(Completed) || status == Some(Failed) then tools - {id}
      else if status == Some(Pending) || status == Some(InProgress) then tools + {id}
      else tools
    case OtherUpdate => tools
  }

  function ToolsAfterAll(tools: set<string>, updates: seq<Update>): set<string> {
    if updates == [] then tools
    else ToolsAfter(ToolsAfterAll(tools, updates[..|updates| - 1]), updates[|updates| - 1])
  }

  // The update says whether the tool is open: a call always does, a later update
  // only with a status that is known.
  predicate SaysOpen(u: Update, id: string) {
    || (u.ToolCall? && u.id == id && u.status != Completed && u.status != Failed)
    || (u.ToolCallUpdate? && u.id == id && (u.newStatus == Some(Pending) || u.newStatus == Some(InProgress)))
  }

  predicate SaysClosed(u: Update, id: string) {
    || (u.ToolCall? && u.id == id && (u.status == Completed || u.status == Failed))
    || (u.ToolCallUpdate? && u.id == id && (u.newStatus == Some(Completed) || u.newStatus == Some(Failed)))
  }

  // After any updates a tool is open exactly when the last update that says so, says open.
  lemma {:induction false} OpenIffLastSaysOpen(updates: seq<Update>, id: string)
    ensures id in ToolsAfterAll({}, updates) <==>
            exists i :: 0 <= i < |updates| && SaysOpen(updates[i], id)
                        && forall j :: i < j < |updates| ==> !SaysClosed(updates[j], id)
  {
    if updates != [] {
      var n := |updates| - 1;
      var front, last := updates[..n], updates[n];
      OpenIffLastSaysOpen(front, id);
      if SaysOpen(last, id) {
        assert SaysOpen(updates[n], id);
      } else if id in ToolsAfterAll({}, updates) {
        var i :| 0 <= i < n && SaysOpen(front[i], id) && forall j :: i < j < n ==> !SaysClosed(front[j], id);
        assert SaysOpen(updates[i], id);
        forall j | i < j < |updates| ensures !SaysClosed(updates[j], id) {
          assert j < n ==> updates[j] == front[j];
        }
      }
    }
  }

  // ----- What each operation does -----

  function Released(s: State, turn: nat): State {
    if s.sink == Some(turn) then s.(sink := None, tools := {}) else s
  }

  function Concerns(s: State, session: string): bool {
    s.session.None? || s.session.value == session
  }

  // A notification while a prompt sink is attached.
  function Routed(s: State, now: Time, session: string, u: Update): State {
    s.(lastActivity := now, tools := if Concerns(s, session) then ToolsAfter(s.tools, u) else s.tools)
  }

  // Where the second half of the handler sends an update that found no sink.
  predicate GoesOutOfBand(s: State, session: string) {
    s.outOfBand && s.session == Some(session)
  }

  datatype Dest = ToSink(turn: nat) | NotYet

  // ----- The program -----

  class Shared {
    var activeUpdate: Option<nat>
    var outOfBand: bool
    var sessionId: Option<string>
    var disposed: bool
    var lastActivity: Time
    var openTools: set<string>

    function Value(): State
      reads this
    {
      State(activeUpdate, outOfBand, sessionId, disposed, lastActivity, openTools)
    }

    constructor (now: Time)
      ensures Value() == State(None, false, None, false, now, {})
    {
      activeUpdate, outOfBand, sessionId, disposed := None, false, None, false;
      lastActivity, openTools := now, {};
    }

    method ApplyToolUpdate(update: Update)
      modifies this`openTools
      ensures openTools == ToolsAfter(old(openTools), update)
    {
      match update {
        case ToolCall(id, status) =>
          if status == Completed || status == Failed {
            openTools := openTools - {id};
            return;
          }
          openTools := openTools + {id};
        case ToolCallUpdate(id, status) =>
          match status {
            case Some(Completed) => openTools := openTools - {id};
            case Some(Failed) => openTools := openTools - {id};
            case Some(Pending) => openTools := openTools + {id};
            case Some(InProgress) => openTools := openTools + {id};
            case _ =>
          }
        case OtherUpdate =>
      }
    }

    // The first half of the notification handler, under the sink's lock.
    method Notify(now: Time, session: string, update: Update) returns (dest: Dest)
      modifies this`lastActivity, this`openTools
      ensures dest == if activeUpdate.Some? then ToSink(activeUpdate.value) else NotYet
      ensures lastActivity == if dest.ToSink? then now else old(lastActivity)
      ensures openTools == if dest.ToSink? && (sessionId.None? || sessionId == Some(session))
                           then ToolsAfter(old(openTools), update) else old(openTools)
      ensures Value() == if dest == NotYet then old(Value()) else Routed(old(Value()), now, session, update)
    {
      if activeUpdate.None? {
        return NotYet;
      }
      lastActivity := now;
      if sessionId.None? || sessionId.value == session {
        ApplyToolUpdate(update);
      }
      return ToSink(activeUpdate.value);
    }

    // The second half, for an update that found no sink.
    method NotifyOutOfBand(session: string) returns (delivered: bool)
      ensures delivered <==> outOfBand && sessionId == Some(session)
      ensures delivered <==> GoesOutOfBand(Value(), session)
    {
      delivered := outOfBand && sessionId == Some(session);
    }

    method InstallSink(turn: nat)
      modifies this`activeUpdate
      ensures Value() == old(Value()).(sink := Some(turn))
    {
      activeUpdate := Some(turn);
    }

    method ReleaseTurnSink(turn: nat)
      modifies this`activeUpdate, this`openTools
      ensures activeUpdate == if old(activeUpdate) == Some(turn) then None else old(activeUpdate)
      ensures openTools == if old(activeUpdate) == Some(turn) then {} else old(openTools)
      ensures Value() == Released(old(Value()), turn)
    {
      if activeUpdate == Some(turn) {
        activeUpdate := None;
        openTools := {};
      }
    }

    method ClearOpenTools()
      modifies this`openTools
      ensures Value() == old(Value()).(tools := {})
    {
      openTools := {};
    }

    // `dispose`; true when this call is the one that disposed.
    method Dispose() returns (first: bool)
      modifies this
      ensures first == !old(disposed)
      ensures Value() == if first then old(Value()).(disposed := true, sink := None, tools := {}, outOfBand := false)
                         else old(Value())
    {
      first := !disposed;
      disposed := true;
      if !first {
        return;
      }
      activeUpdate := None;
      openTools := {};
      outOfBand := false;
    }
  }
}
