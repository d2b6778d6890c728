/**
 The claude transcript importer (`parse_claude_native_history`).

 The parser keeps two things from line to line: the id of the turn in progress,
 and the edit calls whose result has not been seen. Both are lost when an import
 starts in the middle of the transcript. The main result says exactly when that
 makes no difference.

 Fresh turn ids are named after their line, so that equality of events means
 equality up to the choice of fresh ids. A diff carries the position of the call
 it was made from.
 */
module ClaudeImport {
  import SkillText
  import opened Wrappers

  datatype TurnId = Native(uuid: string) | Fresh(line: nat)

  datatype Edit = Edit(oldText: Option<string>, newText: Option<string>, path: Option<string>)

  // The input of an Edit, Write or MultiEdit call.
  datatype Call =
    | EditCall(edit: Edit)
    | WriteCall(content: Option<string>, path: Option<string>)
    | MultiEditCall(edits: seq<Edit>, path: Option<string>)

  datatype Diff = Diff(path: string, oldText: string, newText: string)

  datatype UserBlock =
    | TextBlock(text: string)
    | ResultBlock(reply: Reply)
    | OtherUserBlock

  datatype Reply = Reply(id: Option<string>, content: Option<string>, isError: bool)

  datatype UserContent = Plain(text: string) | Blocks(blocks: seq<UserBlock>) | NoContent

  // `call` is present when the name is one of the diff tools and the input is an object.
  datatype AgentBlock =
    | Say(said: string)
    | Think(thought: string)
    | UseTool(id: Option<string>, name: Option<string>, input: string, call: Option<Call>)
    | OtherAgentBlock

  datatype TokenUsage = TokenUsage(input: int, output: int, cacheRead: int, cacheCreate: int, model: string)

  // Blank and malformed lines, skipped types and sidechains are Skipped. `dropped`
  // lines are meta lines and compaction summaries.
  datatype Line =
    | Skipped
    | User(ts: Option<string>, uuid: Option<string>, autonomous: bool, dropped: bool, injected: bool,
        content: UserContent)
    | Agent(ts: Option<string>, dropped: bool, blocks: seq<AgentBlock>, usage: Option<TokenUsage>)

  datatype Origin = Origin(line: nat, block: nat)

  datatype Attached = Attached(diffs: seq<Diff>, origin: Origin)

  datatype Payload =
    | Status
    | UserText(text: string)
    | AgentText(text: string)
    | Thinking(text: string)
    | ToolUse(id: Option<string>, name: Option<string>, input: string)
    | ToolResult(id: Option<string>, content: Option<string>, isError: bool, attached: Option<Attached>)
    | Usage(usage: TokenUsage)

  datatype Event = Event(ts: Option<string>, turn: Option<TurnId>, payload: Payload)

  // ----- Diffs -----

  function EditDiffs(e: Edit, path: Option<string>): seq<Diff> {
    if e.oldText.Some? && e.newText.Some? then [Diff(path.GetOr(""), e.oldText.value, e.newText.value)] else []
  }

  function AllEditDiffs(edits: seq<Edit>, path: Option<string>): seq<Diff> {
    if edits == [] then []
    else EditDiffs(edits[0], if edits[0].path.Some? then edits[0].path else path) + AllEditDiffs(edits[1..], path)
  }

  function DiffsOf(c: Call): seq<Diff> {
    match c
    case EditCall(e) => EditDiffs(e, e.path)
    case WriteCall(content, path) => if content.Some? then [Diff(path.GetOr(""), "", content.value)] else []
    case MultiEditCall(edits, path) => AllEditDiffs(edits, path)
  }

  datatype Pending = Pending(call: Call, origin: Origin)

  type Calls = map<string, Pending>

  // The diff a result for this id would carry.
  function DiffFor(calls: Calls, id: Option<string>): Option<Attached> {
    if id.Some? && id.value in calls && DiffsOf(calls[id.value].call) != [] then
      Some(Attached(DiffsOf(calls[id.value].call), calls[id.value].origin))
    else None
  }

  function Answered(calls: Calls, id: Option<string>): Calls {
    if id.Some? then calls - {id.value} else calls
  }

  // ----- One line -----

  datatype State = State(turn: Option<TurnId>, calls: Calls)

  const START: State := State(None, map[])

  function Texts(blocks: seq<UserBlock>): seq<string> {
    if blocks == [] then []
    else Texts(blocks[..|blocks| - 1])
         + var b := blocks[|blocks| - 1]; if b.TextBlock? then [b.text] else []
  }

  function Replies(blocks: seq<UserBlock>): seq<Reply> {
    if blocks == [] then []
    else Replies(blocks[..|blocks| - 1])
         + var b := blocks[|blocks| - 1]; if b.ResultBlock? then [b.reply] else []
  }

  const MARKER: string := "# vibe-station Agent Skill"

  // The first text that is not the injected system prompt, else the first text.
  function UserPrompt(texts: seq<string>): string
    requires texts != []
  {
    FirstPlain(texts).GetOr(texts[0])
  }

  function FirstPlain(texts: seq<string>): Option<string> {
    if texts == [] then None
    else if !(MARKER <= texts[0]) then Some(texts[0])
    else FirstPlain(texts[1..])
  }

  // The line starts a turn of its own.
  predicate Opens(l: Line) {
    l.User? && (l.autonomous || (!l.dropped && !l.injected &&
      (l.content.Plain? || (l.content.Blocks? && Texts(l.content.blocks) != []))))
  }

  function TurnOf(l: Line, i: nat): TurnId
    requires l.User?
  {
    if l.uuid.Some? then Native(l.uuid.value) else Fresh(i)
  }

  function OpeningEvent(l: Line, i: nat): Event
    requires Opens(l)
  {
    Event(l.ts, Some(TurnOf(l, i)),
          if l.autonomous then Status
          else if l.content.Plain? then UserText(SkillText.Escape(l.content.text))
          else UserText(SkillText.Escape(UserPrompt(Texts(l.content.blocks)))))
  }

  // The tool results the line reports.
  function RepliesIn(l: Line): seq<Reply> {
    if l.User? && !l.autonomous && !l.dropped && l.content.Blocks? then Replies(l.content.blocks) else []
  }

  // Events for the last reply of the list come last; each takes its call out of the table.
  function ReplyEvents(ts: Option<string>, turn: Option<TurnId>, replies: seq<Reply>, calls: Calls): seq<Event> {
    if replies == [] then []
    else
      var front, r := replies[..|replies| - 1], replies[|replies| - 1];
      ReplyEvents(ts, turn, front, calls)
      + [Event(ts, turn, ToolResult(r.id, r.content, r.isError,
          DiffFor(CallsAfter(replies, calls, |replies| - 1), r.id)))]
  }

  function CallsAfter(replies: seq<Reply>, calls: Calls, n: nat): Calls
    requires n <= |replies|
  {
    if n == 0 then calls else Answered(CallsAfter(replies, calls, n - 1), replies[n - 1].id)
  }

  function BlockEvents(ts: Option<string>, turn: Option<TurnId>, b: AgentBlock): seq<Event> {
    match b
    case Say(text) => [Event(ts, turn, AgentText(text))]
    case Think(text) => [Event(ts, turn, Thinking(text))]
    case UseTool(id, name, input, _) => [Event(ts, turn, ToolUse(id, name, input))]
    case OtherAgentBlock => []
  }

  function BlocksEvents(ts: Option<string>, turn: Option<TurnId>, blocks: seq<AgentBlock>): seq<Event> {
    if blocks == [] then []
    else BlocksEvents(ts, turn, blocks[..|blocks| - 1]) + BlockEvents(ts, turn, blocks[|blocks| - 1])
  }

  predicate IsEditCall(b: AgentBlock) {
    b.UseTool? && b.id.Some? && b.call.Some?
  }

  // The table after the first n blocks of line i.
  function CallsWith(calls: Calls, i: nat, blocks: seq<AgentBlock>, n: nat): Calls
    requires n <= |blocks|
  {
    if n == 0 then calls
    else
      var before, b := CallsWith(calls, i, blocks, n - 1), blocks[n - 1];
      if IsEditCall(b) then before[b.id.value := Pending(b.call.value, Origin(i, n - 1))] else before
  }

  function UsageEvents(ts: Option<string>, turn: Option<TurnId>, usage: Option<TokenUsage>): seq<Event> {
    if usage.Some? && usage.value.input + usage.value.output + usage.value.cacheRead + usage.value.cacheCreate > 0 then
      [Event(ts, turn, Usage(usage.value))]
    else []
  }

  function LineEvents(l: Line, i: nat, st: State): seq<Event> {
    match l
    case Skipped => []
    case User(_, _, _, _, _, _) =>
      (if Opens(l) then [OpeningEvent(l, i)] else [])
      + ReplyEvents(l.ts, AfterLine(l, i, st).turn, RepliesIn(l), st.calls)
    case Agent(ts, dropped, blocks, usage) =>
      if dropped then [] else BlocksEvents(ts, st.turn, blocks) + UsageEvents(ts, st.turn, usage)
  }

  function AfterLine(l: Line, i: nat, st: State): State {
    match l
    case Skipped => st
    case User(_, _, _, _, _, _) =>
      State(if Opens(l) then Some(TurnOf(l, i)) else st.turn, CallsAfter(RepliesIn(l), st.calls, |RepliesIn(l)|))
    case Agent(_, dropped, blocks, _) =>
      if dropped then st else st.(calls := CallsWith(st.calls, i, blocks, |blocks|))
  }

  // ----- Whole transcripts -----

  // State and events after the lines start..n, entered with state st.
  function StateFrom(lines: seq<Line>, start: nat, n: nat, st: State): State
    requires start <= n <= |lines|
    decreases n
  {
    if n == start then st
    else AfterLine(lines[n - 1], n - 1, StateFrom(lines, start, n - 1, st))
  }

  function EventsFrom(lines: seq<Line>, start: nat, n: nat, st: State): seq<Event>
    requires start <= n <= |lines|
    decreases n
  {
    if n == start then []
    else EventsFrom(lines, start, n - 1, st)
         + LineEvents(lines[n - 1], n - 1, StateFrom(lines, start, n - 1, st))
  }

  function Parse(lines: seq<Line>, start: nat): (seq<Event>, nat) {
    (if start <= |lines| then EventsFrom(lines, start, |lines|, START) else [], |lines|)
  }

  // ----- The program -----

  method ParseClaudeNativeHistory(lines: seq<Line>, startLine: nat) returns (events: seq<Event>, next: nat)
    ensures (events, next) == Parse(lines, startLine)
  {
    events := [];
    var turn: Option<TurnId>, calls: Calls := None, map[];
    for i := 0 to |lines|
      invariant i <= startLine ==> events == [] && State(turn, calls) == START
      invariant i > startLine ==> events == EventsFrom(lines, startLine, i, START)
      invariant i > startLine ==> State(turn, calls) == StateFrom(lines, startLine, i, START)
    {
      if i < startLine {
        continue;
      }
      ghost var before, st := events, State(turn, calls);
      var l := lines[i];
      match l {
        case Skipped =>
        case User(_, _, _, _, _, _) =>
          events, turn, calls := ReadUser(l, i, events, turn, calls);
        case Agent(_, _, _, _) =>
          events, calls := ReadAgent(l, i, events, turn, calls);
      }
      assert events == before + LineEvents(l, i, st) && State(turn, calls) == AfterLine(l, i, st);
    }
    next := |lines|;
  }

  method ReadUser(l: Line, i: nat, events0: seq<Event>, turn0: Option<TurnId>, calls0: Calls)
    returns (events: seq<Event>, turn: Option<TurnId>, calls: Calls)
    requires l.User?
    ensures events == events0 + LineEvents(l, i, State(turn0, calls0))
    ensures State(turn, calls) == AfterLine(l, i, State(turn0, calls0))
  {
    events, turn, calls := events0, turn0, calls0;
    if l.autonomous {
      turn := Some(TurnOf(l, i));
      events := events + [Event(l.ts, turn, Status)];
      return;
    }
    if l.dropped {
      return;
    }
    match l.content {
      case Plain(text) =>
        if !l.injected {
          turn := Some(TurnOf(l, i));
          events := events + [Event(l.ts, turn, UserText(SkillText.Escape(text)))];
        }
      case Blocks(blocks) =>
        var texts, replies := SortBlocks(blocks);
        if texts != [] && !l.injected {
          turn := Some(TurnOf(l, i));
          events := events + [Event(l.ts, turn, UserText(SkillText.Escape(UserPrompt(texts))))];
        }
        var attached;
        attached, calls := AnswerCalls(l.ts, turn, replies, calls);
        events := events + attached;
      case NoContent =>
    }
  }

  method SortBlocks(blocks: seq<UserBlock>) returns (texts: seq<string>, replies: seq<Reply>)
    ensures texts == Texts(blocks) && replies == Replies(blocks)
  {
    texts, replies := [], [];
    for k := 0 to |blocks|
      invariant texts == Texts(blocks[..k]) && replies == Replies(blocks[..k])
    {
      assert blocks[..k + 1][..k] == blocks[..k];
      match blocks[k] {
        case TextBlock(t) => texts := texts + [t];
        case ResultBlock(r) => replies := replies + [r];
        case OtherUserBlock =>
      }
    }
    assert blocks[..|blocks|] == blocks;
  }

  method AnswerCalls(ts: Option<string>, turn: Option<TurnId>, replies: seq<Reply>, calls0: Calls)
    returns (events: seq<Event>, calls: Calls)
    ensures events == ReplyEvents(ts, turn, replies, calls0)
    ensures calls == CallsAfter(replies, calls0, |replies|)
  {
    events, calls := [], calls0;
    for k := 0 to |replies|
      invariant events == ReplyEvents(ts, turn, replies[..k], calls0)
      invariant calls == CallsAfter(replies, calls0, k)
    {
      var r := replies[k];
      assert replies[..k + 1][..k] == replies[..k];
      CallsAfterPrefix(replies[..k + 1], replies, calls0, k);
      events := events + [Event(ts, turn, ToolResult(r.id, r.content, r.isError, DiffFor(calls, r.id)))];
      if r.id.Some? {
        calls := calls - {r.id.value};
      }
    }
    assert replies[..|replies|] == replies;
  }

  lemma {:induction false} CallsAfterPrefix(a: seq<Reply>, b: seq<Reply>, calls: Calls, n: nat)
    requires n <= |a| && n <= |b| && a[..n] == b[..n]
    ensures CallsAfter(a, calls, n) == CallsAfter(b, calls, n)
  {
    if n > 0 {
      assert a[n - 1] == a[..n][n - 1] == b[n - 1];
      assert a[..n - 1] == a[..n][..n - 1] == b[..n - 1];
      CallsAfterPrefix(a, b, calls, n - 1);
    }
  }

  method ReadBlocks(ts: Option<string>, i: nat, blocks: seq<AgentBlock>, turn: Option<TurnId>, calls0: Calls)
    returns (events: seq<Event>, calls: Calls)
    ensures events == BlocksEvents(ts, turn, blocks)
    ensures calls == CallsWith(calls0, i, blocks, |blocks|)
  {
    events, calls := [], calls0;
    for k := 0 to |blocks|
      invariant events == BlocksEvents(ts, turn, blocks[..k])
      invariant calls == CallsWith(calls0, i, blocks, k)
    {
      assert blocks[..k + 1][..k] == blocks[..k];
      match blocks[k] {
        case Say(text) => events := events + [Event(ts, turn, AgentText(text))];
        case Think(text) => events := events + [Event(ts, turn, Thinking(text))];
        case UseTool(id, name, input, call) =>
          if id.Some? && call.Some? {
            calls := calls[id.value := Pending(call.value, Origin(i, k))];
          }
          events := events + [Event(ts, turn, ToolUse(id, name, input))];
        case OtherAgentBlock =>
      }
    }
    assert blocks[..|blocks|] == blocks;
  }

  method ReadAgent(l: Line, i: nat, events0: seq<Event>, turn: Option<TurnId>, calls0: Calls)
    returns (events: seq<Event>, calls: Calls)
    requires l.Agent?
    ensures events == events0 + LineEvents(l, i, State(turn, calls0))
    ensures State(turn, calls) == AfterLine(l, i, State(turn, calls0))
  {
    hide BlocksEvents, CallsWith;
    events, calls := events0, calls0;
    if l.dropped {
      return;
    }
    var spoken;
    spoken, calls := ReadBlocks(l.ts, i, l.blocks, turn, calls0);
    events := events + spoken;
    if l.usage.Some? && l.usage.value.input + l.usage.value.output + l.usage.value.cacheRead +
        l.usage.value.cacheCreate > 0 {
      events := events + [Event(l.ts, turn, Usage(l.usage.value))];
    }
  }

  // ----- Starting in the middle -----

  lemma {:induction false} Compose(lines: seq<Line>, start: nat, cut: nat, n: nat, st: State)
    requires start <= cut <= n <= |lines|
    ensures var mid := StateFrom(lines, start, cut, st);
            && StateFrom(lines, start, n, st) == StateFrom(lines, cut, n, mid)
            && EventsFrom(lines, start, n, st) == EventsFrom(lines, start, cut, st) + EventsFrom(lines, cut, n, mid)
    decreases n
  {
    if cut < n {
      Compose(lines, start, cut, n - 1, st);
    }
  }

  lemma {:induction false} SamePrefix(a: seq<Line>, b: seq<Line>, start: nat, n: nat, st: State)
    requires start <= n <= |a| && n <= |b| && forall i :: 0 <= i < n ==> a[i] == b[i]
    ensures StateFrom(a, start, n, st) == StateFrom(b, start, n, st)
    ensures EventsFrom(a, start, n, st) == EventsFrom(b, start, n, st)
    decreases n
  {
    if start < n {
      SamePrefix(a, b, start, n - 1, st);
    }
  }

  predicate Emits(l: Line) {
    LineEvents(l, 0, START) != []
  }

  ghost predicate RepliesTo(l: Line, x: string) {
    exists k :: 0 <= k < |RepliesIn(l)| && RepliesIn(l)[k].id == Some(x)
  }

  ghost predicate EditsBy(l: Line, x: string) {
    l.Agent? && !l.dropped && exists k :: 0 <= k < |l.blocks| && IsEditCall(l.blocks[k]) && l.blocks[k].id == Some(x)
  }

  ghost predicate Touched(lines: seq<Line>, cut: nat, n: nat, x: string)
    requires cut <= n <= |lines|
  {
    exists j :: cut <= j < n && (RepliesTo(lines[j], x) || EditsBy(lines[j], x))
  }

  ghost predicate Opened(lines: seq<Line>, cut: nat, n: nat)
    requires cut <= n <= |lines|
  {
    exists j :: cut <= j < n && Opens(lines[j])
  }

  ghost predicate SameEntry(a: Calls, b: Calls, x: string) {
    (x in a <==> x in b) && (x in a ==> a[x] == b[x])
  }

  lemma {:induction false} CallsAfterAre(replies: seq<Reply>, calls: Calls, n: nat, x: string)
    requires n <= |replies|
    ensures (exists k :: 0 <= k < n && replies[k].id == Some(x)) ==> x !in CallsAfter(replies, calls, n)
    ensures !(exists k :: 0 <= k < n && replies[k].id == Some(x)) ==> SameEntry(CallsAfter(replies, calls, n), calls, x)
  {
    if n > 0 {
      CallsAfterAre(replies, calls, n - 1, x);
    }
  }

  lemma {:induction false} CallsWithAre(a: Calls, b: Calls, i: nat, blocks: seq<AgentBlock>, n: nat, x: string)
    requires n <= |blocks|
    ensures (exists k :: 0 <= k < n && IsEditCall(blocks[k]) && blocks[k].id == Some(x)) ==>
              SameEntry(CallsWith(a, i, blocks, n), CallsWith(b, i, blocks, n), x)
    ensures !(exists k :: 0 <= k < n && IsEditCall(blocks[k]) && blocks[k].id == Some(x)) ==>
              SameEntry(CallsWith(a, i, blocks, n), a, x)
  {
    if n > 0 {
      CallsWithAre(a, b, i, blocks, n - 1, x);
    }
  }

  // What a line does to the entry of x, whatever else is in the table.
  lemma LineTouches(l: Line, i: nat, a: State, b: State, x: string)
    ensures RepliesTo(l, x) || EditsBy(l, x) ==> SameEntry(AfterLine(l, i, a).calls, AfterLine(l, i, b).calls, x)
    ensures !RepliesTo(l, x) && !EditsBy(l, x) ==> SameEntry(AfterLine(l, i, a).calls, a.calls, x)
  {
    match l {
      case Skipped =>
      case User(_, _, _, _, _, _) =>
        CallsAfterAre(RepliesIn(l), a.calls, |RepliesIn(l)|, x);
        CallsAfterAre(RepliesIn(l), b.calls, |RepliesIn(l)|, x);
      case Agent(_, _, blocks, _) =>
        CallsWithAre(a.calls, b.calls, i, blocks, |blocks|, x);
    }
  }

  lemma TouchedOneMore(lines: seq<Line>, cut: nat, n: nat, x: string)
    requires cut < n <= |lines|
    ensures Touched(lines, cut, n, x) <==>
            Touched(lines, cut, n - 1, x) || RepliesTo(lines[n - 1], x) || EditsBy(lines[n - 1], x)
  {
    hide RepliesTo, EditsBy;
  }

  lemma {:induction false} EntryFrom(lines: seq<Line>, cut: nat, n: nat, a: State, b: State, x: string)
    requires cut <= n <= |lines|
    ensures Touched(lines, cut, n, x) ==>
              SameEntry(StateFrom(lines, cut, n, a).calls, StateFrom(lines, cut, n, b).calls, x)
    ensures !Touched(lines, cut, n, x) ==> SameEntry(StateFrom(lines, cut, n, a).calls, a.calls, x)
    decreases n
  {
    hide AfterLine, RepliesTo, EditsBy;
    if cut < n {
      var l, c, d := lines[n - 1], StateFrom(lines, cut, n - 1, a), StateFrom(lines, cut, n - 1, b);
      EntryFrom(lines, cut, n - 1, a, b, x);
      TouchedOneMore(lines, cut, n, x);
      LineTouches(l, n - 1, c, d, x);
      if Touched(lines, cut, n - 1, x) {
        LineKeeps(l, n - 1, c, d, x);
      }
    }
  }

  lemma LineKeeps(l: Line, i: nat, a: State, b: State, x: string)
    requires SameEntry(a.calls, b.calls, x)
    ensures SameEntry(AfterLine(l, i, a).calls, AfterLine(l, i, b).calls, x)
  {
    LineTouches(l, i, a, b, x);
    LineTouches(l, i, b, a, x);
  }

  lemma {:induction false} TurnFrom(lines: seq<Line>, cut: nat, n: nat, a: State, b: State)
    requires cut <= n <= |lines|
    ensures Opened(lines, cut, n) ==> StateFrom(lines, cut, n, a).turn == StateFrom(lines, cut, n, b).turn
    ensures !Opened(lines, cut, n) ==> StateFrom(lines, cut, n, a).turn == a.turn
    decreases n
  {
    if cut < n {
      TurnFrom(lines, cut, n - 1, a, b);
    }
  }

  // ----- When a line reads the same in two states -----

  function LastReplyEvent(ts: Option<string>, turn: Option<TurnId>, replies: seq<Reply>, calls: Calls): Event
    requires replies != []
  {
    var r := replies[|replies| - 1];
    Event(ts, turn, ToolResult(r.id, r.content, r.isError, DiffFor(CallsAfter(replies, calls, |replies| - 1), r.id)))
  }

  lemma LastReplySame(ts: Option<string>, s: Option<TurnId>, t: Option<TurnId>, replies: seq<Reply>, a: Calls, b: Calls)
    requires replies != []
    ensures var m := |replies| - 1;
            LastReplyEvent(ts, s, replies, a) == LastReplyEvent(ts, t, replies, b) <==>
            s == t && ((exists k :: 0 <= k < m && replies[k].id == replies[m].id)
                       || DiffFor(a, replies[m].id) == DiffFor(b, replies[m].id))
  {
    LastDiff(replies, a);
    LastDiff(replies, b);
  }

  lemma {:induction false} ReplyEventsSame(ts: Option<string>, s: Option<TurnId>, t: Option<TurnId>,
                                           replies: seq<Reply>, a: Calls, b: Calls)
    ensures |ReplyEvents(ts, s, replies, a)| == |ReplyEvents(ts, t, replies, b)| == |replies|
    ensures ReplyEvents(ts, s, replies, a) == ReplyEvents(ts, t, replies, b) <==>
            && (replies == [] || s == t)
            && (forall k :: 0 <= k < |replies| ==> DiffFor(a, replies[k].id) == DiffFor(b, replies[k].id))
  {
    if replies != [] {
      var m := |replies| - 1;
      var front := replies[..m];
      ReplyEventsSame(ts, s, t, front, a, b);
      LastReplySame(ts, s, t, replies, a, b);
      AppendInjective(ReplyEvents(ts, s, front, a), [LastReplyEvent(ts, s, replies, a)],
                      ReplyEvents(ts, t, front, b), [LastReplyEvent(ts, t, replies, b)]);
      assert forall k :: 0 <= k < m ==> front[k] == replies[k];
    }
  }

  // The last reply finds its call unless an earlier reply of the line took it.
  lemma LastDiff(replies: seq<Reply>, calls: Calls)
    requires replies != []
    ensures var m := |replies| - 1;
            DiffFor(CallsAfter(replies, calls, m), replies[m].id) ==
            if exists k :: 0 <= k < m && replies[k].id == replies[m].id then None else DiffFor(calls, replies[m].id)
  {
    var m := |replies| - 1;
    if replies[m].id.Some? {
      CallsAfterAre(replies, calls, m, replies[m].id.value);
    }
  }

  lemma {:induction false} BlocksEventsSame(ts: Option<string>, s: Option<TurnId>, t: Option<TurnId>,
                                            blocks: seq<AgentBlock>)
    ensures |BlocksEvents(ts, s, blocks)| == |BlocksEvents(ts, t, blocks)|
    ensures BlocksEvents(ts, s, blocks) == BlocksEvents(ts, t, blocks) <==> s == t || BlocksEvents(ts, s, blocks) == []
  {
    if blocks != [] {
      var front, b := blocks[..|blocks| - 1], blocks[|blocks| - 1];
      BlocksEventsSame(ts, s, t, front);
      AppendInjective(BlocksEvents(ts, s, front), BlockEvents(ts, s, b), BlocksEvents(ts, t, front),
          BlockEvents(ts, t, b));
      if !b.OtherAgentBlock? && s != t {
        assert BlockEvents(ts, s, b)[0].turn != BlockEvents(ts, t, b)[0].turn;
      }
    }
  }

  ghost predicate SameDiffs(l: Line, a: Calls, b: Calls) {
    forall k :: 0 <= k < |RepliesIn(l)| ==> DiffFor(a, RepliesIn(l)[k].id) == DiffFor(b, RepliesIn(l)[k].id)
  }

  lemma UserLineSame(l: Line, i: nat, a: State, b: State)
    requires l.User?
    ensures |LineEvents(l, i, a)| == |LineEvents(l, i, b)|
    ensures LineEvents(l, i, a) == LineEvents(l, i, b) <==>
            (a.turn == b.turn || Opens(l) || RepliesIn(l) == []) && SameDiffs(l, a.calls, b.calls)
  {
    var head := if Opens(l) then [OpeningEvent(l, i)] else [];
    var s, t := AfterLine(l, i, a).turn, AfterLine(l, i, b).turn;
    ReplyEventsSame(l.ts, s, t, RepliesIn(l), a.calls, b.calls);
    AppendInjective(head, ReplyEvents(l.ts, s, RepliesIn(l), a.calls), head,
        ReplyEvents(l.ts, t, RepliesIn(l), b.calls));
  }

  lemma AgentLineSame(l: Line, i: nat, a: State, b: State)
    requires l.Agent?
    ensures |LineEvents(l, i, a)| == |LineEvents(l, i, b)|
    ensures LineEvents(l, i, a) == LineEvents(l, i, b) <==> a.turn == b.turn || LineEvents(l, i, a) == []
  {
    if !l.dropped {
      BlocksEventsSame(l.ts, a.turn, b.turn, l.blocks);
      var u, v := UsageEvents(l.ts, a.turn, l.usage), UsageEvents(l.ts, b.turn, l.usage);
      AppendInjective(BlocksEvents(l.ts, a.turn, l.blocks), u, BlocksEvents(l.ts, b.turn, l.blocks), v);
      if u != [] && a.turn != b.turn {
        assert u[0].turn != v[0].turn;
      }
    }
  }

  lemma LineLength(l: Line, i: nat, a: State)
    ensures LineEvents(l, i, a) == [] <==> !Emits(l)
  {
    match l {
      case Skipped =>
      case User(_, _, _, _, _, _) =>
        ReplyEventsSame(l.ts, AfterLine(l, i, a).turn, AfterLine(l, 0, START).turn, RepliesIn(l), a.calls, map[]);
      case Agent(_, _, _, _) => AgentLineSame(l, i, a, START);
    }
  }

  lemma LineSame(l: Line, i: nat, a: State, b: State)
    ensures |LineEvents(l, i, a)| == |LineEvents(l, i, b)|
    ensures LineEvents(l, i, a) == LineEvents(l, i, b) <==>
            (a.turn == b.turn || Opens(l) || !Emits(l)) && SameDiffs(l, a.calls, b.calls)
  {
    LineLength(l, i, a);
    match l {
      case Skipped =>
      case User(_, _, _, _, _, _) =>
        UserLineSame(l, i, a, b);
        ReplyEventsSame(l.ts, a.turn, a.turn, RepliesIn(l), a.calls, a.calls);
      case Agent(_, _, _, _) => AgentLineSame(l, i, a, b);
    }
  }

  // ----- When a transcript reads the same in two states -----

  // An event falls in the turn that was in progress at the cut.
  ghost predicate ContinuesTurn(lines: seq<Line>, cut: nat, n: nat)
    requires cut <= n <= |lines|
  {
    exists j :: cut <= j < n && Emits(lines[j]) && !Opens(lines[j]) && !Opened(lines, cut, j)
  }

  // A result answers an edit call from before the cut for which a and b know different diffs.
  ghost predicate AnswersOldCall(lines: seq<Line>, cut: nat, n: nat, a: Calls, b: Calls)
    requires cut <= n <= |lines|
  {
    exists j, x :: cut <= j < n && RepliesTo(lines[j], x) && !Touched(lines, cut, j, x)
                   && DiffFor(a, Some(x)) != DiffFor(b, Some(x))
  }

  lemma DiffsFrom(lines: seq<Line>, cut: nat, j: nat, a: State, b: State)
    requires cut <= j < |lines|
    ensures SameDiffs(lines[j], StateFrom(lines, cut, j, a).calls, StateFrom(lines, cut, j, b).calls) <==>
            forall x :: RepliesTo(lines[j], x) && !Touched(lines, cut, j, x) ==>
                DiffFor(a.calls, Some(x)) == DiffFor(b.calls, Some(x))
  {
    var c, d := StateFrom(lines, cut, j, a).calls, StateFrom(lines, cut, j, b).calls;
    forall x ensures DiffFor(c, Some(x)) == DiffFor(d, Some(x)) <==>
                     Touched(lines, cut, j, x) || DiffFor(a.calls, Some(x)) == DiffFor(b.calls, Some(x))
    {
      EntryFrom(lines, cut, j, a, b, x);
      EntryFrom(lines, cut, j, b, a, x);
    }
    var rs := RepliesIn(lines[j]);
    if SameDiffs(lines[j], c, d) {
      forall x | RepliesTo(lines[j], x) && !Touched(lines, cut, j, x)
        ensures DiffFor(a.calls, Some(x)) == DiffFor(b.calls, Some(x))
      {
        var k :| 0 <= k < |rs| && rs[k].id == Some(x);
        assert DiffFor(c, rs[k].id) == DiffFor(d, rs[k].id);
      }
    } else {
      var k :| 0 <= k < |rs| && DiffFor(c, rs[k].id) != DiffFor(d, rs[k].id);
      assert RepliesTo(lines[j], rs[k].id.value);
    }
  }

  lemma ContinuesOneMore(lines: seq<Line>, cut: nat, n: nat)
    requires cut < n <= |lines|
    ensures ContinuesTurn(lines, cut, n) <==>
            || ContinuesTurn(lines, cut, n - 1)
            || (Emits(lines[n - 1]) && !Opens(lines[n - 1]) && !Opened(lines, cut, n - 1))
  {
  }

  lemma AnswersOneMore(lines: seq<Line>, cut: nat, n: nat, a: State, b: State)
    requires cut < n <= |lines|
    ensures AnswersOldCall(lines, cut, n, a.calls, b.calls) <==>
            || AnswersOldCall(lines, cut, n - 1, a.calls, b.calls)
            || !SameDiffs(lines[n - 1], StateFrom(lines, cut, n - 1, a).calls, StateFrom(lines, cut, n - 1, b).calls)
  {
    hide SameDiffs, DiffFor, Touched, RepliesTo, StateFrom;
    DiffsFrom(lines, cut, n - 1, a, b);
  }

  lemma SameStep(lines: seq<Line>, cut: nat, n: nat, a: State, b: State)
    requires cut < n <= |lines| && |EventsFrom(lines, cut, n - 1, a)| == |EventsFrom(lines, cut, n - 1, b)|
    ensures |EventsFrom(lines, cut, n, a)| == |EventsFrom(lines, cut, n, b)|
    ensures EventsFrom(lines, cut, n, a) == EventsFrom(lines, cut, n, b) <==>
            && EventsFrom(lines, cut, n - 1, a) == EventsFrom(lines, cut, n - 1, b)
            && (a.turn == b.turn || Opened(lines, cut, n - 1) || Opens(lines[n - 1]) || !Emits(lines[n - 1]))
            && SameDiffs(lines[n - 1], StateFrom(lines, cut, n - 1, a).calls, StateFrom(lines, cut, n - 1, b).calls)
  {
    hide LineEvents, AfterLine, Emits, Opens, RepliesIn, SameDiffs;
    var l, j := lines[n - 1], n - 1;
    var c, d := StateFrom(lines, cut, j, a), StateFrom(lines, cut, j, b);
    LineSame(l, j, c, d);
    TurnFrom(lines, cut, j, a, b);
    TurnFrom(lines, cut, j, b, a);
    AppendInjective(EventsFrom(lines, cut, j, a), LineEvents(l, j, c), EventsFrom(lines, cut, j, b),
        LineEvents(l, j, d));
  }

  lemma SameAtCut(lines: seq<Line>, cut: nat, a: State, b: State)
    requires cut <= |lines|
    ensures EventsFrom(lines, cut, cut, a) == EventsFrom(lines, cut, cut, b) == []
    ensures !ContinuesTurn(lines, cut, cut) && !AnswersOldCall(lines, cut, cut, a.calls, b.calls)
  {
  }

  lemma {:induction false} SameFrom(lines: seq<Line>, cut: nat, n: nat, a: State, b: State)
    requires cut <= n <= |lines|
    ensures |EventsFrom(lines, cut, n, a)| == |EventsFrom(lines, cut, n, b)|
    ensures EventsFrom(lines, cut, n, a) == EventsFrom(lines, cut, n, b) <==>
            && (a.turn == b.turn || !ContinuesTurn(lines, cut, n))
            && !AnswersOldCall(lines, cut, n, a.calls, b.calls)
    decreases n
  {
    hide EventsFrom, StateFrom, ContinuesTurn, AnswersOldCall, SameDiffs, Emits, Opens;
    if cut == n {
      SameAtCut(lines, cut, a, b);
    } else {
      SameFrom(lines, cut, n - 1, a, b);
      SameStep(lines, cut, n, a, b);
      ContinuesOneMore(lines, cut, n);
      AnswersOneMore(lines, cut, n, a, b);
    }
  }

  // ----- Main results -----

  // A call made before the cut, with a diff, is answered after it.
  ghost predicate CutsCall(lines: seq<Line>, start: nat, cut: nat)
    requires start <= cut <= |lines|
  {
    var calls := StateFrom(lines, start, cut, START).calls;
    exists j, x :: cut <= j < |lines| && RepliesTo(lines[j], x) && !Touched(lines, cut, j, x)
                   && DiffFor(calls, Some(x)) != None
  }

  // The lines from the cut on read the same with and without what is known there.
  lemma SameAfterCut(lines: seq<Line>, start: nat, cut: nat)
    requires start <= cut <= |lines|
    ensures var mid := StateFrom(lines, start, cut, START);
            && |EventsFrom(lines, cut, |lines|, mid)| == |EventsFrom(lines, cut, |lines|, START)|
            && (EventsFrom(lines, cut, |lines|, mid) == EventsFrom(lines, cut, |lines|, START) <==>
                (mid.turn == None || !ContinuesTurn(lines, cut, |lines|)) && !CutsCall(lines, start, cut))
  {
    hide EventsFrom, ContinuesTurn, CutsCall, AnswersOldCall;
    SameFrom(lines, cut, |lines|, StateFrom(lines, start, cut, START), START);
    CutsAre(lines, start, cut);
  }

  lemma CutsAre(lines: seq<Line>, start: nat, cut: nat)
    requires start <= cut <= |lines|
    ensures CutsCall(lines, start, cut) <==>
            AnswersOldCall(lines, cut, |lines|, StateFrom(lines, start, cut, START).calls, START.calls)
  {
    hide RepliesTo, Touched, DiffsOf;
    var calls := StateFrom(lines, start, cut, START).calls;
    assert forall x :: DiffFor(START.calls, Some(x)) == None;
    if CutsCall(lines, start, cut) {
      var j, x :| cut <= j < |lines| && RepliesTo(lines[j], x) && !Touched(lines, cut, j, x)
                  && DiffFor(calls, Some(x)) != None;
      assert DiffFor(calls, Some(x)) != DiffFor(START.calls, Some(x));
    }
  }

  // An import up to the cut followed by an import from the cut emits what one import
  // emits exactly when the cut falls neither inside a turn nor between an edit call
  // and its result.
  lemma SplitImports(lines: seq<Line>, start: nat, cut: nat)
    requires start <= cut <= |lines|
    ensures var (first, mark) := Parse(lines[..cut], start);
            mark == cut &&
            (first + Parse(lines, mark).0 == Parse(lines, start).0 <==>
             && (StateFrom(lines, start, cut, START).turn == None || !ContinuesTurn(lines, cut, |lines|))
             && !CutsCall(lines, start, cut))
  {
    var n, mid := |lines|, StateFrom(lines, start, cut, START);
    SamePrefix(lines[..cut], lines, start, cut, START);
    Compose(lines, start, cut, n, START);
    SameAfterCut(lines, start, cut);
    var first := EventsFrom(lines, start, cut, START);
    AppendInjective(first, EventsFrom(lines, cut, n, mid), first, EventsFrom(lines, cut, n, START));
  }

  // In particular a cut just before a line that opens a turn loses nothing but the
  // diffs of calls still unanswered.
  lemma SplitBeforeTurn(lines: seq<Line>, start: nat, cut: nat)
    requires start <= cut < |lines| && Opens(lines[cut]) && !CutsCall(lines, start, cut)
    ensures Parse(lines[..cut], start).0 + Parse(lines, cut).0 == Parse(lines, start).0
  {
    SplitImports(lines, start, cut);
  }

  // Lines at which the transcript was imported, in order.
  ghost predicate AreCuts(lines: seq<Line>, start: nat, cuts: seq<nat>)
    decreases |cuts|
  {
    cuts == [] || (start <= cuts[0] <= |lines| && AreCuts(lines, cuts[0], cuts[1..]))
  }

  function LastCut(start: nat, cuts: seq<nat>): nat
    decreases |cuts|
  {
    if cuts == [] then start else LastCut(cuts[0], cuts[1..])
  }

  // Import the lines up to each cut from the mark of the import before it.
  function Chained(lines: seq<Line>, start: nat, cuts: seq<nat>): (seq<Event>, nat)
    requires AreCuts(lines, start, cuts)
    decreases |cuts|
  {
    if cuts == [] then ([], start)
    else
      var (first, mark) := Parse(lines[..cuts[0]], start);
      var rest := Chained(lines, mark, cuts[1..]);
      (first + rest.0, rest.1)
  }

  // Entered in state st, nothing between two cuts continues the turn in progress
  // there, or answers an edit call made before.
  ghost predicate CutsKept(lines: seq<Line>, start: nat, cuts: seq<nat>, st: State)
    requires AreCuts(lines, start, cuts)
    decreases |cuts|
  {
    cuts == [] ||
    (&& (st.turn == None || !ContinuesTurn(lines, start, cuts[0]))
     && !AnswersOldCall(lines, start, cuts[0], st.calls, map[])
     && CutsKept(lines, cuts[0], cuts[1..], StateFrom(lines, start, cuts[0], st)))
  }

  lemma {:induction false} LastCutIsLater(lines: seq<Line>, start: nat, cuts: seq<nat>)
    requires AreCuts(lines, start, cuts) && start <= |lines|
    ensures start <= LastCut(start, cuts) <= |lines|
    decreases |cuts|
  {
    if cuts != [] {
      LastCutIsLater(lines, cuts[0], cuts[1..]);
    }
  }

  lemma {:induction false} ChainedFrom(lines: seq<Line>, start: nat, cuts: seq<nat>, st: State)
    requires AreCuts(lines, start, cuts) && start <= |lines|
    ensures start <= LastCut(start, cuts) <= |lines| && Chained(lines, start, cuts).1 == LastCut(start, cuts)
    ensures var whole := EventsFrom(lines, start, LastCut(start, cuts), st);
            && |Chained(lines, start, cuts).0| == |whole|
            && (Chained(lines, start, cuts).0 == whole <==> CutsKept(lines, start, cuts, st))
    decreases |cuts|
  {
    hide EventsFrom, StateFrom, ContinuesTurn, AnswersOldCall;
    if cuts == [] {
      SameAtCut(lines, start, st, START);
    } else {
      var cut, n := cuts[0], LastCut(start, cuts);
      var mid := StateFrom(lines, start, cut, st);
      LastCutIsLater(lines, start, cuts);
      ChainedFrom(lines, cut, cuts[1..], mid);
      Compose(lines, start, cut, n, st);
      SamePrefix(lines[..cut], lines, start, cut, START);
      SameFrom(lines, start, cut, st, START);
      AppendInjective(EventsFrom(lines, start, cut, START), Chained(lines, cut, cuts[1..]).0,
                      EventsFrom(lines, start, cut, st), EventsFrom(lines, cut, n, mid));
    }
  }

  // Main result. Any number of imports of a growing transcript, the last of all of
  // it, emit what one import emits exactly when nothing between two cuts continues a
  // turn, or answers an edit call, from before the first of them.
  lemma RepeatedImports(lines: seq<Line>, start: nat, cuts: seq<nat>)
    requires start <= |lines| && AreCuts(lines, start, cuts) && LastCut(start, cuts) == |lines|
    ensures var (events, mark) := Chained(lines, start, cuts);
            && mark == Parse(lines, start).1 && |events| == |Parse(lines, start).0|
            && (events == Parse(lines, start).0 <==> CutsKept(lines, start, cuts, START))
  {
    ChainedFrom(lines, start, cuts, START);
  }

  // A line still being written counts as read. Importing before and after it is
  // completed emits what one import emits exactly when the completed line emits
  // nothing itself and a cut after it would lose nothing.
  lemma HalfWrittenLine(lines: seq<Line>, start: nat, cut: nat)
    requires start < cut <= |lines|
    ensures var (first, mark) := Parse(lines[..cut - 1] + [Skipped], start);
            mark == cut &&
            (first + Parse(lines, mark).0 == Parse(lines, start).0 <==>
             && !Emits(lines[cut - 1])
             && (StateFrom(lines, start, cut, START).turn == None || !ContinuesTurn(lines, cut, |lines|))
             && !CutsCall(lines, start, cut))
  {
    hide EventsFrom, StateFrom, LineEvents, Emits, ContinuesTurn, CutsCall;
    var st, mid := StateFrom(lines, start, cut - 1, START), StateFrom(lines, start, cut, START);
    var before, own := EventsFrom(lines, start, cut - 1, START), LineEvents(lines[cut - 1], cut - 1, st);
    var x, y := EventsFrom(lines, cut, |lines|, START), EventsFrom(lines, cut, |lines|, mid);
    HalfWrittenReads(lines, start, cut);
    Compose(lines, start, cut, |lines|, START);
    LastLineSays(lines, start, cut, START);
    SameAfterCut(lines, start, cut);
    LineLength(lines[cut - 1], cut - 1, st);
    SameEnds(before, own, x, y);
  }

  lemma LastLineSays(lines: seq<Line>, start: nat, n: nat, st: State)
    requires start < n <= |lines|
    ensures EventsFrom(lines, start, n, st) ==
            EventsFrom(lines, start, n - 1, st)
            + LineEvents(lines[n - 1], n - 1, StateFrom(lines, start, n - 1, st))
  {
    hide LineEvents, StateFrom;
  }

  lemma SameEnds<T>(c: seq<T>, own: seq<T>, x: seq<T>, y: seq<T>)
    requires |x| == |y|
    ensures c + x == (c + own) + y <==> own == [] && x == y
  {
    if own == [] {
      assert c + own == c;
      AppendInjective(c, x, c, y);
    } else {
      assert |c + x| != |(c + own) + y|;
    }
  }

  lemma SkippedSays(lines: seq<Line>, start: nat, n: nat, st: State)
    requires start < n <= |lines| && lines[n - 1] == Skipped
    ensures EventsFrom(lines, start, n, st) == EventsFrom(lines, start, n - 1, st)
  {
    hide StateFrom, AfterLine;
    assert LineEvents(Skipped, n - 1, StateFrom(lines, start, n - 1, st)) == [];
  }

  lemma HalfWrittenReads(lines: seq<Line>, start: nat, cut: nat)
    requires start < cut <= |lines|
    ensures Parse(lines[..cut - 1] + [Skipped], start) == (EventsFrom(lines, start, cut - 1, START), cut)
  {
    hide EventsFrom, StateFrom;
    var half := lines[..cut - 1] + [Skipped];
    assert |half| == cut && half[cut - 1] == Skipped;
    SamePrefix(half, lines, start, cut - 1, START);
    SkippedSays(half, start, cut, START);
  }

  // A prompt read while it was being written: what it becomes is never imported.
  lemma HalfWrittenLineIsLost()
    ensures var l := User(None, None, false, false, false, Plain("hi"));
            Parse([Skipped], 0) == ([], 1) && Parse([l], 1) == ([], 1) && |Parse([l], 0).0| == 1
  {
    var l := User(None, None, false, false, false, Plain("hi"));
    assert EventsFrom([l], 0, 1, START) == EventsFrom([l], 0, 0, START) + LineEvents(l, 0, START);
    assert EventsFrom([Skipped], 0, 1, START) == EventsFrom([Skipped], 0, 0, START) + LineEvents(Skipped, 0, START);
  }

  // ----- The mark -----

  // A file that exists but cannot be read has no lines.
  datatype File = NoFile | Unreadable | Readable(lines: seq<Line>)

  function LinesOf(file: File): seq<Line> {
    if file.Readable? then file.lines else []
  }

  // The mark stored before. Text that is no number counts as line 0.
  datatype Mark = NoMark | Unparsed(text: string) | At(line: nat)

  function StartOf(mark: Mark): nat {
    if mark.At? then mark.line else 0
  }

  method ImportFile(file: File, mark: Mark) returns (events: seq<Event>, next: Mark)
    ensures file.NoFile? ==> events == [] && next == if mark.NoMark? then At(0) else mark
    ensures !file.NoFile? ==>
              events == Parse(LinesOf(file), StartOf(mark)).0 && next == At(|LinesOf(file)|)
  {
    if file.NoFile? {
      return [], if mark.NoMark? then At(0) else mark;
    }
    var line;
    events, line := ParseClaudeNativeHistory(LinesOf(file), StartOf(mark));
    next := At(line);
  }

  lemma {:induction false} EmitsBefore(lines: seq<Line>, start: nat, n: nat, st: State)
    requires start <= n <= |lines|
    ensures EventsFrom(lines, start, n, st) != [] <==> exists j :: start <= j < n && Emits(lines[j])
    decreases n
  {
    hide LineEvents, AfterLine, Emits;
    if start < n {
      EmitsBefore(lines, start, n - 1, st);
      LineLength(lines[n - 1], n - 1, StateFrom(lines, start, n - 1, st));
    }
  }

  // An existing file that cannot be read sends the mark back to the beginning. The
  // next import then emits more than one from the mark would have, exactly when a
  // line before the mark emits.
  lemma UnreadableFileRepeats(lines: seq<Line>, mark: Mark)
    requires StartOf(mark) <= |lines|
    ensures var next := At(|LinesOf(Unreadable)|);
            && StartOf(next) == 0
            && (|Parse(lines, StartOf(next)).0| > |Parse(lines, StartOf(mark)).0| <==>
                exists j :: 0 <= j < StartOf(mark) && Emits(lines[j]))
            && |Parse(lines, StartOf(next)).0| >= |Parse(lines, StartOf(mark)).0|
  {
    hide EventsFrom, StateFrom, Emits, ContinuesTurn, AnswersOldCall;
    var k := StartOf(mark);
    Compose(lines, 0, k, |lines|, START);
    EmitsBefore(lines, 0, k, START);
    SameFrom(lines, k, |lines|, StateFrom(lines, 0, k, START), START);
  }

  // ----- Each diff is attached once -----

  // Different ids stem from different calls, all made before line n.
  ghost predicate Sourced(calls: Calls, n: nat) {
    && (forall x :: x in calls ==> calls[x].origin.line < n)
    && (forall x, y :: x in calls && y in calls && calls[x].origin == calls[y].origin ==> x == y)
  }

  function OriginOf(e: Event): Option<Origin> {
    if e.payload.ToolResult? && e.payload.attached.Some? then Some(e.payload.attached.value.origin) else None
  }

  // Different events carry diffs of different calls, none of which can be answered again.
  ghost predicate AttachedOnce(events: seq<Event>, calls: Calls, n: nat) {
    && (forall i, j :: 0 <= i < j < |events| && OriginOf(events[i]).Some? ==>
       OriginOf(events[i]) != OriginOf(events[j]))
    && (forall i, x :: 0 <= i < |events| && x in calls ==> OriginOf(events[i]) != Some(calls[x].origin))
    && (forall i :: 0 <= i < |events| && OriginOf(events[i]).Some? ==> OriginOf(events[i]).value.line < n)
  }

  // A reply attaches a call that leaves the table at the same time.
  lemma ReplyAttachesOnce(events: seq<Event>, e: Event, calls: Calls, id: Option<string>, n: nat)
    requires Sourced(calls, n) && AttachedOnce(events, calls, n)
    requires OriginOf(e) == if DiffFor(calls, id).Some? then Some(DiffFor(calls, id).value.origin) else None
    ensures Sourced(Answered(calls, id), n) && AttachedOnce(events + [e], Answered(calls, id), n)
  {
    hide OriginOf, DiffsOf;
  }

  lemma {:induction false} RepliesAttachOnce(events: seq<Event>, ts: Option<string>, turn: Option<TurnId>,
                                             replies: seq<Reply>, calls: Calls, n: nat)
    requires Sourced(calls, n) && AttachedOnce(events, calls, n)
    ensures var after := CallsAfter(replies, calls, |replies|);
            Sourced(after, n) && AttachedOnce(events + ReplyEvents(ts, turn, replies, calls), after, n)
  {
    hide Sourced, AttachedOnce, DiffFor, Answered;
    if replies == [] {
      assert events + [] == events;
    } else {
      var m := |replies| - 1;
      var front, e := replies[..m], LastReplyEvent(ts, turn, replies, calls);
      RepliesAttachOnce(events, ts, turn, front, calls, n);
      CallsAfterPrefix(front, replies, calls, m);
      var before := events + ReplyEvents(ts, turn, front, calls);
      ReplyAttachesOnce(before, e, CallsAfter(replies, calls, m), replies[m].id, n);
      assert events + ReplyEvents(ts, turn, replies, calls) == before + [e];
    }
  }

  // As Sourced, in the middle of line i, with n of its blocks read.
  ghost predicate SourcedIn(events: seq<Event>, calls: Calls, i: nat, n: nat) {
    && (forall x :: x in calls ==> calls[x].origin.line < i || (calls[x].origin.line == i && calls[x].origin.block < n))
    && (forall x, y :: x in calls && y in calls && calls[x].origin == calls[y].origin ==> x == y)
    && (forall k, x :: 0 <= k < |events| && x in calls ==> OriginOf(events[k]) != Some(calls[x].origin))
  }

  lemma {:induction false} CallsStaySourced(events: seq<Event>, calls: Calls, i: nat, blocks: seq<AgentBlock>, n: nat)
    requires n <= |blocks| && Sourced(calls, i) && AttachedOnce(events, calls, i)
    ensures SourcedIn(events, CallsWith(calls, i, blocks, n), i, n)
  {
    if n > 0 {
      CallsStaySourced(events, calls, i, blocks, n - 1);
      var before, b := CallsWith(calls, i, blocks, n - 1), blocks[n - 1];
      if IsEditCall(b) {
        var after := before[b.id.value := Pending(b.call.value, Origin(i, n - 1))];
        assert CallsWith(calls, i, blocks, n) == after;
        assert forall x :: x in after && x != b.id.value ==> x in before && after[x] == before[x];
      } else {
        assert CallsWith(calls, i, blocks, n) == before;
      }
    }
  }

  lemma {:induction false} BlocksAttachNothing(ts: Option<string>, turn: Option<TurnId>, blocks: seq<AgentBlock>)
    ensures forall e :: e in BlocksEvents(ts, turn, blocks) ==> OriginOf(e) == None
  {
    if blocks != [] {
      BlocksAttachNothing(ts, turn, blocks[..|blocks| - 1]);
    }
  }

  lemma AppendPlain(events: seq<Event>, more: seq<Event>, calls: Calls, n: nat)
    requires AttachedOnce(events, calls, n) && forall e :: e in more ==> OriginOf(e) == None
    ensures AttachedOnce(events + more, calls, n)
  {
    var all := events + more;
    forall i | |events| <= i < |all| ensures OriginOf(all[i]) == None {
      assert all[i] in more;
    }
  }

  lemma UserLineAttachesOnce(events: seq<Event>, l: Line, i: nat, st: State)
    requires l.User? && Sourced(st.calls, i) && AttachedOnce(events, st.calls, i)
    ensures var after := AfterLine(l, i, st);
            Sourced(after.calls, i) && AttachedOnce(events + LineEvents(l, i, st), after.calls, i)
  {
    hide Sourced, AttachedOnce, Opens, RepliesIn, DiffFor, TurnOf, CallsAfter, ReplyEvents;
    var head := if Opens(l) then [OpeningEvent(l, i)] else [];
    AppendPlain(events, head, st.calls, i);
    RepliesAttachOnce(events + head, l.ts, AfterLine(l, i, st).turn, RepliesIn(l), st.calls, i);
    assert events + LineEvents(l, i, st)
           == (events + head) + ReplyEvents(l.ts, AfterLine(l, i, st).turn, RepliesIn(l), st.calls);
  }

  lemma AgentLineAttachesOnce(events: seq<Event>, l: Line, i: nat, st: State)
    requires l.Agent? && !l.dropped && Sourced(st.calls, i) && AttachedOnce(events, st.calls, i)
    ensures var after := AfterLine(l, i, st);
            Sourced(after.calls, i + 1) && AttachedOnce(events + LineEvents(l, i, st), after.calls, i + 1)
  {
    hide CallsWith, BlocksEvents;
    var after := CallsWith(st.calls, i, l.blocks, |l.blocks|);
    CallsStaySourced(events, st.calls, i, l.blocks, |l.blocks|);
    assert AttachedOnce(events, after, i + 1);
    BlocksAttachNothing(l.ts, st.turn, l.blocks);
    AppendPlain(events, LineEvents(l, i, st), after, i + 1);
  }

  lemma OneLineLater(events: seq<Event>, calls: Calls, i: nat)
    requires Sourced(calls, i) && AttachedOnce(events, calls, i)
    ensures Sourced(calls, i + 1) && AttachedOnce(events, calls, i + 1)
  {
    hide OriginOf;
  }

  lemma LineAttachesOnce(events: seq<Event>, l: Line, i: nat, st: State)
    requires Sourced(st.calls, i) && AttachedOnce(events, st.calls, i)
    ensures var after := AfterLine(l, i, st);
            Sourced(after.calls, i + 1) && AttachedOnce(events + LineEvents(l, i, st), after.calls, i + 1)
  {
    hide Sourced, AttachedOnce, Opens, RepliesIn, OpeningEvent, TurnOf, CallsAfter, ReplyEvents, CallsWith;
    hide BlocksEvents;
    if l.User? {
      UserLineAttachesOnce(events, l, i, st);
      OneLineLater(events + LineEvents(l, i, st), AfterLine(l, i, st).calls, i);
    } else if l.Agent? && !l.dropped {
      AgentLineAttachesOnce(events, l, i, st);
    } else {
      OneLineLater(events, st.calls, i);
      assert events + [] == events;
    }
  }

  lemma NothingAttached(n: nat)
    ensures Sourced(START.calls, n) && AttachedOnce([], START.calls, n)
  {
  }

  lemma {:induction false} EachDiffOnceFrom(lines: seq<Line>, start: nat, n: nat)
    requires start <= n <= |lines|
    ensures var st := StateFrom(lines, start, n, START);
            Sourced(st.calls, n) && AttachedOnce(EventsFrom(lines, start, n, START), st.calls, n)
    decreases n
  {
    hide LineEvents, AfterLine, AttachedOnce, Sourced;
    if start < n {
      EachDiffOnceFrom(lines, start, n - 1);
      LineAttachesOnce(EventsFrom(lines, start, n - 1, START), lines[n - 1], n - 1,
          StateFrom(lines, start, n - 1, START));
    } else {
      NothingAttached(n);
    }
  }

  // No two results of an import carry the diff of the same edit call.
  lemma EachDiffOnce(lines: seq<Line>, start: nat)
    ensures var events := Parse(lines, start).0;
            forall i, j :: 0 <= i < j < |events| && OriginOf(events[i]).Some? ==>
                OriginOf(events[i]) != OriginOf(events[j])
  {
    if start <= |lines| {
      EachDiffOnceFrom(lines, start, |lines|);
    }
  }
}
