/**
 What the events of a claude import say, line by line: the turn each belongs to,
 their contents, and the edit call whose diffs a tool result carries; and that
 every line says all it has to say.

 The statements are about the lines read, not about the scan that emits them.
 */
module ClaudeEvents {
  import SkillText
  import opened Wrappers
  import opened ClaudeImport

  // ----- Where an event belongs -----

  // After the lines start..n, `turn` is named after the last line that opened one, by
  // its uuid if it has one; it is none when no line did.
  ghost predicate OpenedLast(lines: seq<Line>, start: nat, n: nat, turn: Option<TurnId>)
    requires start <= n <= |lines|
  {
    || (exists o :: start <= o < n && Opens(lines[o])
                    && turn == Some(if lines[o].uuid.Some? then Native(lines[o].uuid.value) else Fresh(o))
                    && forall p :: o < p < n ==> !Opens(lines[p]))
    || (turn == None && forall p :: start <= p < n ==> !Opens(lines[p]))
  }

  // ----- Which call a result answers -----

  // Block b of line a is the last edit call with this id before line n ...
  ghost predicate CalledLast(lines: seq<Line>, start: nat, n: nat, x: string, o: Origin)
    requires start <= n <= |lines|
  {
    && start <= o.line < n && lines[o.line].Agent? && !lines[o.line].dropped && o.block < |lines[o.line].blocks|
    && IsCallOf(lines[o.line].blocks[o.block], x)
    && (forall b :: o.block < b < |lines[o.line].blocks| ==> !IsCallOf(lines[o.line].blocks[b], x))
    && (forall a :: o.line < a < n ==> !EditsBy(lines[a], x))
  }

  // ... and no result has answered it.
  ghost predicate Unanswered(lines: seq<Line>, start: nat, n: nat, x: string, o: Origin)
    requires start <= n <= |lines|
  {
    CalledLast(lines, start, n, x, o) && forall a :: o.line < a < n ==> !RepliesTo(lines[a], x)
  }

  predicate IsCallOf(b: AgentBlock, x: string) {
    IsEditCall(b) && b.id == Some(x)
  }

  function CallAt(lines: seq<Line>, o: Origin): Option<Call> {
    if o.line < |lines| && lines[o.line].Agent? && o.block < |lines[o.line].blocks|
       && lines[o.line].blocks[o.block].UseTool?
    then lines[o.line].blocks[o.block].call else None
  }

  // The diff says what the call did to the file.
  ghost predicate TellsDiff(c: Call, d: Diff) {
    match c
    case EditCall(e) =>
      e.oldText == Some(d.oldText) && e.newText == Some(d.newText) && d.path == e.path.GetOr("")
    case WriteCall(content, path) => d.oldText == "" && content == Some(d.newText) && d.path == path.GetOr("")
    case MultiEditCall(edits, path) =>
      exists e :: e in edits && e.oldText == Some(d.oldText) && e.newText == Some(d.newText)
                  && d.path == (if e.path.Some? then e.path else path).GetOr("")
  }

  // What reply k of line j carries: the diffs of the last edit call with its id, if it is
  // unanswered up to here and has any, and nothing otherwise.
  ghost predicate Carries(lines: seq<Line>, start: nat, j: nat, k: nat, attached: Option<Attached>)
    requires start <= j < |lines| && k < |RepliesIn(lines[j])|
  {
    var replies := RepliesIn(lines[j]);
    var id := replies[k].id;
    if attached.Some? then
      var o := attached.value.origin;
      && id.Some? && Unanswered(lines, start, j, id.value, o)
      && (forall i :: 0 <= i < k ==> replies[i].id != id)
      && attached.value.diffs != []
      && CallAt(lines, o).Some?
      && forall d :: d in attached.value.diffs ==> TellsDiff(CallAt(lines, o).value, d)
    else
      || id.None? || (exists i :: 0 <= i < k && replies[i].id == id)
      || (forall o :: Unanswered(lines, start, j, id.value, o) ==>
            CallAt(lines, o).Some? && DiffsOf(CallAt(lines, o).value) == [])
  }

  // ----- The table of calls -----

  // The table holds exactly the unanswered calls.
  ghost predicate IsTable(lines: seq<Line>, start: nat, n: nat, calls: Calls)
    requires start <= n <= |lines|
  {
    && (forall x :: x in calls ==>
          var o := calls[x].origin;
          Unanswered(lines, start, n, x, o) && CallAt(lines, o) == Some(calls[x].call))
    && (forall x, o :: Unanswered(lines, start, n, x, o) ==> x in calls)
  }

  lemma {:induction false} TableAfterReplies(replies: seq<Reply>, calls: Calls, n: nat, x: string)
    requires n <= |replies|
    ensures x in CallsAfter(replies, calls, n) <==> x in calls && forall i :: 0 <= i < n ==> replies[i].id != Some(x)
    ensures x in CallsAfter(replies, calls, n) ==> CallsAfter(replies, calls, n)[x] == calls[x]
  {
    if n > 0 {
      TableAfterReplies(replies, calls, n - 1, x);
    }
  }

  lemma {:induction false} TableWithBlocks(calls: Calls, i: nat, blocks: seq<AgentBlock>, n: nat, x: string)
    requires n <= |blocks|
    ensures var after := CallsWith(calls, i, blocks, n);
            if exists b :: 0 <= b < n && IsCallOf(blocks[b], x) then
              x in after && after[x].origin.line == i && after[x].origin.block < n
              && IsCallOf(blocks[after[x].origin.block], x)
              && after[x].call == blocks[after[x].origin.block].call.value
              && forall b :: after[x].origin.block < b < n ==> !IsCallOf(blocks[b], x)
            else (x in after <==> x in calls) && (x in calls ==> after[x] == calls[x])
  {
    if n > 0 {
      TableWithBlocks(calls, i, blocks, n - 1, x);
    }
  }

  lemma UnansweredStep(lines: seq<Line>, start: nat, n: nat, x: string, o: Origin)
    requires start < n <= |lines|
    ensures o.line < n - 1 ==>
              (Unanswered(lines, start, n, x, o) <==>
               Unanswered(lines, start, n - 1, x, o) && !EditsBy(lines[n - 1], x) && !RepliesTo(lines[n - 1], x))
    ensures o.line >= n - 1 ==> !Unanswered(lines, start, n - 1, x, o)
    ensures o.line == n - 1 ==>
              var l := lines[n - 1];
              (Unanswered(lines, start, n, x, o) <==>
               && l.Agent? && !l.dropped && o.block < |l.blocks| && IsCallOf(l.blocks[o.block], x)
               && forall b :: o.block < b < |l.blocks| ==> !IsCallOf(l.blocks[b], x))
    ensures Unanswered(lines, start, n, x, o) ==> o.line < n && (o.line == n - 1 ==> EditsBy(lines[n - 1], x))
  {
    hide RepliesTo;
  }

  // Entry x of the table after one more line.
  lemma EntryStep(lines: seq<Line>, start: nat, n: nat, st: State, x: string)
    requires start < n <= |lines|
    ensures var l, calls := lines[n - 1], AfterLine(lines[n - 1], n - 1, st).calls;
            && (EditsBy(l, x) ==>
                  x in calls && Unanswered(lines, start, n, x, calls[x].origin) && calls[x].origin.line == n - 1
                  && calls[x].call == l.blocks[calls[x].origin.block].call.value)
            && (!EditsBy(l, x) ==>
                  && (x in calls <==> x in st.calls && !RepliesTo(l, x))
                  && (x in calls ==> calls[x] == st.calls[x]))
  {
    hide Unanswered, Opens;
    var l := lines[n - 1];
    if l.User? {
      TableAfterReplies(RepliesIn(l), st.calls, |RepliesIn(l)|, x);
    } else if l.Agent? && !l.dropped {
      TableWithBlocks(st.calls, n - 1, l.blocks, |l.blocks|, x);
      if EditsBy(l, x) {
        UnansweredStep(lines, start, n, x, AfterLine(l, n - 1, st).calls[x].origin);
      }
    }
  }

  lemma TableStep(lines: seq<Line>, start: nat, n: nat, st: State)
    requires start < n <= |lines| && IsTable(lines, start, n - 1, st.calls)
    ensures IsTable(lines, start, n, AfterLine(lines[n - 1], n - 1, st).calls)
  {
    hide AfterLine, Unanswered, EditsBy, RepliesTo;
    var calls := AfterLine(lines[n - 1], n - 1, st).calls;
    forall x | x in calls
      ensures var o := calls[x].origin;
              Unanswered(lines, start, n, x, o) && CallAt(lines, o) == Some(calls[x].call)
    {
      EntryStep(lines, start, n, st, x);
      UnansweredStep(lines, start, n, x, calls[x].origin);
    }
    forall x, o | Unanswered(lines, start, n, x, o) ensures x in calls {
      EntryStep(lines, start, n, st, x);
      UnansweredStep(lines, start, n, x, o);
    }
  }

  lemma {:induction false} TableIs(lines: seq<Line>, start: nat, n: nat)
    requires start <= n <= |lines|
    ensures IsTable(lines, start, n, StateFrom(lines, start, n, START).calls)
    decreases n
  {
    hide AfterLine, IsTable;
    if n == start {
      EmptyTable(lines, start);
    } else {
      TableIs(lines, start, n - 1);
      TableStep(lines, start, n, StateFrom(lines, start, n - 1, START));
    }
  }

  lemma EmptyTable(lines: seq<Line>, start: nat)
    requires start <= |lines|
    ensures IsTable(lines, start, start, map[])
  {
  }

  lemma TurnAfter(l: Line, i: nat, st: State)
    ensures var turn := AfterLine(l, i, st).turn;
            if Opens(l) then l.User? && turn == Some(if l.uuid.Some? then Native(l.uuid.value) else Fresh(i))
            else turn == st.turn
  {
  }

  lemma {:induction false} TurnIs(lines: seq<Line>, start: nat, n: nat)
    requires start <= n <= |lines|
    ensures OpenedLast(lines, start, n, StateFrom(lines, start, n, START).turn)
    decreases n
  {
    hide Opens, AfterLine;
    if start < n {
      var l, st := lines[n - 1], StateFrom(lines, start, n - 1, START);
      TurnIs(lines, start, n - 1);
      TurnAfter(l, n - 1, st);
      assert Opens(l) ==> OpenedLast(lines, start, n, AfterLine(l, n - 1, st).turn);
    }
  }

  // ----- Contents -----

  // The prompt of some contents: the text, or of several blocks the first text that is
  // not the injected one, and the first of all when every text is.
  ghost predicate IsPrompt(c: UserContent, text: string) {
    match c
    case Plain(t) => t == text
    case Blocks(bs) =>
      exists k :: 0 <= k < |bs| && bs[k] == TextBlock(text)
                  && if MARKER <= text then
                       (forall i :: 0 <= i < |bs| && bs[i].TextBlock? ==> MARKER <= bs[i].text)
                       && (forall i :: 0 <= i < k ==> !bs[i].TextBlock?)
                     else forall i :: 0 <= i < k && bs[i].TextBlock? ==> MARKER <= bs[i].text
    case NoContent => false
  }

  // The payload is that of reply k of line j.
  ghost predicate TellsReply(lines: seq<Line>, start: nat, j: nat, k: nat, p: Payload)
    requires start <= j < |lines|
  {
    && k < |RepliesIn(lines[j])|
    && var r := RepliesIn(lines[j])[k];
       && lines[j].User? && lines[j].content.Blocks? && ResultBlock(r) in lines[j].content.blocks
       && p.ToolResult? && p.id == r.id && p.content == r.content && p.isError == r.isError
       && Carries(lines, start, j, k, p.attached)
  }

  ghost predicate TellsBlock(b: AgentBlock, p: Payload) {
    match b
    case Say(text) => p == AgentText(text)
    case Think(text) => p == Thinking(text)
    case UseTool(id, name, input, _) => p == ToolUse(id, name, input)
    case OtherAgentBlock => false
  }

  // The contents of an event of line j.
  ghost predicate Tells(lines: seq<Line>, start: nat, j: nat, p: Payload)
    requires start <= j < |lines|
  {
    match lines[j]
    case Skipped => false
    case User(_, _, autonomous, dropped, injected, content) =>
      if autonomous then p == Status
      else
        && !dropped
        && (|| (p.UserText? && !injected && IsPrompt(content, SkillText.Unescape(p.text)))
            || (exists k: nat :: TellsReply(lines, start, j, k, p)))
    case Agent(_, dropped, blocks, usage) =>
      && !dropped
      && (|| (exists b :: b in blocks && TellsBlock(b, p))
          || (p.Usage? && usage == Some(p.usage)))
  }

  // Line j, read from `start` on, says the event.
  ghost predicate SaidBy(lines: seq<Line>, start: nat, j: nat, e: Event) {
    && start <= j < |lines| && !lines[j].Skipped? && e.ts == lines[j].ts
    && OpenedLast(lines, start, j + 1, e.turn) && Tells(lines, start, j, e.payload)
  }

  lemma {:induction false} AllEditsTell(edits: seq<Edit>, path: Option<string>, d: Diff)
    requires d in AllEditDiffs(edits, path)
    ensures TellsDiff(MultiEditCall(edits, path), d)
  {
    if edits != [] {
      if d in AllEditDiffs(edits[1..], path) {
        AllEditsTell(edits[1..], path, d);
        var e :| e in edits[1..] && e.oldText == Some(d.oldText) && e.newText == Some(d.newText)
                 && d.path == (if e.path.Some? then e.path else path).GetOr("");
        assert e in edits;
      } else {
        assert edits[0] in edits;
      }
    }
  }

  lemma DiffsTell(c: Call, d: Diff)
    requires d in DiffsOf(c)
    ensures TellsDiff(c, d)
  {
    if c.MultiEditCall? {
      AllEditsTell(c.edits, c.path, d);
    }
  }

  lemma {:induction false} TextsAre(blocks: seq<UserBlock>, t: string)
    ensures t in Texts(blocks) <==> TextBlock(t) in blocks
  {
    if blocks != [] {
      TextsAre(blocks[..|blocks| - 1], t);
      assert blocks == blocks[..|blocks| - 1] + [blocks[|blocks| - 1]];
    }
  }

  lemma {:induction false} RepliesAre(blocks: seq<UserBlock>, r: Reply)
    ensures r in Replies(blocks) <==> ResultBlock(r) in blocks
  {
    if blocks != [] {
      RepliesAre(blocks[..|blocks| - 1], r);
      assert blocks == blocks[..|blocks| - 1] + [blocks[|blocks| - 1]];
    }
  }

  lemma {:induction false} FirstPlainIs(texts: seq<string>)
    ensures match FirstPlain(texts)
            case None => forall i :: 0 <= i < |texts| ==> MARKER <= texts[i]
            case Some(t) => exists k :: 0 <= k < |texts| && texts[k] == t && !(MARKER <= t)
                                        && forall i :: 0 <= i < k ==> MARKER <= texts[i]
  {
    if texts != [] {
      if MARKER <= texts[0] {
        FirstPlainIs(texts[1..]);
        if FirstPlain(texts).Some? {
          var t := FirstPlain(texts).value;
          var k :| 0 <= k < |texts| - 1 && texts[1..][k] == t && !(MARKER <= t)
                   && forall i :: 0 <= i < k ==> MARKER <= texts[1..][i];
          assert texts[k + 1] == t;
          assert forall i :: 0 < i < k + 1 ==> texts[i] == texts[1..][i - 1];
        } else {
          assert forall i :: 0 < i < |texts| ==> texts[i] == texts[1..][i - 1];
        }
      } else {
        assert texts[0] == FirstPlain(texts).value;
      }
    }
  }

  // Where a text is among the blocks: the earlier texts are those of the earlier blocks.
  lemma {:induction false} TextAt(blocks: seq<UserBlock>, k: nat) returns (b: nat)
    requires k < |Texts(blocks)|
    ensures b < |blocks| && blocks[b] == TextBlock(Texts(blocks)[k])
    ensures forall i :: 0 <= i < b && blocks[i].TextBlock? ==>
              exists m :: 0 <= m < k && Texts(blocks)[m] == blocks[i].text
  {
    var front := blocks[..|blocks| - 1];
    if k < |Texts(front)| {
      b := TextAt(front, k);
      forall i | 0 <= i < b && blocks[i].TextBlock?
        ensures exists m :: 0 <= m < k && Texts(blocks)[m] == blocks[i].text
      {
        assert front[i] == blocks[i];
        var m :| 0 <= m < k && Texts(front)[m] == front[i].text;
        assert Texts(blocks)[m] == blocks[i].text;
      }
    } else {
      b := |blocks| - 1;
      forall i | 0 <= i < b && blocks[i].TextBlock?
        ensures exists m :: 0 <= m < k && Texts(blocks)[m] == blocks[i].text
      {
        TextsAre(front, blocks[i].text);
        assert front[i] == blocks[i];
        var m :| 0 <= m < |Texts(front)| && Texts(front)[m] == blocks[i].text;
        assert Texts(blocks)[m] == blocks[i].text;
      }
    }
  }

  lemma PromptIs(blocks: seq<UserBlock>)
    requires Texts(blocks) != []
    ensures IsPrompt(Blocks(blocks), UserPrompt(Texts(blocks)))
  {
    var texts := Texts(blocks);
    FirstPlainIs(texts);
    var text, k: nat := UserPrompt(texts), 0;
    if FirstPlain(texts).Some? {
      k :| k < |texts| && texts[k] == text && !(MARKER <= text) && forall i :: 0 <= i < k ==> MARKER <= texts[i];
    }
    var b := TextAt(blocks, k);
    if MARKER <= text {
      forall i | 0 <= i < |blocks| && blocks[i].TextBlock? ensures MARKER <= blocks[i].text {
        TextsAre(blocks, blocks[i].text);
        var m :| 0 <= m < |texts| && texts[m] == blocks[i].text;
      }
    }
    assert blocks[b] == TextBlock(text);
  }

  // ----- One line -----

  lemma {:induction false} ReplyEventIs(ts: Option<string>, turn: Option<TurnId>, replies: seq<Reply>, calls: Calls,
                                        k: nat)
    requires k < |replies|
    ensures |ReplyEvents(ts, turn, replies, calls)| == |replies|
    ensures var r := replies[k];
            ReplyEvents(ts, turn, replies, calls)[k] ==
            Event(ts, turn, ToolResult(r.id, r.content, r.isError, DiffFor(CallsAfter(replies, calls, k), r.id)))
  {
    hide DiffFor, CallsAfter;
    var m := |replies| - 1;
    if k < m {
      ReplyEventIs(ts, turn, replies[..m], calls, k);
      CallsAfterPrefix(replies[..m], replies, calls, k);
    } else if m > 0 {
      ReplyEventIs(ts, turn, replies[..m], calls, 0);
    }
  }

  // Reply k carries what the table says.
  lemma ReplyCarries(lines: seq<Line>, start: nat, j: nat, k: nat)
    requires start <= j < |lines| && k < |RepliesIn(lines[j])|
    ensures var replies, calls := RepliesIn(lines[j]), StateFrom(lines, start, j, START).calls;
            Carries(lines, start, j, k, DiffFor(CallsAfter(replies, calls, k), replies[k].id))
  {
    hide RepliesIn, StateFrom, Unanswered, DiffsOf, TellsDiff, CallAt;
    var replies, calls := RepliesIn(lines[j]), StateFrom(lines, start, j, START).calls;
    var id, left := replies[k].id, CallsAfter(replies, calls, k);
    TableIs(lines, start, j);
    if id.Some? {
      TableAfterReplies(replies, calls, k, id.value);
      if DiffFor(left, id).Some? {
        forall d | d in DiffFor(left, id).value.diffs ensures TellsDiff(left[id.value].call, d) {
          DiffsTell(left[id.value].call, d);
        }
      } else {
        forall o | Unanswered(lines, start, j, id.value, o) && id.value in left
          ensures CallAt(lines, o).Some? && DiffsOf(CallAt(lines, o).value) == []
        {
          SameCall(lines, start, j, id.value, o, calls[id.value].origin);
        }
      }
    }
  }

  // There is one last call.
  lemma SameCall(lines: seq<Line>, start: nat, n: nat, x: string, o: Origin, p: Origin)
    requires start <= n <= |lines| && Unanswered(lines, start, n, x, o) && Unanswered(lines, start, n, x, p)
    ensures o == p
  {
    assert EditsBy(lines[o.line], x) && EditsBy(lines[p.line], x);
  }

  lemma ReplyTells(lines: seq<Line>, start: nat, j: nat, k: nat, turn: Option<TurnId>)
    requires start <= j < |lines| && k < |RepliesIn(lines[j])| && OpenedLast(lines, start, j + 1, turn)
    ensures var l, calls := lines[j], StateFrom(lines, start, j, START).calls;
            && l.User? && |ReplyEvents(l.ts, turn, RepliesIn(l), calls)| == |RepliesIn(l)|
            && var e := ReplyEvents(l.ts, turn, RepliesIn(l), calls)[k];
               SaidBy(lines, start, j, e) && TellsReply(lines, start, j, k, e.payload)
  {
    hide Carries, OpenedLast, StateFrom, DiffFor, CallsAfter, ReplyEvents;
    var l, calls := lines[j], StateFrom(lines, start, j, START).calls;
    ReplyEventIs(l.ts, turn, RepliesIn(l), calls, k);
    ReplyCarries(lines, start, j, k);
    RepliesAre(l.content.blocks, RepliesIn(l)[k]);
    ReplyIsSaid(lines, start, j, k, ReplyEvents(l.ts, turn, RepliesIn(l), calls)[k]);
  }

  lemma ReplyIsSaid(lines: seq<Line>, start: nat, j: nat, k: nat, e: Event)
    requires start <= j < |lines| && lines[j].User? && e.ts == lines[j].ts
    requires OpenedLast(lines, start, j + 1, e.turn) && TellsReply(lines, start, j, k, e.payload)
    ensures SaidBy(lines, start, j, e)
  {
    hide OpenedLast, Carries;
    var p := e.payload;
    assert TellsReply(lines, start, j, k, p);
  }

  lemma OpeningTells(lines: seq<Line>, start: nat, j: nat)
    requires start <= j < |lines| && Opens(lines[j])
    ensures SaidBy(lines, start, j, OpeningEvent(lines[j], j))
  {
    hide IsPrompt, UserPrompt, SkillText.Escape, SkillText.Unescape, OpenedLast;
    var l, p := lines[j], OpeningEvent(lines[j], j).payload;
    OpenedHere(lines, start, j);
    if l.autonomous {
      assert p == Status;
    } else if l.content.Plain? {
      SkillText.EscapeRoundTrip(l.content.text);
      PlainIsPrompt(l.content.text);
      assert IsPrompt(l.content, SkillText.Unescape(p.text));
    } else {
      SkillText.EscapeRoundTrip(UserPrompt(Texts(l.content.blocks)));
      PromptIs(l.content.blocks);
      assert IsPrompt(l.content, SkillText.Unescape(p.text));
    }
  }

  lemma OpenedHere(lines: seq<Line>, start: nat, j: nat)
    requires start <= j < |lines| && Opens(lines[j])
    ensures OpenedLast(lines, start, j + 1, Some(TurnOf(lines[j], j)))
  {
  }

  lemma PlainIsPrompt(text: string)
    ensures IsPrompt(Plain(text), text)
  {
  }

  lemma {:induction false} BlockOf(ts: Option<string>, turn: Option<TurnId>, blocks: seq<AgentBlock>, e: Event)
    requires e in BlocksEvents(ts, turn, blocks)
    ensures e.ts == ts && e.turn == turn && exists b :: b in blocks && TellsBlock(b, e.payload)
  {
    if blocks != [] {
      var front, last := blocks[..|blocks| - 1], blocks[|blocks| - 1];
      assert blocks == front + [last];
      if e in BlocksEvents(ts, turn, front) {
        BlockOf(ts, turn, front, e);
        var b :| b in front && TellsBlock(b, e.payload);
        assert b in blocks;
      } else {
        assert last in blocks && TellsBlock(last, e.payload);
      }
    }
  }

  lemma LineTells(lines: seq<Line>, start: nat, j: nat, e: Event)
    requires start <= j < |lines| && e in LineEvents(lines[j], j, StateFrom(lines, start, j, START))
    ensures SaidBy(lines, start, j, e)
  {
    hide Opens, OpenedLast, StateFrom, RepliesIn, BlocksEvents, ReplyEvents, TellsBlock, TellsReply, OpeningEvent;
    hide AfterLine;
    var l, st := lines[j], StateFrom(lines, start, j, START);
    TurnIs(lines, start, j);
    TurnIs(lines, start, j + 1);
    StateAfter(lines, start, j);
    if l.User? {
      if Opens(l) && e == OpeningEvent(l, j) {
        OpeningTells(lines, start, j);
      } else {
        var replies := ReplyEvents(l.ts, AfterLine(l, j, st).turn, RepliesIn(l), st.calls);
        RepliesCount(l.ts, AfterLine(l, j, st).turn, RepliesIn(l), st.calls);
        var k :| 0 <= k < |replies| && replies[k] == e;
        ReplyTells(lines, start, j, k, AfterLine(l, j, st).turn);
      }
    } else {
      TurnAfter(l, j, st);
      if e in BlocksEvents(l.ts, st.turn, l.blocks) {
        BlockOf(l.ts, st.turn, l.blocks, e);
      }
    }
  }

  lemma StateAfter(lines: seq<Line>, start: nat, j: nat)
    requires start <= j < |lines|
    ensures StateFrom(lines, start, j + 1, START) == AfterLine(lines[j], j, StateFrom(lines, start, j, START))
  {
    hide AfterLine;
  }

  lemma RepliesCount(ts: Option<string>, turn: Option<TurnId>, replies: seq<Reply>, calls: Calls)
    ensures |ReplyEvents(ts, turn, replies, calls)| == |replies|
  {
    hide DiffFor, CallsAfter;
    if replies != [] {
      ReplyEventIs(ts, turn, replies, calls, 0);
    }
  }

  // ----- Main results -----

  lemma {:induction false} EventsSaid(lines: seq<Line>, start: nat, n: nat, e: Event) returns (j: nat)
    requires start <= n <= |lines| && e in EventsFrom(lines, start, n, START)
    ensures j < n && SaidBy(lines, start, j, e)
    decreases n
  {
    hide LineEvents, StateFrom, SaidBy;
    assert n > start;
    if e in EventsFrom(lines, start, n - 1, START) {
      j := EventsSaid(lines, start, n - 1, e);
    } else {
      j := n - 1;
      LineTells(lines, start, j, e);
    }
  }

  // Every event of an import was said by a line read: in the turn of the last line that
  // opened one, with that line's uuid; a result with the diffs of its own call.
  lemma ImportSaid(lines: seq<Line>, start: nat, e: Event) returns (j: nat)
    requires e in Parse(lines, start).0
    ensures SaidBy(lines, start, j, e)
  {
    hide SaidBy, EventsFrom;
    j := EventsSaid(lines, start, |lines|, e);
  }

  // Line j says this much among these events.
  ghost predicate Heard(lines: seq<Line>, start: nat, j: nat, events: seq<Event>, e: Event) {
    e in events && SaidBy(lines, start, j, e)
  }

  predicate HasTokens(usage: Option<TokenUsage>) {
    usage.Some?
    && usage.value.input + usage.value.output + usage.value.cacheRead + usage.value.cacheCreate > 0
  }

  // A line typed by the user, with some text.
  ghost predicate HasPrompt(l: Line) {
    && l.User? && !l.autonomous && !l.dropped && !l.injected
    && (l.content.Plain? || (l.content.Blocks? && exists t :: TextBlock(t) in l.content.blocks))
  }

  ghost predicate ReplyHeard(lines: seq<Line>, start: nat, j: nat, k: nat, events: seq<Event>)
    requires start <= j < |lines|
  {
    exists e :: Heard(lines, start, j, events, e) && TellsReply(lines, start, j, k, e.payload)
  }

  lemma {:induction false} LineHeard(lines: seq<Line>, start: nat, n: nat, j: nat, e: Event)
    requires start <= j < n <= |lines| && e in LineEvents(lines[j], j, StateFrom(lines, start, j, START))
    ensures Heard(lines, start, j, EventsFrom(lines, start, n, START), e)
    decreases n
  {
    hide LineEvents, StateFrom, SaidBy;
    if j < n - 1 {
      LineHeard(lines, start, n - 1, j, e);
    } else {
      LineTells(lines, start, j, e);
    }
  }

  lemma {:induction false} BlockIsSaid(ts: Option<string>, turn: Option<TurnId>, blocks: seq<AgentBlock>, b: AgentBlock)
    returns (e: Event)
    requires b in blocks && !b.OtherAgentBlock?
    ensures e in BlocksEvents(ts, turn, blocks) && TellsBlock(b, e.payload)
  {
    var front, last := blocks[..|blocks| - 1], blocks[|blocks| - 1];
    assert blocks == front + [last];
    if b in front {
      e := BlockIsSaid(ts, turn, front, b);
    } else {
      e := BlockEvents(ts, turn, b)[0];
    }
  }

  // Every line read says all it has to say: its prompt or its marker, each of its
  // results, each block of an answer, and its usage.
  lemma LinesSpeak(lines: seq<Line>, start: nat, j: nat)
    requires start <= j < |lines|
    ensures var l, events := lines[j], Parse(lines, start).0;
            && (l.User? && l.autonomous ==> exists e :: Heard(lines, start, j, events, e) && e.payload.Status?)
            && (HasPrompt(l) ==> exists e :: Heard(lines, start, j, events, e) && e.payload.UserText?)
            && (forall k :: 0 <= k < |RepliesIn(l)| ==> ReplyHeard(lines, start, j, k, events))
            && (l.Agent? && !l.dropped ==>
                  forall b :: b in l.blocks && !b.OtherAgentBlock? ==>
                    exists e :: Heard(lines, start, j, events, e) && TellsBlock(b, e.payload))
            && (l.Agent? && !l.dropped && HasTokens(l.usage) ==>
                  exists e :: Heard(lines, start, j, events, e) && e.payload.Usage?)
  {
    assert !lines[j].User? ==> RepliesIn(lines[j]) == [];
    hide EventsFrom, StateFrom, SaidBy, TellsReply, TellsBlock, Opens, RepliesIn, OpenedLast, LineEvents;
    var l, st := lines[j], StateFrom(lines, start, j, START);
    forall e | e in LineEvents(l, j, st) ensures Heard(lines, start, j, Parse(lines, start).0, e) {
      LineHeard(lines, start, |lines|, j, e);
    }
    TurnAfter(l, j, st);
    if l.User? {
      UserSpeaks(lines, start, j, Parse(lines, start).0);
    } else if l.Agent? && !l.dropped {
      AgentSpeaks(l, j, st);
      forall b | b in l.blocks && !b.OtherAgentBlock?
        ensures exists e :: Heard(lines, start, j, Parse(lines, start).0, e) && TellsBlock(b, e.payload)
      {
        var e :| e in LineEvents(l, j, st) && TellsBlock(b, e.payload);
        assert Heard(lines, start, j, Parse(lines, start).0, e);
      }
    }
  }

  lemma UserSpeaks(lines: seq<Line>, start: nat, j: nat, events: seq<Event>)
    requires start <= j < |lines| && lines[j].User?
    requires forall e :: e in LineEvents(lines[j], j, StateFrom(lines, start, j, START)) ==>
               Heard(lines, start, j, events, e)
    ensures var l := lines[j];
            && (l.autonomous ==> exists e :: Heard(lines, start, j, events, e) && e.payload.Status?)
            && (HasPrompt(l) ==> exists e :: Heard(lines, start, j, events, e) && e.payload.UserText?)
            && (forall k :: 0 <= k < |RepliesIn(l)| ==> ReplyHeard(lines, start, j, k, events))
  {
    hide StateFrom, RepliesIn, ReplyEvents, TellsReply, OpenedLast, AfterLine, Heard, Texts, UserPrompt;
    var l, st := lines[j], StateFrom(lines, start, j, START);
    var said, turn := LineEvents(l, j, st), AfterLine(l, j, st).turn;
    if HasPrompt(l) && l.content.Blocks? {
      var t :| TextBlock(t) in l.content.blocks;
      TextsAre(l.content.blocks, t);
    }
    if l.autonomous || HasPrompt(l) {
      assert OpeningEvent(l, j) in said;
    }
    TurnIs(lines, start, j + 1);
    StateAfter(lines, start, j);
    forall k | 0 <= k < |RepliesIn(l)| ensures ReplyHeard(lines, start, j, k, events) {
      ReplyTells(lines, start, j, k, turn);
      var e := ReplyEvents(l.ts, turn, RepliesIn(l), st.calls)[k];
      assert e in said;
    }
  }

  lemma AgentSpeaks(l: Line, j: nat, st: State)
    requires l.Agent? && !l.dropped
    ensures var said := LineEvents(l, j, st);
            && (forall b :: b in l.blocks && !b.OtherAgentBlock? ==> exists e :: e in said && TellsBlock(b, e.payload))
            && (HasTokens(l.usage) ==>
                  exists e :: e in said && e.payload.Usage?)
  {
    hide BlocksEvents, TellsBlock;
    var said := LineEvents(l, j, st);
    forall b | b in l.blocks && !b.OtherAgentBlock? ensures exists e :: e in said && TellsBlock(b, e.payload) {
      var e := BlockIsSaid(l.ts, st.turn, l.blocks, b);
      assert e in said;
    }
    if UsageEvents(l.ts, st.turn, l.usage) != [] {
      assert UsageEvents(l.ts, st.turn, l.usage)[0] in said;
    }
  }
}
