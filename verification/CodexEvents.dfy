/**
 What the events of a codex import say, line by line: the turn each belongs to,
 the model a token count is stamped with, and their contents; and that a finished
 line with something to say says it.

 The statements are about the lines read, not about the scan that emits them.
 */
module CodexEvents {
  import SkillText
  import opened Wrappers
  import opened CodexImport

  // ----- Where an event belongs -----

  predicate StartsTurn(l: Line) {
    l.Line? && l.body.TaskStarted?
  }

  predicate EndsTurn(l: Line) {
    l.Line? && l.body.TaskEnd?
  }

  // Before line n, `turn` is the one announced by the last start read, if no end was
  // read since, and none otherwise.
  ghost predicate Announced(lines: seq<Line>, n: nat, since: int, turn: Option<string>)
    requires n <= |lines|
  {
    || (exists t :: 0 <= t < n && Read(lines, t, since) && StartsTurn(lines[t]) && lines[t].body.turn == turn
                    && forall u :: t < u < n && Read(lines, u, since) ==> !StartsTurn(lines[u]) && !EndsTurn(lines[u]))
    || (turn == None && forall t :: 0 <= t < n && Read(lines, t, since) && StartsTurn(lines[t]) ==>
                           exists u :: t < u < n && Read(lines, u, since) && EndsTurn(lines[u]))
  }

  // Before line n, `model` is the one named last among the lines read.
  ghost predicate NamedLast(lines: seq<Line>, n: nat, since: int, model: string)
    requires n <= |lines|
  {
    || (exists t :: 0 <= t < n && Read(lines, t, since) && NamesModel(lines[t]) && lines[t].body.model == Some(model)
                    && forall u :: t < u < n && Read(lines, u, since) ==> !NamesModel(lines[u]))
    || (model == "" && forall t :: 0 <= t < n && Read(lines, t, since) ==> !NamesModel(lines[t]))
  }

  // The contents of an event of this item.
  ghost predicate TellsItem(item: Item, p: Payload) {
    match item
    case UserMessage(blocks) => p.User? && SkillText.Unescape(p.text) == Join(Texts(blocks, "text"), "\n")
    case AgentMessage(blocks) => p.Text? && p.text == Join(Texts(blocks, "Text"), "\n")
    case CommandExecution(id, _, parsed, argv, status, exitCode, output) =>
      || (p.ToolUse? && p.id == id && p.command == parsed.GetOr(Join(argv, " ")) && !("file://" <= p.cwd))
      || (p.ToolResult? && p.id == id && p.output == output
          && (p.isError <==> !(status == "completed" && exitCode == Some(Some(0)))))
    case OtherItem => false
  }

  // The tokens add up, the cached ones counted once.
  ghost predicate TellsTokens(info: TokenUsage, window: int, p: Payload) {
    && p.Usage? && p.usage.input + p.usage.cacheRead == info.input && p.usage.cacheRead == info.cached
    && p.usage.output == info.output && p.usage.cacheCreate == info.cacheWrite
    && p.usage.total == info.total && info.total > 0 && p.usage.window == window
  }

  // Line i, read past `since`, says the event.
  ghost predicate SaidBy(lines: seq<Line>, i: nat, since: int, e: Event) {
    && i < |lines| && Read(lines, i, since) && e.ts == lines[i].ts
    && match lines[i].body
       case ItemCompleted(turn, item) =>
         && (if turn.Some? then e.turn == turn else Announced(lines, i, since, e.turn))
         && e.model == None && TellsItem(item, e.payload)
       case TokenCount(info, window) =>
         && Announced(lines, i, since, e.turn)
         && info.Some? && TellsTokens(info.value, window, e.payload)
         && NamedLast(lines, i, since, e.payload.usage.model)
         && e.model == if e.payload.usage.model == "" then None else Some(e.payload.usage.model)
       case _ => false
  }

  // ----- What is known at a line -----

  lemma {:induction false} TurnAnnounced(lines: seq<Line>, n: nat, since: int)
    requires n <= |lines|
    ensures Announced(lines, n, since, ContextAt(lines, n, since).turn)
  {
    if n > 0 {
      TurnAnnounced(lines, n - 1, since);
      AnnouncedOneMore(lines, n, since, ContextAt(lines, n - 1, since).turn);
    }
  }

  lemma AnnouncedOneMore(lines: seq<Line>, n: nat, since: int, turn: Option<string>)
    requires 0 < n <= |lines| && Announced(lines, n - 1, since, turn)
    ensures var l := lines[n - 1];
            && (Read(lines, n - 1, since) && StartsTurn(l) ==> Announced(lines, n, since, l.body.turn))
            && (Read(lines, n - 1, since) && EndsTurn(l) ==> Announced(lines, n, since, None))
            && (!Read(lines, n - 1, since) || (!StartsTurn(l) && !EndsTurn(l)) ==> Announced(lines, n, since, turn))
  {
    hide Ordinal;
  }

  lemma {:induction false} ModelNamed(lines: seq<Line>, n: nat, since: int)
    requires n <= |lines|
    ensures NamedLast(lines, n, since, ContextAt(lines, n, since).model)
  {
    if n > 0 {
      ModelNamed(lines, n - 1, since);
    }
  }

  // ----- One line -----

  lemma {:induction false} TrimmedScheme(cwd: string)
    ensures !("file://" <= TrimScheme(cwd))
    decreases |cwd|
  {
    if "file://" <= cwd {
      TrimmedScheme(cwd[7..]);
    }
  }

  lemma ItemTells(ts: Option<string>, turn: Option<string>, item: Item, e: Event)
    requires e in ItemEvents(ts, turn, item)
    ensures e.ts == ts && e.turn == turn && e.model == None && TellsItem(item, e.payload)
  {
    hide Texts, Join, SkillText.Escape, TrimScheme;
    match item {
      case UserMessage(blocks) => SkillText.EscapeRoundTrip(Join(Texts(blocks, "text"), "\n"));
      case CommandExecution(_, cwd, _, _, _, _, _) => TrimmedScheme(cwd);
      case _ =>
    }
  }

  lemma LineTells(lines: seq<Line>, i: nat, since: int, e: Event)
    requires i < |lines| && Read(lines, i, since) && e in LineEvents(lines[i], ContextAt(lines, i, since))
    ensures SaidBy(lines, i, since, e)
  {
    hide ContextAt, ItemEvents, TellsItem, Announced, NamedLast;
    var l, c := lines[i], ContextAt(lines, i, since);
    TurnAnnounced(lines, i, since);
    ModelNamed(lines, i, since);
    if l.body.ItemCompleted? {
      ItemTells(l.ts, if l.body.turn.Some? then l.body.turn else c.turn, l.body.item, e);
    }
  }

  // ----- Main results -----

  lemma {:induction false} EventsSaid(lines: seq<Line>, n: nat, since: int, e: Event) returns (i: nat)
    requires n <= |lines| && e in EventsTo(lines, n, since)
    ensures i < n && SaidBy(lines, i, since, e)
  {
    hide LineEvents, SaidBy, Read, ContextAt;
    assert n > 0;
    if e in EventsTo(lines, n - 1, since) {
      i := EventsSaid(lines, n - 1, since, e);
    } else {
      LineTells(lines, n - 1, since, e);
      i := n - 1;
    }
  }

  // Every event was said by a line past the watermark and before an end line: in the
  // turn the line names, else in the one announced last, and under the model named last.
  lemma ImportSaid(lines: seq<Line>, w: Watermark, e: Event) returns (i: nat, end: nat)
    requires e in Import(lines, w).0
    ensures SaidBy(lines, i, Since(w), e)
    ensures i < end < |lines| && Read(lines, end, Since(w)) && EndsTurn(lines[end])
  {
    hide EventsTo, SaidBy;
    NoEventsYet(lines, Since(w));
    var k := FinishedTo(lines, |lines|, Since(w));
    i := EventsSaid(lines, k, Since(w), e);
    end := k - 1;
    assert i != end by {
      EndSaysNothing(lines, end, Since(w), e);
    }
  }

  lemma EndSaysNothing(lines: seq<Line>, i: nat, since: int, e: Event)
    requires i < |lines| && EndsTurn(lines[i])
    ensures !SaidBy(lines, i, since, e)
  {
  }

  // A line with something to say.
  predicate Speaks(l: Line) {
    l.Line? && ((l.body.ItemCompleted? && !l.body.item.OtherItem?)
                || (l.body.TokenCount? && l.body.info.Some? && l.body.info.value.total > 0))
  }

  // Every line past the watermark and before an end line says what it has to say; a
  // command, its call and its result.
  lemma LinesSpeak(lines: seq<Line>, w: Watermark, i: nat, end: nat) returns (e: Event, last: Event)
    requires i < end < |lines| && Read(lines, i, Since(w)) && Speaks(lines[i])
    requires Read(lines, end, Since(w)) && EndsTurn(lines[end])
    ensures e in Import(lines, w).0 && SaidBy(lines, i, Since(w), e)
    ensures last in Import(lines, w).0 && SaidBy(lines, i, Since(w), last)
    ensures lines[i].body.ItemCompleted? && lines[i].body.item.CommandExecution? ==>
              e.payload.ToolUse? && last.payload.ToolResult?
  {
    hide EventsTo, SaidBy, LineEvents, ContextAt;
    var since, k := Since(w), FinishedTo(lines, |lines|, Since(w));
    assert i < k by {
      assert Ends(lines, end, since);
    }
    var said := LineEvents(lines[i], ContextAt(lines, i, since));
    LineSpeaks(lines[i], ContextAt(lines, i, since));
    e, last := said[0], said[|said| - 1];
    LineTells(lines, i, since, e);
    LineTells(lines, i, since, last);
    OneMore(lines, i, since);
    EventsStay(lines, i + 1, k, since, e);
    EventsStay(lines, i + 1, k, since, last);
  }

  lemma LineSpeaks(l: Line, c: Context)
    requires Speaks(l)
    ensures var said := LineEvents(l, c);
            && said != []
            && (l.body.ItemCompleted? && l.body.item.CommandExecution? ==>
                  said[0].payload.ToolUse? && said[|said| - 1].payload.ToolResult?)
  {
  }

  lemma {:induction false} EventsStay(lines: seq<Line>, m: nat, n: nat, since: int, e: Event)
    requires m <= n <= |lines| && e in EventsTo(lines, m, since)
    ensures e in EventsTo(lines, n, since)
    decreases n
  {
    hide LineEvents, ContextAt;
    if m < n {
      EventsStay(lines, m, n - 1, since, e);
    }
  }

  // ----- Rollouts without ordinals -----

  // Without ordinals a mark counts lines: the import that returned it read lines up to
  // it, and the next reads exactly those after it.
  lemma UnnumberedMarkCountsLines(lines: seq<Line>, m: nat)
    requires forall i :: 0 <= i < |lines| && lines[i].Line? ==> lines[i].ordinal.None?
    requires Import(lines, Blank).1 == At(m)
    ensures 0 < m <= |lines| && EndsTurn(lines[m - 1]) && forall i :: m <= i < |lines| ==> !EndsTurn(lines[i])
    ensures forall i :: 0 <= i < |lines| ==> (Read(lines, i, Since(At(m))) <==> lines[i].Line? && m <= i)
  {
    hide EventsTo;
    var k := FinishedTo(lines, |lines|, -1);
    assert forall i :: k <= i < |lines| && EndsTurn(lines[i]) ==> Ends(lines, i, -1);
  }

  // With no mark, or one that cannot be read, every line is read whose ordinal is not
  // negative.
  lemma NoMarkReadsAll(lines: seq<Line>, w: Watermark, i: nat)
    requires !w.At? && i < |lines|
    ensures Read(lines, i, Since(w)) <==> lines[i].Line? && lines[i].ordinal.GetOr(0) >= 0
  {
  }
}
