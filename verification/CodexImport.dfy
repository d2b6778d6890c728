/**
 The codex rollout importer (`import_codex_history`).

 A rollout is a sequence of parsed lines. The importer keeps the events of the
 turn in progress in a buffer and emits them when the turn's end line is read;
 its watermark is the ordinal of the last end line. `EventsTo` is the reference:
 the events of all lines, with no buffer and no watermark handling.
 */
module CodexImport {
  import SkillText
  import opened Wrappers

  // ----- Lines and events -----

  datatype Block = Block(kind: string, text: Option<string>)

  datatype Item =
    | UserMessage(blocks: seq<Block>)
    | AgentMessage(blocks: seq<Block>)
    | CommandExecution(id: string, cwd: string, parsedCmd: Option<string>, argv: seq<string>, status: string,
                       exitCode: Option<Option<int>>, output: Option<string>)
    | OtherItem

  datatype TokenUsage = TokenUsage(input: int, cached: int, cacheWrite: int, output: int, total: int)

  datatype Body =
    | TurnContext(model: Option<string>)
    | TaskStarted(turn: Option<string>)
    | TaskEnd                              // task_complete or turn_aborted
    | ItemCompleted(turn: Option<string>, item: Item)
    | TokenCount(info: Option<TokenUsage>, window: int)
    | OtherBody

  // A blank line, malformed JSON or a value that is no object is Skipped.
  datatype Line = Skipped | Line(ordinal: Option<int>, ts: Option<string>, body: Body)

  datatype UsageInfo = UsageInfo(input: int, output: int, cacheRead: int, cacheCreate: int, total: int,
                                 window: int, model: string)

  datatype Payload =
    | User(text: string)
    | Text(text: string)
    | ToolUse(id: string, command: string, cwd: string)
    | ToolResult(id: string, output: Option<string>, isError: bool)
    | Usage(usage: UsageInfo)

  datatype Event = Event(ts: Option<string>, turn: Option<string>, model: Option<string>, payload: Payload)

  // What was stored after the previous import. Unreadable text counts as no mark.
  datatype Watermark = Blank | Unreadable(text: string) | At(ordinal: int)

  function Since(w: Watermark): int {
    match w
    case At(o) => o
    case _ => -1
  }

  // ----- Events of one line -----

  function Texts(blocks: seq<Block>, kind: string): seq<string> {
    if blocks == [] then []
    else
      (if blocks[0].kind == kind && blocks[0].text.Some? then [blocks[0].text.value] else [])
      + Texts(blocks[1..], kind)
  }

  function TrimScheme(cwd: string): string
    decreases |cwd|
  {
    if "file://" <= cwd then TrimScheme(cwd[7..]) else cwd
  }

  function ItemEvents(ts: Option<string>, turn: Option<string>, item: Item): seq<Event> {
    match item
    case UserMessage(blocks) => [Event(ts, turn, None, User(SkillText.Escape(Join(Texts(blocks, "text"), "\n"))))]
    case AgentMessage(blocks) => [Event(ts, turn, None, Text(Join(Texts(blocks, "Text"), "\n")))]
    case CommandExecution(id, cwd, parsedCmd, argv, status, exitCode, output) =>
      var failed := status != "completed" || exitCode.None? || exitCode.value.GetOr(1) != 0;
      [Event(ts, turn, None, ToolUse(id, parsedCmd.GetOr(Join(argv, " ")), TrimScheme(cwd))),
       Event(ts, turn, None, ToolResult(id, output, failed))]
    case OtherItem => []
  }

  // What a line is read under: the turn announced last and the model named last.
  datatype Context = Context(turn: Option<string>, model: string)

  const START: Context := Context(None, "")

  predicate CountsTokens(l: Line) {
    l.Line? && l.body.TokenCount? && l.body.info.Some? && l.body.info.value.total > 0
  }

  function LineEvents(l: Line, c: Context): seq<Event> {
    if l.Skipped? then []
    else
      match l.body
      case ItemCompleted(turn, item) => ItemEvents(l.ts, if turn.Some? then turn else c.turn, item)
      case TokenCount(info, window) =>
        if info.Some? && info.value.total > 0 then
          var u := info.value;
          [Event(l.ts, c.turn, if c.model == "" then None else Some(c.model),
                 Usage(UsageInfo(u.input - u.cached, u.output, u.cached, u.cacheWrite, u.total, window, c.model)))]
        else []
      case _ => []
  }

  function After(l: Line, c: Context): Context {
    if l.Skipped? then c
    else
      match l.body
      case TurnContext(model) => if model.Some? then c.(model := model.value) else c
      case TaskStarted(turn) => c.(turn := turn)
      case TaskEnd => c.(turn := None)
      case _ => c
  }

  // ----- The reference: all lines past the watermark, in order -----

  function Ordinal(lines: seq<Line>, i: nat): int
    requires i < |lines| && lines[i].Line?
  {
    lines[i].ordinal.GetOr(i + 1)
  }

  predicate Read(lines: seq<Line>, i: nat, since: int)
    requires i < |lines|
  {
    lines[i].Line? && Ordinal(lines, i) > since
  }

  predicate Ends(lines: seq<Line>, i: nat, since: int)
    requires i < |lines|
  {
    Read(lines, i, since) && lines[i].body.TaskEnd?
  }

  function ContextAt(lines: seq<Line>, n: nat, since: int): Context
    requires n <= |lines|
  {
    if n == 0 then START
    else
      var c := ContextAt(lines, n - 1, since);
      if Read(lines, n - 1, since) then After(lines[n - 1], c) else c
  }

  function EventsTo(lines: seq<Line>, n: nat, since: int): seq<Event>
    requires n <= |lines|
  {
    if n == 0 then []
    else EventsTo(lines, n - 1, since)
         + if Read(lines, n - 1, since) then LineEvents(lines[n - 1], ContextAt(lines, n - 1, since)) else []
  }

  // The number of lines up to and including the last end line among the first n.
  function FinishedTo(lines: seq<Line>, n: nat, since: int): (k: nat)
    requires n <= |lines|
    ensures k <= n
    ensures k > 0 ==> Ends(lines, k - 1, since)
    ensures forall i :: k <= i < n ==> !Ends(lines, i, since)
  {
    if n == 0 then 0
    else if Ends(lines, n - 1, since) then n
    else FinishedTo(lines, n - 1, since)
  }

  function Import(lines: seq<Line>, w: Watermark): (seq<Event>, Watermark) {
    var k := FinishedTo(lines, |lines|, Since(w));
    (EventsTo(lines, k, Since(w)), if k == 0 then w else At(Ordinal(lines, k - 1)))
  }

  lemma OneMore(lines: seq<Line>, i: nat, since: int)
    requires i < |lines|
    ensures !Read(lines, i, since) ==>
              && ContextAt(lines, i + 1, since) == ContextAt(lines, i, since)
              && EventsTo(lines, i + 1, since) == EventsTo(lines, i, since)
    ensures Read(lines, i, since) ==>
              && ContextAt(lines, i + 1, since) == After(lines[i], ContextAt(lines, i, since))
              && EventsTo(lines, i + 1, since)
                 == EventsTo(lines, i, since) + LineEvents(lines[i], ContextAt(lines, i, since))
    ensures FinishedTo(lines, i + 1, since) == if Ends(lines, i, since) then i + 1 else FinishedTo(lines, i, since)
  {
  }

  // What the loop knows after i lines: `buffered` holds the events past the last end line.
  ghost predicate Scanned(lines: seq<Line>, i: nat, since: int, events: seq<Event>, buffered: seq<Event>,
                          c: Context, last: Option<int>)
    requires i <= |lines|
  {
    var k := FinishedTo(lines, i, since);
    && c == ContextAt(lines, i, since)
    && events + buffered == EventsTo(lines, i, since)
    && events == EventsTo(lines, k, since)
    && last == if k == 0 then None else Some(Ordinal(lines, k - 1))
  }

  lemma ScanLine(lines: seq<Line>, i: nat, since: int, events: seq<Event>, buffered: seq<Event>,
                 c: Context, last: Option<int>)
    requires i < |lines| && Scanned(lines, i, since, events, buffered, c, last)
    ensures !Read(lines, i, since) ==> Scanned(lines, i + 1, since, events, buffered, c, last)
    ensures Read(lines, i, since) && !lines[i].body.TaskEnd? ==>
              Scanned(lines, i + 1, since, events, buffered + LineEvents(lines[i], c), After(lines[i], c), last)
    ensures Ends(lines, i, since) ==>
              Scanned(lines, i + 1, since, events + buffered, [], After(lines[i], c), Some(Ordinal(lines, i)))
  {
    OneMore(lines, i, since);
    assert (events + buffered) + LineEvents(lines[i], c) == events + (buffered + LineEvents(lines[i], c));
    if Ends(lines, i, since) {
      assert (events + buffered) + [] == events + buffered;
    }
  }

  // ----- The program -----

  // `file` is None when the rollout cannot be read.
  method ImportCodexHistory(file: Option<seq<Line>>, watermark: Watermark)
    returns (events: seq<Event>, next: Watermark)
    ensures file.None? ==> events == [] && next == watermark
    ensures file.Some? ==> (events, next) == Import(file.value, watermark)
  {
    hide ItemEvents, SkillText.Escape, Ordered;
    var since := Since(watermark);
    if file.None? {
      return [], watermark;
    }
    var lines := file.value;
    events := [];
    var buffered: seq<Event>, turn: Option<string>, model, last: Option<int> := [], None, "", None;
    for i := 0 to |lines|
      invariant Scanned(lines, i, since, events, buffered, Context(turn, model), last)
    {
      ScanLine(lines, i, since, events, buffered, Context(turn, model), last);
      var l := lines[i];
      if l.Line? && l.ordinal.GetOr(i + 1) > since {
        match l.body {
          case TurnContext(m) =>
            if m.Some? {
              model := m.value;
            }
            assert buffered + [] == buffered;
          case TaskStarted(t) =>
            turn := t;
            assert buffered + [] == buffered;
          case TaskEnd =>
            events := events + buffered;
            buffered := [];
            last := Some(l.ordinal.GetOr(i + 1));
            turn := None;
          case ItemCompleted(_, _) =>
            buffered := buffered + LineEvents(l, Context(turn, model));
          case TokenCount(_, _) =>
            buffered := buffered + LineEvents(l, Context(turn, model));
          case OtherBody =>
            assert buffered + [] == buffered;
        }
      }
    }
    next := if last.Some? then At(last.value) else watermark;
  }

  // ----- Growing rollouts -----

  // The rollout later has at least these lines; a last line still being written
  // was skipped before.
  ghost predicate GrowsTo(before: seq<Line>, now: seq<Line>) {
    && |before| <= |now|
    && forall i :: 0 <= i < |before| ==> before[i] == now[i] || (i == |before| - 1 && before[i].Skipped?)
  }

  // No line up to the mark's own is read past it.
  ghost predicate NothingBehind(lines: seq<Line>, k: nat)
    requires 0 < k <= |lines| && lines[k - 1].Line?
  {
    forall i :: 0 <= i < k && lines[i].Line? ==> Ordinal(lines, i) <= Ordinal(lines, k - 1)
  }

  // The mark of the end line k - 1 separates: no line up to it is read past it, and
  // from there to line n none is left behind.
  ghost predicate CleanMark(lines: seq<Line>, k: nat, n: nat, since: int)
    requires 0 < k <= n <= |lines| && lines[k - 1].Line?
  {
    && NothingBehind(lines, k)
    && forall i :: k <= i < n && Read(lines, i, since) ==> Read(lines, i, Ordinal(lines, k - 1))
  }

  // The ordinals codex writes: nonnegative and strictly increasing.
  ghost predicate Ordered(lines: seq<Line>) {
    && (forall i :: 0 <= i < |lines| && lines[i].Line? ==> Ordinal(lines, i) >= 0)
    && (forall i, j :: 0 <= i < j < |lines| && lines[i].Line? && lines[j].Line? ==>
          Ordinal(lines, i) < Ordinal(lines, j))
  }

  function Unstamped(e: Event): Event {
    e.(model := None, payload := if e.payload.Usage? then Usage(e.payload.usage.(model := "")) else e.payload)
  }

  function Erased(events: seq<Event>): seq<Event> {
    seq(|events|, i requires 0 <= i < |events| => Unstamped(events[i]))
  }

  lemma {:induction false} SameLinesSameEvents(a: seq<Line>, b: seq<Line>, n: nat, since: int)
    requires n <= |a| && n <= |b| && forall i :: 0 <= i < n ==> a[i] == b[i]
    ensures EventsTo(a, n, since) == EventsTo(b, n, since) && ContextAt(a, n, since) == ContextAt(b, n, since)
    ensures FinishedTo(a, n, since) == FinishedTo(b, n, since)
  {
    if n > 0 {
      SameLinesSameEvents(a, b, n - 1, since);
    }
  }

  // Nothing at or before a watermark taken from line k - 1 is read again.
  lemma {:induction false} NothingReread(lines: seq<Line>, k: nat, n: nat, since: int)
    requires n <= k <= |lines| && k > 0 && lines[k - 1].Line? && since == Ordinal(lines, k - 1) &&
             NothingBehind(lines, k)
    ensures EventsTo(lines, n, since) == [] && ContextAt(lines, n, since) == START && FinishedTo(lines, n, since) == 0
  {
    if n > 0 {
      NothingReread(lines, k, n - 1, since);
      assert !Read(lines, n - 1, since);
    }
  }

  lemma ErasedAppend(a: seq<Event>, b: seq<Event>)
    ensures Erased(a + b) == Erased(a) + Erased(b)
  {
  }

  lemma ErasedLine(l: Line, c: Context, d: Context)
    requires c.turn == d.turn
    ensures Erased(LineEvents(l, c)) == Erased(LineEvents(l, d)) && |LineEvents(l, c)| == |LineEvents(l, d)|
    ensures After(l, c).turn == After(l, d).turn
  {
  }

  lemma ReadFromMark(lines: seq<Line>, k: nat, i: nat, since: int)
    requires 0 < k <= i < |lines| && Ends(lines, k - 1, since) && CleanMark(lines, k, i + 1, since)
    ensures Read(lines, i, since) == Read(lines, i, Ordinal(lines, k - 1))
  {
  }

  // Both imports know the same turn from the end line k - 1 on, and the same last end line.
  lemma {:induction false} TurnFromMark(lines: seq<Line>, k: nat, n: nat, since: int)
    requires 0 < k <= n <= |lines| && Ends(lines, k - 1, since) && CleanMark(lines, k, n, since)
    ensures var mark := Ordinal(lines, k - 1);
            && ContextAt(lines, n, since).turn == ContextAt(lines, n, mark).turn
            && FinishedTo(lines, n, since)
               == if FinishedTo(lines, n, mark) == 0 then k else FinishedTo(lines, n, mark)
    decreases n
  {
    var mark := Ordinal(lines, k - 1);
    if n == k {
      NothingReread(lines, k, k, mark);
    } else {
      TurnFromMark(lines, k, n - 1, since);
      ReadFromMark(lines, k, n - 1, since);
    }
  }

  // From its end line k - 1 on, an import that starts there reads what an import
  // from the beginning reads.
  lemma {:induction false} EventsFromMark(lines: seq<Line>, k: nat, n: nat, since: int)
    requires 0 < k <= n <= |lines| && Ends(lines, k - 1, since) && CleanMark(lines, k, n, since)
    ensures var mark := Ordinal(lines, k - 1);
            Erased(EventsTo(lines, n, since)) == Erased(EventsTo(lines, k, since)) + Erased(EventsTo(lines, n, mark))
    decreases n
  {
    hide LineEvents, After;
    var mark := Ordinal(lines, k - 1);
    var all, head, tail := Erased(EventsTo(lines, n, since)), Erased(EventsTo(lines, k, since)),
        Erased(EventsTo(lines, n, mark));
    if n == k {
      NothingReread(lines, k, k, mark);
      assert tail == [];
    } else {
      var l := lines[n - 1];
      var c, d := ContextAt(lines, n - 1, since), ContextAt(lines, n - 1, mark);
      EventsFromMark(lines, k, n - 1, since);
      TurnFromMark(lines, k, n - 1, since);
      ReadFromMark(lines, k, n - 1, since);
      OneMore(lines, n - 1, since);
      OneMore(lines, n - 1, mark);
      if Read(lines, n - 1, since) {
        ErasedLine(l, c, d);
        ErasedAppend(EventsTo(lines, n - 1, since), LineEvents(l, c));
        ErasedAppend(EventsTo(lines, n - 1, mark), LineEvents(l, d));
        var before := Erased(EventsTo(lines, n - 1, mark));
        assert all == (head + before) + Erased(LineEvents(l, c));
        assert tail == before + Erased(LineEvents(l, c));
      }
    }
  }

  // The mark separates as far as lines are finished.
  ghost predicate Separates(lines: seq<Line>, k: nat, since: int)
    requires 0 < k <= |lines| && Ends(lines, k - 1, since)
  {
    k <= FinishedTo(lines, |lines|, since) && CleanMark(lines, k, FinishedTo(lines, |lines|, since), since)
  }

  // After the last end line read past `since` there is none read past a later mark.
  lemma {:induction false} FinishedStays(lines: seq<Line>, f: nat, n: nat, since: int, mark: int)
    requires f <= n <= |lines| && since <= mark && forall i :: f <= i < n ==> !Ends(lines, i, since)
    ensures FinishedTo(lines, n, mark) == FinishedTo(lines, f, mark)
    decreases n
  {
    if f < n {
      assert !Ends(lines, n - 1, since);
      FinishedStays(lines, f, n - 1, since, mark);
    }
  }

  lemma FinishedToGrows(lines: seq<Line>, k: nat, n: nat, since: int)
    requires k <= n <= |lines| && (k > 0 ==> Ends(lines, k - 1, since))
    ensures FinishedTo(lines, n, since) >= k
  {
  }

  // The finished part of an earlier state of the rollout is a prefix of the later one.
  lemma FinishedPrefix(before: seq<Line>, now: seq<Line>, since: int)
    requires GrowsTo(before, now)
    ensures var k := FinishedTo(before, |before|, since);
            && EventsTo(before, k, since) == EventsTo(now, k, since)
            && (k > 0 ==> Ends(now, k - 1, since) && Ordinal(before, k - 1) == Ordinal(now, k - 1))
  {
    var k := FinishedTo(before, |before|, since);
    SameLinesSameEvents(before, now, k, since);
  }

  // The second of two chained imports, and the whole one, end at the same line f.
  lemma SecondImport(now: seq<Line>, k: nat, w: Watermark)
    requires 0 < k <= |now| && Ends(now, k - 1, Since(w)) && Separates(now, k, Since(w))
    ensures var mark := Ordinal(now, k - 1);
            var f := FinishedTo(now, |now|, Since(w));
            && k <= f
            && Import(now, At(mark)) == (EventsTo(now, f, mark), At(Ordinal(now, f - 1)))
            && Import(now, w) == (EventsTo(now, f, Since(w)), At(Ordinal(now, f - 1)))
  {
    hide EventsTo, ContextAt;
    var mark, f := Ordinal(now, k - 1), FinishedTo(now, |now|, Since(w));
    TurnFromMark(now, k, f, Since(w));
    FinishedStays(now, f, |now|, Since(w), mark);
    FinishedAgain(now, f, Since(w));
    if FinishedTo(now, |now|, mark) == 0 {
      NothingReread(now, k, k, mark);
      NoEventsYet(now, mark);
    }
  }

  lemma FinishedAgain(lines: seq<Line>, f: nat, since: int)
    requires f <= |lines| && f == FinishedTo(lines, |lines|, since)
    ensures FinishedTo(lines, f, since) == f
  {
  }

  lemma NoEventsYet(lines: seq<Line>, since: int)
    ensures EventsTo(lines, 0, since) == []
  {
  }

  lemma ChainedAtMark(now: seq<Line>, k: nat, w: Watermark)
    requires 0 < k <= |now| && Ends(now, k - 1, Since(w)) && Separates(now, k, Since(w))
    ensures var second, whole := Import(now, At(Ordinal(now, k - 1))), Import(now, w);
            Erased(EventsTo(now, k, Since(w)) + second.0) == Erased(whole.0) && second.1 == whole.1
  {
    hide EventsTo, Erased, Import;
    var mark, f := Ordinal(now, k - 1), FinishedTo(now, |now|, Since(w));
    SecondImport(now, k, w);
    EventsFromMark(now, k, f, Since(w));
    ErasedAppend(EventsTo(now, k, Since(w)), EventsTo(now, f, mark));
  }

  // The mark an import of an earlier state returned separates the lines of the grown
  // rollout: none up to it is read again, and no finished one after it is left behind.
  ghost predicate MarkSeparates(before: seq<Line>, now: seq<Line>, w: Watermark)
    requires GrowsTo(before, now)
  {
    var k := FinishedTo(before, |before|, Since(w));
    k > 0 ==> Ends(now, k - 1, Since(w)) && Separates(now, k, Since(w))
  }

  // Main result: an import of an earlier state followed by an import of the grown
  // rollout from the returned mark emits what one import of the grown rollout
  // emits, up to the model, and returns the same mark.
  lemma ChainedImports(before: seq<Line>, now: seq<Line>, w: Watermark)
    requires GrowsTo(before, now) && MarkSeparates(before, now, w)
    ensures var first := Import(before, w);
            var second, whole := Import(now, first.1), Import(now, w);
            Erased(first.0 + second.0) == Erased(whole.0) && second.1 == whole.1
  {
    hide EventsTo, Erased;
    var k := FinishedTo(before, |before|, Since(w));
    FinishedPrefix(before, now, Since(w));
    if k > 0 {
      ChainedAtMark(now, k, w);
    } else {
      NothingFinished(before, now, w);
    }
  }

  // Increasing ordinals separate at every mark.
  lemma OrderedSeparates(before: seq<Line>, now: seq<Line>, w: Watermark)
    requires GrowsTo(before, now) && Ordered(now)
    ensures MarkSeparates(before, now, w)
  {
    hide EventsTo;
    var k := FinishedTo(before, |before|, Since(w));
    FinishedPrefix(before, now, Since(w));
    if k > 0 {
      FinishedToGrows(now, k, |now|, Since(w));
    }
  }

  // ----- Any number of imports -----

  // Import each state from the mark the state before it returned.
  function ChainedEvents(states: seq<seq<Line>>, w: Watermark): seq<Event> {
    if states == [] then []
    else Import(states[0], w).0 + ChainedEvents(states[1..], Import(states[0], w).1)
  }

  function ChainedMark(states: seq<seq<Line>>, w: Watermark): Watermark {
    if states == [] then w else ChainedMark(states[1..], Import(states[0], w).1)
  }

  // Every state is an earlier one of `last`, and its returned mark separates there.
  ghost predicate StatesSeparate(states: seq<seq<Line>>, last: seq<Line>, w: Watermark) {
    states == [] ||
    (&& GrowsTo(states[0], last) && MarkSeparates(states[0], last, w)
     && StatesSeparate(states[1..], last, Import(states[0], w).1))
  }

  // Main result: importing a rollout in any number of its states, and then in the
  // last, emits what one import of the last emits, up to the model, and returns its mark.
  lemma {:induction false} RepeatedImports(states: seq<seq<Line>>, last: seq<Line>, w: Watermark)
    requires StatesSeparate(states, last, w)
    ensures Erased(ChainedEvents(states + [last], w)) == Erased(Import(last, w).0)
    ensures ChainedMark(states + [last], w) == Import(last, w).1
  {
    hide Import, Erased, MarkSeparates, GrowsTo;
    var all := states + [last];
    if states == [] {
      assert all[1..] == [] && Import(last, w).0 + [] == Import(last, w).0;
    } else {
      var first := Import(states[0], w);
      assert all[1..] == states[1..] + [last];
      RepeatedImports(states[1..], last, first.1);
      ChainedImports(states[0], last, w);
      ErasedAppend(first.0, ChainedEvents(all[1..], first.1));
      ErasedAppend(first.0, Import(last, first.1).0);
    }
  }

  lemma GrowsOn(a: seq<Line>, b: seq<Line>, c: seq<Line>)
    requires GrowsTo(a, b) && GrowsTo(b, c)
    ensures GrowsTo(a, c)
  {
  }

  ghost predicate Growing(states: seq<seq<Line>>) {
    forall i :: 0 < i < |states| ==> GrowsTo(states[i - 1], states[i])
  }

  // Each state of a growing rollout with increasing ordinals separates.
  lemma {:induction false} GrowingSeparates(states: seq<seq<Line>>, last: seq<Line>, w: Watermark)
    requires Growing(states + [last]) && Ordered(last)
    ensures StatesSeparate(states, last, w) && (states != [] ==> GrowsTo(states[0], last))
  {
    hide Ordered, MarkSeparates, Import, GrowsTo;
    if states != [] {
      var all := states + [last];
      assert all[1..] == states[1..] + [last];
      assert forall i :: 0 < i < |all[1..]| ==> all[1..][i - 1] == all[i] && all[1..][i] == all[i + 1];
      GrowingSeparates(states[1..], last, Import(states[0], w).1);
      assert GrowsTo(all[0], all[1]);
      if |states| > 1 {
        GrowsOn(states[0], states[1], last);
      }
      OrderedSeparates(states[0], last, w);
    }
  }

  // In particular a growing rollout with increasing ordinals may be imported at any
  // times: nothing is lost and nothing repeated.
  lemma OrderedImports(states: seq<seq<Line>>, last: seq<Line>, w: Watermark)
    requires Growing(states + [last]) && Ordered(last)
    ensures Erased(ChainedEvents(states + [last], w)) == Erased(Import(last, w).0)
    ensures ChainedMark(states + [last], w) == Import(last, w).1
  {
    GrowingSeparates(states, last, w);
    RepeatedImports(states, last, w);
  }

  // ----- The exact condition -----

  predicate Emits(l: Line) {
    LineEvents(l, START) != []
  }

  lemma LineCount(l: Line, c: Context)
    ensures |LineEvents(l, c)| == |LineEvents(l, START)|
  {
  }

  // The line says itself which turn it belongs to.
  predicate NamesTurn(l: Line) {
    l.Line? && l.body.ItemCompleted? && l.body.turn.Some?
  }

  // The mark after the first k lines, the last of them an end line.
  function MarkAfter(lines: seq<Line>, k: nat, since: int): int {
    if 0 < k <= |lines| && lines[k - 1].Line? then Ordinal(lines, k - 1) else since
  }

  // An import from `mark` emits line i.
  ghost predicate Emitted(lines: seq<Line>, i: nat, mark: int)
    requires i < |lines|
  {
    Emits(lines[i]) && Read(lines, i, mark) && i < FinishedTo(lines, |lines|, mark)
  }

  // The import from the mark after k lines emits a line up to it again.
  ghost predicate Repeats(lines: seq<Line>, k: nat, since: int)
    requires k <= |lines|
  {
    exists i :: 0 <= i < k && Emitted(lines, i, MarkAfter(lines, k, since))
  }

  // It leaves out a line that one import emits.
  ghost predicate Loses(lines: seq<Line>, k: nat, since: int)
    requires k <= |lines|
  {
    exists i :: k <= i < |lines| && Emitted(lines, i, since) && !Emitted(lines, i, MarkAfter(lines, k, since))
  }

  // Lines k to n that emit fall in the same turns in both.
  ghost predicate SameTurns(lines: seq<Line>, k: nat, n: nat, since: int)
    requires k <= n <= |lines|
  {
    forall i :: k <= i < n && Emits(lines[i]) && Read(lines, i, since) ==>
      || NamesTurn(lines[i])
      || ContextAt(lines, i, since).turn == ContextAt(lines, i, MarkAfter(lines, k, since)).turn
  }

  ghost predicate LeftBehind(lines: seq<Line>, k: nat, n: nat, since: int, mark: int)
    requires k <= n <= |lines|
  {
    exists i :: k <= i < n && Emits(lines[i]) && Read(lines, i, since) && !Read(lines, i, mark)
  }

  // Lines left behind are the difference from line k on.
  lemma {:induction false} EventCount(lines: seq<Line>, k: nat, n: nat, since: int, mark: int)
    requires k <= n <= |lines| && since <= mark
    ensures var more, less := |EventsTo(lines, n, since)| - |EventsTo(lines, k, since)|,
             |EventsTo(lines, n, mark)| - |EventsTo(lines, k, mark)|;
            if LeftBehind(lines, k, n, since, mark) then less < more else less == more
    decreases n
  {
    hide LineEvents, After;
    if k < n {
      EventCount(lines, k, n - 1, since, mark);
      OneMore(lines, n - 1, since);
      OneMore(lines, n - 1, mark);
      LineCount(lines[n - 1], ContextAt(lines, n - 1, since));
      LineCount(lines[n - 1], ContextAt(lines, n - 1, mark));
      if Emits(lines[n - 1]) && Read(lines, n - 1, since) && !Read(lines, n - 1, mark) {
        assert LeftBehind(lines, k, n, since, mark);
      }
      assert LeftBehind(lines, k, n - 1, since, mark) ==> LeftBehind(lines, k, n, since, mark);
    }
  }

  lemma {:induction false} EventsGrow(lines: seq<Line>, m: nat, n: nat, since: int)
    requires m <= n <= |lines|
    ensures |EventsTo(lines, m, since)| <= |EventsTo(lines, n, since)|
    decreases n
  {
    hide LineEvents;
    if m < n {
      EventsGrow(lines, m, n - 1, since);
    }
  }

  lemma {:induction false} QuietTail(lines: seq<Line>, g: nat, f: nat, mark: int)
    requires g <= f <= |lines| && forall i :: g <= i < f && Read(lines, i, mark) ==> !Emits(lines[i])
    ensures EventsTo(lines, f, mark) == EventsTo(lines, g, mark)
    decreases f
  {
    hide LineEvents;
    if g < f {
      QuietTail(lines, g, f - 1, mark);
      OneMore(lines, f - 1, mark);
      LineCount(lines[f - 1], ContextAt(lines, f - 1, mark));
    }
  }

  // A line that emits adds to the events.
  lemma LineAdds(lines: seq<Line>, g: nat, i: nat, f: nat, mark: int)
    requires g <= i < f <= |lines| && Read(lines, i, mark) && Emits(lines[i])
    ensures |EventsTo(lines, g, mark)| < |EventsTo(lines, f, mark)|
  {
    hide LineEvents;
    EventsGrow(lines, g, i, mark);
    OneMore(lines, i, mark);
    LineCount(lines[i], ContextAt(lines, i, mark));
    EventsGrow(lines, i + 1, f, mark);
  }

  lemma ErasedAlike(l: Line, c: Context, d: Context)
    ensures |LineEvents(l, c)| == |LineEvents(l, d)|
    ensures Erased(LineEvents(l, c)) == Erased(LineEvents(l, d)) <==>
            !Emits(l) || NamesTurn(l) || c.turn == d.turn
  {
    if Emits(l) && !NamesTurn(l) && c.turn != d.turn {
      assert Erased(LineEvents(l, c))[0].turn == c.turn && Erased(LineEvents(l, d))[0].turn == d.turn;
    }
  }

  lemma ErasedLength(events: seq<Event>)
    ensures |Erased(events)| == |events|
  {
  }

  lemma AppendStep<T>(whole: seq<T>, head: seq<T>, tail: seq<T>, x: seq<T>, y: seq<T>)
    requires |whole| == |head| + |tail|
    ensures whole + x == head + (tail + y) <==> whole == head + tail && x == y
  {
    var a, b := whole + x, head + (tail + y);
    assert b == (head + tail) + y;
    assert a[..|whole|] == whole && a[|whole|..] == x;
    assert b[..|whole|] == head + tail && b[|whole|..] == y;
  }

  // While no line that emits is left behind, the two imports read alike exactly when
  // those lines fall in the same turns.
  lemma {:induction false} AlikeTo(lines: seq<Line>, k: nat, n: nat, since: int)
    requires k <= n <= |lines| && since <= MarkAfter(lines, k, since)
    requires EventsTo(lines, k, MarkAfter(lines, k, since)) == []
    requires !LeftBehind(lines, k, n, since, MarkAfter(lines, k, since))
    ensures var head, tail := EventsTo(lines, k, since), EventsTo(lines, n, MarkAfter(lines, k, since));
            Erased(EventsTo(lines, n, since)) == Erased(head) + Erased(tail) <==> SameTurns(lines, k, n, since)
    decreases n
  {
    hide LineEvents, After, Emits, Erased, NamesTurn, ContextAt, EventsTo, MarkAfter, Read;
    var mark, head := MarkAfter(lines, k, since), EventsTo(lines, k, since);
    if n == k {
      ErasedAppend(head, []);
      assert head + [] == head;
    } else {
      assert !LeftBehind(lines, k, n - 1, since, mark);
      AlikeTo(lines, k, n - 1, since);
      AlikeStep(lines, k, n, since, mark);
    }
  }

  lemma AlikeStep(lines: seq<Line>, k: nat, n: nat, since: int, mark: int)
    requires k < n <= |lines| && since <= mark && !LeftBehind(lines, k, n, since, mark)
    requires EventsTo(lines, k, mark) == []
    ensures var head := EventsTo(lines, k, since);
            Erased(EventsTo(lines, n, since)) == Erased(head) + Erased(EventsTo(lines, n, mark)) <==>
            && Erased(EventsTo(lines, n - 1, since)) == Erased(head) + Erased(EventsTo(lines, n - 1, mark))
            && (Emits(lines[n - 1]) && Read(lines, n - 1, since) ==>
                  || NamesTurn(lines[n - 1])
                  || ContextAt(lines, n - 1, since).turn == ContextAt(lines, n - 1, mark).turn)
  {
    assert Read(lines, n - 1, mark) ==> Read(lines, n - 1, since);
    assert Emits(lines[n - 1]) && Read(lines, n - 1, since) ==> Read(lines, n - 1, mark);
    hide LineEvents, After, Erased, NamesTurn, EventsTo, ContextAt, Read;
    var l, c, d := lines[n - 1], ContextAt(lines, n - 1, since), ContextAt(lines, n - 1, mark);
    var whole, head, tail := EventsTo(lines, n - 1, since), EventsTo(lines, k, since), EventsTo(lines, n - 1, mark);
    EventCount(lines, k, n - 1, since, mark);
    assert |whole| == |head| + |tail|;
    hide LeftBehind;
    OneMore(lines, n - 1, since);
    OneMore(lines, n - 1, mark);
    ErasedAlike(l, c, d);
    LineCount(l, c);
    ErasedLength(whole);
    ErasedLength(head);
    ErasedLength(tail);
    if Emits(l) && Read(lines, n - 1, since) {
      ErasedAppend(whole, LineEvents(l, c));
      ErasedAppend(tail, LineEvents(l, d));
      AppendStep(Erased(whole), Erased(head), Erased(tail), Erased(LineEvents(l, c)), Erased(LineEvents(l, d)));
    } else {
      assert whole + [] == whole && tail + [] == tail;
      assert EventsTo(lines, n, since) == whole && EventsTo(lines, n, mark) == tail;
    }
  }

  // What the chained imports add to the events of lines up to k.
  lemma RepeatsCount(lines: seq<Line>, k: nat, since: int)
    requires k <= |lines|
    ensures var mark := MarkAfter(lines, k, since);
            EventsTo(lines, Min(k, FinishedTo(lines, |lines|, mark)), mark) != [] <==> Repeats(lines, k, since)
  {
    hide EventsTo, Read, Emits, MarkAfter;
    var mark := MarkAfter(lines, k, since);
    var m := Min(k, FinishedTo(lines, |lines|, mark));
    NoEventsYet(lines, mark);
    if Repeats(lines, k, since) {
      var i :| 0 <= i < k && Emitted(lines, i, mark);
      LineAdds(lines, 0, i, m, mark);
    } else {
      forall i | 0 <= i < m && Read(lines, i, mark) ensures !Emits(lines[i]) {
        assert !Emitted(lines, i, mark);
      }
      QuietTail(lines, 0, m, mark);
    }
  }

  // Where both imports end.
  lemma EndsAtMark(lines: seq<Line>, k: nat, since: int)
    requires k <= |lines| && (k > 0 ==> Ends(lines, k - 1, since))
    ensures var mark := MarkAfter(lines, k, since);
            && since <= mark && k <= FinishedTo(lines, |lines|, since)
            && FinishedTo(lines, |lines|, mark) <= FinishedTo(lines, |lines|, since)
  {
    var f, mark := FinishedTo(lines, |lines|, since), MarkAfter(lines, k, since);
    FinishedToGrows(lines, k, |lines|, since);
    FinishedStays(lines, f, |lines|, since, mark);
  }

  // The second import ends before it is past line k.
  lemma EndsBehind(lines: seq<Line>, k: nat, f: nat, since: int)
    requires k <= f == FinishedTo(lines, |lines|, since)
    requires FinishedTo(lines, |lines|, MarkAfter(lines, k, since)) <= k
    ensures if Loses(lines, k, since) then |EventsTo(lines, k, since)| < |EventsTo(lines, f, since)|
            else EventsTo(lines, k, since) == EventsTo(lines, f, since) && SameTurns(lines, k, f, since)
  {
    hide EventsTo, Read, Emits, MarkAfter, ContextAt, NamesTurn;
    var mark := MarkAfter(lines, k, since);
    if Loses(lines, k, since) {
      var i :| k <= i < |lines| && Emitted(lines, i, since) && !Emitted(lines, i, mark);
      LineAdds(lines, k, i, f, since);
    } else {
      forall i | k <= i < f && Read(lines, i, since) ensures !Emits(lines[i]) {
        assert Emitted(lines, i, since) ==> Emitted(lines, i, mark);
      }
      QuietTail(lines, k, f, since);
    }
  }

  // It ends past line k.
  lemma EndsAhead(lines: seq<Line>, k: nat, f: nat, since: int)
    requires since <= MarkAfter(lines, k, since)
    requires k < FinishedTo(lines, |lines|, MarkAfter(lines, k, since)) <= f == FinishedTo(lines, |lines|, since)
    ensures var mark := MarkAfter(lines, k, since);
            var tail := EventsTo(lines, FinishedTo(lines, |lines|, mark), mark);
            if Loses(lines, k, since) then
              |tail| - |EventsTo(lines, k, mark)| < |EventsTo(lines, f, since)| - |EventsTo(lines, k, since)|
            else
              && |tail| - |EventsTo(lines, k, mark)| == |EventsTo(lines, f, since)| - |EventsTo(lines, k, since)|
              && tail == EventsTo(lines, f, mark) && !LeftBehind(lines, k, f, since, mark)
  {
    hide EventsTo, Emits, MarkAfter;
    var mark := MarkAfter(lines, k, since);
    var g := FinishedTo(lines, |lines|, mark);
    EventCount(lines, k, f, since, mark);
    EventsGrow(lines, g, f, mark);
    if Loses(lines, k, since) {
      var i :| k <= i < |lines| && Emitted(lines, i, since) && !Emitted(lines, i, mark);
      if Read(lines, i, mark) {
        LineAdds(lines, g, i, f, mark);
      }
    } else {
      forall i | k <= i < f && Read(lines, i, since) && Emits(lines[i]) ensures Read(lines, i, mark) && i < g {
        assert Emitted(lines, i, since) ==> Emitted(lines, i, mark);
      }
      QuietTail(lines, g, f, mark);
    }
  }

  // The number of events decides, unless lines are lost and others repeated.
  lemma CountsAtMark(lines: seq<Line>, k: nat, since: int)
    requires k <= |lines| && (k > 0 ==> Ends(lines, k - 1, since))
    ensures var mark := MarkAfter(lines, k, since);
            var f, g := FinishedTo(lines, |lines|, since), FinishedTo(lines, |lines|, mark);
            var chained, whole := |EventsTo(lines, k, since)| + |EventsTo(lines, g, mark)|, |EventsTo(lines, f, since)|;
            && (Loses(lines, k, since) && !Repeats(lines, k, since) ==> chained < whole)
            && (Repeats(lines, k, since) && !Loses(lines, k, since) ==> chained > whole)
  {
    hide EventsTo, MarkAfter, Repeats, Loses;
    var f, g := FinishedTo(lines, |lines|, since), FinishedTo(lines, |lines|, MarkAfter(lines, k, since));
    EndsAtMark(lines, k, since);
    RepeatsCount(lines, k, since);
    if g <= k {
      EndsBehind(lines, k, f, since);
    } else {
      EndsAhead(lines, k, f, since);
    }
  }

  // With nothing lost and nothing repeated, the turns decide.
  lemma TurnsAtMark(lines: seq<Line>, k: nat, since: int)
    requires k <= |lines| && (k > 0 ==> Ends(lines, k - 1, since))
    requires !Repeats(lines, k, since) && !Loses(lines, k, since)
    ensures var mark := MarkAfter(lines, k, since);
            var f, g := FinishedTo(lines, |lines|, since), FinishedTo(lines, |lines|, mark);
            k <= f &&
            (Erased(EventsTo(lines, k, since) + EventsTo(lines, g, mark)) == Erased(EventsTo(lines, f, since)) <==>
             SameTurns(lines, k, f, since))
  {
    hide EventsTo, MarkAfter, Repeats, Loses, SameTurns, Erased;
    var mark := MarkAfter(lines, k, since);
    var f, g := FinishedTo(lines, |lines|, since), FinishedTo(lines, |lines|, mark);
    EndsAtMark(lines, k, since);
    RepeatsCount(lines, k, since);
    if g <= k {
      EndsBehind(lines, k, f, since);
      assert EventsTo(lines, k, since) + [] == EventsTo(lines, k, since);
    } else {
      EndsAhead(lines, k, f, since);
      AlikeTo(lines, k, f, since);
      ErasedAppend(EventsTo(lines, k, since), EventsTo(lines, g, mark));
    }
  }

  // The imports of a state and of the rollout it grew into, from the mark and as one.
  lemma ImportsAtMark(before: seq<Line>, now: seq<Line>, w: Watermark)
    requires GrowsTo(before, now)
    ensures var k, f := FinishedTo(before, |before|, Since(w)), FinishedTo(now, |now|, Since(w));
            var mark := MarkAfter(now, k, Since(w));
            var g := FinishedTo(now, |now|, mark);
            && k <= f && (k > 0 ==> Ends(now, k - 1, Since(w)))
            && Import(before, w).0 == EventsTo(now, k, Since(w))
            && Import(now, Import(before, w).1).0 == EventsTo(now, g, mark)
            && Import(now, w).0 == EventsTo(now, f, Since(w))
  {
    hide EventsTo;
    FinishedPrefix(before, now, Since(w));
    EndsAtMark(now, FinishedTo(before, |before|, Since(w)), Since(w));
  }

  // Main result on marks, for any ordinals. Unless chained imports lose one line and
  // repeat another, they emit what one import emits, up to the model, exactly when
  // they lose none, repeat none, and read the later lines in the same turns.
  lemma ChainedImportsIff(before: seq<Line>, now: seq<Line>, w: Watermark)
    requires GrowsTo(before, now)
    requires var k := FinishedTo(before, |before|, Since(w));
             !(Loses(now, k, Since(w)) && Repeats(now, k, Since(w)))
    ensures var k, f := FinishedTo(before, |before|, Since(w)), FinishedTo(now, |now|, Since(w));
            var first, whole := Import(before, w), Import(now, w);
            k <= f &&
            (Erased(first.0 + Import(now, first.1).0) == Erased(whole.0) <==>
             !Loses(now, k, Since(w)) && !Repeats(now, k, Since(w)) && SameTurns(now, k, f, Since(w)))
  {
    hide EventsTo, Erased, MarkAfter, Loses, Repeats, SameTurns, Import;
    var k := FinishedTo(before, |before|, Since(w));
    var first, whole := Import(before, w), Import(now, w);
    ImportsAtMark(before, now, w);
    if Loses(now, k, Since(w)) || Repeats(now, k, Since(w)) {
      CountsAtMark(now, k, Since(w));
      ErasedLength(first.0 + Import(now, first.1).0);
      ErasedLength(whole.0);
    } else {
      TurnsAtMark(now, k, Since(w));
    }
  }

  // A line lost makes the chained imports emit less than one import; a line up to the
  // mark that is read past it, and finished again, makes them emit more.
  lemma LossAndRepetition(before: seq<Line>, now: seq<Line>, w: Watermark)
    requires GrowsTo(before, now)
    ensures var k := FinishedTo(before, |before|, Since(w));
            var chained := |Import(before, w).0| + |Import(now, Import(before, w).1).0|;
            k <= |now|
            && (Loses(now, k, Since(w)) && !Repeats(now, k, Since(w)) ==> chained < |Import(now, w).0|)
            && (Repeats(now, k, Since(w)) && !Loses(now, k, Since(w)) ==> chained > |Import(now, w).0|)
  {
    hide EventsTo, MarkAfter, Loses, Repeats, Import;
    ImportsAtMark(before, now, w);
    CountsAtMark(now, FinishedTo(before, |before|, Since(w)), Since(w));
  }

  function Said(ordinal: int, text: string): Line {
    Line(Some(ordinal), None, ItemCompleted(None, AgentMessage([Block("Text", Some(text))])))
  }

  function Ended(ordinal: int): Line {
    Line(Some(ordinal), None, TaskEnd)
  }

  lemma SaidEvents(ordinal: int, text: string, c: Context)
    ensures LineEvents(Said(ordinal, text), c) == [Event(None, c.turn, None, Text(text))]
  {
    var block := Block("Text", Some(text));
    assert [block][1..] == [];
    assert Texts([block], "Text") == [text];
    assert Join([text], "\n") == text;
  }

  // The first line's ordinal is beyond the mark of the second, the third's below it.
  function Crossed(x: string, y: string): seq<Line> {
    [Said(10, x), Ended(5), Said(4, y), Ended(6)]
  }

  function SaidEvent(text: string): Event {
    Event(None, None, None, Text(text))
  }

  lemma CrossedReads(x: string, y: string, since: int)
    requires since == -1 || since == 5
    ensures var now := Crossed(x, y);
            && (since == -1 ==> EventsTo(now, 2, since) == [SaidEvent(x)] && FinishedTo(now, 2, since) == 2)
            && FinishedTo(now, 4, since) == 4
            && EventsTo(now, 4, since) == if since == 5 then [SaidEvent(x)] else [SaidEvent(x), SaidEvent(y)]
  {
    hide LineEvents;
    var now := Crossed(x, y);
    SaidEvents(10, x, START);
    SaidEvents(4, y, START);
    OneMore(now, 0, since);
    OneMore(now, 1, since);
    OneMore(now, 2, since);
    OneMore(now, 3, since);
    assert LineEvents(now[1], ContextAt(now, 1, since)) == [] by {
      NothingSaid(5, ContextAt(now, 1, since));
    }
    NothingSaid(6, ContextAt(now, 3, since));
  }

  lemma NothingSaid(ordinal: int, c: Context)
    ensures LineEvents(Ended(ordinal), c) == [] && After(Ended(ordinal), c).turn == None
  {
  }

  // A line lost and another repeated: only their texts tell the two imports apart.
  lemma LossHiddenByRepetition(x: string, y: string)
    ensures var now := Crossed(x, y);
            var (first, mark) := Import(now[..2], Blank);
            && Loses(now, 2, -1) && Repeats(now, 2, -1)
            && (Erased(first + Import(now, mark).0) == Erased(Import(now, Blank).0) <==> x == y)
  {
    hide EventsTo, FinishedTo, LineEvents;
    var now, a, b := Crossed(x, y), SaidEvent(x), SaidEvent(y);
    SameLinesSameEvents(now[..2], now, 2, -1);
    CrossedReads(x, y, -1);
    CrossedReads(x, y, 5);
    SaidEvents(10, x, START);
    SaidEvents(4, y, START);
    assert Emitted(now, 0, 5) && Emitted(now, 2, -1) && !Emitted(now, 2, 5) && MarkAfter(now, 2, -1) == 5;
    assert Erased([a] + [a]) == [a, a] && Erased([a, b]) == [a, b] && [a, a][1] == a && [a, b][1] == b;
  }

  // ----- The model stamp -----

  predicate NamesModel(l: Line) {
    l.Line? && l.body.TurnContext? && l.body.model.Some?
  }

  // Some usage among the lines read in k..n comes before any of them names a model.
  ghost predicate UsageBeforeModel(lines: seq<Line>, k: nat, n: nat, since: int)
    requires k <= n <= |lines|
  {
    exists i :: k <= i < n && Read(lines, i, since) && CountsTokens(lines[i])
                && forall j :: k <= j < i && Read(lines, j, since) ==> !NamesModel(lines[j])
  }

  lemma StampedLine(l: Line, c: Context, d: Context)
    requires c.turn == d.turn
    ensures LineEvents(l, c) == LineEvents(l, d) <==> c.model == d.model || !CountsTokens(l)
  {
    if CountsTokens(l) && c.model != d.model {
      assert LineEvents(l, c)[0].payload.usage.model == c.model;
      assert LineEvents(l, d)[0].payload.usage.model == d.model;
    }
  }

  lemma {:induction false} ModelFromMark(lines: seq<Line>, k: nat, n: nat, since: int)
    requires 0 < k <= n <= |lines| && Ends(lines, k - 1, since) && CleanMark(lines, k, n, since)
    ensures var mark := Ordinal(lines, k - 1);
            var named := exists j :: k <= j < n && Read(lines, j, since) && NamesModel(lines[j]);
            && (named ==> ContextAt(lines, n, since).model == ContextAt(lines, n, mark).model)
            && (!named ==> ContextAt(lines, n, mark).model == ""
                           && ContextAt(lines, n, since).model == ContextAt(lines, k, since).model)
    decreases n
  {
    var mark := Ordinal(lines, k - 1);
    if n == k {
      NothingReread(lines, k, k, mark);
    } else {
      ModelFromMark(lines, k, n - 1, since);
      ReadFromMark(lines, k, n - 1, since);
    }
  }

  // One more line keeps the two imports equal exactly when it reads the same in both.
  lemma StampStep(lines: seq<Line>, k: nat, n: nat, since: int)
    requires 0 < k < n <= |lines| && Ends(lines, k - 1, since) && CleanMark(lines, k, n, since)
    ensures var mark := Ordinal(lines, k - 1);
            var c, d := ContextAt(lines, n - 1, since), ContextAt(lines, n - 1, mark);
            EventsTo(lines, n, since) == EventsTo(lines, k, since) + EventsTo(lines, n, mark) <==>
            && EventsTo(lines, n - 1, since) == EventsTo(lines, k, since) + EventsTo(lines, n - 1, mark)
            && (c.model == d.model || !CountsTokens(lines[n - 1]) || !Read(lines, n - 1, since))
  {
    var mark, l := Ordinal(lines, k - 1), lines[n - 1];
    var c, d := ContextAt(lines, n - 1, since), ContextAt(lines, n - 1, mark);
    TurnFromMark(lines, k, n - 1, since);
    ReadFromMark(lines, k, n - 1, since);
    OneMore(lines, n - 1, since);
    OneMore(lines, n - 1, mark);
    if Read(lines, n - 1, since) {
      var whole, head, tail := EventsTo(lines, n - 1, since), EventsTo(lines, k, since), EventsTo(lines, n - 1, mark);
      EventsFromMark(lines, k, n - 1, since);
      assert |whole| == |Erased(whole)| == |head| + |tail|;
      StampedLine(l, c, d);
      AppendStep(whole, head, tail, LineEvents(l, c), LineEvents(l, d));
    }
  }

  lemma {:induction false} StampsFromMark(lines: seq<Line>, k: nat, n: nat, since: int)
    requires 0 < k <= n <= |lines| && Ends(lines, k - 1, since) && CleanMark(lines, k, n, since)
    ensures EventsTo(lines, n, since) == EventsTo(lines, k, since) + EventsTo(lines, n, Ordinal(lines, k - 1))
            <==> ContextAt(lines, k, since).model == "" || !UsageBeforeModel(lines, k, n, since)
    decreases n
  {
    if n == k {
      NothingReread(lines, k, k, Ordinal(lines, k - 1));
    } else {
      StampsFromMark(lines, k, n - 1, since);
      StampStep(lines, k, n, since);
      ModelFromMark(lines, k, n - 1, since);
      UsageOneMore(lines, k, n, since);
    }
  }

  lemma UsageOneMore(lines: seq<Line>, k: nat, n: nat, since: int)
    requires k < n <= |lines|
    ensures UsageBeforeModel(lines, k, n, since) <==>
            || UsageBeforeModel(lines, k, n - 1, since)
            || (&& Read(lines, n - 1, since) && CountsTokens(lines[n - 1])
                && forall j :: k <= j < n - 1 && Read(lines, j, since) ==> !NamesModel(lines[j]))
  {
  }

  // The chained imports agree exactly, model included, unless the earlier import
  // knew a model and a turn finished later counts tokens before naming one again.
  lemma ChainedStamps(before: seq<Line>, now: seq<Line>, w: Watermark)
    requires GrowsTo(before, now) && MarkSeparates(before, now, w)
    ensures var k, f := FinishedTo(before, |before|, Since(w)), FinishedTo(now, |now|, Since(w));
            k <= f &&
            (Import(before, w).0 + Import(now, Import(before, w).1).0 == Import(now, w).0 <==>
             k == 0 || ContextAt(now, k, Since(w)).model == "" || !UsageBeforeModel(now, k, f, Since(w)))
  {
    var k := FinishedTo(before, |before|, Since(w));
    FinishedPrefix(before, now, Since(w));
    if k > 0 {
      StampsAtEnd(now, k, w);
    } else {
      NothingFinished(before, now, w);
    }
  }

  lemma NothingFinished(before: seq<Line>, now: seq<Line>, w: Watermark)
    requires FinishedTo(before, |before|, Since(w)) == 0
    ensures Import(before, w) == ([], w)
    ensures Import(before, w).0 + Import(now, Import(before, w).1).0 == Import(now, w).0
  {
    hide FinishedTo;
    NoEventsYet(before, Since(w));
    assert Import(before, w) == ([], w);
    assert [] + Import(now, w).0 == Import(now, w).0;
  }

  lemma StampsAtEnd(now: seq<Line>, k: nat, w: Watermark)
    requires 0 < k <= |now| && Ends(now, k - 1, Since(w)) && Separates(now, k, Since(w))
    ensures var f := FinishedTo(now, |now|, Since(w));
            k <= f &&
            (EventsTo(now, k, Since(w)) + Import(now, At(Ordinal(now, k - 1))).0 == Import(now, w).0 <==>
             ContextAt(now, k, Since(w)).model == "" || !UsageBeforeModel(now, k, f, Since(w)))
  {
    SecondImport(now, k, w);
    StampsFromMark(now, k, FinishedTo(now, |now|, Since(w)), Since(w));
  }

  // A rollout whose second turn counts tokens under the model the first one named.
  lemma StampIsLost()
    ensures var now := [Line(Some(1), None, TurnContext(Some("gpt"))), Ended(2),
                        Line(Some(3), None, TokenCount(Some(TokenUsage(1, 0, 0, 1, 2)), 0)), Ended(4)];
            var (first, mark) := Import(now[..2], Blank);
            && first + Import(now, mark).0 != Import(now, Blank).0
            && Erased(first + Import(now, mark).0) == Erased(Import(now, Blank).0)
  {
    hide EventsTo, Erased, Import;
    var now := [Line(Some(1), None, TurnContext(Some("gpt"))), Ended(2),
                Line(Some(3), None, TokenCount(Some(TokenUsage(1, 0, 0, 1, 2)), 0)), Ended(4)];
    OrderedSeparates(now[..2], now, Blank);
    ChainedImports(now[..2], now, Blank);
    ChainedStamps(now[..2], now, Blank);
    assert FinishedTo(now[..2], 2, -1) == 2 && FinishedTo(now, 4, -1) == 4;
    assert ContextAt(now, 1, -1).model == "gpt" && ContextAt(now, 2, -1).model == "gpt";
    assert Read(now, 2, -1) && CountsTokens(now[2]) && UsageBeforeModel(now, 2, 4, -1);
  }

  // Importing the same rollout again from the returned mark changes nothing exactly
  // when no end line has a larger ordinal than the last one.
  lemma ReimportEmitsNothingIff(lines: seq<Line>, w: Watermark)
    ensures var k := FinishedTo(lines, |lines|, Since(w));
            var mark := Import(lines, w).1;
            k > 0 ==>
              (Import(lines, mark) == ([], mark) <==>
               forall i :: 0 <= i < k && lines[i].Line? && lines[i].body.TaskEnd? ==>
                   Ordinal(lines, i) <= Ordinal(lines, k - 1))
    ensures FinishedTo(lines, |lines|, Since(w)) == 0 ==> Import(lines, Import(lines, w).1) == ([], w)
  {
    hide EventsTo;
    NoEventsYet(lines, Since(w));
    var k := FinishedTo(lines, |lines|, Since(w));
    if k > 0 {
      var mark := Ordinal(lines, k - 1);
      NoEventsYet(lines, mark);
      FinishedStays(lines, k, |lines|, Since(w), mark);
      var j := FinishedTo(lines, |lines|, mark);
      if j > 0 {
        assert Ends(lines, j - 1, mark) && j - 1 < k;
      } else {
        forall i | 0 <= i < k && lines[i].Line? && lines[i].body.TaskEnd? ensures Ordinal(lines, i) <= mark {
          assert !Ends(lines, i, mark);
        }
      }
    }
  }

  // With a repeated ordinal the lines after the mark that share it are lost.
  lemma RepeatedOrdinalLosesTurn()
    ensures var end, item := Line(Some(5), None, TaskEnd), Line(Some(5), None, ItemCompleted(None, UserMessage([])));
            var now := [end, item, Line(Some(6), None, TaskEnd)];
            var (first, mark) := Import(now[..1], Blank);
            first == [] && Import(now, mark).0 == [] && |Import(now, Blank).0| == 1
  {
    var end, item := Line(Some(5), None, TaskEnd), Line(Some(5), None, ItemCompleted(None, UserMessage([])));
    var now := [end, item, Line(Some(6), None, TaskEnd)];
    OneMore(now[..1], 0, -1);
    assert FinishedTo(now[..1], 1, -1) == 1 && EventsTo(now[..1], 1, -1) == [];
    OneMore(now, 0, -1);
    OneMore(now, 1, -1);
    OneMore(now, 2, -1);
    assert FinishedTo(now, 3, -1) == 3 && |EventsTo(now, 3, -1)| == 1;
    OneMore(now, 0, 5);
    OneMore(now, 1, 5);
    OneMore(now, 2, 5);
    assert FinishedTo(now, 3, 5) == 3 && EventsTo(now, 3, 5) == [];
  }
}
