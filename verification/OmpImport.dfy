/**
 The omp history importer on the active branch (`import_omp_history`,
 `omp_current_cursor`).

 A branch is a sequence of nodes, root first. The importer starts after its
 watermark, cuts the branch into turns at each typed user entry, and emits the
 complete turns up to the first incomplete one. What repeated imports of a growing
 branch emit is the subject of OmpChaining, and of OmpStamps with the model stamps.
 */
module OmpImport {
  import SkillText
  import opened Wrappers

  // ----- Entries -----

  datatype Block =
    | TextBlock(text: Option<string>)
    | ThinkingBlock(text: Option<string>)
    | ToolCallBlock(id: Option<string>, name: Option<string>, arguments: map<string, string>)
    | OtherBlock

  datatype Content = NoContent | Plain(text: string) | Blocks(blocks: seq<Block>)

  datatype TokenUsage = TokenUsage(input: int, output: int, cacheRead: int, cacheWrite: int, total: int,
      cost: Option<real>)

  // A fully parsed entry, with the fields the importer looks at. `role` is the
  // message's role, whatever the type of the entry.
  datatype Value = Value(
    ty: string, customType: string, role: string, attribution: Option<string>, content: Content,
    provider: Option<string>, model: Option<string>, changedModel: Option<string>,
    stopReason: string, errorMessage: Option<string>, toolCallId: Option<string>, isError: Option<bool>,
    usage: Option<TokenUsage>, ts: Option<string>)

  // An entry of the branch; no value when it could not be parsed in full.
  datatype Node = Node(id: Option<string>, ty: Option<string>, value: Option<Value>)

  type Branch = seq<Node>

  // A parsed entry and its place on the branch.
  datatype Item = Item(pos: nat, id: Option<string>, v: Value)

  datatype UsageInfo = UsageInfo(tokens: TokenUsage, model: string)

  datatype Payload =
    | User(text: string)
    | Text(text: string)
    | Thinking(text: string)
    | ToolUse(id: string, name: string, input: map<string, string>)
    | ToolResult(id: string, text: string, isError: Option<bool>)
    | Usage(usage: UsageInfo)
    | Error(text: string)
    | Compacted

  datatype Event = Event(ts: Option<string>, turn: string, model: Option<string>, payload: Payload)

  predicate IsSpace(c: char) {
    c == ' ' || c == '\t' || c == '\n' || c == '\r'
  }

  predicate IsBlank(s: string) {
    forall i :: 0 <= i < |s| ==> IsSpace(s[i])
  }

  predicate IsTypedUser(v: Value) {
    v.role == "user" && (v.attribution.None? || v.attribution.value == "user")
  }

  predicate IsAssistant(v: Value) {
    v.ty == "message" && v.role == "assistant"
  }

  predicate IsSessionExit(v: Value) {
    v.ty == "custom" && v.customType == "session_exit"
  }

  function TextParts(blocks: seq<Block>): seq<string> {
    if blocks == [] then []
    else (if blocks[0].TextBlock? && blocks[0].text.Some? then [blocks[0].text.value] else []) + TextParts(blocks[1..])
  }

  function ContentText(c: Content): string {
    match c
    case NoContent => ""
    case Plain(text) => text
    case Blocks(blocks) => Join(TextParts(blocks), "\n")
  }

  // The model an entry names, if any.
  function ModelFrom(v: Value): Option<string> {
    if v.ty == "model_change" then v.changedModel
    else if IsAssistant(v) then
      match v.model
      case None => None
      case Some(m) => Some(if v.provider.Some? then v.provider.value + "/" + m else m)
    else None
  }

  // ----- Complete turns -----

  function ToolCallIds(c: Content): seq<string> {
    if c.Blocks? then CallIds(c.blocks) else []
  }

  function CallIds(blocks: seq<Block>): seq<string> {
    if blocks == [] then []
    else (if blocks[0].ToolCallBlock? && blocks[0].id.Some? then [blocks[0].id.value] else []) + CallIds(blocks[1..])
  }

  predicate Resolves(v: Value, id: string) {
    v.ty == "message" && v.role == "toolResult" && v.toolCallId == Some(id)
  }

  function LastAssistant(turn: seq<Item>): Option<Value> {
    if turn == [] then None
    else if IsAssistant(turn[|turn| - 1].v) then Some(turn[|turn| - 1].v)
    else LastAssistant(turn[..|turn| - 1])
  }

  predicate EndsWell(stopReason: string) {
    stopReason == "stop" || stopReason == "error" || stopReason == "aborted" || stopReason == "length"
  }

  predicate TurnComplete(turn: seq<Item>, followed: bool) {
    || followed
    || (exists i :: 0 <= i < |turn| && IsSessionExit(turn[i].v))
    || (var last := LastAssistant(turn);
        && last.Some? && EndsWell(last.value.stopReason)
        && forall id :: id in ToolCallIds(last.value.content) ==>
             exists i :: 0 <= i < |turn| && Resolves(turn[i].v, id))
  }

  // ----- Events of one entry -----

  function Stamp(model: string): Option<string> {
    if model == "" then None else Some(model)
  }

  function BlockEvents(b: Block, ts: Option<string>, turn: string, model: string): seq<Event> {
    match b
    case TextBlock(text) =>
      if IsBlank(text.GetOr("")) then [] else [Event(ts, turn, Stamp(model), Text(text.GetOr("")))]
    case ThinkingBlock(text) =>
      if IsBlank(text.GetOr("")) then [] else [Event(ts, turn, Stamp(model), Thinking(text.GetOr("")))]
    case ToolCallBlock(id, name, arguments) =>
      [Event(ts, turn, Stamp(model), ToolUse(id.GetOr(""), name.GetOr(""), arguments - {"i"}))]
    case OtherBlock => []
  }

  function BlocksEvents(blocks: seq<Block>, ts: Option<string>, turn: string, model: string): seq<Event> {
    if blocks == [] then []
    else BlocksEvents(blocks[..|blocks| - 1], ts, turn, model) + BlockEvents(blocks[|blocks| - 1], ts, turn, model)
  }

  function MessageEvents(v: Value, turn: string, model: string): seq<Event> {
    if v.role == "user" then
      if IsTypedUser(v) && !IsBlank(ContentText(v.content)) then
        [Event(v.ts, turn, Stamp(model), User(SkillText.Escape(ContentText(v.content))))]
      else []
    else if v.role == "assistant" then
      (if v.content.Blocks? then BlocksEvents(v.content.blocks, v.ts, turn, model) else [])
      + (if v.usage.Some? && v.usage.value.total != 0 then
           [Event(v.ts, turn, Stamp(model), Usage(UsageInfo(v.usage.value, model)))] else [])
      + (if v.stopReason == "error" then
           [Event(v.ts, turn, Stamp(model), Error(v.errorMessage.GetOr("omp reported an error")))] else [])
    else if v.role == "toolResult" then
      [Event(v.ts, turn, Stamp(model), ToolResult(v.toolCallId.GetOr(""), ContentText(v.content), v.isError))]
    else []
  }

  function EntryEvents(e: Item, turn: string, model: string): seq<Event> {
    if e.v.ty == "message" then MessageEvents(e.v, turn, model)
    else if e.v.ty == "compaction" then [Event(e.v.ts, e.id.GetOr(turn), Stamp(model), Compacted)]
    else []
  }

  function ModelAfter(v: Value, model: string): string {
    ModelFrom(v).GetOr(model)
  }

  // Events of a run of entries in one turn, and the model known after it.
  function RunEvents(run: seq<Item>, turn: string, model: string): seq<Event> {
    if run == [] then []
    else
      var m := ModelAfter(run[0].v, model);
      EntryEvents(run[0], turn, m) + RunEvents(run[1..], turn, m)
  }

  function RunModel(run: seq<Item>, model: string): string {
    if run == [] then model else RunModel(run[1..], ModelAfter(run[0].v, model))
  }

  function Decimal(n: nat): string {
    (if n < 10 then "" else Decimal(n / 10)) + [(n % 10) as char + '0']
  }

  function TurnId(e: Item): string {
    if e.id.Some? then e.id.value else "legacy-" + Decimal(e.pos)
  }

  // ----- Turns -----

  // The number of entries before the next typed user.
  function NextUser(items: seq<Item>): (n: nat)
    ensures n <= |items|
    ensures forall i :: 0 <= i < n ==> !IsTypedUser(items[i].v)
    ensures n < |items| ==> IsTypedUser(items[n].v)
  {
    if items == [] || IsTypedUser(items[0].v) then 0 else 1 + NextUser(items[1..])
  }

  // The events of the complete turns, and the user entry of the turn held back.
  function Turns(items: seq<Item>, model: string): (r: (seq<Event>, Option<nat>))
    ensures r.1.Some? ==> exists i :: 0 <= i < |items| && items[i].pos == r.1.value && IsTypedUser(items[i].v)
    decreases |items|
  {
    if items == [] then ([], None)
    else if !IsTypedUser(items[0].v) then Turns(items[1..], ModelAfter(items[0].v, model))
    else
      var n := 1 + NextUser(items[1..]);
      var turn, m := items[..n], ModelAfter(items[0].v, model);
      if TurnComplete(turn, n < |items|) then
        var rest := Turns(items[n..], RunModel(turn, m));
        (RunEvents(turn, TurnId(items[0]), m) + rest.0, rest.1)
      else ([], Some(items[0].pos))
  }

  // ----- Watermarks -----

  function Parsed(branch: Branch, lo: nat, hi: nat): (items: seq<Item>)
    requires lo <= hi <= |branch|
    ensures forall i :: 0 <= i < |items| ==> lo <= items[i].pos < hi
    decreases hi
  {
    if lo == hi then []
    else Parsed(branch, lo, hi - 1)
         + var e := branch[hi - 1]; if e.value.Some? then [Item(hi - 1, e.id, e.value.value)] else []
  }

  function LastReset(branch: Branch, n: nat): (r: nat)
    requires n <= |branch|
    ensures r <= n
  {
    if n == 0 then 0
    else if branch[n - 1].ty == Some("reset_boundary") then n - 1
    else LastReset(branch, n - 1)
  }

  // Just after the first entry with this id, or the root.
  function AfterMark(branch: Branch, id: Option<string>): (r: nat)
    ensures r <= |branch|
  {
    if id.None? then 0 else AfterMarkFrom(branch, id.value, 0)
  }

  function AfterMarkFrom(branch: Branch, id: string, i: nat): (r: nat)
    requires i <= |branch|
    ensures r <= |branch|
    decreases |branch| - i
  {
    if i == |branch| then 0
    else if branch[i].id == Some(id) then i + 1
    else AfterMarkFrom(branch, id, i + 1)
  }

  function Start(branch: Branch, w: Option<string>): (r: nat)
    ensures r <= |branch|
  {
    Max(LastReset(branch, |branch|), AfterMark(branch, w))
  }

  function IdAt(branch: Branch, pos: nat): string
    requires pos < |branch|
  {
    branch[pos].id.GetOr("")
  }

  function Import(branch: Branch, w: Option<string>): (seq<Event>, string) {
    if branch == [] then ([], w.GetOr(""))
    else
      var (events, held) := Turns(Parsed(branch, Start(branch, w), |branch|), "");
      (events,
       match held
       case None => IdAt(branch, |branch| - 1)
       case Some(pos) => if pos > 0 then IdAt(branch, pos - 1) else w.GetOr(""))
  }

  // ----- The program -----

  lemma RunOneMore(run: seq<Item>, i: nat, turn: string, model: string)
    requires i < |run|
    ensures var m := ModelAfter(run[i].v, model);
            && RunEvents(run[i..], turn, model) == EntryEvents(run[i], turn, m) + RunEvents(run[i + 1..], turn, m)
            && RunModel(run[i..], model) == RunModel(run[i + 1..], m)
  {
    hide EntryEvents, ModelAfter;
    assert run[i..][1..] == run[i + 1..];
  }

  lemma RunDone(turn: string, model: string)
    ensures RunEvents([], turn, model) == [] && RunModel([], model) == model
  {
  }

  method EmitTurn(turn: seq<Item>, turnId: string, model0: string, out0: seq<Event>)
    returns (out: seq<Event>, model: string)
    ensures out == out0 + RunEvents(turn, turnId, model0) && model == RunModel(turn, model0)
  {
    hide EntryEvents, ModelFrom, RunEvents, RunModel;
    out, model := out0, model0;
    assert turn[0..] == turn;
    for i := 0 to |turn|
      invariant out + RunEvents(turn[i..], turnId, model) == out0 + RunEvents(turn, turnId, model0)
      invariant RunModel(turn[i..], model) == RunModel(turn, model0)
    {
      var e := turn[i];
      RunOneMore(turn, i, turnId, model);
      if ModelFrom(e.v).Some? {
        model := ModelFrom(e.v).value;
      }
      out := out + EntryEvents(e, turnId, model);
    }
    assert turn[|turn|..] == [];
    RunDone(turnId, model);
  }

  // What the scan has emitted before entry i, with what is left, is everything.
  ghost predicate Emitted(items: seq<Item>, i: nat, events: seq<Event>, model: string)
    requires i <= |items|
  {
    var rest := Turns(items[i..], model);
    (events + rest.0, rest.1) == Turns(items, "")
  }

  method EmitTurns(items: seq<Item>) returns (events: seq<Event>, held: Option<nat>)
    ensures (events, held) == Turns(items, "")
  {
    hide Emitted, Turns, TurnComplete, RunEvents, RunModel;
    events, held := [], None;
    var model, i := "", 0;
    NothingEmitted(items);
    while i < |items|
      invariant 0 <= i <= |items|
      invariant Emitted(items, i, events, model)
    {
      ghost var before := model;
      if ModelFrom(items[i].v).Some? {
        model := ModelFrom(items[i].v).value;
      }
      if !IsTypedUser(items[i].v) {
        SkipEntry(items, i, events, before);
        i := i + 1;
        continue;
      }
      var j := TurnEnd(items, i);
      EmitStep(items, i, j, events, before);
      if !TurnComplete(items[i..j], j < |items|) {
        return events, Some(items[i].pos);
      }
      events, model := EmitTurn(items[i..j], TurnId(items[i]), model, events);
      i := j;
    }
    AllEmitted(items, events, model);
  }

  method TurnEnd(items: seq<Item>, i: nat) returns (j: nat)
    requires i < |items|
    ensures i < j <= |items| && j == i + 1 + NextUser(items[i + 1..])
  {
    j := i + 1;
    while j < |items| && !IsTypedUser(items[j].v)
      invariant i < j <= |items|
      invariant i + 1 + NextUser(items[i + 1..]) == j + NextUser(items[j..])
    {
      assert items[j..][1..] == items[j + 1..];
      j := j + 1;
    }
  }

  lemma NothingEmitted(items: seq<Item>)
    ensures Emitted(items, 0, [], "")
  {
    hide Turns;
    assert items[0..] == items && [] + Turns(items, "").0 == Turns(items, "").0;
  }

  lemma AllEmitted(items: seq<Item>, events: seq<Event>, model: string)
    requires Emitted(items, |items|, events, model)
    ensures (events, None) == Turns(items, "")
  {
    hide Turns;
    TurnsOfNothing(model);
    assert items[|items|..] == [] && events + [] == events;
  }

  // One step of `Turns`.
  lemma TurnsOfNothing(model: string)
    ensures Turns([], model) == ([], None)
  {
  }

  lemma TurnsSkip(items: seq<Item>, model: string)
    requires items != [] && !IsTypedUser(items[0].v)
    ensures Turns(items, model) == Turns(items[1..], ModelAfter(items[0].v, model))
  {
    hide TurnComplete, RunEvents, RunModel, ModelAfter, NextUser, IsTypedUser;
  }

  lemma TurnsTake(items: seq<Item>, n: nat, model: string)
    requires items != [] && IsTypedUser(items[0].v) && n == 1 + NextUser(items[1..])
    ensures n <= |items|
    ensures var turn, m := items[..n], ModelAfter(items[0].v, model);
            var rest := Turns(items[n..], RunModel(turn, m));
            Turns(items, model) ==
              if TurnComplete(turn, n < |items|) then (RunEvents(turn, TurnId(items[0]), m) + rest.0, rest.1)
              else ([], Some(items[0].pos))
  {
    hide TurnComplete, RunEvents, RunModel, ModelAfter, IsTypedUser, TurnId;
  }

  lemma SkipEntry(items: seq<Item>, i: nat, events: seq<Event>, model: string)
    requires i < |items| && !IsTypedUser(items[i].v) && Emitted(items, i, events, model)
    ensures Emitted(items, i + 1, events, ModelAfter(items[i].v, model))
  {
    hide Turns, ModelAfter, IsTypedUser;
    assert items[i..][1..] == items[i + 1..];
    TurnsSkip(items[i..], model);
  }

  lemma EmitStep(items: seq<Item>, i: nat, j: nat, events: seq<Event>, model: string)
    requires i < j <= |items| && IsTypedUser(items[i].v) && j == i + 1 + NextUser(items[i + 1..])
    requires Emitted(items, i, events, model)
    ensures var m := ModelAfter(items[i].v, model);
            if TurnComplete(items[i..j], j < |items|) then
              Emitted(items, j, events + RunEvents(items[i..j], TurnId(items[i]), m), RunModel(items[i..j], m))
            else (events, Some(items[i].pos)) == Turns(items, "")
  {
    hide Turns, TurnComplete, RunEvents, RunModel, ModelAfter, IsTypedUser, TurnId, NextUser;
    var m := ModelAfter(items[i].v, model);
    TurnsTakeAt(items, i, j, model);
    if TurnComplete(items[i..j], j < |items|) {
      var run, rest := RunEvents(items[i..j], TurnId(items[i]), m), Turns(items[j..], RunModel(items[i..j], m));
      assert events + (run + rest.0) == (events + run) + rest.0;
    } else {
      assert events + [] == events;
    }
  }

  lemma TurnsTakeAt(items: seq<Item>, i: nat, j: nat, model: string)
    requires i < j <= |items| && IsTypedUser(items[i].v) && j == i + 1 + NextUser(items[i + 1..])
    ensures var turn, m := items[i..j], ModelAfter(items[i].v, model);
            var rest := Turns(items[j..], RunModel(turn, m));
            Turns(items[i..], model) ==
              if TurnComplete(turn, j < |items|) then (RunEvents(turn, TurnId(items[i]), m) + rest.0, rest.1)
              else ([], Some(items[i].pos))
  {
    hide Turns, TurnComplete, RunEvents, RunModel, ModelAfter, IsTypedUser, TurnId, NextUser;
    TurnAt(items, i, j);
    TurnsTake(items[i..], j - i, model);
  }

  // The turn between two positions of the scan is the first turn of what is left.
  lemma TurnAt(items: seq<Item>, i: nat, j: nat)
    requires i < j <= |items| && IsTypedUser(items[i].v) && j == i + 1 + NextUser(items[i + 1..])
    ensures var left := items[i..];
            && left[1..] == items[i + 1..] && 1 + NextUser(left[1..]) == j - i
            && left[..j - i] == items[i..j] && left[j - i..] == items[j..] && (j - i < |left| <==> j < |items|)
  {
    assert items[i..][1..] == items[i + 1..];
  }

  method ImportBranch(branch: Branch, w: Option<string>) returns (events: seq<Event>, next: string)
    ensures (events, next) == Import(branch, w)
  {
    hide Turns, AfterMark, LastReset;
    if branch == [] {
      return [], w.GetOr("");
    }
    var start := Start(branch, w);
    var items: seq<Item> := [];
    for pos := start to |branch|
      invariant items == Parsed(branch, start, pos)
    {
      if branch[pos].value.Some? {
        items := items + [Item(pos, branch[pos].id, branch[pos].value.value)];
      }
    }
    var held;
    events, held := EmitTurns(items);
    next := if held.None? then IdAt(branch, |branch| - 1)
            else if held.value > 0 then IdAt(branch, held.value - 1)
            else w.GetOr("");
  }

  // ----- Where an import begins -----

  predicate IsBoundary(n: Node) {
    n.ty == Some("reset_boundary")
  }

  lemma {:induction false} LastResetIs(branch: Branch, n: nat)
    requires n <= |branch|
    ensures var r := LastReset(branch, n);
            && (r == 0 || (r < n && IsBoundary(branch[r])))
            && forall i :: r < i < n ==> !IsBoundary(branch[i])
  {
    if n > 0 {
      LastResetIs(branch, n - 1);
    }
  }

  lemma {:induction false} AfterMarkIs(branch: Branch, id: string, i: nat)
    requires i <= |branch|
    ensures var r := AfterMarkFrom(branch, id, i);
            && (r == 0 ==> forall j :: i <= j < |branch| ==> branch[j].id != Some(id))
            && (r > 0 ==> i < r && branch[r - 1].id == Some(id)
                          && forall j :: i <= j < r - 1 ==> branch[j].id != Some(id))
    decreases |branch| - i
  {
    if i < |branch| && branch[i].id != Some(id) {
      AfterMarkIs(branch, id, i + 1);
    }
  }

  // The last boundary is at r, or there is none after the root.
  ghost predicate BoundaryAt(branch: Branch, r: nat) {
    && (r == 0 || (r < |branch| && IsBoundary(branch[r])))
    && forall i :: r < i < |branch| ==> !IsBoundary(branch[i])
  }

  // The watermark is the id of the entry before m, or, when m is 0, of none.
  ghost predicate MarkBefore(branch: Branch, w: Option<string>, m: nat) {
    if m == 0 then w.None? || forall i :: 0 <= i < |branch| ==> branch[i].id != w
    else m <= |branch| && w.Some? && branch[m - 1].id == w && forall i :: 0 <= i < m - 1 ==> branch[i].id != w
  }

  lemma StartIs(branch: Branch, w: Option<string>, r: nat, m: nat)
    requires branch != [] && BoundaryAt(branch, r) && MarkBefore(branch, w, m)
    ensures Start(branch, w) == Max(r, m)
  {
    hide LastReset, AfterMarkFrom;
    LastResetIs(branch, |branch|);
    if w.Some? {
      AfterMarkIs(branch, w.value, 0);
    }
  }

  // An import reads from the last reset boundary or from just after its watermark,
  // whichever is later, and from the root when there is neither.
  lemma ImportReads(branch: Branch, w: Option<string>, r: nat, m: nat)
    requires branch != [] && BoundaryAt(branch, r) && MarkBefore(branch, w, m)
    ensures Max(r, m) <= |branch|
    ensures Import(branch, w).0 == Turns(Parsed(branch, Max(r, m), |branch|), "").0
  {
    hide Turns, Parsed, Start, BoundaryAt, MarkBefore;
    StartIs(branch, w, r, m);
  }

  // What is before a boundary is gone: an import depends on the ids and types there
  // and on nothing else.
  lemma ResetHides(branch: Branch, other: Branch, w: Option<string>, k: nat)
    requires k < |branch| == |other| && IsBoundary(branch[k])
    requires forall i :: 0 <= i < |branch| ==> branch[i].id == other[i].id && branch[i].ty == other[i].ty
    requires forall i :: k <= i < |branch| ==> branch[i] == other[i]
    ensures Import(branch, w) == Import(other, w)
  {
    hide Turns, Start, Parsed;
    StartsAlike(branch, other, w, k);
    SameParsed(branch, other, Start(branch, w), |branch|);
  }

  lemma StartsAlike(branch: Branch, other: Branch, w: Option<string>, k: nat)
    requires k < |branch| == |other| && IsBoundary(branch[k])
    requires forall i :: 0 <= i < |branch| ==> branch[i].id == other[i].id && branch[i].ty == other[i].ty
    ensures k <= Start(branch, w) == Start(other, w)
  {
    LastResetIs(branch, |branch|);
    SameLastReset(branch, other, |branch|);
    if w.Some? {
      SameAfterMark(branch, other, w.value, 0);
    }
  }

  lemma {:induction false} SameLastReset(a: Branch, b: Branch, n: nat)
    requires n <= |a| == |b| && forall i :: 0 <= i < |a| ==> a[i].ty == b[i].ty
    ensures LastReset(a, n) == LastReset(b, n)
  {
    if n > 0 {
      SameLastReset(a, b, n - 1);
    }
  }

  lemma {:induction false} SameAfterMark(a: Branch, b: Branch, id: string, i: nat)
    requires i <= |a| == |b| && forall j :: 0 <= j < |a| ==> a[j].id == b[j].id
    ensures AfterMarkFrom(a, id, i) == AfterMarkFrom(b, id, i)
    decreases |a| - i
  {
    if i < |a| {
      SameAfterMark(a, b, id, i + 1);
    }
  }

  lemma {:induction false} SameParsed(a: Branch, b: Branch, lo: nat, hi: nat)
    requires lo <= hi <= |a| == |b| && forall i :: lo <= i < hi ==> a[i] == b[i]
    ensures Parsed(a, lo, hi) == Parsed(b, lo, hi)
    decreases hi
  {
    if lo < hi {
      SameParsed(a, b, lo, hi - 1);
    }
  }

  ghost predicate ReadFrom(branch: Branch, x: Item) {
    && x.pos < |branch| && branch[x.pos].value.Some?
    && x.v == branch[x.pos].value.value && x.id == branch[x.pos].id
  }

  ghost predicate InOrder(items: seq<Item>) {
    forall i, j :: 0 <= i < j < |items| ==> items[i].pos < items[j].pos
  }

  // What is read: entries with their values, in order ...
  lemma {:induction false} ParsedIs(branch: Branch, lo: nat, hi: nat)
    requires lo <= hi <= |branch|
    ensures forall x :: x in Parsed(branch, lo, hi) ==> ReadFrom(branch, x)
    ensures InOrder(Parsed(branch, lo, hi))
    decreases hi
  {
    if lo < hi {
      ParsedIs(branch, lo, hi - 1);
      var front, items := Parsed(branch, lo, hi - 1), Parsed(branch, lo, hi);
      forall i, j | 0 <= i < j < |items| ensures items[i].pos < items[j].pos {
        assert items[i] == front[i] && front[i].pos < hi - 1;
        if j < |front| {
          assert items[j] == front[j] && front[i].pos < front[j].pos;
        } else {
          assert items[j].pos == hi - 1;
        }
      }
    }
  }

  // ... and none is left out.
  lemma {:induction false} ParsedHas(branch: Branch, lo: nat, hi: nat, p: nat)
    requires lo <= p < hi <= |branch| && branch[p].value.Some?
    ensures Item(p, branch[p].id, branch[p].value.value) in Parsed(branch, lo, hi)
    decreases hi
  {
    if p < hi - 1 {
      ParsedHas(branch, lo, hi - 1, p);
    }
  }
}
