/**
 What the events of an omp import say, entry by entry: the turn each belongs to,
 the model it is stamped with, and its contents; and which turn is held back.

 The statements are about positions in the entries read, not about the scan that
 emits them.
 */
module OmpEvents {
  import SkillText
  import opened Wrappers
  import opened OmpImport

  // ----- Where an event belongs -----

  // Entry i is the typed user that began the turn entry j is in.
  ghost predicate BeganAt(items: seq<Item>, i: nat, j: nat) {
    && i <= j < |items| && IsTypedUser(items[i].v)
    && forall k :: i < k <= j ==> !IsTypedUser(items[k].v)
  }

  // `model` is the one named last up to entry j, or `first` when none was named.
  ghost predicate NamedLast(items: seq<Item>, j: nat, first: string, model: string)
    requires j < |items|
  {
    || (exists p :: 0 <= p <= j && ModelFrom(items[p].v) == Some(model)
                    && forall q :: p < q <= j ==> ModelFrom(items[q].v).None?)
    || (model == first && forall q :: 0 <= q <= j ==> ModelFrom(items[q].v).None?)
  }

  // The contents of an event of this entry.
  ghost predicate Tells(v: Value, p: Payload) {
    if v.ty == "compaction" then p == Compacted
    else
      && v.ty == "message"
      && (v.role == "user" ==>
            v.attribution in {None, Some("user")} && p.User? && SkillText.Unescape(p.text) == ContentText(v.content))
      && (v.role == "toolResult" ==>
            p.ToolResult? && p.id == v.toolCallId.GetOr("") && p.isError == v.isError
            && p.text == ContentText(v.content))
      && (v.role == "assistant" ==>
            || (p.Usage? && v.usage == Some(p.usage.tokens))
            || (p.Error? && v.stopReason == "error")
            || (v.content.Blocks? && exists k :: 0 <= k < |v.content.blocks| && TellsBlock(v.content.blocks[k], p)))
      && (v.role == "user" || v.role == "toolResult" || v.role == "assistant")
  }

  ghost predicate TellsBlock(b: Block, p: Payload) {
    match b
    case TextBlock(text) => p.Text? && text == Some(p.text) && !IsBlank(p.text)
    case ThinkingBlock(text) => p.Thinking? && text == Some(p.text) && !IsBlank(p.text)
    case ToolCallBlock(id, name, arguments) =>
      p.ToolUse? && p.id == id.GetOr("") && p.name == name.GetOr("") && "i" !in p.input
      && forall k :: k in arguments && k != "i" ==> k in p.input && p.input[k] == arguments[k]
    case OtherBlock => false
  }

  function DigitValue(c: char): int {
    c as int - '0' as int
  }

  // The number a decimal text stands for.
  function ValueOf(digits: string): int {
    if digits == [] then 0 else ValueOf(digits[..|digits| - 1]) * 10 + DigitValue(digits[|digits| - 1])
  }

  lemma DigitReads(d: nat)
    requires d < 10
    ensures DigitValue(d as char + '0') == d
  {
  }

  lemma ValueOfMore(front: string, c: char)
    ensures ValueOf(front + [c]) == ValueOf(front) * 10 + DigitValue(c)
  {
    hide DigitValue;
    assert (front + [c])[..|front|] == front;
  }

  lemma {:induction false} DecimalReads(n: nat)
    ensures ValueOf(Decimal(n)) == n
  {
    hide ValueOf, DigitValue;
    var front := if n < 10 then "" else Decimal(n / 10);
    DigitReads(n % 10);
    ValueOfMore(front, (n % 10) as char + '0');
    if n < 10 {
      NoDigits();
    } else {
      DecimalReads(n / 10);
    }
  }

  lemma NoDigits()
    ensures ValueOf("") == 0
  {
  }

  lemma LegacyId(x: Item)
    requires x.id.None?
    ensures "legacy-" <= TurnId(x) && ValueOf(TurnId(x)[7..]) == x.pos
  {
    DecimalReads(x.pos);
    assert TurnId(x)[7..] == Decimal(x.pos);
  }

  // The event is said by entry j in the turn begun at entry i.
  ghost predicate SaidIn(items: seq<Item>, i: nat, j: nat, first: string, e: Event) {
    && BeganAt(items, i, j)
    && e.ts == items[j].v.ts
    && (if e.payload.Compacted? && items[j].id.Some? then e.turn == items[j].id.value
        else if items[i].id.Some? then e.turn == items[i].id.value
        else "legacy-" <= e.turn && ValueOf(e.turn[7..]) == items[i].pos)
    && e.model != Some("") && NamedLast(items, j, first, e.model.GetOr(""))
    && (e.payload.Usage? ==> e.payload.usage.model == e.model.GetOr(""))
    && Tells(items[j].v, e.payload)
  }

  // ----- One entry -----

  // An event of this entry under this turn and model.
  ghost predicate SaidBy(x: Item, turn: string, model: string, e: Event) {
    && e.ts == x.v.ts && e.model == Stamp(model) && Tells(x.v, e.payload)
    && (e.payload.Usage? ==> e.payload.usage.model == model)
    && e.turn == if e.payload.Compacted? then x.id.GetOr(turn) else turn
  }

  lemma BlockTells(b: Block, ts: Option<string>, turn: string, model: string, e: Event)
    requires e in BlockEvents(b, ts, turn, model)
    ensures e.ts == ts && e.turn == turn && e.model == Stamp(model) && TellsBlock(b, e.payload)
    ensures !e.payload.Usage? && !e.payload.Compacted?
  {
    assert IsBlank("");
  }

  lemma {:induction false} BlocksTell(blocks: seq<Block>, ts: Option<string>, turn: string, model: string, e: Event)
    requires e in BlocksEvents(blocks, ts, turn, model)
    ensures e.ts == ts && e.turn == turn && e.model == Stamp(model)
    ensures !e.payload.Usage? && !e.payload.Compacted?
    ensures exists k :: 0 <= k < |blocks| && TellsBlock(blocks[k], e.payload)
  {
    hide BlockEvents, TellsBlock;
    if blocks != [] {
      var front, last := blocks[..|blocks| - 1], blocks[|blocks| - 1];
      if e in BlocksEvents(front, ts, turn, model) {
        BlocksTell(front, ts, turn, model, e);
        var k :| 0 <= k < |front| && TellsBlock(front[k], e.payload);
        assert TellsBlock(blocks[k], e.payload);
      } else {
        BlockTells(last, ts, turn, model, e);
        assert TellsBlock(blocks[|blocks| - 1], e.payload);
      }
    }
  }

  lemma EntryTells(x: Item, turn: string, model: string, e: Event)
    requires e in EntryEvents(x, turn, model)
    ensures SaidBy(x, turn, model, e)
  {
    hide BlocksEvents, ContentText, IsBlank, TellsBlock;
    var v := x.v;
    if v.ty == "message" {
      if v.role == "user" {
        SkillText.EscapeRoundTrip(ContentText(v.content));
      } else if v.role == "assistant" && v.content.Blocks? && e in BlocksEvents(v.content.blocks, v.ts, turn, model) {
        BlocksTell(v.content.blocks, v.ts, turn, model, e);
      }
    }
  }

  // ----- Models -----

  // What is known before some entries carries over to them.
  lemma NamedOn(a: seq<Item>, b: seq<Item>, j: nat, first: string, mid: string, model: string)
    requires a != [] && NamedLast(a, |a| - 1, first, mid) && j < |b| && NamedLast(b, j, mid, model)
    ensures NamedLast(a + b, |a| + j, first, model)
  {
    hide ModelFrom;
    var all := a + b;
    if p :| 0 <= p <= j && ModelFrom(b[p].v) == Some(model) && forall q :: p < q <= j ==> ModelFrom(b[q].v).None? {
      assert all[|a| + p] == b[p];
      assert forall q :: |a| + p < q <= |a| + j ==> all[q] == b[q - |a|];
    } else {
      assert forall q :: |a| <= q <= |a| + j ==> all[q] == b[q - |a|];
      assert forall q :: 0 <= q < |a| ==> all[q] == a[q];
    }
  }

  lemma NamedByOne(x: Item, first: string)
    ensures NamedLast([x], 0, first, ModelAfter(x.v, first))
  {
    assert [x][0] == x;
  }

  lemma {:induction false} NamedByRun(run: seq<Item>, first: string)
    requires run != []
    ensures NamedLast(run, |run| - 1, first, RunModel(run, first))
  {
    hide NamedLast, ModelAfter;
    NamedByOne(run[0], first);
    if |run| == 1 {
      assert run == [run[0]] && RunModel(run[1..], ModelAfter(run[0].v, first)) == ModelAfter(run[0].v, first);
    } else {
      NamedByRun(run[1..], ModelAfter(run[0].v, first));
      NamedOn([run[0]], run[1..], |run| - 2, first, ModelAfter(run[0].v, first), RunModel(run, first));
      assert [run[0]] + run[1..] == run;
    }
  }

  // An event of a run is said by one of its entries, under the model known there.
  lemma {:induction false} RunTells(run: seq<Item>, turn: string, first: string, e: Event)
    returns (j: nat, model: string)
    requires e in RunEvents(run, turn, first)
    ensures j < |run| && NamedLast(run, j, first, model) && SaidBy(run[j], turn, model, e)
  {
    hide NamedLast, ModelAfter, EntryEvents, SaidBy;
    var m := ModelAfter(run[0].v, first);
    NamedByOne(run[0], first);
    if e in EntryEvents(run[0], turn, m) {
      EntryTells(run[0], turn, m, e);
      j, model := 0, m;
      NamedAtFirst(run, first);
    } else {
      var k, n := RunTells(run[1..], turn, m, e);
      NamedOn([run[0]], run[1..], k, first, m, n);
      assert [run[0]] + run[1..] == run;
      j, model := k + 1, n;
    }
  }

  lemma NamedAtFirst(run: seq<Item>, first: string)
    requires run != []
    ensures NamedLast(run, 0, first, ModelAfter(run[0].v, first))
  {
  }

  // ----- Main results -----

  // What is said among the entries from n on is said there in the whole.
  lemma SaidLater(items: seq<Item>, n: nat, first: string, mid: string, i: nat, j: nat, e: Event)
    requires 0 < n <= |items| && NamedLast(items[..n], n - 1, first, mid)
    requires SaidIn(items[n..], i, j, mid, e)
    ensures SaidIn(items, n + i, n + j, first, e)
  {
    hide Tells, IsTypedUser, NamedLast, ValueOf;
    var rest := items[n..];
    assert items == items[..n] + rest;
    NamedOn(items[..n], rest, j, first, mid, e.model.GetOr(""));
    assert forall k :: n + i < k <= n + j ==> items[k] == rest[k - n];
  }

  lemma SaidInTurn(items: seq<Item>, n: nat, first: string, e: Event) returns (j: nat)
    requires items != [] && IsTypedUser(items[0].v) && n == 1 + NextUser(items[1..])
    requires n <= |items| && e in RunEvents(items[..n], TurnId(items[0]), ModelAfter(items[0].v, first))
    ensures SaidIn(items, 0, j, first, e)
  {
    hide Tells, IsTypedUser, NamedLast, RunEvents, NextUser, ModelFrom, Decimal, ValueOf;
    if items[0].id.None? {
      LegacyId(items[0]);
    }
    var turn, m := items[..n], ModelAfter(items[0].v, first);
    var model;
    j, model := RunTells(turn, TurnId(items[0]), m, e);
    NamedAgain(turn, j, first, model);
    assert items == turn + items[n..];
    NamedPrefix(turn, items[n..], j, first, model);
    assert forall k :: 0 < k <= j ==> items[k] == items[1..][k - 1];
  }

  // Naming the model of the first entry beforehand changes nothing.
  lemma NamedAgain(run: seq<Item>, j: nat, first: string, model: string)
    requires j < |run| && NamedLast(run, j, ModelAfter(run[0].v, first), model)
    ensures NamedLast(run, j, first, model)
  {
    hide ModelFrom;
  }

  lemma NamedPrefix(a: seq<Item>, b: seq<Item>, j: nat, first: string, model: string)
    requires j < |a| && NamedLast(a, j, first, model)
    ensures NamedLast(a + b, j, first, model)
  {
    hide ModelFrom;
    assert forall q :: 0 <= q <= j ==> (a + b)[q] == a[q];
  }

  // Every event belongs to the turn of the typed user before its entry, is stamped
  // with the model named last, and tells what its entry holds.
  lemma {:induction false} EventsSaid(items: seq<Item>, first: string, e: Event) returns (i: nat, j: nat)
    requires e in Turns(items, first).0
    ensures SaidIn(items, i, j, first, e)
    decreases |items|
  {
    hide SaidIn, IsTypedUser, NamedLast, RunEvents, RunModel, TurnComplete, Turns, ModelAfter;
    if items == [] {
      TurnsOfNothing(first);
      assert false;
    } else if !IsTypedUser(items[0].v) {
      TurnsSkip(items, first);
      i, j := EventsSaid(items[1..], ModelAfter(items[0].v, first), e);
      NamedByOne(items[0], first);
      assert items[..1] == [items[0]];
      SaidLater(items, 1, first, ModelAfter(items[0].v, first), i, j, e);
      i, j := i + 1, j + 1;
    } else {
      var n := 1 + NextUser(items[1..]);
      TurnsTake(items, n, first);
      var m := ModelAfter(items[0].v, first);
      if e in RunEvents(items[..n], TurnId(items[0]), m) {
        i := 0;
        j := SaidInTurn(items, n, first, e);
      } else {
        var mid := RunModel(items[..n], m);
        i, j := EventsSaid(items[n..], mid, e);
        NamedByRun(items[..n], m);
        NamedAgain(items[..n], n - 1, first, mid);
        SaidLater(items, n, first, mid, i, j, e);
        i, j := i + n, j + n;
      }
    }
  }

  // ... and so for an import: the entries are those from the last reset boundary, or
  // from just after the watermark.
  lemma ImportSaid(branch: Branch, w: Option<string>, r: nat, m: nat, e: Event) returns (i: nat, j: nat)
    requires branch != [] && BoundaryAt(branch, r) && MarkBefore(branch, w, m)
    requires e in Import(branch, w).0
    ensures Max(r, m) <= |branch| && SaidIn(Parsed(branch, Max(r, m), |branch|), i, j, "", e)
  {
    hide SaidIn, Import, BoundaryAt, MarkBefore, Parsed;
    ImportReads(branch, w, r, m);
    i, j := EventsSaid(Parsed(branch, Max(r, m), |branch|), "", e);
  }

  lemma EntryIsRead(items: seq<Item>, i: nat, j: nat, first: string, e: Event)
    requires SaidIn(items, i, j, first, e)
    ensures j < |items|
  {
    hide Tells, NamedLast;
  }

  // ----- The turn held back -----

  ghost predicate IsLastUser(items: seq<Item>, k: nat) {
    && k < |items| && IsTypedUser(items[k].v)
    && forall i :: k < i < |items| ==> !IsTypedUser(items[i].v)
  }

  // A result for this call was read from entry k on.
  ghost predicate HasResult(items: seq<Item>, k: nat, id: string) {
    exists i :: k <= i < |items| && Resolves(items[i].v, id)
  }

  // Entry a is the last assistant message; it stopped for good and its calls were answered.
  ghost predicate EndsTurn(items: seq<Item>, k: nat, a: nat) {
    && k <= a < |items| && IsAssistant(items[a].v)
    && (forall i :: a < i < |items| ==> !IsAssistant(items[i].v))
    && items[a].v.stopReason in {"stop", "error", "aborted", "length"}
    && (items[a].v.content.Blocks? ==>
          forall b :: b in items[a].v.content.blocks && b.ToolCallBlock? && b.id.Some? ==>
            HasResult(items, k, b.id.value))
  }

  // The turn begun at the last typed user is over.
  ghost predicate TurnOver(items: seq<Item>, k: nat) {
    || (exists i :: k <= i < |items| && IsSessionExit(items[i].v))
    || (exists a: nat :: EndsTurn(items, k, a))
  }

  lemma {:induction false} LastAssistantIs(turn: seq<Item>)
    ensures match LastAssistant(turn)
            case None => forall i :: 0 <= i < |turn| ==> !IsAssistant(turn[i].v)
            case Some(v) => exists a :: 0 <= a < |turn| && turn[a].v == v && IsAssistant(v)
                                        && forall i :: a < i < |turn| ==> !IsAssistant(turn[i].v)
  {
    hide IsAssistant;
    if turn != [] && !IsAssistant(turn[|turn| - 1].v) {
      var front := turn[..|turn| - 1];
      LastAssistantIs(front);
      assert forall i :: 0 <= i < |front| ==> front[i] == turn[i];
      if LastAssistant(front).Some? {
        var a :| 0 <= a < |front| && front[a].v == LastAssistant(front).value && IsAssistant(front[a].v)
                 && forall i :: a < i < |front| ==> !IsAssistant(front[i].v);
        assert turn[a].v == LastAssistant(turn).value;
      }
    } else if turn != [] {
      assert turn[|turn| - 1].v == LastAssistant(turn).value;
    }
  }

  lemma {:induction false} CallIdsAre(blocks: seq<Block>, id: string)
    ensures id in CallIds(blocks) <==> exists b :: b in blocks && b.ToolCallBlock? && b.id == Some(id)
  {
    if blocks != [] {
      CallIdsAre(blocks[1..], id);
      assert blocks == [blocks[0]] + blocks[1..];
    }
  }

  lemma LastTurnOver(turn: seq<Item>)
    ensures TurnComplete(turn, false) <==> TurnOver(turn, 0)
  {
    hide IsAssistant, IsSessionExit, Resolves, LastAssistant, CallIds;
    LastAssistantIs(turn);
    var last := LastAssistant(turn);
    if last.Some? {
      var a: nat :| a < |turn| && turn[a].v == last.value && IsAssistant(turn[a].v)
                    && forall i :: a < i < |turn| ==> !IsAssistant(turn[i].v);
      assert forall b :: EndsTurn(turn, 0, b) ==> b == a;
      if last.value.content.Blocks? {
        forall id ensures id in CallIds(last.value.content.blocks) <==>
                          exists b :: b in last.value.content.blocks && b.ToolCallBlock? && b.id == Some(id)
        {
          CallIdsAre(last.value.content.blocks, id);
        }
      }
      assert EndsTurn(turn, 0, a) <==>
             && EndsWell(last.value.stopReason)
             && forall id :: id in ToolCallIds(last.value.content) ==> HasResult(turn, 0, id);
    }
  }

  lemma OverLater(items: seq<Item>, n: nat, k: nat)
    requires n <= k < |items|
    ensures TurnOver(items[n..], k - n) <==> TurnOver(items, k)
  {
    hide IsAssistant, IsSessionExit, Resolves;
    var rest, m: nat := items[n..], k - n;
    forall id ensures HasResult(rest, m, id) <==> HasResult(items, k, id) {
      if i :| k <= i < |items| && Resolves(items[i].v, id) {
        assert rest[i - n] == items[i];
      }
    }
    forall a: nat ensures EndsTurn(rest, m, a) <==> EndsTurn(items, k, a + n) {
      if EndsTurn(rest, m, a) {
        assert forall i :: a + n < i < |items| ==> items[i] == rest[i - n];
      }
    }
    if a: nat :| EndsTurn(rest, m, a) {
      assert EndsTurn(items, k, a + n);
    }
    if a: nat :| EndsTurn(items, k, a) {
      assert EndsTurn(rest, m, a - n) <==> EndsTurn(items, k, a - n + n);
    }
    if i :| k <= i < |items| && IsSessionExit(items[i].v) {
      assert rest[i - n] == items[i];
    }
  }

  lemma UserLater(items: seq<Item>, n: nat, k: nat)
    requires n <= k && IsLastUser(items, k)
    ensures IsLastUser(items[n..], k - n)
  {
    hide IsTypedUser;
  }

  // The last typed user begins the first turn or is in the rest.
  lemma LastUserAmong(items: seq<Item>, n: nat, k: nat)
    requires items != [] && IsTypedUser(items[0].v) && n == 1 + NextUser(items[1..]) && IsLastUser(items, k)
    ensures n <= |items| && (k == 0 ==> n == |items|)
    ensures k > 0 ==> n <= k < |items| && IsLastUser(items[n..], k - n)
  {
    hide IsTypedUser;
    assert n < |items| ==> items[n] == items[1..][n - 1];
    assert k > 0 ==> items[1..][k - 1] == items[k];
  }

  // A scan holds back the last turn exactly when it is not over, and no other.
  lemma {:induction false} HeldIffOpen(items: seq<Item>, first: string, k: nat)
    requires IsLastUser(items, k)
    ensures Turns(items, first).1 == if TurnOver(items, k) then None else Some(items[k].pos)
    decreases |items|
  {
    hide Turns, TurnOver, TurnComplete, IsTypedUser, RunEvents, RunModel, ModelAfter, TurnId;
    if !IsTypedUser(items[0].v) {
      TurnsSkip(items, first);
      UserLater(items, 1, k);
      OverLater(items, 1, k);
      HeldIffOpen(items[1..], ModelAfter(items[0].v, first), k - 1);
    } else {
      var n := 1 + NextUser(items[1..]);
      TurnsTake(items, n, first);
      var mid := RunModel(items[..n], ModelAfter(items[0].v, first));
      LastUserAmong(items, n, k);
      if k == 0 {
        assert items[..n] == items && items[n..] == [];
        LastTurnOver(items);
        TurnsOfNothing(mid);
      } else {
        FollowedTurn(items[..n]);
        OverLater(items, n, k);
        HeldIffOpen(items[n..], mid, k - n);
      }
    }
  }

  lemma FollowedTurn(turn: seq<Item>)
    ensures TurnComplete(turn, true)
  {
  }

  // ----- Nothing is left out -----

  ghost predicate BlockSpeaks(b: Block) {
    b.ToolCallBlock? || ((b.TextBlock? || b.ThinkingBlock?) && b.text.Some? && !IsBlank(b.text.value))
  }

  lemma {:induction false} BlockIsSaid(blocks: seq<Block>, ts: Option<string>, turn: string, model: string, k: nat)
    returns (e: Event)
    requires k < |blocks| && BlockSpeaks(blocks[k])
    ensures e in BlocksEvents(blocks, ts, turn, model) && TellsBlock(blocks[k], e.payload)
  {
    hide IsBlank, TellsBlock;
    if k < |blocks| - 1 {
      e := BlockIsSaid(blocks[..|blocks| - 1], ts, turn, model, k);
    } else {
      e := BlockEvents(blocks[k], ts, turn, model)[0];
      BlockTells(blocks[k], ts, turn, model, e);
    }
  }

  // The turn and the model under which all events of entry j are among these.
  ghost predicate AllAmong(items: seq<Item>, i: nat, j: nat, first: string, turn: string, model: string,
                           events: seq<Event>)
    requires j < |items|
  {
    forall e :: e in EntryEvents(items[j], turn, model) ==> e in events && SaidIn(items, i, j, first, e)
  }

  lemma {:induction false} RunSays(run: seq<Item>, turn: string, first: string, j: nat) returns (model: string)
    requires j < |run|
    ensures NamedLast(run, j, first, model)
    ensures forall e :: e in EntryEvents(run[j], turn, model) ==> e in RunEvents(run, turn, first)
  {
    hide NamedLast, ModelAfter, EntryEvents;
    var m := ModelAfter(run[0].v, first);
    if j == 0 {
      model := m;
      NamedAtFirst(run, first);
    } else {
      model := RunSays(run[1..], turn, m, j - 1);
      NamedByOne(run[0], first);
      NamedOn([run[0]], run[1..], j - 1, first, m, model);
      assert [run[0]] + run[1..] == run;
    }
  }

  lemma TurnSays(items: seq<Item>, n: nat, first: string, j: nat) returns (model: string)
    requires items != [] && IsTypedUser(items[0].v) && n == 1 + NextUser(items[1..]) && j < n <= |items|
    ensures AllAmong(items, 0, j, first, TurnId(items[0]), model,
                     RunEvents(items[..n], TurnId(items[0]), ModelAfter(items[0].v, first)))
  {
    hide Tells, IsTypedUser, NamedLast, RunEvents, NextUser, ModelFrom, Decimal, ValueOf, EntryEvents;
    if items[0].id.None? {
      LegacyId(items[0]);
    }
    var turn := items[..n];
    model := RunSays(turn, TurnId(items[0]), ModelAfter(items[0].v, first), j);
    NamedAgain(turn, j, first, model);
    assert items == turn + items[n..];
    NamedPrefix(turn, items[n..], j, first, model);
    assert forall k :: 0 < k <= j ==> items[k] == items[1..][k - 1];
    forall e | e in EntryEvents(items[j], TurnId(items[0]), model) ensures SaidIn(items, 0, j, first, e) {
      EntryTells(items[j], TurnId(items[0]), model, e);
    }
  }

  // The first turn has n entries: another entry is in it or in a turn of the rest.
  lemma TurnAmong(items: seq<Item>, n: nat, i: nat, j: nat)
    requires items != [] && IsTypedUser(items[0].v) && n == 1 + NextUser(items[1..]) && BeganAt(items, i, j)
    ensures n <= |items| && (i == 0 ==> j < n)
    ensures i > 0 ==> n <= i && BeganAt(items[n..], i - n, j - n) && items[n..][j - n] == items[j]
  {
    hide IsTypedUser;
    assert n < |items| ==> items[n] == items[1..][n - 1];
    assert i > 0 ==> items[1..][i - 1] == items[i];
  }

  lemma BeganLater(items: seq<Item>, i: nat, j: nat)
    requires BeganAt(items, i, j) && !IsTypedUser(items[0].v)
    ensures i > 0 && BeganAt(items[1..], i - 1, j - 1) && items[1..][j - 1] == items[j]
  {
    hide IsTypedUser;
  }

  lemma BeganBefore(items: seq<Item>, i: nat, j: nat, k: nat)
    requires BeganAt(items, i, j) && IsLastUser(items, k)
    ensures i <= j < |items| && i <= k
  {
    hide IsTypedUser;
  }

  // What is among the events of the rest is among those of the whole.
  lemma AmongLater(items: seq<Item>, n: nat, i: nat, j: nat, first: string, mid: string, turn: string,
                   model: string, before: seq<Event>, events: seq<Event>)
    requires 0 < n <= |items| && j < |items[n..]| && NamedLast(items[..n], n - 1, first, mid)
    requires AllAmong(items[n..], i, j, mid, turn, model, events)
    ensures n + j < |items| && AllAmong(items, n + i, n + j, first, turn, model, before + events)
  {
    hide SaidIn, NamedLast, EntryEvents;
    var x := items[n + j];
    assert x == items[n..][j];
    forall e | e in EntryEvents(x, turn, model) ensures SaidIn(items, n + i, n + j, first, e) {
      SaidLater(items, n, first, mid, i, j, e);
    }
  }

  // Every entry of a turn that is not held back is emitted.
  lemma {:induction false} EntriesSaid(items: seq<Item>, first: string, i: nat, j: nat, k: nat)
    returns (turn: string, model: string)
    requires BeganAt(items, i, j) && IsLastUser(items, k) && (i < k || TurnOver(items, k))
    ensures AllAmong(items, i, j, first, turn, model, Turns(items, first).0)
    decreases |items|
  {
    hide AllAmong, IsTypedUser, NamedLast, Turns, ModelAfter, TurnOver;
    var m := ModelAfter(items[0].v, first);
    if !IsTypedUser(items[0].v) {
      TurnsSkip(items, first);
      UserLater(items, 1, k);
      OverLater(items, 1, k);
      BeganLater(items, i, j);
      turn, model := EntriesSaid(items[1..], m, i - 1, j - 1, k - 1);
      NamedByOne(items[0], first);
      assert items[..1] == [items[0]];
      AmongLater(items, 1, i - 1, j - 1, first, m, turn, model, [], Turns(items[1..], m).0);
      assert [] + Turns(items[1..], m).0 == Turns(items, first).0;
    } else {
      turn, model := SaidFromTurn(items, first, i, j, k);
    }
  }

  lemma {:induction false} SaidFromTurn(items: seq<Item>, first: string, i: nat, j: nat, k: nat)
    returns (turn: string, model: string)
    requires BeganAt(items, i, j) && IsLastUser(items, k) && (i < k || TurnOver(items, k))
    requires IsTypedUser(items[0].v)
    ensures AllAmong(items, i, j, first, turn, model, Turns(items, first).0)
    decreases |items|, 0
  {
    hide IsTypedUser, NamedLast, RunEvents, RunModel, TurnComplete, Turns, ModelAfter, TurnOver, NextUser, BeganAt;
    hide SaidIn, EntryEvents;
    var m, n := ModelAfter(items[0].v, first), 1 + NextUser(items[1..]);
    TurnsTake(items, n, first);
    TurnAmong(items, n, i, j);
    LastUserAmong(items, n, k);
    BeganBefore(items, i, j, k);
    var run, mid := items[..n], RunModel(items[..n], m);
    if k == 0 {
      assert run == items;
      LastTurnOver(items);
    } else {
      FollowedTurn(run);
    }
    if i == 0 {
      turn := TurnId(items[0]);
      model := TurnSays(items, n, first, j);
    } else {
      OverLater(items, n, k);
      turn, model := EntriesSaid(items[n..], mid, i - n, j - n, k - n);
      NamedByRun(run, m);
      NamedAgain(run, n - 1, first, mid);
      AmongLater(items, n, i - n, j - n, first, mid, turn, model, RunEvents(run, TurnId(items[0]), m),
                 Turns(items[n..], mid).0);
    }
  }

  // Among these events some are said by entry j, with these contents.
  ghost predicate Heard(items: seq<Item>, i: nat, j: nat, first: string, events: seq<Event>, e: Event) {
    e in events && SaidIn(items, i, j, first, e)
  }

  // Every entry of a turn that is not held back says all it has to say: a prompt, a
  // result, a compaction, each block of an answer, its usage and its error.
  lemma EntriesSpeak(items: seq<Item>, first: string, i: nat, j: nat, k: nat)
    requires BeganAt(items, i, j) && IsLastUser(items, k) && (i < k || TurnOver(items, k))
    ensures var v, events := items[j].v, Turns(items, first).0;
            && (v.ty == "compaction" ==>
                  exists e :: Heard(items, i, j, first, events, e) && e.payload == Compacted)
            && (v.ty == "message" && v.role == "user" && v.attribution in {None, Some("user")}
                && !IsBlank(ContentText(v.content)) ==>
                  exists e :: Heard(items, i, j, first, events, e) && e.payload.User?)
            && (v.ty == "message" && v.role == "toolResult" ==>
                  exists e :: Heard(items, i, j, first, events, e) && e.payload.ToolResult?)
            && (IsAssistant(v) && v.stopReason == "error" ==>
                  exists e :: Heard(items, i, j, first, events, e) && e.payload.Error?)
            && (IsAssistant(v) && v.usage.Some? && v.usage.value.total != 0 ==>
                  exists e :: Heard(items, i, j, first, events, e) && e.payload.Usage?)
            && (IsAssistant(v) && v.content.Blocks? ==>
                  forall b :: b in v.content.blocks && BlockSpeaks(b) ==>
                    exists e :: Heard(items, i, j, first, events, e) && TellsBlock(b, e.payload))
  {
    hide SaidIn, Turns, TurnOver, IsBlank, ContentText, BlocksEvents, TellsBlock, BlockSpeaks;
    var turn, model := EntriesSaid(items, first, i, j, k);
    var v, said := items[j].v, EntryEvents(items[j], turn, model);
    forall e | e in said ensures Heard(items, i, j, first, Turns(items, first).0, e) {
    }
    if v.ty == "compaction" || (v.ty == "message" && v.role != "assistant") {
      if said != [] {
        assert said[0] in said;
      }
    } else if IsAssistant(v) {
      AnswerSaid(items[j], turn, model);
    }
  }

  lemma AnswerSaid(x: Item, turn: string, model: string)
    requires IsAssistant(x.v)
    ensures var v, said := x.v, EntryEvents(x, turn, model);
            && (v.stopReason == "error" ==> exists e :: e in said && e.payload.Error?)
            && (v.usage.Some? && v.usage.value.total != 0 ==> exists e :: e in said && e.payload.Usage?)
            && (v.content.Blocks? ==>
                  forall b :: b in v.content.blocks && BlockSpeaks(b) ==>
                    exists e :: e in said && TellsBlock(b, e.payload))
  {
    hide BlocksEvents, BlockSpeaks, TellsBlock;
    var v, said := x.v, EntryEvents(x, turn, model);
    if v.stopReason == "error" {
      assert said[|said| - 1].payload.Error?;
    }
    if v.usage.Some? && v.usage.value.total != 0 {
      var e := Event(v.ts, turn, Stamp(model), Usage(UsageInfo(v.usage.value, model)));
      assert e in said;
    }
    if v.content.Blocks? {
      forall b | b in v.content.blocks && BlockSpeaks(b) ensures exists e :: e in said && TellsBlock(b, e.payload) {
        var k :| 0 <= k < |v.content.blocks| && v.content.blocks[k] == b;
        var e := BlockIsSaid(v.content.blocks, v.ts, turn, model, k);
        assert e in said;
      }
    }
  }
}
