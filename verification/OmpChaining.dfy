/**
 Repeated omp imports over a growing branch.

 `Grown` collects what is assumed of the branch: the old branch is a prefix of
 the new one, ids are present and unique, no reset was added, and the watermark
 is not the id of an entry written later. `TailKept` is then the exact condition
 for chained imports to emit what one import emits, up to the model stamp.
 */
module OmpChaining {
  import opened Wrappers
  import opened OmpImport

  // ----- Events without their model -----

  function Unstamped(e: Event): Event {
    e.(model := None, payload := if e.payload.Usage? then Usage(e.payload.usage.(model := "")) else e.payload)
  }

  function Erased(events: seq<Event>): (r: seq<Event>)
    ensures |r| == |events|
  {
    seq(|events|, i requires 0 <= i < |events| => Unstamped(events[i]))
  }

  lemma ErasedAppend(a: seq<Event>, b: seq<Event>)
    ensures Erased(a + b) == Erased(a) + Erased(b)
  {
    hide Unstamped;
  }

  lemma BlockErased(b: Block, ts: Option<string>, turn: string, m: string, n: string)
    ensures Erased(BlockEvents(b, ts, turn, m)) == Erased(BlockEvents(b, ts, turn, n))
  {
    hide IsBlank;
  }

  lemma {:induction false} BlocksErased(blocks: seq<Block>, ts: Option<string>, turn: string, m: string, n: string)
    ensures Erased(BlocksEvents(blocks, ts, turn, m)) == Erased(BlocksEvents(blocks, ts, turn, n))
  {
    hide BlockEvents, Erased;
    if blocks != [] {
      var front, b := blocks[..|blocks| - 1], blocks[|blocks| - 1];
      BlocksErased(front, ts, turn, m, n);
      BlockErased(b, ts, turn, m, n);
      ErasedAppend(BlocksEvents(front, ts, turn, m), BlockEvents(b, ts, turn, m));
      ErasedAppend(BlocksEvents(front, ts, turn, n), BlockEvents(b, ts, turn, n));
    }
  }

  lemma ErasedThree(a: seq<Event>, b: seq<Event>, c: seq<Event>)
    ensures Erased(a + b + c) == Erased(a) + Erased(b) + Erased(c)
  {
    hide Erased;
    ErasedAppend(a + b, c);
    ErasedAppend(a, b);
  }

  lemma AssistantErased(v: Value, turn: string, m: string, n: string)
    requires v.role == "assistant"
    ensures Erased(MessageEvents(v, turn, m)) == Erased(MessageEvents(v, turn, n))
  {
    hide BlocksEvents;
    var a := if v.content.Blocks? then BlocksEvents(v.content.blocks, v.ts, turn, m) else [];
    var b := if v.content.Blocks? then BlocksEvents(v.content.blocks, v.ts, turn, n) else [];
    if v.content.Blocks? {
      BlocksErased(v.content.blocks, v.ts, turn, m, n);
    }
    var counted := v.usage.Some? && v.usage.value.total != 0;
    var c := if counted then [Event(v.ts, turn, Stamp(m), Usage(UsageInfo(v.usage.value, m)))] else [];
    var d := if counted then [Event(v.ts, turn, Stamp(n), Usage(UsageInfo(v.usage.value, n)))] else [];
    var text := v.errorMessage.GetOr("omp reported an error");
    var e := if v.stopReason == "error" then [Event(v.ts, turn, Stamp(m), Error(text))] else [];
    var f := if v.stopReason == "error" then [Event(v.ts, turn, Stamp(n), Error(text))] else [];
    assert Erased(c) == Erased(d) && Erased(e) == Erased(f);
    ErasedThree(a, c, e);
    ErasedThree(b, d, f);
    assert MessageEvents(v, turn, m) == a + c + e && MessageEvents(v, turn, n) == b + d + f;
  }

  lemma MessageErased(v: Value, turn: string, m: string, n: string)
    ensures Erased(MessageEvents(v, turn, m)) == Erased(MessageEvents(v, turn, n))
  {
    hide BlocksEvents, IsBlank, ContentText, IsTypedUser;
    if v.role == "assistant" {
      AssistantErased(v, turn, m, n);
    }
  }

  lemma EntryErased(e: Item, turn: string, m: string, n: string)
    ensures Erased(EntryEvents(e, turn, m)) == Erased(EntryEvents(e, turn, n))
  {
    hide MessageEvents;
    MessageErased(e.v, turn, m, n);
  }

  lemma {:induction false} RunErased(run: seq<Item>, turn: string, m: string, n: string)
    ensures Erased(RunEvents(run, turn, m)) == Erased(RunEvents(run, turn, n))
  {
    hide EntryEvents, Erased, ModelAfter;
    if run != [] {
      var a, b := ModelAfter(run[0].v, m), ModelAfter(run[0].v, n);
      EntryErased(run[0], turn, a, b);
      RunErased(run[1..], turn, a, b);
      ErasedAppend(EntryEvents(run[0], turn, a), RunEvents(run[1..], turn, a));
      ErasedAppend(EntryEvents(run[0], turn, b), RunEvents(run[1..], turn, b));
    }
  }

  lemma {:induction false} RunAppend(a: seq<Item>, b: seq<Item>, turn: string, m: string)
    ensures RunEvents(a + b, turn, m) == RunEvents(a, turn, m) + RunEvents(b, turn, RunModel(a, m))
  {
    hide EntryEvents, ModelAfter;
    if a == [] {
      assert a + b == b;
    } else {
      assert (a + b)[1..] == a[1..] + b;
      RunAppend(a[1..], b, turn, ModelAfter(a[0].v, m));
    }
  }

  // The model known at the start of a scan only shows in the stamps.
  lemma {:induction false} TurnsErased(items: seq<Item>, m: string, n: string)
    ensures Erased(Turns(items, m).0) == Erased(Turns(items, n).0) && Turns(items, m).1 == Turns(items, n).1
    decreases |items|
  {
    hide Turns, Erased, TurnComplete, RunEvents, RunModel, ModelAfter, NextUser, IsTypedUser, TurnId;
    if items == [] {
      TurnsOfNothing(m);
      TurnsOfNothing(n);
    } else if !IsTypedUser(items[0].v) {
      TurnsSkip(items, m);
      TurnsSkip(items, n);
      TurnsErased(items[1..], ModelAfter(items[0].v, m), ModelAfter(items[0].v, n));
    } else {
      var k := 1 + NextUser(items[1..]);
      TurnsTake(items, k, m);
      TurnsTake(items, k, n);
      var a, b := ModelAfter(items[0].v, m), ModelAfter(items[0].v, n);
      var turn, id := items[..k], TurnId(items[0]);
      RunErased(turn, id, a, b);
      TurnsErased(items[k..], RunModel(turn, a), RunModel(turn, b));
      ErasedAppend(RunEvents(turn, id, a), Turns(items[k..], RunModel(turn, a)).0);
      ErasedAppend(RunEvents(turn, id, b), Turns(items[k..], RunModel(turn, b)).0);
    }
  }

  // The events of a scan, without their models.
  function Emission(items: seq<Item>): seq<Event> {
    Erased(Turns(items, "").0)
  }

  function Held(items: seq<Item>): Option<nat> {
    Turns(items, "").1
  }

  function Run(run: seq<Item>, turn: string): seq<Event> {
    Erased(RunEvents(run, turn, ""))
  }

  // ----- Scans of two parts -----

  // The events of these entries if every turn is closed.
  function Closed(items: seq<Item>): seq<Event>
    decreases |items|
  {
    if items == [] then []
    else if !IsTypedUser(items[0].v) then Closed(items[1..])
    else
      var n := 1 + NextUser(items[1..]);
      Run(items[..n], TurnId(items[0])) + Closed(items[n..])
  }

  lemma ScanSkips(items: seq<Item>)
    requires items != [] && !IsTypedUser(items[0].v)
    ensures Emission(items) == Emission(items[1..]) && Held(items) == Held(items[1..])
  {
    hide Turns, Erased, ModelAfter, IsTypedUser;
    TurnsSkip(items, "");
    TurnsErased(items[1..], ModelAfter(items[0].v, ""), "");
  }

  lemma ScanTakes(items: seq<Item>, n: nat)
    requires items != [] && IsTypedUser(items[0].v) && n == 1 + NextUser(items[1..])
    ensures n <= |items|
    ensures TurnComplete(items[..n], n < |items|) ==>
              && Emission(items) == Run(items[..n], TurnId(items[0])) + Emission(items[n..])
              && Held(items) == Held(items[n..])
    ensures !TurnComplete(items[..n], n < |items|) ==> Emission(items) == [] && Held(items) == Some(items[0].pos)
  {
    hide Turns, TurnComplete, RunEvents, RunModel, ModelAfter, IsTypedUser, TurnId, NextUser;
    TurnsTake(items, n, "");
    var m := ModelAfter(items[0].v, "");
    var turn, id := items[..n], TurnId(items[0]);
    if TurnComplete(turn, n < |items|) {
      RunErased(turn, id, m, "");
      TurnsErased(items[n..], RunModel(turn, m), "");
      ErasedAppend(RunEvents(turn, id, m), Turns(items[n..], RunModel(turn, m)).0);
    }
  }

  lemma {:induction false} NextUserAppend(a: seq<Item>, b: seq<Item>)
    requires b == [] || IsTypedUser(b[0].v)
    ensures NextUser(a + b) == NextUser(a)
  {
    hide IsTypedUser;
    if a == [] {
      assert a + b == b;
    } else {
      assert (a + b)[1..] == a[1..] + b;
      if !IsTypedUser(a[0].v) {
        NextUserAppend(a[1..], b);
      }
    }
  }

  lemma FirstTurnOfBoth(a: seq<Item>, b: seq<Item>)
    requires a != [] && b != [] && IsTypedUser(b[0].v)
    ensures var n := 1 + NextUser(a[1..]);
            && n == 1 + NextUser((a + b)[1..]) && n < |a + b|
            && (a + b)[..n] == a[..n] && (a + b)[n..] == a[n..] + b
  {
    hide IsTypedUser;
    assert (a + b)[1..] == a[1..] + b;
    NextUserAppend(a[1..], b);
  }

  // A typed user closes every turn before it.
  lemma {:induction false} ScanSplits(a: seq<Item>, b: seq<Item>)
    requires b != [] && IsTypedUser(b[0].v)
    ensures Emission(a + b) == Closed(a) + Emission(b) && Held(a + b) == Held(b)
    decreases |a|
  {
    hide Emission, Held, IsTypedUser, TurnComplete, Run, TurnId, NextUser;
    if a == [] {
      assert a + b == b;
    } else if !IsTypedUser(a[0].v) {
      assert (a + b)[1..] == a[1..] + b;
      ScanSkips(a + b);
      ScanSplits(a[1..], b);
    } else {
      var n := 1 + NextUser(a[1..]);
      FirstTurnOfBoth(a, b);
      ScanTakes(a + b, n);
      Followed(a[..n]);
      ScanSplits(a[n..], b);
      assert Closed(a) == Run(a[..n], TurnId(a[0])) + Closed(a[n..]);
    }
  }

  lemma Followed(turn: seq<Item>)
    ensures TurnComplete(turn, true)
  {
  }

  // What is emitted before a held turn, and where that turn begins.
  lemma {:induction false} ScanHolds(items: seq<Item>) returns (k: nat)
    requires Held(items).Some?
    ensures k < |items| && items[k].pos == Held(items).value && IsTypedUser(items[k].v)
    ensures Emission(items) == Closed(items[..k])
    decreases |items|, 1
  {
    hide Emission, IsTypedUser, TurnComplete, Run, TurnId, Turns;
    if items == [] {
      TurnsOfNothing("");
      assert false;
    } else if !IsTypedUser(items[0].v) {
      ScanSkips(items);
      var j := ScanHolds(items[1..]);
      k := j + 1;
      assert items[..k][1..] == items[1..][..k - 1];
    } else {
      k := HoldsAtTurn(items);
    }
  }

  lemma {:induction false} HoldsAtTurn(items: seq<Item>) returns (k: nat)
    requires Held(items).Some? && items != [] && IsTypedUser(items[0].v)
    ensures k < |items| && items[k].pos == Held(items).value && IsTypedUser(items[k].v)
    ensures Emission(items) == Closed(items[..k])
    decreases |items|, 0
  {
    hide Emission, Held, IsTypedUser, TurnComplete, Run, TurnId;
    var n := 1 + NextUser(items[1..]);
    ScanTakes(items, n);
    if !TurnComplete(items[..n], n < |items|) {
      k := 0;
      assert items[..0] == [];
    } else {
      var rest := ScanHolds(items[n..]);
      k := n + rest;
      ClosedFront(items, n, k);
    }
  }

  lemma ClosedFront(items: seq<Item>, n: nat, k: nat)
    requires items != [] && IsTypedUser(items[0].v) && n == 1 + NextUser(items[1..])
    requires n <= k < |items| && IsTypedUser(items[k].v)
    ensures Closed(items[..k]) == Run(items[..n], TurnId(items[0])) + Closed(items[n..][..k - n])
  {
    hide IsTypedUser, TurnComplete, Run, TurnId;
    var front := items[..k];
    NextUserOf(items, n, k);
    assert front[..n] == items[..n] && front[n..] == items[n..][..k - n] && front[0] == items[0];
  }

  // The first turn of a front of the entries that reaches to a later turn.
  lemma NextUserOf(items: seq<Item>, n: nat, k: nat)
    requires items != [] && n == 1 + NextUser(items[1..]) && n <= k < |items| && IsTypedUser(items[k].v)
    requires n < |items| ==> IsTypedUser(items[n].v)
    ensures 1 + NextUser(items[..k][1..]) == n
  {
    hide IsTypedUser;
    var a, b := items[1..n], items[n..k];
    assert items[..k][1..] == a + b;
    assert items[1..] == a + items[n..];
    NextUserAppend(a, items[n..]);
    NextUserAppend(a, b);
  }

  // ----- Branches -----

  ghost predicate GoodIds(branch: Branch) {
    && (forall i :: 0 <= i < |branch| ==> branch[i].id.Some? && branch[i].id.value != "")
    && (forall i, j :: 0 <= i < j < |branch| ==> branch[i].id != branch[j].id)
  }

  ghost predicate Grown(before: Branch, now: Branch, w: Option<string>) {
    && before <= now && GoodIds(now)
    && forall i :: |before| <= i < |now| ==> now[i].ty != Some("reset_boundary") && (w.Some? ==> now[i].id != w)
  }

  lemma {:induction false} MarkFound(branch: Branch, pos: nat, i: nat)
    requires GoodIds(branch) && i <= pos < |branch|
    ensures AfterMarkFrom(branch, branch[pos].id.value, i) == pos + 1
    decreases pos - i
  {
    if i < pos {
      MarkFound(branch, pos, i + 1);
    }
  }

  lemma {:induction false} MarkUnknown(branch: Branch, id: string, i: nat)
    requires i <= |branch| && forall k :: i <= k < |branch| ==> branch[k].id != Some(id)
    ensures AfterMarkFrom(branch, id, i) == 0
    decreases |branch| - i
  {
    if i < |branch| {
      MarkUnknown(branch, id, i + 1);
    }
  }

  lemma {:induction false} MarkSame(before: Branch, now: Branch, id: string, i: nat)
    requires before <= now && i <= |before| && forall k :: |before| <= k < |now| ==> now[k].id != Some(id)
    ensures AfterMarkFrom(before, id, i) == AfterMarkFrom(now, id, i)
    decreases |before| - i
  {
    if i == |before| {
      MarkUnknown(now, id, i);
    } else {
      MarkSame(before, now, id, i + 1);
    }
  }

  lemma {:induction false} ResetSame(before: Branch, now: Branch, n: nat)
    requires before <= now && n <= |now|
    requires forall i :: |before| <= i < |now| ==> now[i].ty != Some("reset_boundary")
    ensures LastReset(now, n) == LastReset(before, Min(n, |before|))
  {
    if n > 0 {
      ResetSame(before, now, n - 1);
    }
  }

  lemma StartSame(before: Branch, now: Branch, w: Option<string>)
    requires Grown(before, now, w)
    ensures Start(now, w) == Start(before, w) <= |before|
    ensures LastReset(now, |now|) <= |before|
  {
    ResetSame(before, now, |now|);
    if w.Some? {
      MarkSame(before, now, w.value, 0);
    }
  }

  // A watermark taken from a node restarts just after it.
  lemma StartAfter(before: Branch, now: Branch, w: Option<string>, pos: nat)
    requires Grown(before, now, w) && pos < |now| && LastReset(before, |before|) <= pos + 1
    ensures Start(now, Some(IdAt(now, pos))) == pos + 1
  {
    ResetSame(before, now, |now|);
    MarkFound(now, pos, 0);
  }

  // No watermark, or one returned for an empty import, starts where it did.
  lemma StartAgain(now: Branch, w: Option<string>)
    requires GoodIds(now)
    ensures Start(now, Some(w.GetOr(""))) == Start(now, w)
  {
    if w.None? {
      MarkUnknown(now, "", 0);
    }
  }

  lemma {:induction false} ParsedSplits(branch: Branch, lo: nat, mid: nat, hi: nat)
    requires lo <= mid <= hi <= |branch|
    ensures Parsed(branch, lo, hi) == Parsed(branch, lo, mid) + Parsed(branch, mid, hi)
    decreases hi
  {
    if mid < hi {
      ParsedSplits(branch, lo, mid, hi - 1);
    }
  }

  lemma {:induction false} ParsedSame(before: Branch, now: Branch, lo: nat, hi: nat)
    requires before <= now && lo <= hi <= |before|
    ensures Parsed(before, lo, hi) == Parsed(now, lo, hi)
    decreases hi
  {
    if lo < hi {
      ParsedSame(before, now, lo, hi - 1);
    }
  }

  // The items from a held turn on are those parsed from its place on.
  lemma {:induction false} ParsedFrom(branch: Branch, lo: nat, hi: nat, k: nat)
    requires lo <= hi <= |branch| && k < |Parsed(branch, lo, hi)|
    ensures var pos := Parsed(branch, lo, hi)[k].pos;
            && lo <= pos < hi
            && Parsed(branch, lo, hi)[k..] == Parsed(branch, pos, hi)
            && Parsed(branch, lo, hi)[..k] == Parsed(branch, lo, pos)
    decreases hi
  {
    var items := Parsed(branch, lo, hi);
    var front := Parsed(branch, lo, hi - 1);
    if k < |front| {
      ParsedFrom(branch, lo, hi - 1, k);
      assert items[k..] == front[k..] + items[|front|..] && items[..k] == front[..k];
    } else {
      assert items[k].pos == hi - 1 && items[..k] == front && Parsed(branch, hi - 1, hi - 1) == [];
    }
  }

  // ----- The open end of the old branch -----

  function LastUser(items: seq<Item>): (k: Option<nat>)
    ensures k.Some? ==> k.value < |items| && IsTypedUser(items[k.value].v)
    ensures k.Some? ==> forall i :: k.value < i < |items| ==> !IsTypedUser(items[i].v)
    ensures k.None? ==> forall i :: 0 <= i < |items| ==> !IsTypedUser(items[i].v)
  {
    if items == [] then None
    else if IsTypedUser(items[|items| - 1].v) then Some(|items| - 1)
    else LastUser(items[..|items| - 1])
  }

  lemma {:induction false} NoUserAhead(items: seq<Item>)
    requires forall i :: 0 <= i < |items| ==> !IsTypedUser(items[i].v)
    ensures NextUser(items) == |items|
  {
    if items != [] {
      NoUserAhead(items[1..]);
    }
  }

  lemma {:induction false} ScanSkipsRun(items: seq<Item>, n: nat)
    requires n <= |items| && forall i :: 0 <= i < n ==> !IsTypedUser(items[i].v)
    ensures Emission(items) == Emission(items[n..]) && Held(items) == Held(items[n..])
    decreases n
  {
    hide Emission, Held, IsTypedUser;
    if n == 0 {
      assert items[0..] == items;
    } else {
      ScanSkips(items);
      ScanSkipsRun(items[1..], n - 1);
      assert items[1..][n - 1..] == items[n..];
    }
  }

  lemma ScanOfNothing()
    ensures Emission([]) == [] && Held([]) == None
  {
    TurnsOfNothing("");
  }

  // The last turn of the old branch on its own.
  lemma ScanLastTurn(t: seq<Item>)
    requires t != [] && IsTypedUser(t[0].v) && forall i :: 0 < i < |t| ==> !IsTypedUser(t[i].v)
    requires Held(t).None?
    ensures Emission(t) == Run(t, TurnId(t[0]))
  {
    hide Emission, Held, IsTypedUser, TurnComplete, Run, TurnId;
    NoUserAhead(t[1..]);
    ScanTakes(t, |t|);
    ScanOfNothing();
    assert t[..|t|] == t && t[|t|..] == [];
  }

  // The last turn together with what was written after it.
  lemma ScanOpenTurn(t: seq<Item>, g: seq<Item>)
    requires t != [] && IsTypedUser(t[0].v) && forall i :: 0 < i < |t| ==> !IsTypedUser(t[i].v)
    ensures var n := NextUser(g);
            && (TurnComplete(t + g[..n], n < |g|) ==>
                  && Emission(t + g) == Run(t, TurnId(t[0])) + Run(g[..n], TurnId(t[0])) + Emission(g)
                  && Held(t + g) == Held(g))
            && (!TurnComplete(t + g[..n], n < |g|) ==>
                  Emission(t + g) == [] && Held(t + g) == Some(t[0].pos) && Emission(g) == [] && Held(g) == None)
  {
    hide Emission, Held, IsTypedUser, TurnComplete, Run, TurnId, NextUser;
    var n := NextUser(g);
    var whole, m := t + g, |t| + n;
    OpenTurnEnds(t, g);
    ScanTakes(whole, m);
    ScanSkipsRun(g, n);
    assert whole[0] == t[0] && whole[..m] == t + g[..n] && whole[m..] == g[n..];
    if TurnComplete(t + g[..n], n < |g|) {
      RunOfBoth(t, g[..n], TurnId(t[0]));
    } else {
      if n < |g| {
        Followed(t + g[..n]);
      }
      ScanOfNothing();
      assert g[n..] == [];
    }
  }

  lemma OpenTurnEnds(t: seq<Item>, g: seq<Item>)
    requires t != [] && forall i :: 0 < i < |t| ==> !IsTypedUser(t[i].v)
    ensures var n := |t| + NextUser(g);
            && 1 + NextUser((t + g)[1..]) == n && (n < |t + g| <==> NextUser(g) < |g|)
            && (t + g)[..n] == t + g[..NextUser(g)] && (t + g)[n..] == g[NextUser(g)..]
  {
    hide IsTypedUser;
    assert (t + g)[1..] == t[1..] + g;
    NextUserThrough(t[1..], g);
  }

  lemma {:induction false} NextUserThrough(a: seq<Item>, g: seq<Item>)
    requires forall i :: 0 <= i < |a| ==> !IsTypedUser(a[i].v)
    ensures NextUser(a + g) == |a| + NextUser(g)
  {
    if a == [] {
      assert a + g == g;
    } else {
      assert (a + g)[1..] == a[1..] + g;
      NextUserThrough(a[1..], g);
    }
  }

  lemma RunOfBoth(a: seq<Item>, b: seq<Item>, turn: string)
    ensures Run(a + b, turn) == Run(a, turn) + Run(b, turn)
  {
    hide RunEvents, RunModel;
    RunAppend(a, b, turn, "");
    ErasedAppend(RunEvents(a, turn, ""), RunEvents(b, turn, RunModel(a, "")));
    RunErased(b, turn, RunModel(a, ""), "");
  }

  // ----- Main results -----

  // What the old import read, and what was written since.
  function OldItems(before: Branch, now: Branch, w: Option<string>): seq<Item>
    requires Start(before, w) <= |before| <= |now|
  {
    Parsed(before, Start(before, w), |before|)
  }

  function NewItems(before: Branch, now: Branch): seq<Item>
    requires |before| <= |now|
  {
    Parsed(now, |before|, |now|)
  }

  // The last turn of the old branch is complete whatever has been written to it since.
  ghost predicate StaysClosed(before: Branch, now: Branch, w: Option<string>)
    requires |before| <= |now|
  {
    var earlier, later := OldItems(before, now, w), NewItems(before, now);
    var k, n := LastUser(earlier), NextUser(later);
    Held(earlier).Some? || k.None? || TurnComplete(earlier[k.value..] + later[..n], n < |later|)
  }

  // Nothing to emit was written to a turn already emitted; if it was reopened, it
  // had nothing to emit itself.
  ghost predicate TailKept(before: Branch, now: Branch, w: Option<string>)
    requires |before| <= |now|
  {
    var earlier, later := OldItems(before, now, w), NewItems(before, now);
    var k, n := LastUser(earlier), NextUser(later);
    Held(earlier).Some? || k.None?
    || var turn, id := earlier[k.value..], TurnId(earlier[k.value]);
       if StaysClosed(before, now, w) then Run(later[..n], id) == [] else Run(turn, id) == []
  }

  function NextMark(branch: Branch, held: Option<nat>, w: Option<string>): string
    requires branch != [] && (held.Some? ==> held.value < |branch|)
  {
    match held
    case None => IdAt(branch, |branch| - 1)
    case Some(pos) => if pos > 0 then IdAt(branch, pos - 1) else w.GetOr("")
  }

  lemma ImportScans(branch: Branch, w: Option<string>)
    requires branch != []
    ensures var items := Parsed(branch, Start(branch, w), |branch|);
            && (Held(items).Some? ==> Held(items).value < |branch|)
            && Erased(Import(branch, w).0) == Emission(items)
            && Import(branch, w).1 == NextMark(branch, Held(items), w)
  {
    hide Turns, Start, Parsed, Closed, IsTypedUser, Unstamped;
    var items := Parsed(branch, Start(branch, w), |branch|);
    if Held(items).Some? {
      var k := ScanHolds(items);
    }
  }

  // The whole import reads what the old import read, then what was written since.
  lemma WholeReads(before: Branch, now: Branch, w: Option<string>)
    requires Grown(before, now, w)
    ensures Start(now, w) == Start(before, w) <= |before|
    ensures Parsed(now, Start(now, w), |now|) == OldItems(before, now, w) + NewItems(before, now)
    ensures OldItems(before, now, w) == Parsed(now, Start(now, w), |before|)
  {
    hide Parsed, Start;
    StartSame(before, now, w);
    ParsedSplits(now, Start(now, w), |before|, |now|);
    ParsedSame(before, now, Start(now, w), |before|);
  }

  // A turn held back at pos > 0: the next import restarts at its user entry.
  lemma HeldReads(before: Branch, now: Branch, w: Option<string>) returns (k: nat)
    requires Grown(before, now, w) && before != [] && Held(OldItems(before, now, w)).Some?
    ensures var earlier, later := OldItems(before, now, w), NewItems(before, now);
            var pos := Held(earlier).value;
            && k < |earlier| && IsTypedUser(earlier[k].v) && earlier[k].pos == pos
            && Emission(earlier) == Closed(earlier[..k])
            && Start(now, w) <= pos < |before| && (pos == 0 ==> k == 0)
            && Parsed(now, pos, |now|) == earlier[k..] + later
            && (pos > 0 ==> Start(now, Some(IdAt(before, pos - 1))) == pos)
  {
    hide Emission, IsTypedUser, Closed, Turns;
    WholeReads(before, now, w);
    StartSame(before, now, w);
    var earlier, s := OldItems(before, now, w), Start(now, w);
    k := ScanHolds(earlier);
    ParsedFrom(now, s, |before|, k);
    var pos := earlier[k].pos;
    ParsedSplits(now, pos, |before|, |now|);
    if pos > 0 {
      StartAfter(before, now, w, pos - 1);
    }
  }

  // What two chained imports and one import have in common.
  ghost predicate SameImport(before: Branch, now: Branch, w: Option<string>) {
    var first := Import(before, w);
    var second := Import(now, Some(first.1));
    Erased(first.0 + second.0) == Erased(Import(now, w).0)
  }

  ghost predicate SameMark(before: Branch, now: Branch, w: Option<string>) {
    Import(now, Some(Import(before, w).1)).1 == Import(now, w).1
  }

  lemma HeldChain(before: Branch, now: Branch, w: Option<string>)
    requires Grown(before, now, w) && before != [] && Held(OldItems(before, now, w)).Some?
    ensures SameImport(before, now, w) && SameMark(before, now, w)
  {
    hide Import, Emission, Closed, Turns, IsTypedUser, Parsed, Start, IdAt, Erased;
    var earlier, later := OldItems(before, now, w), NewItems(before, now);
    var pos := Held(earlier).value;
    var k := HeldReads(before, now, w);
    WholeReads(before, now, w);
    ImportScans(before, w);
    ImportScans(now, w);
    var mark := Some(Import(before, w).1);
    assert earlier + later == earlier[..k] + (earlier[k..] + later);
    ScanSplits(earlier[..k], earlier[k..] + later);
    if pos > 0 {
      ImportScans(now, mark);
      HeldIsLater(now, pos);
      ErasedAppend(Import(before, w).0, Import(now, mark).0);
    } else {
      StartAgain(now, w);
      ImportScans(now, mark);
      assert earlier[..0] == [];
      NothingClosed();
      ErasedAppend(Import(before, w).0, Import(now, mark).0);
    }
  }

  lemma NothingClosed()
    ensures Closed([]) == []
  {
  }

  // A turn held among the entries from pos on begins there or later.
  lemma HeldIsLater(branch: Branch, pos: nat)
    requires pos <= |branch|
    ensures var held := Held(Parsed(branch, pos, |branch|));
            held.Some? ==> pos <= held.value < |branch|
  {
    hide Turns, Emission, Closed;
    var items := Parsed(branch, pos, |branch|);
    if Held(items).Some? {
      var k := ScanHolds(items);
    }
  }

  // Nothing held back: the next import starts after the old branch.
  lemma OpenReads(before: Branch, now: Branch, w: Option<string>)
    requires Grown(before, now, w) && before != [] && Held(OldItems(before, now, w)).None?
    ensures var mark := Some(Import(before, w).1);
            && Start(now, mark) == |before|
            && Erased(Import(now, mark).0) == Emission(NewItems(before, now))
            && Import(now, mark).1 == NextMark(now, Held(NewItems(before, now)), w)
    ensures Erased(Import(before, w).0) == Emission(OldItems(before, now, w))
  {
    hide Emission, Turns, Parsed, Start, IdAt, Erased, Import;
    var mark := Some(Import(before, w).1);
    ImportScans(before, w);
    StartSame(before, now, w);
    StartAfter(before, now, w, |before| - 1);
    SameIdAt(before, now, |before| - 1);
    ImportScans(now, mark);
    HeldIsLater(now, |before|);
  }

  lemma SameIdAt(before: Branch, now: Branch, pos: nat)
    requires before <= now && pos < |before|
    ensures IdAt(before, pos) == IdAt(now, pos)
  {
  }

  // The scan of the old branch and the scan of both parts, at the old branch's last turn.
  lemma OpenScans(earlier: seq<Item>, later: seq<Item>, k: nat)
    requires k < |earlier| && IsTypedUser(earlier[k].v) && Held(earlier).None?
    requires forall i :: k < i < |earlier| ==> !IsTypedUser(earlier[i].v)
    ensures var turn, id := earlier[k..], TurnId(earlier[k]);
            && Emission(earlier) == Closed(earlier[..k]) + Run(turn, id)
            && Emission(earlier + later) == Closed(earlier[..k]) + Emission(turn + later)
            && Held(earlier + later) == Held(turn + later)
  {
    hide Emission, Held, Closed, Run, IsTypedUser, TurnId;
    var turn := earlier[k..];
    assert earlier == earlier[..k] + turn && earlier + later == earlier[..k] + (turn + later);
    assert turn[0] == earlier[k] && forall i :: 0 < i < |turn| ==> turn[i] == earlier[k + i];
    ScanSplits(earlier[..k], turn);
    ScanSplits(earlier[..k], turn + later);
    ScanLastTurn(turn);
  }

  lemma NoTurnScans(earlier: seq<Item>, later: seq<Item>)
    requires forall i :: 0 <= i < |earlier| ==> !IsTypedUser(earlier[i].v)
    ensures Emission(earlier) == [] && Emission(earlier + later) == Emission(later)
    ensures Held(earlier + later) == Held(later)
  {
    hide Emission, Held, IsTypedUser;
    ScanSkipsRun(earlier, |earlier|);
    assert earlier[|earlier|..] == [];
    ScanOfNothing();
    ScanSkipsRun(earlier + later, |earlier|);
    assert (earlier + later)[|earlier|..] == later;
  }

  lemma SameEnds<T>(c: seq<T>, r: seq<T>, x: seq<T>, b: seq<T>)
    ensures (c + r) + b == c + (r + x + b) <==> x == []
    ensures (c + r) + [] == c + [] <==> r == []
  {
    if x == [] {
      assert (c + r) + b == c + (r + x + b);
    } else {
      assert |(c + r) + b| != |c + (r + x + b)|;
    }
    assert |(c + r) + []| == |c| + |r|;
  }

  // The scans agree exactly when the open end has been kept.
  lemma OpenTail(before: Branch, now: Branch, w: Option<string>, k: nat)
    requires Grown(before, now, w) && before != [] && Held(OldItems(before, now, w)).None?
    requires LastUser(OldItems(before, now, w)) == Some(k)
    ensures var earlier, later := OldItems(before, now, w), NewItems(before, now);
            && (Emission(earlier) + Emission(later) == Emission(earlier + later) <==> TailKept(before, now, w))
            && (StaysClosed(before, now, w) ==> Held(earlier + later) == Held(later))
            && (!StaysClosed(before, now, w) ==> Held(earlier + later) == Some(earlier[k].pos) && Held(later) == None)
  {
    hide Emission, Held, Closed, Run, IsTypedUser, TurnId, TurnComplete, OldItems, NewItems, NextUser;
    var earlier, later := OldItems(before, now, w), NewItems(before, now);
    var turn, id, n := earlier[k..], TurnId(earlier[k]), NextUser(later);
    OpenScans(earlier, later, k);
    assert turn[0] == earlier[k] && forall i :: 0 < i < |turn| ==> turn[i] == earlier[k + i];
    ScanOpenTurn(turn, later);
    SameEnds(Closed(earlier[..k]), Run(turn, id), Run(later[..n], id), Emission(later));
  }

  lemma LastTurnComplete(earlier: seq<Item>, k: nat)
    requires LastUser(earlier) == Some(k) && Held(earlier).None?
    ensures TurnComplete(earlier[k..], false)
  {
    hide Emission, Held, Closed, Run, IsTypedUser, TurnId, TurnComplete;
    var turn := earlier[k..];
    assert earlier == earlier[..k] + turn && turn[0] == earlier[k];
    assert forall i :: 0 < i < |turn| ==> turn[i] == earlier[k + i];
    ScanSplits(earlier[..k], turn);
    NoUserAhead(turn[1..]);
    ScanTakes(turn, |turn|);
    assert turn[..|turn|] == turn;
  }

  lemma TailAtUser(before: Branch, now: Branch, w: Option<string>)
    requires |before| <= |now|
    requires NewItems(before, now) == [] || IsTypedUser(NewItems(before, now)[0].v)
    ensures StaysClosed(before, now, w) && TailKept(before, now, w)
  {
    hide Held, IsTypedUser, TurnComplete, OldItems, NewItems;
    var earlier, later := OldItems(before, now, w), NewItems(before, now);
    var k := LastUser(earlier);
    if Held(earlier).None? && k.Some? {
      LastTurnComplete(earlier, k.value);
      Followed(earlier[k.value..] + []);
      assert NextUser(later) == 0 && later[..0] == [] && earlier[k.value..] + [] == earlier[k.value..];
    }
  }

  // A turn is only reopened by something written to it.
  lemma ReopenedGrew(before: Branch, now: Branch, w: Option<string>, k: nat)
    requires Grown(before, now, w) && Held(OldItems(before, now, w)).None?
    requires LastUser(OldItems(before, now, w)) == Some(k) && !StaysClosed(before, now, w)
    ensures |before| < |now|
  {
    hide Held, IsTypedUser, TurnComplete, OldItems;
    if |before| == |now| {
      TailAtUser(before, now, w);
      assert false;
    }
  }

  // The mark before a reopened turn is not the id of the last entry.
  lemma ReopenedMark(before: Branch, now: Branch, w: Option<string>, k: nat)
    requires Grown(before, now, w) && Held(OldItems(before, now, w)).None?
    requires LastUser(OldItems(before, now, w)) == Some(k) && !StaysClosed(before, now, w)
    ensures var pos := OldItems(before, now, w)[k].pos;
            pos < |now| && NextMark(now, Some(pos), w) != NextMark(now, None, w)
  {
    hide Held, StaysClosed, LastUser, Start;
    ReopenedGrew(before, now, w, k);
    var last := now[|now| - 1];
    assert last.id.Some? && last.id.value != "" && (w.Some? ==> last.id != w);
  }

  lemma OpenChain(before: Branch, now: Branch, w: Option<string>)
    requires Grown(before, now, w) && before != [] && Held(OldItems(before, now, w)).None?
    ensures SameImport(before, now, w) <==> TailKept(before, now, w)
    ensures SameMark(before, now, w) <==> StaysClosed(before, now, w)
  {
    hide Emission, Held, Import, Erased, TurnComplete, Run, OldItems, NewItems, NextUser, Start, Parsed, IdAt, NextMark;
    var earlier, later := OldItems(before, now, w), NewItems(before, now);
    WholeReads(before, now, w);
    ImportScans(now, w);
    OpenReads(before, now, w);
    ErasedAppend(Import(before, w).0, Import(now, Some(Import(before, w).1)).0);
    var k := LastUser(earlier);
    if k.Some? {
      OpenTail(before, now, w, k.value);
      if !StaysClosed(before, now, w) {
        ReopenedMark(before, now, w, k.value);
      }
    } else {
      NoTurnScans(earlier, later);
      assert [] + Emission(later) == Emission(later);
    }
  }

  lemma EmptyChain(now: Branch, w: Option<string>)
    requires GoodIds(now)
    ensures SameImport([], now, w) && SameMark([], now, w)
  {
    hide Turns, Start, Parsed, Erased;
    StartAgain(now, w);
    assert Import([], w).0 + Import(now, Some(Import([], w).1)).0 == Import(now, Some(w.GetOr(""))).0;
  }

  // Main result. Importing a branch and then the grown branch emits what one import
  // of the grown branch emits, up to the model stamp, exactly when the tail was
  // kept; the watermarks are the same exactly when the last turn stays closed.
  lemma ChainedImports(before: Branch, now: Branch, w: Option<string>)
    requires Grown(before, now, w)
    ensures SameImport(before, now, w) <==> before == [] || TailKept(before, now, w)
    ensures SameMark(before, now, w) <==> before == [] || StaysClosed(before, now, w)
  {
    hide Held, SameImport, SameMark, LastUser, TurnComplete, OldItems, NewItems;
    if before == [] {
      EmptyChain(now, w);
    } else if Held(OldItems(before, now, w)).Some? {
      HeldChain(before, now, w);
    } else {
      OpenChain(before, now, w);
    }
  }

  // In particular nothing is lost when the growth begins with a typed user.
  lemma ChainedAtUser(before: Branch, now: Branch, w: Option<string>)
    requires Grown(before, now, w)
    requires NewItems(before, now) == [] || IsTypedUser(NewItems(before, now)[0].v)
    ensures SameImport(before, now, w) && SameMark(before, now, w)
  {
    ChainedImports(before, now, w);
    if before != [] {
      TailAtUser(before, now, w);
    }
  }

  // ----- Any number of imports -----

  // Import each state from the mark the state before it returned.
  function ChainedEvents(states: seq<Branch>, w: Option<string>): seq<Event> {
    if states == [] then []
    else Import(states[0], w).0 + ChainedEvents(states[1..], Some(Import(states[0], w).1))
  }

  function ChainedMark(states: seq<Branch>, w: Option<string>): Option<string> {
    if states == [] then w else ChainedMark(states[1..], Some(Import(states[0], w).1))
  }

  // In every state the tail is kept and the last turn stays closed until `last`.
  ghost predicate StatesKept(states: seq<Branch>, last: Branch, w: Option<string>) {
    states == [] ||
    (&& states[0] <= last
     && (states[0] == [] || (TailKept(states[0], last, w) && StaysClosed(states[0], last, w)))
     && StatesKept(states[1..], last, Some(Import(states[0], w).1)))
  }

  // Every state is a prefix of the next.
  ghost predicate Growing(states: seq<Branch>) {
    forall i :: 0 < i < |states| ==> states[i - 1] <= states[i]
  }

  // The mark an import returned is not the id of an entry written later.
  lemma GrownOn(before: Branch, next: Branch, last: Branch, w: Option<string>)
    requires Grown(before, last, w) && before <= next <= last
    ensures Grown(next, last, Some(Import(before, w).1))
  {
    hide Import, Start, Parsed, Held, Emission;
    if before == [] {
      assert Import(before, w).1 == w.GetOr("") by {
        EmptyImport(w);
      }
    } else {
      ImportScans(before, w);
    }
  }

  lemma EmptyImport(w: Option<string>)
    ensures Import([], w) == ([], w.GetOr(""))
  {
  }

  // Main result. Importing a growing branch in any number of its states, and then in
  // the last, emits what one import of the last emits, up to the model, and returns
  // its mark, as long as no state's tail is written to again.
  lemma {:induction false} RepeatedImports(states: seq<Branch>, last: Branch, w: Option<string>)
    requires Growing(states + [last]) && StatesKept(states, last, w)
    requires Grown(if states == [] then last else states[0], last, w)
    ensures Erased(ChainedEvents(states + [last], w)) == Erased(Import(last, w).0)
    ensures ChainedMark(states + [last], w) == Some(Import(last, w).1)
  {
    hide Import, Erased, Grown, TailKept, StaysClosed;
    var all := states + [last];
    if states == [] {
      assert all[1..] == [] && Import(last, w).0 + [] == Import(last, w).0;
    } else {
      var first := Import(states[0], w);
      assert all[1..] == states[1..] + [last] && all[1] == if |states| == 1 then last else states[1];
      assert forall i :: 0 < i < |all[1..]| ==> all[1..][i - 1] == all[i] && all[1..][i] == all[i + 1];
      assert all[0] <= all[1];
      if |states| > 1 {
        assert StatesKept(states[1..], last, Some(first.1)) && states[1] <= last;
      }
      GrownOn(states[0], all[1], last, w);
      RepeatedImports(states[1..], last, Some(first.1));
      ChainedImports(states[0], last, w);
      ErasedAppend(first.0, ChainedEvents(all[1..], Some(first.1)));
      ErasedAppend(first.0, Import(last, Some(first.1)).0);
    }
  }

  // A state after which nothing, or a typed user, was written.
  ghost predicate CutAtUser(state: Branch, last: Branch) {
    state <= last && (NewItems(state, last) == [] || IsTypedUser(NewItems(state, last)[0].v))
  }

  lemma {:induction false} UserStatesKept(states: seq<Branch>, last: Branch, w: Option<string>)
    requires forall i :: 0 <= i < |states| ==> CutAtUser(states[i], last)
    ensures StatesKept(states, last, w)
  {
    hide Import, TailKept, StaysClosed;
    if states != [] {
      assert CutAtUser(states[0], last);
      assert forall i :: 0 <= i < |states[1..]| ==> states[1..][i] == states[i + 1];
      TailAtUser(states[0], last, w);
      UserStatesKept(states[1..], last, Some(Import(states[0], w).1));
    }
  }

  // In particular imports at any times between a turn and the next typed user lose
  // nothing and repeat nothing, however many they are.
  lemma RepeatedAtUsers(states: seq<Branch>, last: Branch, w: Option<string>)
    requires Growing(states + [last]) && forall i :: 0 <= i < |states| ==> CutAtUser(states[i], last)
    requires Grown(if states == [] then last else states[0], last, w)
    ensures Erased(ChainedEvents(states + [last], w)) == Erased(Import(last, w).0)
    ensures ChainedMark(states + [last], w) == Some(Import(last, w).1)
  {
    UserStatesKept(states, last, w);
    RepeatedImports(states, last, w);
  }

  // ----- Sealing -----

  // The current cursor, the id of the last node, seals the branch: an import from
  // it emits exactly the complete turns written since, and nothing at once.
  lemma CursorSeals(before: Branch, now: Branch)
    requires before != [] && Grown(before, now, None)
    ensures Import(now, Some(IdAt(before, |before| - 1))).0 == Turns(NewItems(before, now), "").0
    ensures before == now ==> Import(now, Some(IdAt(before, |before| - 1))) == ([], IdAt(before, |before| - 1))
  {
    hide Turns, Start;
    StartSame(before, now, None);
    SameIdAt(before, now, |before| - 1);
    StartAfter(before, now, None, |before| - 1);
    TurnsOfNothing("");
  }

  // ----- What a complete turn may not get any more -----

  const BLANK: Value := Value("message", "", "", None, NoContent, None, None, None, "", None, None, None, None, None)
  const ASK: Node := Node(Some("u"), Some("message"), Some(BLANK.(role := "user", content := Plain("hi"))))
  const ANSWER: Node := Node(Some("a"), Some("message"), Some(BLANK.(role := "assistant", stopReason := "stop")))
  const LATE: Node := Node(Some("t"), Some("message"), Some(BLANK.(role := "toolResult", toolCallId := Some("c"))))

  lemma LateTurn(ask: Item, answer: Item, late: Item)
    requires ask.v == ASK.value.value && answer.v == ANSWER.value.value && late.v == LATE.value.value
    ensures Held([ask, answer]).None?
    ensures TurnComplete([ask, answer, late], false) && NextUser([late]) == 1
    ensures Run([late], TurnId(ask)) != []
  {
    hide TurnId, Emission, Closed, Turns;
    assert LastAssistant([ask, answer]) == Some(answer.v);
    assert [ask, answer, late][..2] == [ask, answer] && [ask, answer][..1] == [ask];
    assert LastAssistant([ask, answer, late]) == Some(answer.v);
    assert NextUser([answer]) == 1 && [ask, answer][1..] == [answer];
    ScanTakes([ask, answer], 2);
    assert [ask, answer][..2] == [ask, answer] && [ask, answer][2..] == [];
    ScanOfNothing();
    assert |EntryEvents(late, TurnId(ask), "")| == 1;
    assert RunEvents([late], TurnId(ask), "") == EntryEvents(late, TurnId(ask), "") +
        RunEvents([late][1..], TurnId(ask), "");
  }

  // A tool result written after its turn was imported as complete is never imported.
  lemma LateResultIsLost()
    ensures Grown([ASK, ANSWER], [ASK, ANSWER, LATE], None)
    ensures !SameImport([ASK, ANSWER], [ASK, ANSWER, LATE], None)
  {
    hide Held, Run, TurnComplete, SameImport, SameMark, TurnId, NextUser, LastUser, OldItems, NewItems, IsTypedUser;
    var before, now := [ASK, ANSWER], [ASK, ANSWER, LATE];
    var ask, answer, late := Item(0, ASK.id, ASK.value.value), Item(1, ANSWER.id, ANSWER.value.value),
        Item(2, LATE.id, LATE.value.value);
    LateItems(ask, answer, late);
    LateTurn(ask, answer, late);
    assert [ask, answer][0..] + [late][..1] == [ask, answer, late] && [late][..1] == [late];
    assert StaysClosed(before, now, None);
    assert !TailKept(before, now, None);
    ChainedImports(before, now, None);
  }

  lemma LateItems(ask: Item, answer: Item, late: Item)
    requires ask == Item(0, ASK.id, ASK.value.value) && answer == Item(1, ANSWER.id, ANSWER.value.value)
    requires late == Item(2, LATE.id, LATE.value.value)
    ensures OldItems([ASK, ANSWER], [ASK, ANSWER, LATE], None) == [ask, answer]
    ensures NewItems([ASK, ANSWER], [ASK, ANSWER, LATE]) == [late]
    ensures LastUser([ask, answer]) == Some(0)
  {
    assert LastReset([ASK, ANSWER], 2) == 0;
    var now := [ASK, ANSWER, LATE];
    assert Parsed([ASK, ANSWER], 0, 1) == [ask];
    assert Parsed([ASK, ANSWER], 0, 2) == [ask, answer];
    assert Parsed(now, 2, 3) == Parsed(now, 2, 2) + [late];
    assert IsTypedUser(ask.v) && !IsTypedUser(answer.v);
  }
}
