/**
 The model stamps of repeated omp imports.

 Every import starts without a model, so an import that restarts in the middle of
 a branch stamps its events without the model an earlier entry named. `Bare` says
 when that shows. The main result is the exact condition for chained imports to
 emit exactly what one import emits, stamps included.
 */
module OmpStamps {
  import opened Wrappers
  import opened OmpImport
  import opened OmpChaining

  // ----- When the model known at the start shows -----

  predicate NamesModel(run: seq<Item>) {
    exists i :: 0 <= i < |run| && ModelFrom(run[i].v).Some?
  }

  // An entry of the run emits before any entry up to it names a model.
  predicate BareRun(run: seq<Item>, turn: string) {
    exists i :: 0 <= i < |run| && EntryEvents(run[i], turn, "") != [] && !NamesModel(run[..i + 1])
  }

  // An entry of a complete turn emits before any entry up to it names a model.
  predicate Bare(items: seq<Item>)
    decreases |items|
  {
    items != []
    && if !IsTypedUser(items[0].v) then ModelFrom(items[0].v).None? && Bare(items[1..])
       else
         var n := 1 + NextUser(items[1..]);
         var turn := items[..n];
         && TurnComplete(turn, n < |items|)
         && (BareRun(turn, TurnId(items[0])) || (!NamesModel(turn) && Bare(items[n..])))
  }

  ghost predicate AllStamped(events: seq<Event>, model: string) {
    forall i :: 0 <= i < |events| ==> events[i].model == Stamp(model)
  }

  lemma {:induction false} BlocksStamped(blocks: seq<Block>, ts: Option<string>, turn: string, m: string)
    ensures AllStamped(BlocksEvents(blocks, ts, turn, m), m)
  {
    hide IsBlank;
    if blocks != [] {
      BlocksStamped(blocks[..|blocks| - 1], ts, turn, m);
    }
  }

  lemma EntryStamped(e: Item, turn: string, m: string)
    ensures AllStamped(EntryEvents(e, turn, m), m)
  {
    hide BlocksEvents, IsBlank, ContentText, IsTypedUser;
    if e.v.content.Blocks? {
      BlocksStamped(e.v.content.blocks, e.v.ts, turn, m);
    }
  }

  lemma EntryDiffers(e: Item, turn: string, m: string, n: string)
    requires m != n
    ensures |EntryEvents(e, turn, m)| == |EntryEvents(e, turn, n)|
    ensures EntryEvents(e, turn, m) == EntryEvents(e, turn, n) <==> EntryEvents(e, turn, "") == []
  {
    hide EntryEvents;
    EntryErased(e, turn, m, n);
    EntryErased(e, turn, m, "");
    assert |Erased(EntryEvents(e, turn, m))| == |Erased(EntryEvents(e, turn, n))|;
    assert |Erased(EntryEvents(e, turn, m))| == |Erased(EntryEvents(e, turn, ""))|;
    EntryStamped(e, turn, m);
    EntryStamped(e, turn, n);
    if EntryEvents(e, turn, "") != [] {
      assert EntryEvents(e, turn, m)[0].model != EntryEvents(e, turn, n)[0].model;
    }
  }

  lemma NamesFirst(run: seq<Item>)
    requires run != []
    ensures NamesModel(run) <==> ModelFrom(run[0].v).Some? || NamesModel(run[1..])
  {
    hide ModelFrom;
    if NamesModel(run[1..]) {
      var i :| 0 <= i < |run| - 1 && ModelFrom(run[1..][i].v).Some?;
      assert ModelFrom(run[i + 1].v).Some?;
    }
    if NamesModel(run) && ModelFrom(run[0].v).None? {
      var i :| 0 <= i < |run| && ModelFrom(run[i].v).Some?;
      assert ModelFrom(run[1..][i - 1].v).Some?;
    }
  }

  lemma BareFirst(run: seq<Item>, turn: string)
    requires run != []
    ensures BareRun(run, turn) <==>
            ModelFrom(run[0].v).None? && (EntryEvents(run[0], turn, "") != [] || BareRun(run[1..], turn))
  {
    hide ModelFrom, EntryEvents, NamesModel;
    forall i | 0 <= i < |run|
      ensures NamesModel(run[..i + 1]) <==> ModelFrom(run[0].v).Some? || NamesModel(run[1..][..i])
    {
      NamesFirst(run[..i + 1]);
      assert run[..i + 1][1..] == run[1..][..i];
    }
    assert !NamesModel(run[1..][..0]) by {
      NothingNamed();
    }
    if BareRun(run[1..], turn) {
      var i :| 0 <= i < |run| - 1 && EntryEvents(run[1..][i], turn, "") != [] && !NamesModel(run[1..][..i + 1]);
      assert run[i + 1] == run[1..][i] && run[1..][..i + 1] == run[1..][..(i + 1)];
    }
    if BareRun(run, turn) {
      var i :| 0 <= i < |run| && EntryEvents(run[i], turn, "") != [] && !NamesModel(run[..i + 1]);
      if i > 0 {
        assert run[i] == run[1..][i - 1];
      }
    }
  }

  lemma NothingNamed()
    ensures !NamesModel([])
  {
  }

  lemma {:induction false} RunModelIs(run: seq<Item>, m: string)
    ensures NamesModel(run) ==> RunModel(run, m) == RunModel(run, "")
    ensures !NamesModel(run) ==> RunModel(run, m) == m
  {
    hide ModelFrom, NamesModel;
    if run == [] {
      NothingNamed();
    } else {
      NamesFirst(run);
      RunModelIs(run[1..], ModelAfter(run[0].v, m));
      RunModelIs(run[1..], ModelAfter(run[0].v, ""));
    }
  }

  lemma {:induction false} RunDiffers(run: seq<Item>, turn: string, m: string, n: string)
    requires m != n
    ensures |RunEvents(run, turn, m)| == |RunEvents(run, turn, n)|
    ensures RunEvents(run, turn, m) == RunEvents(run, turn, n) <==> !BareRun(run, turn)
  {
    hide ModelFrom, EntryEvents, BareRun;
    if run == [] {
      NothingBare(turn);
    } else {
      BareFirst(run, turn);
      if ModelFrom(run[0].v).None? {
        EntryDiffers(run[0], turn, m, n);
        RunDiffers(run[1..], turn, m, n);
        AppendInjective(EntryEvents(run[0], turn, m), RunEvents(run[1..], turn, m),
                   EntryEvents(run[0], turn, n), RunEvents(run[1..], turn, n));
      }
    }
  }

  lemma NothingBare(turn: string)
    ensures !BareRun([], turn)
  {
  }

  lemma BareTakes(items: seq<Item>, n: nat)
    requires items != [] && IsTypedUser(items[0].v) && n == 1 + NextUser(items[1..])
    ensures Bare(items) <==>
            && TurnComplete(items[..n], n < |items|)
            && (BareRun(items[..n], TurnId(items[0])) || (!NamesModel(items[..n]) && Bare(items[n..])))
  {
    hide TurnComplete, BareRun, NamesModel, ModelFrom, IsTypedUser, TurnId;
  }

  lemma BareSkips(items: seq<Item>)
    requires items != [] && !IsTypedUser(items[0].v)
    ensures Bare(items) <==> ModelFrom(items[0].v).None? && Bare(items[1..])
  {
    hide TurnComplete, BareRun, NamesModel, ModelFrom, IsTypedUser, TurnId;
  }

  // Two different models at the start show exactly when the entries are bare.
  lemma {:induction false} TurnsDiffer(items: seq<Item>, m: string, n: string)
    requires m != n
    ensures |Turns(items, m).0| == |Turns(items, n).0|
    ensures Turns(items, m).0 == Turns(items, n).0 <==> !Bare(items)
    decreases |items|
  {
    hide Turns, TurnComplete, BareRun, NamesModel, RunEvents, RunModel, NextUser, IsTypedUser, TurnId, ModelFrom;
    TurnsErased(items, m, n);
    assert |Erased(Turns(items, m).0)| == |Erased(Turns(items, n).0)|;
    if items == [] {
      TurnsOfNothing(m);
      TurnsOfNothing(n);
    } else if !IsTypedUser(items[0].v) {
      TurnsSkip(items, m);
      TurnsSkip(items, n);
      BareSkips(items);
      if ModelFrom(items[0].v).None? {
        TurnsDiffer(items[1..], m, n);
      }
    } else {
      var k := 1 + NextUser(items[1..]);
      TurnsTake(items, k, m);
      TurnsTake(items, k, n);
      BareTakes(items, k);
      if TurnComplete(items[..k], k < |items|) {
        TurnDiffers(items, k, m, n);
        if !NamesModel(items[..k]) {
          TurnsDiffer(items[k..], m, n);
        }
      }
    }
  }

  // The first turn of a scan, complete: what it emits and the model it leaves.
  lemma TurnDiffers(items: seq<Item>, k: nat, m: string, n: string)
    requires m != n && items != [] && 0 < k <= |items|
    ensures var a, b := ModelAfter(items[0].v, m), ModelAfter(items[0].v, n);
            var turn, id := items[..k], TurnId(items[0]);
            && (NamesModel(turn) ==> RunModel(turn, a) == RunModel(turn, b))
            && (!NamesModel(turn) ==> RunModel(turn, a) == m && RunModel(turn, b) == n)
            && forall x, y ::
                 RunEvents(turn, id, a) + x == RunEvents(turn, id, b) + y <==> !BareRun(turn, id) && x == y
  {
    hide BareRun, NamesModel, RunEvents, RunModel, TurnId, ModelFrom;
    var a, b := ModelAfter(items[0].v, m), ModelAfter(items[0].v, n);
    var turn, id := items[..k], TurnId(items[0]);
    RunModelIs(turn, a);
    RunModelIs(turn, b);
    NamesFirst(turn);
    BareFirst(turn, id);
    if ModelFrom(items[0].v).None? {
      RunDiffers(turn, id, m, n);
    }
    forall x, y ensures RunEvents(turn, id, a) + x == RunEvents(turn, id, b) + y <==> !BareRun(turn, id) && x == y {
      AppendInjective(RunEvents(turn, id, a), x, RunEvents(turn, id, b), y);
    }
  }

  // ----- Scans of two parts, with their stamps -----

  // The events of these entries if every turn is closed.
  function ClosedFrom(items: seq<Item>, m: string): seq<Event>
    decreases |items|
  {
    if items == [] then []
    else
      var a := ModelAfter(items[0].v, m);
      if !IsTypedUser(items[0].v) then ClosedFrom(items[1..], a)
      else
        var n := 1 + NextUser(items[1..]);
        RunEvents(items[..n], TurnId(items[0]), a) + ClosedFrom(items[n..], RunModel(items[..n], a))
  }

  lemma {:induction false} RunModelAppend(a: seq<Item>, b: seq<Item>, m: string)
    ensures RunModel(a + b, m) == RunModel(b, RunModel(a, m))
  {
    hide ModelFrom;
    if a == [] {
      assert a + b == b;
    } else {
      assert (a + b)[1..] == a[1..] + b;
      RunModelAppend(a[1..], b, ModelAfter(a[0].v, m));
    }
  }

  // The first entry of a turn names its model before the turn and again in it.
  lemma RunAgain(run: seq<Item>, turn: string, m: string)
    requires run != []
    ensures var a := ModelAfter(run[0].v, m);
            RunModel(run, a) == RunModel(run, m) && RunEvents(run, turn, a) == RunEvents(run, turn, m)
  {
    hide EntryEvents, ModelFrom;
  }

  lemma {:induction false} SplitStamped(a: seq<Item>, b: seq<Item>, m: string)
    requires b != [] && IsTypedUser(b[0].v)
    ensures Turns(a + b, m).0 == ClosedFrom(a, m) + Turns(b, RunModel(a, m)).0
    decreases |a|
  {
    hide Turns, RunEvents, TurnComplete, IsTypedUser, NextUser, TurnId, ModelAfter;
    if a == [] {
      assert a + b == b;
    } else if !IsTypedUser(a[0].v) {
      assert (a + b)[1..] == a[1..] + b;
      TurnsSkip(a + b, m);
      SplitStamped(a[1..], b, ModelAfter(a[0].v, m));
    } else {
      SplitAtTurn(a, b, m);
      var n, c := 1 + NextUser(a[1..]), ModelAfter(a[0].v, m);
      SplitStamped(a[n..], b, RunModel(a[..n], c));
      ModelThrough(a, n, m);
      assert ClosedFrom(a, m) == RunEvents(a[..n], TurnId(a[0]), c) + ClosedFrom(a[n..], RunModel(a[..n], c));
    }
  }

  lemma ModelThrough(a: seq<Item>, n: nat, m: string)
    requires 0 < n <= |a|
    ensures RunModel(a[n..], RunModel(a[..n], ModelAfter(a[0].v, m))) == RunModel(a, m)
  {
    hide RunModel, RunEvents, ModelAfter, TurnId;
    RunAgain(a[..n], "", m);
    RunModelAppend(a[..n], a[n..], m);
    assert a == a[..n] + a[n..];
  }

  lemma SplitAtTurn(a: seq<Item>, b: seq<Item>, m: string)
    requires a != [] && IsTypedUser(a[0].v) && b != [] && IsTypedUser(b[0].v)
    ensures var n, c := 1 + NextUser(a[1..]), ModelAfter(a[0].v, m);
            Turns(a + b, m).0 == RunEvents(a[..n], TurnId(a[0]), c) + Turns(a[n..] + b, RunModel(a[..n], c)).0
  {
    hide Turns, RunEvents, RunModel, TurnComplete, IsTypedUser, NextUser, TurnId, ModelAfter;
    var n := 1 + NextUser(a[1..]);
    FirstTurnOfBoth(a, b);
    TurnsTake(a + b, n, m);
    Followed(a[..n]);
  }

  lemma {:induction false} SkipRun(items: seq<Item>, n: nat, m: string)
    requires n <= |items| && forall i :: 0 <= i < n ==> !IsTypedUser(items[i].v)
    ensures Turns(items, m).0 == Turns(items[n..], RunModel(items[..n], m)).0
    decreases n
  {
    hide Turns, IsTypedUser, ModelAfter;
    if n == 0 {
      assert items[0..] == items && items[..0] == [];
    } else {
      TurnsSkip(items, m);
      SkipRun(items[1..], n - 1, ModelAfter(items[0].v, m));
      assert items[1..][n - 1..] == items[n..] && items[1..][..n - 1] == items[..n][1..];
    }
  }

  // A turn with what was written to it since, and the turns after.
  lemma OpenTurnStamped(t: seq<Item>, g: seq<Item>, m: string)
    requires t != [] && IsTypedUser(t[0].v) && forall i :: 0 < i < |t| ==> !IsTypedUser(t[i].v)
    ensures var n, id, c := NextUser(g), TurnId(t[0]), RunModel(t, m);
            && (TurnComplete(t + g[..n], n < |g|) ==>
                  Turns(t + g, m).0 == RunEvents(t, id, m) + RunEvents(g[..n], id, c) + Turns(g, c).0)
            && (!TurnComplete(t + g[..n], n < |g|) ==> Turns(t + g, m).0 == [])
  {
    hide Turns, RunEvents, RunModel, TurnComplete, IsTypedUser, NextUser, TurnId, ModelAfter;
    var n, id, c := NextUser(g), TurnId(t[0]), RunModel(t, m);
    var whole := t + g;
    OpenTurnEnds(t, g);
    assert whole[0] == t[0] && whole[..|t| + n] == t + g[..n] && whole[|t| + n..] == g[n..];
    TurnsTake(whole, |t| + n, m);
    if TurnComplete(t + g[..n], n < |g|) {
      RunAgain(t + g[..n], id, m);
      RunAppend(t, g[..n], id, m);
      RunModelAppend(t, g[..n], m);
      NextUserIs(g);
      SkipRun(g, n, c);
    }
  }

  lemma NextUserIs(g: seq<Item>)
    ensures NextUser(g) <= |g| && forall i :: 0 <= i < NextUser(g) ==> !IsTypedUser(g[i].v)
  {
  }

  // The last turn of the old branch on its own.
  lemma LastTurnStamped(t: seq<Item>, m: string)
    requires t != [] && IsTypedUser(t[0].v) && forall i :: 0 < i < |t| ==> !IsTypedUser(t[i].v)
    requires TurnComplete(t, false)
    ensures Turns(t, m).0 == RunEvents(t, TurnId(t[0]), m)
  {
    hide Turns, RunEvents, RunModel, TurnComplete, IsTypedUser, NextUser, TurnId, ModelAfter;
    var none: seq<Item> := [];
    OpenTurnStamped(t, none, m);
    NextUserIs(none);
    assert t + none == t && none[..0] == none;
    TurnsOfNothing(RunModel(t, m));
    RunDone(TurnId(t[0]), RunModel(t, m));
    assert RunEvents(t, TurnId(t[0]), m) + [] + [] == RunEvents(t, TurnId(t[0]), m);
  }

  // ----- Main result -----

  // Where the second of two chained imports restarts, what it reads again, and the
  // model one import knows there.
  function Restart(before: Branch, now: Branch, w: Option<string>): nat
    requires |before| <= |now|
  {
    Held(OldItems(before, now, w)).GetOr(|before|)
  }

  ghost predicate StampsKept(before: Branch, now: Branch, w: Option<string>)
    requires |before| <= |now|
  {
    var s, r := Start(now, w), Restart(before, now, w);
    s <= r <= |now| && (RunModel(Parsed(now, s, r), "") == "" || !Bare(Parsed(now, r, |now|)))
  }

  // The two chained imports and the one import emit the same events, stamps included.
  ghost predicate SameEvents(before: Branch, now: Branch, w: Option<string>) {
    Import(before, w).0 + Import(now, Some(Import(before, w).1)).0 == Import(now, w).0
  }

  lemma ImportTurns(branch: Branch, w: Option<string>)
    requires branch != []
    ensures Import(branch, w).0 == Turns(Parsed(branch, Start(branch, w), |branch|), "").0
  {
    hide Turns, Start, Parsed;
  }

  lemma SameModelOrBare(items: seq<Item>, m: string)
    ensures |Turns(items, "").0| == |Turns(items, m).0|
    ensures Turns(items, "").0 == Turns(items, m).0 <==> m == "" || !Bare(items)
  {
    hide Turns, Bare;
    if m != "" {
      TurnsDiffer(items, "", m);
    }
  }

  lemma HeldStamped(earlier: seq<Item>, later: seq<Item>, k: nat)
    requires k < |earlier| && IsTypedUser(earlier[k].v) && Emission(earlier) == Closed(earlier[..k])
    ensures var c, rest := ClosedFrom(earlier[..k], ""), earlier[k..] + later;
            && Turns(earlier, "").0 == c
            && Turns(earlier + later, "").0 == c + Turns(rest, RunModel(earlier[..k], "")).0
  {
    hide Turns, IsTypedUser, Closed, RunModel, ClosedFrom, Unstamped;
    var a, b, m := earlier[..k], earlier[k..], RunModel(earlier[..k], "");
    assert earlier == a + b && earlier + later == a + (b + later);
    SplitStamped(a, b, "");
    SplitStamped(a, b + later, "");
    ScanSplits(a, b);
    assert |Closed(a) + Emission(b)| == |Closed(a)|;
    TurnsErased(b, "", m);
    assert |Turns(b, m).0| == |Erased(Turns(b, m).0)| == |Emission(b)| == 0;
  }

  lemma HeldEvents(before: Branch, now: Branch, w: Option<string>)
    requires Grown(before, now, w) && before != [] && Held(OldItems(before, now, w)).Some?
    ensures SameEvents(before, now, w) <==> StampsKept(before, now, w)
  {
    hide Turns, IsTypedUser, Closed, RunModel, ClosedFrom, Emission, Parsed, Start, Bare, Import, IdAt, Held;
    var earlier, later := OldItems(before, now, w), NewItems(before, now);
    var pos := Held(earlier).value;
    var k := HeldReads(before, now, w);
    WholeReads(before, now, w);
    ImportTurns(before, w);
    ImportTurns(now, w);
    HeldStamped(earlier, later, k);
    HeldRestarts(before, now, w, k);
    ImportTurns(now, Some(Import(before, w).1));
    var m, rest := RunModel(earlier[..k], ""), earlier[k..] + later;
    SameModelOrBare(rest, m);
    SameHead(ClosedFrom(earlier[..k], ""), Turns(rest, "").0, Turns(rest, m).0);
  }

  lemma SameHead<T>(c: seq<T>, x: seq<T>, y: seq<T>)
    ensures c + x == c + y <==> x == y
  {
    AppendInjective(c, x, c, y);
  }

  // The held turn begins where the second import restarts.
  lemma HeldRestarts(before: Branch, now: Branch, w: Option<string>, k: nat)
    requires Grown(before, now, w) && before != [] && Held(OldItems(before, now, w)).Some?
    requires var earlier := OldItems(before, now, w);
             var pos := Held(earlier).value;
             && k < |earlier| && earlier[k].pos == pos && Start(now, w) <= pos < |before|
             && (pos == 0 ==> k == 0)
             && (pos > 0 ==> Start(now, Some(IdAt(before, pos - 1))) == pos)
    ensures var earlier := OldItems(before, now, w);
            var pos := Held(earlier).value;
            && Start(now, Some(Import(before, w).1)) == pos
            && Parsed(now, Start(now, w), pos) == earlier[..k]
  {
    hide Emission, Turns, Closed, Parsed, Start, IdAt, Held, IsTypedUser, Import;
    var pos := Held(OldItems(before, now, w)).value;
    WholeReads(before, now, w);
    ImportScans(before, w);
    ParsedFrom(now, Start(now, w), |before|, k);
    if pos == 0 {
      StartAgain(now, w);
    }
  }

  lemma SameMiddle<T>(c: seq<T>, r: seq<T>, x: seq<T>, y: seq<T>, z: seq<T>)
    requires |y| == |z|
    ensures (c + r) + y == c + (r + x + z) <==> x == [] && y == z
  {
    if x == [] {
      assert c + (r + x + z) == (c + r) + z;
      SameHead(c + r, y, z);
    } else {
      assert |(c + r) + y| != |c + (r + x + z)|;
    }
  }

  // The old branch was read to its end, its last turn begins at k.
  lemma OpenStamped(earlier: seq<Item>, later: seq<Item>, k: nat)
    requires LastUser(earlier) == Some(k) && Held(earlier).None?
    ensures var a, turn, id := earlier[..k], earlier[k..], TurnId(earlier[k]);
            var c, m, n := ClosedFrom(a, ""), RunModel(earlier, ""), NextUser(later);
            var run := RunEvents(turn, id, RunModel(a, ""));
            && Turns(earlier, "").0 == c + run
            && (TurnComplete(turn + later[..n], n < |later|) ==>
                  Turns(earlier + later, "").0 == c + (run + RunEvents(later[..n], id, m) + Turns(later, m).0))
            && (!TurnComplete(turn + later[..n], n < |later|) ==> Turns(earlier + later, "").0 == c)
  {
    hide Turns, Held, IsTypedUser, TurnComplete, RunModel, RunEvents, ClosedFrom, NextUser, TurnId;
    var a, turn, b := earlier[..k], earlier[k..], RunModel(earlier[..k], "");
    assert earlier == a + turn && earlier + later == a + (turn + later) && turn[0] == earlier[k];
    assert forall i :: 0 < i < |turn| ==> turn[i] == earlier[k + i];
    LastTurnComplete(earlier, k);
    LastTurnStamped(turn, b);
    SplitStamped(a, turn, "");
    SplitStamped(a, turn + later, "");
    OpenTurnStamped(turn, later, b);
    RunModelAppend(a, turn, "");
  }

  lemma RunLength(run: seq<Item>, turn: string, m: string)
    ensures RunEvents(run, turn, m) == [] <==> Run(run, turn) == []
  {
    hide RunEvents;
    RunErased(run, turn, m, "");
    assert |Erased(RunEvents(run, turn, m))| == |RunEvents(run, turn, m)|;
  }

  // A turn left open swallows everything written after it.
  lemma ReopenedEmits(later: seq<Item>, turn: seq<Item>, m: string)
    requires !TurnComplete(turn + later[..NextUser(later)], NextUser(later) < |later|)
    ensures Turns(later, m).0 == []
  {
    hide Turns, RunModel;
    NextUserIs(later);
    SkipRun(later, |later|, m);
    TurnsOfNothing(RunModel(later, m));
    assert later[|later|..] == [] && later[..|later|] == later;
  }

  // The three scans of a last turn at k, whatever became of it.
  lemma OpenScansStamped(before: Branch, now: Branch, w: Option<string>, k: nat)
    requires Grown(before, now, w) && Held(OldItems(before, now, w)).None?
    requires LastUser(OldItems(before, now, w)) == Some(k)
    ensures var earlier, later := OldItems(before, now, w), NewItems(before, now);
            var m := RunModel(earlier, "");
            Turns(earlier, "").0 + Turns(later, "").0 == Turns(earlier + later, "").0 <==>
            TailKept(before, now, w) && (m == "" || !Bare(later))
  {
    hide Turns, Held, Run, TurnComplete, RunModel, RunEvents, ClosedFrom, OldItems, NewItems, NextUser, Bare;
    hide TurnId, IsTypedUser;
    var earlier, later := OldItems(before, now, w), NewItems(before, now);
    var turn, id, n, m := earlier[k..], TurnId(earlier[k]), NextUser(later), RunModel(earlier, "");
    var c, run := ClosedFrom(earlier[..k], ""), RunEvents(turn, id, RunModel(earlier[..k], ""));
    OpenStamped(earlier, later, k);
    SameModelOrBare(later, m);
    RunLength(later[..n], id, m);
    RunLength(turn, id, RunModel(earlier[..k], ""));
    if StaysClosed(before, now, w) {
      SameMiddle(c, run, RunEvents(later[..n], id, m), Turns(later, "").0, Turns(later, m).0);
    } else {
      ReopenedEmits(later, turn, "");
      ReopenedEmits(later, turn, m);
      assert (c + run) + [] == c + run;
      SameHead(c, run, []);
      assert c + [] == c;
    }
  }

  // No turn began in the old branch: the model it named is all that is lost.
  lemma NoTurnStamped(earlier: seq<Item>, later: seq<Item>)
    requires LastUser(earlier).None?
    ensures Turns(earlier, "").0 == []
    ensures Turns(earlier + later, "").0 == Turns(later, RunModel(earlier, "")).0
  {
    hide Turns, IsTypedUser, RunModel;
    var n := |earlier|;
    SkipRun(earlier, n, "");
    assert earlier[n..] == [] && earlier[..n] == earlier;
    TurnsOfNothing(RunModel(earlier, ""));
    SkipRun(earlier + later, n, "");
    assert (earlier + later)[n..] == later && (earlier + later)[..n] == earlier;
  }

  lemma OpenEvents(before: Branch, now: Branch, w: Option<string>)
    requires Grown(before, now, w) && before != [] && Held(OldItems(before, now, w)).None?
    ensures SameEvents(before, now, w) <==> TailKept(before, now, w) && StampsKept(before, now, w)
  {
    hide Turns, Held, Run, TurnComplete, RunModel, OldItems, NewItems, NextUser, Bare, Import, Parsed, Start, IdAt;
    hide StaysClosed;
    var earlier, later := OldItems(before, now, w), NewItems(before, now);
    WholeReads(before, now, w);
    OpenReads(before, now, w);
    ImportTurns(before, w);
    ImportTurns(now, w);
    ImportTurns(now, Some(Import(before, w).1));
    SameParts(before, now, w);
    var k := LastUser(earlier);
    if k.Some? {
      OpenScansStamped(before, now, w, k.value);
    } else {
      NoTurnStamped(earlier, later);
      SameModelOrBare(later, RunModel(earlier, ""));
      assert [] + Turns(later, "").0 == Turns(later, "").0;
    }
  }

  lemma SameParts(before: Branch, now: Branch, w: Option<string>)
    requires Grown(before, now, w)
    ensures OldItems(before, now, w) == Parsed(before, Start(before, w), |before|)
    ensures NewItems(before, now) == Parsed(now, |before|, |now|)
  {
  }

  // Main result. Chained imports emit exactly what one import emits, stamps
  // included, exactly when the tail was kept and either one import knows no model
  // where the second import restarts or nothing there is emitted before a model is
  // named.
  lemma ChainedStamps(before: Branch, now: Branch, w: Option<string>)
    requires Grown(before, now, w)
    ensures SameEvents(before, now, w) <==>
            before == [] || (TailKept(before, now, w) && StampsKept(before, now, w))
  {
    hide SameEvents, StampsKept, TailKept, Held, OldItems;
    if before == [] {
      EmptyEvents(now, w);
    } else if Held(OldItems(before, now, w)).Some? {
      HeldEvents(before, now, w);
      HeldTail(before, now, w);
    } else {
      OpenEvents(before, now, w);
    }
  }

  // When the growth begins with a typed user only the stamps are left to differ.
  lemma StampedAtUser(before: Branch, now: Branch, w: Option<string>)
    requires Grown(before, now, w)
    requires NewItems(before, now) == [] || IsTypedUser(NewItems(before, now)[0].v)
    ensures SameEvents(before, now, w) <==> before == [] || StampsKept(before, now, w)
  {
    hide SameEvents, StampsKept, TailKept, IsTypedUser;
    ChainedStamps(before, now, w);
    TailAtUser(before, now, w);
  }

  lemma HeldTail(before: Branch, now: Branch, w: Option<string>)
    requires Grown(before, now, w) && Held(OldItems(before, now, w)).Some?
    ensures TailKept(before, now, w)
  {
    hide Held, OldItems;
  }

  lemma EmptyEvents(now: Branch, w: Option<string>)
    requires GoodIds(now)
    ensures SameEvents([], now, w)
  {
    hide Turns, Start, Parsed;
    StartAgain(now, w);
    assert [] + Import(now, Some(w.GetOr(""))).0 == Import(now, w).0;
  }

  // ----- A branch whose stamps differ -----

  const NAMED: Node := Node(Some("a"), Some("message"),
                            Some(BLANK.(role := "assistant", stopReason := "stop", model := Some("m"))))
  const NEXT: Node := Node(Some("v"), Some("message"), Some(BLANK.(role := "user", content := Plain("more"))))
  const LAST: Node := Node(Some("b"), Some("message"), Some(BLANK.(role := "assistant", stopReason := "stop")))

  lemma StampItems(ask: Item, named: Item, next: Item, last: Item)
    requires ask == Item(0, ASK.id, ASK.value.value) && named == Item(1, NAMED.id, NAMED.value.value)
    requires next == Item(2, NEXT.id, NEXT.value.value) && last == Item(3, LAST.id, LAST.value.value)
    ensures var before, now := [ASK, NAMED], [ASK, NAMED, NEXT, LAST];
            && OldItems(before, now, None) == [ask, named] && NewItems(before, now) == [next, last]
            && Start(now, None) == 0 && Parsed(now, 0, 2) == [ask, named]
  {
    var before, now := [ASK, NAMED], [ASK, NAMED, NEXT, LAST];
    assert LastReset(before, 2) == LastReset(before, 1) == LastReset(before, 0) == 0;
    assert LastReset(now, 4) == LastReset(now, 3) == LastReset(now, 2) == LastReset(now, 1) == 0;
    assert Parsed(before, 0, 1) == [ask] && Parsed(before, 0, 2) == [ask, named];
    assert Parsed(now, 0, 1) == [ask] && Parsed(now, 0, 2) == [ask, named];
    assert Parsed(now, 2, 3) == [next] && Parsed(now, 2, 4) == [next, last];
  }

  lemma NamedScans(ask: Item, named: Item)
    requires ask.v == ASK.value.value && named.v == NAMED.value.value
    ensures Held([ask, named]).None? && RunModel([ask, named], "") == "m"
  {
    hide TurnId, Emission, Closed, Turns;
    assert [ask, named][1..] == [named] && [named][1..] == [];
    assert NextUser([named]) == 1;
    assert [ask, named][..2] == [ask, named] && [ask, named][2..] == [];
    assert LastAssistant([ask, named]) == Some(named.v);
    ScanTakes([ask, named], 2);
    ScanOfNothing();
    assert ModelAfter(ask.v, "") == "" && RunModel([named], "") == RunModel([], "m") == "m";
  }

  lemma NextEmits(next: Item, id: string)
    requires next.v == NEXT.value.value
    ensures ModelFrom(next.v).None? && IsTypedUser(next.v) && EntryEvents(next, id, "") != []
  {
    assert "more"[0] == 'm' && !IsBlank("more");
  }

  lemma LastIsBare(next: Item, last: Item)
    requires next.v == NEXT.value.value && last.v == LAST.value.value
    ensures Bare([next, last])
  {
    hide TurnId, NamesModel, BareRun, EntryEvents, ModelFrom, Bare;
    var turn := [next, last];
    NextEmits(next, TurnId(next));
    BareFirst(turn, TurnId(next));
    assert turn[1..] == [last] && [last][1..] == [] && NextUser([last]) == 1 && turn[..2] == turn;
    assert LastAssistant(turn) == Some(last.v);
    BareTakes(turn, 2);
  }

  // The user entry of a turn imported later is stamped with the model of the turn
  // before it by one import, and with none by chained imports.
  lemma StampIsLost()
    ensures Grown([ASK, NAMED], [ASK, NAMED, NEXT, LAST], None)
    ensures SameImport([ASK, NAMED], [ASK, NAMED, NEXT, LAST], None)
    ensures !SameEvents([ASK, NAMED], [ASK, NAMED, NEXT, LAST], None)
  {
    hide Held, Bare, RunModel, SameImport, SameEvents, SameMark, OldItems, NewItems, Parsed, Start, TailKept;
    var before, now := [ASK, NAMED], [ASK, NAMED, NEXT, LAST];
    var ask, named := Item(0, ASK.id, ASK.value.value), Item(1, NAMED.id, NAMED.value.value);
    var next, last := Item(2, NEXT.id, NEXT.value.value), Item(3, LAST.id, LAST.value.value);
    StampItems(ask, named, next, last);
    NamedScans(ask, named);
    LastIsBare(next, last);
    SameParts(before, now, None);
    ChainedAtUser(before, now, None);
    ChainedStamps(before, now, None);
  }
}
