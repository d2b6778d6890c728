/**
 The active branch of an omp session (`active_path`).

 Entries are threaded by parent id. Nothing is assumed of the links: parents may
 be unknown, ids may repeat, links may form cycles. `IsActive` says what the
 active branch of an index is, and it has exactly one.
 */
module OmpPath {
  import opened Wrappers
  import opened OmpIndex

  type Index = seq<IndexLine>

  predicate IsBookkeeping(ty: Option<string>) {
    ty.Some? && (ty.value == "model_usage" || ty.value == "label" || ty.value == "title_change"
                 || ty.value == "credential_pin")
  }

  predicate HasId(e: IndexLine) {
    e.id.Some? && e.id.value != ""
  }

  // ----- Specification -----

  // The last of the first n entries with this id.
  function LookupTo(index: Index, n: nat, id: string): (r: Option<nat>)
    requires n <= |index|
    ensures r.Some? ==> r.value < n && index[r.value].id == Some(id)
    ensures r.Some? ==> forall i :: r.value < i < n ==> index[i].id != Some(id)
    ensures r.None? ==> forall i :: 0 <= i < n ==> index[i].id != Some(id)
  {
    if n == 0 then None
    else if index[n - 1].id == Some(id) then Some(n - 1)
    else LookupTo(index, n - 1, id)
  }

  function Lookup(index: Index, id: Option<string>): (r: Option<nat>)
    ensures r.Some? ==> r.value < |index|
  {
    if id.Some? then LookupTo(index, |index|, id.value) else None
  }

  function Parent(index: Index, i: nat): (r: Option<nat>)
    requires i < |index|
    ensures r.Some? ==> r.value < |index|
  {
    Lookup(index, index[i].parent)
  }

  // The last of the first n entries that can end a branch.
  function LastEnd(index: Index, n: nat): (r: Option<nat>)
    requires n <= |index|
    ensures r.Some? ==> r.value < n
  {
    if n == 0 then None
    else if index[n - 1].id.Some? && !IsBookkeeping(index[n - 1].ty) then Some(n - 1)
    else LastEnd(index, n - 1)
  }

  // The leaf named by the last of the first n entries that has an id or names a leaf.
  function LastStamp(index: Index, n: nat): Option<string>
    requires n <= |index|
  {
    if n == 0 then None
    else if index[n - 1].id.Some? || index[n - 1].activeLeaf.Some? then index[n - 1].activeLeaf
    else LastStamp(index, n - 1)
  }

  function Leaf(index: Index): (r: Option<nat>)
    ensures r.Some? ==> r.value < |index|
  {
    var stamped := Lookup(index, LastStamp(index, |index|));
    if stamped.Some? then stamped else LastEnd(index, |index|)
  }

  ghost predicate Distinct(path: seq<nat>) {
    forall i, j :: 0 <= i < j < |path| ==> path[i] != path[j]
  }

  // A branch from its start to `leaf`: every step follows a parent link, no entry
  // repeats, and it cannot be extended (no parent, or a parent already on it).
  ghost predicate IsBranch(index: Index, path: seq<nat>, leaf: nat) {
    && path != [] && path[|path| - 1] == leaf
    && (forall i :: 0 <= i < |path| ==> path[i] < |index|)
    && Distinct(path)
    && (forall i :: 0 < i < |path| ==> Parent(index, path[i]) == Some(path[i - 1]))
    && (Parent(index, path[0]).Some? ==> Parent(index, path[0]).value in path)
  }

  ghost predicate IsActive(index: Index, path: seq<nat>) {
    if forall i :: 0 <= i < |index| ==> !HasId(index[i]) then
      path == seq(|index|, i => i)
    else
      match Leaf(index)
      case None => path == []
      case Some(leaf) => IsBranch(index, path, leaf)
  }

  // ----- What the leaf is -----

  // Entry k has an id or names a leaf, and no later entry does.
  ghost predicate SpeaksLast(index: Index, k: nat) {
    && k < |index| && (index[k].id.Some? || index[k].activeLeaf.Some?)
    && forall i :: k < i < |index| ==> index[i].id.None? && index[i].activeLeaf.None?
  }

  ghost predicate CanEnd(e: IndexLine) {
    e.id.Some? && !IsBookkeeping(e.ty)
  }

  ghost predicate IsKnown(index: Index, id: Option<string>) {
    id.Some? && exists j :: 0 <= j < |index| && index[j].id == id
  }

  // The path ends at the last entry with that id ...
  ghost predicate EndsAt(index: Index, path: seq<nat>, id: Option<string>) {
    && path != [] && path[|path| - 1] < |index| && index[path[|path| - 1]].id == id
    && forall j :: path[|path| - 1] < j < |index| ==> index[j].id != id
  }

  // ... or at the last one that can end a branch, and is empty when there is none.
  ghost predicate EndsAtLast(index: Index, path: seq<nat>) {
    && (path == [] ==> forall j :: 0 <= j < |index| ==> !CanEnd(index[j]))
    && (path != [] ==> path[|path| - 1] < |index| && CanEnd(index[path[|path| - 1]])
                       && forall j :: path[|path| - 1] < j < |index| ==> !CanEnd(index[j]))
  }

  // The entry that speaks last decides: the leaf it names, if it is known, else the
  // last entry that can end a branch.
  ghost predicate EndsWhereSaid(index: Index, path: seq<nat>) {
    forall k: nat :: SpeaksLast(index, k) ==>
      if IsKnown(index, index[k].activeLeaf) then EndsAt(index, path, index[k].activeLeaf)
      else EndsAtLast(index, path)
  }

  lemma {:induction false} LastStampIs(index: Index, n: nat, k: nat)
    requires k < n <= |index| && SpeaksLast(index, k)
    ensures LastStamp(index, n) == index[k].activeLeaf
  {
    if k + 1 < n {
      LastStampIs(index, n - 1, k);
    }
  }

  lemma {:induction false} LastEndIs(index: Index, n: nat)
    requires n <= |index|
    ensures match LastEnd(index, n)
            case None => forall j :: 0 <= j < n ==> !CanEnd(index[j])
            case Some(i) => CanEnd(index[i]) && forall j :: i < j < n ==> !CanEnd(index[j])
  {
    if n > 0 {
      LastEndIs(index, n - 1);
    }
  }

  function AsPath(leaf: Option<nat>): seq<nat> {
    if leaf.Some? then [leaf.value] else []
  }

  lemma LeafIsSaid(index: Index)
    ensures EndsWhereSaid(index, AsPath(Leaf(index)))
  {
    LastEndIs(index, |index|);
    forall k: nat | SpeaksLast(index, k)
      ensures if IsKnown(index, index[k].activeLeaf) then EndsAt(index, AsPath(Leaf(index)), index[k].activeLeaf)
              else EndsAtLast(index, AsPath(Leaf(index)))
    {
      LastStampIs(index, |index|, k);
    }
  }

  lemma ActiveEnds(index: Index, path: seq<nat>)
    requires IsActive(index, path) && exists i :: 0 <= i < |index| && HasId(index[i])
    ensures EndsWhereSaid(index, path)
  {
    hide Leaf;
    LeafIsSaid(index);
  }

  // ----- The program -----

  method AnyId(index: Index) returns (any: bool)
    ensures any <==> exists i :: 0 <= i < |index| && HasId(index[i])
  {
    for i := 0 to |index|
      invariant forall k :: 0 <= k < i ==> !HasId(index[k])
    {
      if HasId(index[i]) {
        return true;
      }
    }
    return false;
  }

  method IdTable(index: Index) returns (table: map<string, nat>)
    ensures forall id :: Lookup(index, Some(id)) == if id in table then Some(table[id]) else None
  {
    table := map[];
    for i := 0 to |index|
      invariant forall id :: LookupTo(index, i, id) == if id in table then Some(table[id]) else None
    {
      if index[i].id.Some? {
        table := table[index[i].id.value := i];
      }
    }
  }

  method ChooseLeaf(index: Index, table: map<string, nat>) returns (leaf: Option<nat>)
    requires forall id :: Lookup(index, Some(id)) == if id in table then Some(table[id]) else None
    ensures leaf == Leaf(index) && EndsWhereSaid(index, AsPath(leaf))
  {
    hide EndsWhereSaid;
    LeafIsSaid(index);
    leaf := None;
    for i := 0 to |index|
      invariant leaf == LastEnd(index, i)
    {
      if index[i].id.Some? && !IsBookkeeping(index[i].ty) {
        leaf := Some(i);
      }
    }
    var i := |index|;
    while i > 0 && index[i - 1].id.None? && index[i - 1].activeLeaf.None?
      invariant 0 <= i <= |index| && LastStamp(index, |index|) == LastStamp(index, i)
    {
      i := i - 1;
    }
    if i > 0 && index[i - 1].activeLeaf.Some? {
      var id := index[i - 1].activeLeaf.value;
      assert LastStamp(index, |index|) == Some(id);
      assert Lookup(index, Some(id)) == if id in table then Some(table[id]) else None;
      if id in table {
        leaf := Some(table[id]);
      }
    } else {
      assert LastStamp(index, |index|) == None;
    }
  }

  // The walk, leaf first. `up` is what has been collected before the last reversal.
  ghost predicate Walked(index: Index, up: seq<nat>, leaf: nat, cur: nat) {
    && (forall i :: 0 <= i < |up| ==> up[i] < |index|) && cur < |index|
    && Distinct(up)
    && (up == [] ==> cur == leaf)
    && (up != [] ==> up[0] == leaf && Parent(index, up[|up| - 1]) == Some(cur))
    && (forall i :: 0 <= i < |up| - 1 ==> Parent(index, up[i]) == Some(up[i + 1]))
  }

  function Below(n: nat): (r: set<nat>)
    ensures forall i: nat :: i in r <==> i < n
  {
    if n == 0 then {} else Below(n - 1) + {n - 1}
  }

  function Reversed(s: seq<nat>): (r: seq<nat>)
    ensures |r| == |s| && forall i :: 0 <= i < |s| ==> r[i] == s[|s| - 1 - i]
    ensures forall x :: x in r <==> x in s
  {
    if s == [] then [] else Reversed(s[1..]) + [s[0]]
  }

  lemma WalkIsBranch(index: Index, up: seq<nat>, leaf: nat)
    requires up != [] && up[0] == leaf && Distinct(up) && forall i :: 0 <= i < |up| ==> up[i] < |index|
    requires forall i :: 0 <= i < |up| - 1 ==> Parent(index, up[i]) == Some(up[i + 1])
    requires var p := Parent(index, up[|up| - 1]); p.Some? ==> p.value in up
    ensures IsBranch(index, Reversed(up), leaf)
  {
    var path := Reversed(up);
    forall i | 0 < i < |path| ensures Parent(index, path[i]) == Some(path[i - 1]) {
      assert path[i] == up[|up| - 1 - i] && path[i - 1] == up[|up| - 1 - i + 1];
    }
  }

  lemma StepUp(index: Index, up: seq<nat>, leaf: nat, cur: nat)
    requires Walked(index, up, leaf, cur) && cur !in up
    ensures Parent(index, cur).Some? ==> Walked(index, up + [cur], leaf, Parent(index, cur).value)
    ensures Parent(index, cur).None? ==> IsBranch(index, Reversed(up + [cur]), leaf)
  {
    var next := up + [cur];
    forall i | 0 <= i < |next| - 1 ensures Parent(index, next[i]) == Some(next[i + 1]) {
      assert next[i] == up[i];
    }
    if Parent(index, cur).None? {
      WalkIsBranch(index, next, leaf);
    }
  }

  method ActivePath(index: Index) returns (path: seq<nat>)
    ensures IsActive(index, path)
    ensures (exists i :: 0 <= i < |index| && HasId(index[i])) ==> EndsWhereSaid(index, path)
  {
    var anyId := AnyId(index);
    if !anyId {
      return seq(|index|, i => i);
    }
    var table := IdTable(index);
    var leaf := ChooseLeaf(index, table);
    path := [];
    if leaf.Some? {
      path := WalkUp(index, table, leaf.value);
    }
    ActiveEnds(index, path);
  }

  method WalkUp(index: Index, table: map<string, nat>, leaf: nat) returns (path: seq<nat>)
    requires forall id :: Lookup(index, Some(id)) == if id in table then Some(table[id]) else None
    requires leaf < |index|
    ensures IsBranch(index, path, leaf)
  {
    hide IsBranch, Distinct;
    var cur, up, seen := leaf, [], {};
    StartWalk(index, leaf);
    while cur !in seen
      invariant Walked(index, up, leaf, cur)
      invariant (forall x :: x in seen <==> x in up) && seen <= Below(|index|)
      decreases Below(|index|) - seen
    {
      StepUp(index, up, leaf, cur);
      seen := seen + {cur};
      up := up + [cur];
      var parent := index[cur].parent;
      assert Parent(index, cur) == if parent.Some? && parent.value in table then Some(table[parent.value]) else None;
      if parent.None? || parent.value !in table {
        return Reversed(up);
      }
      cur := table[parent.value];
    }
    WalkIsBranch(index, up, leaf);
    path := Reversed(up);
  }

  lemma StartWalk(index: Index, leaf: nat)
    requires leaf < |index|
    ensures Walked(index, [], leaf, leaf)
  {
  }

  // ----- One active branch -----

  // Two walks from the same leaf agree step by step, counted from the leaf.
  lemma {:induction false} SameFromLeaf(index: Index, a: seq<nat>, b: seq<nat>, leaf: nat, k: nat)
    requires IsBranch(index, a, leaf) && IsBranch(index, b, leaf) && k < |a| && k < |b|
    ensures a[|a| - 1 - k] == b[|b| - 1 - k]
  {
    if k > 0 {
      SameFromLeaf(index, a, b, leaf, k - 1);
      assert Parent(index, a[|a| - k]) == Some(a[|a| - k - 1]);
      assert Parent(index, b[|b| - k]) == Some(b[|b| - k - 1]);
    }
  }

  lemma NoLonger(index: Index, a: seq<nat>, b: seq<nat>, leaf: nat)
    requires IsBranch(index, a, leaf) && IsBranch(index, b, leaf)
    ensures |b| <= |a|
  {
    if |a| < |b| {
      var d := |b| - |a|;
      assert Parent(index, b[d]) == Some(b[d - 1]);
      forall k | 0 <= k < |a| ensures a[k] == b[d + k] && b[d + k] != b[d - 1] {
        SameFromLeaf(index, a, b, leaf, |a| - 1 - k);
      }
    }
  }

  lemma ActiveIsUnique(index: Index, a: seq<nat>, b: seq<nat>)
    requires IsActive(index, a) && IsActive(index, b)
    ensures a == b
  {
    if !(forall i :: 0 <= i < |index| ==> !HasId(index[i])) && Leaf(index).Some? {
      var leaf := Leaf(index).value;
      NoLonger(index, a, b, leaf);
      NoLonger(index, b, a, leaf);
      forall k | 0 <= k < |a| ensures a[k] == b[k] {
        SameFromLeaf(index, a, b, leaf, |a| - 1 - k);
      }
    }
  }

  // ----- Growing sessions -----

  // An id that no entry has and no entry refers to.
  ghost predicate Fresh(index: Index, id: Option<string>) {
    id.Some? ==> forall i :: 0 <= i < |index| ==> index[i].id != id && index[i].parent != id
  }

  ghost predicate NoStamps(index: Index) {
    forall i :: 0 <= i < |index| ==> index[i].activeLeaf.None?
  }

  // Bookkeeping: written beside the branch.
  ghost predicate Beside(e: IndexLine) {
    e.id.None? || IsBookkeeping(e.ty)
  }

  // Written as a child of the current leaf.
  ghost predicate Follows(index: Index, e: IndexLine) {
    e.id.Some? && !IsBookkeeping(e.ty) && e.parent != e.id && Lookup(index, e.parent) == Leaf(index)
  }

  lemma {:induction false} LookupAfter(index: Index, e: IndexLine, n: nat, id: string)
    requires n <= |index|
    ensures LookupTo(index + [e], n, id) == LookupTo(index, n, id)
  {
    if n > 0 {
      LookupAfter(index, e, n - 1, id);
    }
  }

  lemma ParentAfter(index: Index, e: IndexLine, i: nat)
    requires i < |index| && Fresh(index, e.id)
    ensures Parent(index + [e], i) == Parent(index, i)
  {
    if index[i].parent.Some? {
      LookupAfter(index, e, |index|, index[i].parent.value);
    }
  }

  lemma {:induction false} LeafAfter(index: Index, e: IndexLine, n: nat)
    requires n <= |index|
    ensures LastEnd(index + [e], n) == LastEnd(index, n)
    ensures NoStamps(index) ==> LastStamp(index, n) == None == LastStamp(index + [e], n)
  {
    if n > 0 {
      LeafAfter(index, e, n - 1);
    }
  }

  lemma NewLeaf(index: Index, e: IndexLine)
    requires NoStamps(index) && e.activeLeaf.None?
    ensures Leaf(index) == LastEnd(index, |index|)
    ensures Leaf(index + [e]) == if Beside(e) then Leaf(index) else Some(|index|)
  {
    LeafAfter(index, e, |index|);
  }

  lemma BranchAfter(index: Index, e: IndexLine, path: seq<nat>, leaf: nat)
    requires IsBranch(index, path, leaf) && Fresh(index, e.id)
    ensures IsBranch(index + [e], path, leaf)
  {
    forall i | 0 <= i < |path| ensures Parent(index + [e], path[i]) == Parent(index, path[i]) {
      ParentAfter(index, e, path[i]);
    }
  }

  // A bookkeeping entry leaves the active branch alone.
  lemma AppendBeside(index: Index, e: IndexLine, path: seq<nat>)
    requires IsActive(index, path) && (exists i :: 0 <= i < |index| && HasId(index[i]))
    requires NoStamps(index) && e.activeLeaf.None? && Fresh(index, e.id) && Beside(e)
    ensures IsActive(index + [e], path)
  {
    var i :| 0 <= i < |index| && HasId(index[i]);
    assert HasId((index + [e])[i]);
    NewLeaf(index, e);
    if Leaf(index).Some? {
      BranchAfter(index, e, path, Leaf(index).value);
    }
  }

  lemma ParentOfNew(index: Index, e: IndexLine)
    requires e.parent != e.id || e.parent.None?
    ensures Parent(index + [e], |index|) == Lookup(index, e.parent)
  {
    if e.parent.Some? {
      LookupAfter(index, e, |index|, e.parent.value);
    }
  }

  lemma BranchExtends(index: Index, e: IndexLine, path: seq<nat>, leaf: nat)
    requires IsBranch(index, path, leaf) && Fresh(index, e.id) && e.parent != e.id
    requires Lookup(index, e.parent) == Some(leaf)
    ensures IsBranch(index + [e], path + [|index|], |index|)
  {
    hide Lookup;
    var index', path' := index + [e], path + [|index|];
    BranchAfter(index, e, path, leaf);
    ParentOfNew(index, e);
    forall i | 0 < i < |path'| ensures Parent(index', path'[i]) == Some(path'[i - 1]) {
      assert i < |path| ==> path'[i] == path[i];
    }
  }

  lemma BranchStarts(index: Index, e: IndexLine)
    requires e.parent != e.id && Lookup(index, e.parent).None?
    ensures IsBranch(index + [e], [|index|], |index|)
  {
    hide Lookup;
    ParentOfNew(index, e);
  }

  // A child of the leaf extends the active branch by exactly that entry.
  lemma AppendChild(index: Index, e: IndexLine, path: seq<nat>)
    requires IsActive(index, path) && (HasId(e) || exists i :: 0 <= i < |index| && HasId(index[i]))
    requires (forall i :: 0 <= i < |index| ==> !HasId(index[i])) ==> index == []
    requires NoStamps(index) && e.activeLeaf.None? && Fresh(index, e.id) && Follows(index, e)
    ensures IsActive(index + [e], path + [|index|])
  {
    hide Leaf, IsBranch, LookupTo, LastEnd, LastStamp;
    var index', path' := index + [e], path + [|index|];
    NewLeaf(index, e);
    if Leaf(index).Some? {
      BranchExtends(index, e, path, Leaf(index).value);
    } else {
      BranchStarts(index, e);
      assert path == [] && path' == [|index|];
    }
    if HasId(e) {
      assert HasId(index'[|index|]);
    } else {
      var i :| 0 <= i < |index| && HasId(index[i]);
      assert HasId(index'[i]);
    }
  }

  // A branch that ends at the new entry comes from an old one that ends at its parent.
  lemma BranchBefore(index: Index, e: IndexLine, path: seq<nat>, p: nat)
    requires IsBranch(index + [e], path, |index|) && Fresh(index, e.id) && e.parent != e.id
    requires Lookup(index, e.parent) == Some(p)
    ensures |path| > 1 && IsBranch(index, path[..|path| - 1], p)
  {
    hide Lookup;
    var index', n := index + [e], |path| - 1;
    ParentOfNew(index, e);
    assert n > 0;
    var front := path[..n];
    forall i | 0 <= i < n ensures front[i] < |index| && Parent(index', front[i]) == Parent(index, front[i]) {
      assert path[i] != path[n];
      ParentAfter(index, e, path[i]);
    }
    assert Parent(index', path[n]) == Some(path[n - 1]);
  }

  // Whatever leaves were named before: an entry written as a child of any entry, which
  // names none itself, ends the active branch, and that branch is its parent's and it.
  lemma NavigatedChild(index: Index, e: IndexLine, path: seq<nat>, p: nat)
    requires IsActive(index + [e], path) && HasId(e) && !IsBookkeeping(e.ty) && e.activeLeaf.None?
    requires Fresh(index, e.id) && e.parent != e.id && Lookup(index, e.parent) == Some(p)
    ensures |path| > 1 && path[|path| - 1] == |index| && IsBranch(index, path[..|path| - 1], p)
  {
    hide Lookup, LookupTo, IsBranch, LastEnd, LastStamp;
    var index' := index + [e];
    assert HasId(index'[|index|]);
    NewestIsLeaf(index, e);
    BranchBefore(index, e, path, p);
    assert path[|path| - 1] == |index| by {
      BranchEnd(index', path, |index|);
    }
  }

  lemma NewestIsLeaf(index: Index, e: IndexLine)
    requires HasId(e) && !IsBookkeeping(e.ty) && e.activeLeaf.None?
    ensures Leaf(index + [e]) == Some(|index|)
  {
  }

  lemma BranchEnd(index: Index, path: seq<nat>, leaf: nat)
    requires IsBranch(index, path, leaf)
    ensures path != [] && path[|path| - 1] == leaf
  {
  }

  // Linear growth: every entry written later is bookkeeping or a child of the
  // leaf of its time, has a fresh id and names no leaf.
  ghost predicate GrowsBy(index: Index, more: Index)
    decreases |more|
  {
    more == []
    || (&& more[0].activeLeaf.None? && Fresh(index, more[0].id)
        && (Beside(more[0]) || Follows(index, more[0]))
        && GrowsBy(index + [more[0]], more[1..]))
  }

  // Under linear growth the active branch only gets longer.
  lemma {:induction false} BranchGrows(index: Index, more: Index, path: seq<nat>) returns (suffix: seq<nat>)
    requires IsActive(index, path) && (exists i :: 0 <= i < |index| && HasId(index[i]))
    requires NoStamps(index) && GrowsBy(index, more)
    ensures IsActive(index + more, path + suffix)
    decreases |more|
  {
    hide IsActive, IsBranch, Follows, Beside;
    if more == [] {
      suffix := [];
      assert index + more == index && path + suffix == path;
    } else {
      var e, next := more[0], index + [more[0]];
      var i :| 0 <= i < |index| && HasId(index[i]);
      assert HasId(next[i]);
      assert index + more == next + more[1..];
      if Beside(e) {
        AppendBeside(index, e, path);
        suffix := BranchGrows(next, more[1..], path);
      } else {
        AppendChild(index, e, path);
        var rest := BranchGrows(next, more[1..], path + [|index|]);
        suffix := [|index|] + rest;
        assert path + suffix == (path + [|index|]) + rest;
      }
    }
  }
}
