/**
 The walk over a process snapshot that finds every descendant of the agent
 (`snapshot_descendants`).

 The snapshot is racy: processes are read one by one, so parent links may form
 cycles. The walk keeps no visited set. It is proved to terminate and to return
 each descendant once on every snapshot that lists each process once.
 */
module DescendantWalk {
  import opened Wrappers

  // One readable `/proc` entry.
  datatype Proc = Proc(pid: nat, parent: nat, start: nat)

  type Kid = (nat, nat)  // process id and start time

  ghost predicate DistinctPids(procs: seq<Proc>) {
    forall i, j :: 0 <= i < j < |procs| ==> procs[i].pid != procs[j].pid
  }

  function Kids(procs: seq<Proc>, parent: nat): seq<Kid> {
    if procs == [] then []
    else
      var last := procs[|procs| - 1];
      Kids(procs[..|procs| - 1], parent) + if last.parent == parent then [(last.pid, last.start)] else []
  }

  // A process other than the daemon whose parent chain reaches root in k links,
  // over processes other than the daemon.
  ghost predicate Descends(procs: seq<Proc>, me: nat, root: nat, pid: nat, k: nat)
    decreases k
  {
    && k > 0 && pid != me
    && exists i :: 0 <= i < |procs| && procs[i].pid == pid
                   && (if k == 1 then procs[i].parent == root
                       else Descends(procs, me, root, procs[i].parent, k - 1))
  }

  ghost predicate IsDescendant(procs: seq<Proc>, me: nat, root: nat, kid: Kid) {
    && (exists i :: 0 <= i < |procs| && procs[i].pid == kid.0 && procs[i].start == kid.1)
    && (exists k :: Descends(procs, me, root, kid.0, k))
  }

  // The first child of the daemon that carries the connection's tag.
  function FirstTagged(kids: seq<Kid>, tagged: set<nat>): (r: Option<nat>)
    ensures r.Some? ==> r.value in tagged && exists i :: 0 <= i < |kids| && kids[i].0 == r.value
                                                   && forall j :: 0 <= j < i ==> kids[j].0 !in tagged
    ensures r.None? ==> forall i :: 0 <= i < |kids| ==> kids[i].0 !in tagged
  {
    if kids == [] then None
    else if kids[0].0 in tagged then Some(kids[0].0)
    else FirstTagged(kids[1..], tagged)
  }

  // ----- Facts about the children table -----

  lemma {:induction false} KidsAre(procs: seq<Proc>, parent: nat)
    ensures forall c :: c in Kids(procs, parent) <==> Proc(c.0, parent, c.1) in procs
  {
    if procs != [] {
      KidsAre(procs[..|procs| - 1], parent);
      assert procs == procs[..|procs| - 1] + [procs[|procs| - 1]];
    }
  }

  ghost predicate DistinctKids(kids: seq<Kid>) {
    forall i, j :: 0 <= i < j < |kids| ==> kids[i].0 != kids[j].0
  }

  lemma {:induction false} KidsDistinct(procs: seq<Proc>, parent: nat)
    requires DistinctPids(procs)
    ensures DistinctKids(Kids(procs, parent))
  {
    if procs != [] {
      var front := procs[..|procs| - 1];
      KidsDistinct(front, parent);
      KidsAre(front, parent);
    }
  }

  function Others(kids: seq<Kid>, me: nat): seq<Kid> {
    if kids == [] then []
    else
      var last := kids[|kids| - 1];
      Others(kids[..|kids| - 1], me) + if last.0 != me then [last] else []
  }

  lemma {:induction false} OthersAre(kids: seq<Kid>, me: nat)
    ensures forall c :: c in Others(kids, me) <==> c in kids && c.0 != me
    ensures DistinctKids(kids) ==> DistinctKids(Others(kids, me))
  {
    if kids != [] {
      OthersAre(kids[..|kids| - 1], me);
      assert kids == kids[..|kids| - 1] + [kids[|kids| - 1]];
    }
  }

  function PidsOf(kids: seq<Kid>): seq<nat> {
    seq(|kids|, i requires 0 <= i < |kids| => kids[i].0)
  }

  // ----- The program -----

  method ChildrenTable(procs: seq<Proc>) returns (children: map<nat, seq<Kid>>)
    ensures forall p :: p in children ==> children[p] == Kids(procs, p)
    ensures forall p :: p !in children ==> Kids(procs, p) == []
  {
    children := map[];
    for i := 0 to |procs|
      invariant forall p :: p in children ==> children[p] == Kids(procs[..i], p)
      invariant forall p :: p !in children ==> Kids(procs[..i], p) == []
    {
      var q := procs[i];
      assert procs[..i + 1][..i] == procs[..i];
      var sofar := if q.parent in children then children[q.parent] else [];
      children := children[q.parent := sofar + [(q.pid, q.start)]];
    }
    assert procs[..|procs|] == procs;
  }

  method PushKids(kids: seq<Kid>, me: nat, stack0: seq<nat>, out0: seq<Kid>)
    returns (stack: seq<nat>, out: seq<Kid>)
    ensures out == out0 + Others(kids, me) && stack == stack0 + PidsOf(Others(kids, me))
  {
    stack, out := stack0, out0;
    for i := 0 to |kids|
      invariant out == out0 + Others(kids[..i], me) && stack == stack0 + PidsOf(Others(kids[..i], me))
    {
      assert kids[..i + 1][..i] == kids[..i];
      if kids[i].0 != me {
        out := out + [kids[i]];
        stack := stack + [kids[i].0];
      }
    }
    assert kids[..|kids|] == kids;
  }

  // Between two rounds of the walk every process found is on the stack or popped
  // (its children have been pushed), never both, and never twice on the stack.
  ghost predicate Frontier(root: nat, stack: seq<nat>, out: seq<Kid>, popped: set<nat>) {
    && DistinctKids(out)
    && (forall i, j :: 0 <= i < j < |stack| ==> stack[i] != stack[j])
    && (forall p :: p in stack ==> p !in popped)
    && (forall p :: p in popped || p in stack <==> p == root || p in PidsOf(out))
  }

  // The processes found are the children, other than the daemon, of the popped ones.
  ghost predicate Links(procs: seq<Proc>, me: nat, root: nat, out: seq<Kid>, popped: set<nat>) {
    && (forall c :: c in out ==> c.0 != me && c.0 != root)
    && (forall c :: c in out ==> exists q :: q in procs && q.pid == c.0 && q.start == c.1 && q.parent in popped)
    && (forall q :: q in procs && q.parent in popped && q.pid != me ==> (q.pid, q.start) in out)
  }

  ghost predicate RootOf(procs: seq<Proc>, me: nat, root: nat) {
    exists q :: q in procs && q.pid == root && q.parent == me
  }

  lemma SamePidSameProc(procs: seq<Proc>, p: Proc, q: Proc)
    requires DistinctPids(procs) && p in procs && q in procs && p.pid == q.pid
    ensures p == q
  {
  }

  // The children of the process popped next are new: it is their only parent.
  lemma KidsAreNew(procs: seq<Proc>, me: nat, root: nat, stack: seq<nat>, out: seq<Kid>, popped: set<nat>, c: Kid)
    requires DistinctPids(procs) && RootOf(procs, me, root)
    requires stack != [] && Frontier(root, stack, out, popped) && Links(procs, me, root, out, popped)
    requires Proc(c.0, stack[|stack| - 1], c.1) in procs && c.0 != me
    ensures c.0 != root && c.0 !in PidsOf(out)
  {
    var p := stack[|stack| - 1];
    var child := Proc(c.0, p, c.1);
    assert p in stack && (p == root || p in PidsOf(out));
    var top :| top in procs && top.pid == root && top.parent == me;
    if c.0 == root {
      SamePidSameProc(procs, child, top);
    }
    forall j | 0 <= j < |out| ensures out[j].0 != c.0 {
      var d := out[j];
      assert d in out;
      var q :| q in procs && q.pid == d.0 && q.start == d.1 && q.parent in popped;
      if d.0 == c.0 {
        SamePidSameProc(procs, child, q);
      }
    }
  }

  lemma FrontierStep(root: nat, stack: seq<nat>, out: seq<Kid>, popped: set<nat>, kids: seq<Kid>)
    requires stack != [] && Frontier(root, stack, out, popped) && DistinctKids(kids)
    requires forall c :: c in kids ==> c.0 != root && c.0 !in PidsOf(out)
    ensures Frontier(root, stack[..|stack| - 1] + PidsOf(kids), out + kids, popped + {stack[|stack| - 1]})
  {
    var p, rest := stack[|stack| - 1], stack[..|stack| - 1];
    var stack', out' := rest + PidsOf(kids), out + kids;
    assert stack == rest + [p] && PidsOf(out') == PidsOf(out) + PidsOf(kids);
    forall x | x in PidsOf(kids) ensures x != root && x !in PidsOf(out) && x !in stack && x !in popped {
      var i :| 0 <= i < |kids| && kids[i].0 == x;
      assert kids[i] in kids;
    }
    forall i, j | 0 <= i < j < |stack'| ensures stack'[i] != stack'[j] {
      if j >= |rest| {
        assert stack'[j] in PidsOf(kids);
        if i < |rest| {
          assert stack'[i] in stack;
        }
      }
    }
    forall i, j | 0 <= i < j < |out'| ensures out'[i].0 != out'[j].0 {
      if i < |out| <= j {
        assert out'[j] in kids && PidsOf(out)[i] == out'[i].0;
      }
    }
  }

  lemma LinksStep(procs: seq<Proc>, me: nat, root: nat, out: seq<Kid>, popped: set<nat>, p: nat, kids: seq<Kid>)
    requires Links(procs, me, root, out, popped)
    requires forall c :: c in kids <==> Proc(c.0, p, c.1) in procs && c.0 != me
    requires forall c :: c in kids ==> c.0 != root
    ensures Links(procs, me, root, out + kids, popped + {p})
  {
    forall c | c in out + kids
      ensures exists q :: q in procs && q.pid == c.0 && q.start == c.1 && q.parent in popped + {p}
    {
      if c in out {
        var q :| q in procs && q.pid == c.0 && q.start == c.1 && q.parent in popped;
        assert q.parent in popped + {p};
      } else {
        assert Proc(c.0, p, c.1).parent in popped + {p};
      }
    }
    forall q | q in procs && q.parent in popped + {p} && q.pid != me ensures (q.pid, q.start) in out + kids {
      if q.parent !in popped {
        assert Proc((q.pid, q.start).0, p, (q.pid, q.start).1) == q;
      }
    }
  }

  lemma WalkStep(procs: seq<Proc>, me: nat, root: nat, stack: seq<nat>, out: seq<Kid>, popped: set<nat>)
    requires DistinctPids(procs) && RootOf(procs, me, root)
    requires stack != [] && Frontier(root, stack, out, popped) && Links(procs, me, root, out, popped)
    ensures var p := stack[|stack| - 1];
            var kids := Others(Kids(procs, p), me);
            && Frontier(root, stack[..|stack| - 1] + PidsOf(kids), out + kids, popped + {p})
            && Links(procs, me, root, out + kids, popped + {p})
  {
    var p := stack[|stack| - 1];
    var kids := Others(Kids(procs, p), me);
    KidsAre(procs, p);
    KidsDistinct(procs, p);
    OthersAre(Kids(procs, p), me);
    forall c | c in kids ensures c.0 != root && c.0 !in PidsOf(out) {
      KidsAreNew(procs, me, root, stack, out, popped, c);
    }
    FrontierStep(root, stack, out, popped, kids);
    LinksStep(procs, me, root, out, popped, p, kids);
  }

  // ----- What the walk returns -----

  // Every process found descends from the root (kept while walking).
  ghost predicate AllDescend(procs: seq<Proc>, me: nat, root: nat, out: seq<Kid>) {
    forall c :: c in out ==> IsDescendant(procs, me, root, c)
  }

  lemma ChildDescends(procs: seq<Proc>, me: nat, root: nat, p: nat, c: Kid, k: nat)
    requires Proc(c.0, p, c.1) in procs && c.0 != me
    requires (p == root && k == 0) || (k > 0 && Descends(procs, me, root, p, k))
    ensures IsDescendant(procs, me, root, c)
  {
    var i :| 0 <= i < |procs| && procs[i] == Proc(c.0, p, c.1);
    assert procs[i].pid == c.0;
    assert Descends(procs, me, root, c.0, k + 1);
  }

  lemma KidsDescend(procs: seq<Proc>, me: nat, root: nat, p: nat, out: seq<Kid>)
    requires AllDescend(procs, me, root, out) && (p == root || p in PidsOf(out))
    ensures AllDescend(procs, me, root, out + Others(Kids(procs, p), me))
  {
    KidsAre(procs, p);
    OthersAre(Kids(procs, p), me);
    forall c | c in Others(Kids(procs, p), me) ensures IsDescendant(procs, me, root, c) {
      if p == root {
        ChildDescends(procs, me, root, p, c, 0);
      } else {
        var i :| 0 <= i < |out| && out[i].0 == p;
        assert IsDescendant(procs, me, root, out[i]);
        var k :| Descends(procs, me, root, p, k);
        ChildDescends(procs, me, root, p, c, k);
      }
    }
  }

  // When the stack is empty nothing that descends from the root is missing.
  lemma {:induction false} AllFound(procs: seq<Proc>, me: nat, root: nat, out: seq<Kid>, popped: set<nat>, pid: nat,
                                    k: nat)
    requires Frontier(root, [], out, popped) && Links(procs, me, root, out, popped)
    requires Descends(procs, me, root, pid, k)
    ensures pid in PidsOf(out)
    decreases k
  {
    var i :| 0 <= i < |procs| && procs[i].pid == pid
             && (if k == 1 then procs[i].parent == root else Descends(procs, me, root, procs[i].parent, k - 1));
    if k > 1 {
      AllFound(procs, me, root, out, popped, procs[i].parent, k - 1);
    }
    assert procs[i] in procs && procs[i].parent in popped;
    var j :| 0 <= j < |out| && out[j] == (procs[i].pid, procs[i].start);
    assert PidsOf(out)[j] == pid;
  }

  lemma DescendantFound(procs: seq<Proc>, me: nat, root: nat, out: seq<Kid>, popped: set<nat>, c: Kid)
    requires DistinctPids(procs) && Frontier(root, [], out, popped) && Links(procs, me, root, out, popped)
    requires IsDescendant(procs, me, root, c)
    ensures c in out
  {
    var k :| Descends(procs, me, root, c.0, k);
    AllFound(procs, me, root, out, popped, c.0, k);
    var j :| 0 <= j < |out| && out[j].0 == c.0;
    var d := out[j];
    assert d in out;
    var q :| q in procs && q.pid == d.0 && q.start == d.1 && q.parent in popped;
    var i :| 0 <= i < |procs| && procs[i].pid == c.0 && procs[i].start == c.1;
    SamePidSameProc(procs, q, procs[i]);
  }

  function Pids(procs: seq<Proc>): set<nat> {
    set i | 0 <= i < |procs| :: procs[i].pid
  }

  lemma RootFound(procs: seq<Proc>, me: nat, tagged: set<nat>, root: nat)
    requires FirstTagged(Kids(procs, me), tagged) == Some(root)
    ensures RootOf(procs, me, root)
  {
    KidsAre(procs, me);
    var i :| 0 <= i < |Kids(procs, me)| && Kids(procs, me)[i].0 == root;
    var c := Kids(procs, me)[i];
    assert c in Kids(procs, me) && Proc(root, me, c.1) in procs;
  }

  lemma FoundIsListed(procs: seq<Proc>, me: nat, root: nat, out: seq<Kid>, popped: set<nat>, p: nat)
    requires RootOf(procs, me, root) && Links(procs, me, root, out, popped)
    requires p == root || p in PidsOf(out)
    ensures p in Pids(procs)
  {
    if p == root {
      var q :| q in procs && q.pid == root && q.parent == me;
    } else {
      var j :| 0 <= j < |out| && out[j].0 == p;
      assert out[j] in out;
      var q :| q in procs && q.pid == out[j].0 && q.start == out[j].1 && q.parent in popped;
    }
  }

  ghost predicate Walking(procs: seq<Proc>, me: nat, root: nat, stack: seq<nat>, out: seq<Kid>, popped: set<nat>) {
    && Frontier(root, stack, out, popped) && Links(procs, me, root, out, popped)
    && AllDescend(procs, me, root, out) && popped <= Pids(procs)
  }

  lemma Round(procs: seq<Proc>, me: nat, root: nat, stack: seq<nat>, out: seq<Kid>, popped: set<nat>)
    requires DistinctPids(procs) && RootOf(procs, me, root)
    requires stack != [] && Walking(procs, me, root, stack, out, popped)
    ensures var p := stack[|stack| - 1];
            var kids := Others(Kids(procs, p), me);
            && p !in popped
            && Walking(procs, me, root, stack[..|stack| - 1] + PidsOf(kids), out + kids, popped + {p})
  {
    var p := stack[|stack| - 1];
    assert p in stack;
    FoundIsListed(procs, me, root, out, popped, p);
    WalkStep(procs, me, root, stack, out, popped);
    KidsDescend(procs, me, root, p, out);
  }

  method WalkFrom(procs: seq<Proc>, children: map<nat, seq<Kid>>, me: nat, root: nat) returns (out: seq<Kid>)
    requires DistinctPids(procs) && RootOf(procs, me, root)
    requires forall p :: p in children ==> children[p] == Kids(procs, p)
    requires forall p :: p !in children ==> Kids(procs, p) == []
    ensures DistinctKids(out)
    ensures forall c :: c in out <==> IsDescendant(procs, me, root, c)
  {
    out := [];
    var stack := [root];
    ghost var popped := {};
    while stack != []
      invariant Walking(procs, me, root, stack, out, popped)
      decreases Pids(procs) - popped
    {
      var p := stack[|stack| - 1];
      Round(procs, me, root, stack, out, popped);
      stack, out := PushKids(if p in children then children[p] else [], me, stack[..|stack| - 1], out);
      popped := popped + {p};
    }
    forall c | IsDescendant(procs, me, root, c) ensures c in out {
      DescendantFound(procs, me, root, out, popped, c);
    }
  }

  method SnapshotDescendants(procs: seq<Proc>, me: nat, tagged: set<nat>) returns (out: seq<Kid>)
    requires DistinctPids(procs)
    ensures DistinctKids(out)
    ensures match FirstTagged(Kids(procs, me), tagged)
            case None => out == []
            case Some(root) => forall c :: c in out <==> IsDescendant(procs, me, root, c)
  {
    var children := ChildrenTable(procs);
    var root := FirstTagged(if me in children then children[me] else [], tagged);
    if root.None? {
      out := [];
    } else {
      RootFound(procs, me, tagged, root.value);
      out := WalkFrom(procs, children, me, root.value);
    }
  }
}
