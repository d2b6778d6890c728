/**
 The bounded search for a codex rollout file (`search_rollout`, `find_rollout`)
 and the decisions taken from its three-valued answer (`rollout_exists`,
 `resumable_chat_id`, the toggle refresh).

 A directory tree is finite. What the operating system refuses to tell is part
 of it: directories that cannot be read, entries without a name or a type, and
 symbolic links, which are never followed.
 */
module RolloutSearch {
  import opened Wrappers

  datatype Dir = Absent | Unreadable | Listing(entries: seq<Item>)

  datatype Item =
    | BadEntry                        // the directory entry could not be read
    | NoType                          // its type could not be read
    | Symlink(link: string)
    | SubDir(dirName: string, dir: Dir)
    | File(fileName: string)
    | Special(otherName: string)      // neither link, directory nor file

  type Path = seq<string>  // names below the root searched

  const MAX_DEPTH: nat := 4

  // ----- Rollout names (`extract_codex_thread_id`) -----

  predicate IsHexOrDash(c: char) {
    '0' <= c <= '9' || 'a' <= c <= 'f' || 'A' <= c <= 'F' || c == '-'
  }

  function ThreadId(name: string): Option<string> {
    var n := |name|;
    if n < 42 || name[n - 6..] != ".jsonl" then None
    else
      var id := name[n - 42..n - 6];
      if forall i :: 0 <= i < |id| ==> IsHexOrDash(id[i]) then Some(id) else None
  }

  // A rollout's name ends in the 36 hexadecimal digits and dashes of its id, and the suffix.
  ghost predicate NamesThread(name: string, id: string) {
    && |id| == 36 && (forall i :: 0 <= i < |id| ==> id[i] in "0123456789abcdefABCDEF-")
    && exists prefix :: name == prefix + id + ".jsonl"
  }

  lemma HexOrDashIs(c: char)
    ensures IsHexOrDash(c) <==> c in "0123456789abcdefABCDEF-"
  {
    var digits := "0123456789abcdefABCDEF-";
    if IsHexOrDash(c) {
      var i := if c <= '-' then 22 else if c <= '9' then c as int - '0' as int
               else if c <= 'F' then c as int - 'A' as int + 16 else c as int - 'a' as int + 10;
      assert digits[i] == c;
    }
  }

  lemma ThreadIdIs(name: string, id: string)
    ensures ThreadId(name) == Some(id) <==> NamesThread(name, id)
  {
    forall c: char ensures IsHexOrDash(c) <==> c in "0123456789abcdefABCDEF-" {
      HexOrDashIs(c);
    }
    hide IsHexOrDash;
    if ThreadId(name) == Some(id) {
      assert name == name[..|name| - 42] + id + ".jsonl";
    }
    if NamesThread(name, id) {
      var prefix :| name == prefix + id + ".jsonl";
      assert name[|name| - 6..] == ".jsonl" && name[|name| - 42..|name| - 6] == id;
    }
  }

  // ----- What there is to find -----

  // The names `path`, below a directory at `depth`, lead to a rollout of `id`
  // without passing the depth bound.
  ghost predicate Leads(d: Dir, depth: nat, path: Path, id: string)
    decreases d, 1
  {
    d.Listing? && path != [] && exists i :: 0 <= i < |d.entries| && LeadsFrom(d, i, depth, path, id)
  }

  ghost predicate LeadsFrom(d: Dir, i: nat, depth: nat, path: Path, id: string)
    requires d.Listing? && i < |d.entries| && path != []
    decreases d, 0
  {
    match d.entries[i]
    case File(name) => path == [name] && NamesThread(name, id)
    case SubDir(name, sub) => path[0] == name && depth < MAX_DEPTH && Leads(sub, depth + 1, path[1..], id)
    case _ => false
  }

  // Something within the depth bound could not be looked at.
  ghost predicate Hides(d: Dir, depth: nat)
    decreases d, 1
  {
    d.Unreadable? || (d.Listing? && exists i :: 0 <= i < |d.entries| && HidesAt(d, i, depth))
  }

  ghost predicate HidesAt(d: Dir, i: nat, depth: nat)
    requires d.Listing? && i < |d.entries|
    decreases d, 0
  {
    match d.entries[i]
    case SubDir(_, sub) => depth < MAX_DEPTH && Hides(sub, depth + 1)
    case File(_) => false
    case Special(_) => false
    case _ => true
  }

  datatype Answer = Found(path: Path) | NotFound | Unsure

  // The meaning of an answer for the tree d.
  ghost predicate Truthful(a: Answer, d: Dir, id: string) {
    match a
    case Found(path) => Leads(d, 0, path, id)
    case NotFound => !Hides(d, 0) && forall path :: !Leads(d, 0, path, id)
    case Unsure => Hides(d, 0) && forall path :: !Leads(d, 0, path, id)
  }

  // ----- The program -----

  datatype Work = Work(path: Path, dir: Dir, depth: nat)

  // The directories pushed for the first n entries of the listing of w.
  function Pushed(w: Work, n: nat): seq<Work>
    requires w.dir.Listing? && n <= |w.dir.entries|
  {
    if n == 0 then []
    else
      var e := w.dir.entries[n - 1];
      Pushed(w, n - 1)
      + if e.SubDir? && w.depth < MAX_DEPTH then [Work(w.path + [e.dirName], e.dir, w.depth + 1)] else []
  }

  function Size(d: Dir): nat {
    match d
    case Listing(entries) => 1 + SizeOfItems(entries)
    case _ => 1
  }

  function SizeOfItems(items: seq<Item>): nat {
    if items == [] then 0
    else SizeOfItems(items[..|items| - 1])
         + var last := items[|items| - 1]; if last.SubDir? then Size(last.dir) else 0
  }

  function SizeOfWork(stack: seq<Work>): nat {
    if stack == [] then 0 else SizeOfWork(stack[..|stack| - 1]) + Size(stack[|stack| - 1].dir)
  }

  lemma {:induction false} SizeAppend(a: seq<Work>, b: seq<Work>)
    ensures SizeOfWork(a + b) == SizeOfWork(a) + SizeOfWork(b)
  {
    if b == [] {
      assert a + b == a;
    } else {
      assert (a + b)[..|a + b| - 1] == a + b[..|b| - 1];
      SizeAppend(a, b[..|b| - 1]);
    }
  }

  function SizeOfPushed(w: Work, n: nat): nat
    requires w.dir.Listing? && n < |w.dir.entries|
  {
    var e := w.dir.entries[n];
    if e.SubDir? then Size(e.dir) else 0
  }

  lemma PushedOneMore(w: Work, n: nat)
    requires w.dir.Listing? && n < |w.dir.entries|
    ensures SizeOfWork(Pushed(w, n + 1)) <= SizeOfWork(Pushed(w, n)) + SizeOfPushed(w, n)
  {
    hide Size;
    var e := w.dir.entries[n];
    if e.SubDir? && w.depth < MAX_DEPTH {
      var v := Work(w.path + [e.dirName], e.dir, w.depth + 1);
      SizeAppend(Pushed(w, n), [v]);
      SizeOfOne(v);
    } else {
      assert Pushed(w, n + 1) == Pushed(w, n);
    }
  }

  lemma SizeOfOne(w: Work)
    ensures SizeOfWork([w]) == Size(w.dir)
  {
    hide Size;
    assert [w][..0] == [];
  }

  lemma ItemsOneMore(items: seq<Item>, n: nat)
    requires n < |items|
    ensures SizeOfItems(items[..n + 1]) == SizeOfItems(items[..n]) + if items[n].SubDir? then Size(items[n].dir) else 0
  {
    hide Size;
    assert items[..n + 1][..n] == items[..n];
  }

  lemma {:induction false} PushedIsSmaller(w: Work, n: nat)
    requires w.dir.Listing? && n <= |w.dir.entries|
    ensures SizeOfWork(Pushed(w, n)) <= SizeOfItems(w.dir.entries[..n])
  {
    hide Size, Pushed, SizeOfItems, SizeOfWork;
    if n > 0 {
      PushedIsSmaller(w, n - 1);
      PushedOneMore(w, n - 1);
      ItemsOneMore(w.dir.entries, n - 1);
    } else {
      NothingPushed(w);
    }
  }

  lemma NothingPushed(w: Work)
    requires w.dir.Listing?
    ensures SizeOfWork(Pushed(w, 0)) == 0
  {
  }

  // A rollout is still to be found below one of the directories on the stack.
  ghost predicate Reaches(w: Work, path: Path, id: string) {
    w.path <= path && Leads(w.dir, w.depth, path[|w.path|..], id)
  }

  ghost predicate StackReaches(stack: seq<Work>, path: Path, id: string) {
    exists w :: w in stack && Reaches(w, path, id)
  }

  ghost predicate StackHides(stack: seq<Work>) {
    exists w :: w in stack && Hides(w.dir, w.depth)
  }

  ghost predicate IsRollout(e: Item, id: string) {
    e.File? && NamesThread(e.fileName, id)
  }

  ghost predicate IsHidden(e: Item) {
    e.BadEntry? || e.NoType? || e.Symlink?
  }

  lemma {:induction false} PushedAre(w: Work, n: nat)
    requires w.dir.Listing? && n <= |w.dir.entries|
    ensures forall v :: v in Pushed(w, n) <==>
              exists i :: 0 <= i < n && w.dir.entries[i].SubDir? && w.depth < MAX_DEPTH
                          && v == Work(w.path + [w.dir.entries[i].dirName], w.dir.entries[i].dir, w.depth + 1)
  {
    if n > 0 {
      PushedAre(w, n - 1);
    }
  }

  lemma LeadsThrough(w: Work, path: Path, id: string)
    requires w.dir.Listing? && forall i :: 0 <= i < |w.dir.entries| ==> !IsRollout(w.dir.entries[i], id)
    requires Reaches(w, path, id)
    ensures StackReaches(Pushed(w, |w.dir.entries|), path, id)
  {
    hide NamesThread, Pushed;
    var es := w.dir.entries;
    var rest := path[|w.path|..];
    assert Leads(w.dir, w.depth, rest, id);
    var i :| 0 <= i < |es| && LeadsFrom(w.dir, i, w.depth, rest, id);
    assert !IsRollout(es[i], id);
    var v := Work(w.path + [es[i].dirName], es[i].dir, w.depth + 1);
    assert path[|v.path|..] == rest[1..] && v.path <= path;
    PushedAre(w, |es|);
    assert v in Pushed(w, |es|) && Reaches(v, path, id);
  }

  // A directory without a matching file leads exactly where its subdirectories lead.
  lemma ListingLeads(w: Work, path: Path, id: string)
    requires w.dir.Listing? && forall i :: 0 <= i < |w.dir.entries| ==> !IsRollout(w.dir.entries[i], id)
    ensures Reaches(w, path, id) <==> StackReaches(Pushed(w, |w.dir.entries|), path, id)
  {
    hide NamesThread;
    var es := w.dir.entries;
    PushedAre(w, |es|);
    if Reaches(w, path, id) {
      LeadsThrough(w, path, id);
    }
    if StackReaches(Pushed(w, |es|), path, id) {
      var v :| v in Pushed(w, |es|) && Reaches(v, path, id);
      var i :| 0 <= i < |es| && es[i].SubDir? && w.depth < MAX_DEPTH
               && v == Work(w.path + [es[i].dirName], es[i].dir, w.depth + 1);
      var rest := path[|w.path|..];
      assert path[|v.path|..] == rest[1..];
      assert LeadsFrom(w.dir, i, w.depth, rest, id);
    }
  }

  lemma ListingHides(w: Work)
    requires w.dir.Listing?
    ensures Hides(w.dir, w.depth) <==>
            (exists i :: 0 <= i < |w.dir.entries| && IsHidden(w.dir.entries[i])) ||
                StackHides(Pushed(w, |w.dir.entries|))
  {
    var es := w.dir.entries;
    PushedAre(w, |es|);
    if Hides(w.dir, w.depth) {
      assert Hides(w.dir, w.depth);
      var i :| 0 <= i < |es| && HidesAt(w.dir, i, w.depth);
      if !IsHidden(es[i]) {
        var v := Work(w.path + [es[i].dirName], es[i].dir, w.depth + 1);
        assert v in Pushed(w, |es|) && Hides(v.dir, v.depth);
      }
    }
    if StackHides(Pushed(w, |es|)) {
      var v :| v in Pushed(w, |es|) && Hides(v.dir, v.depth);
      var i :| 0 <= i < |es| && es[i].SubDir? && w.depth < MAX_DEPTH
               && v == Work(w.path + [es[i].dirName], es[i].dir, w.depth + 1);
      assert HidesAt(w.dir, i, w.depth);
    }
    if i :| 0 <= i < |es| && IsHidden(es[i]) {
      assert HidesAt(w.dir, i, w.depth);
    }
  }

  // What is known between two rounds: the tree leads and hides as the stack does,
  // and `unsure` remembers what has been passed over.
  ghost predicate Remaining(root: Dir, id: string, stack: seq<Work>, unsure: bool) {
    && (forall path :: Leads(root, 0, path, id) <==> StackReaches(stack, path, id))
    && (Hides(root, 0) <==> unsure || StackHides(stack))
  }

  lemma StartRemaining(root: Dir, id: string)
    ensures Remaining(root, id, [Work([], root, 0)], false)
  {
    var w := Work([], root, 0);
    forall path ensures Leads(root, 0, path, id) <==> StackReaches([w], path, id) {
      assert path[0..] == path && [] <= path;
      assert w in [w] && (Reaches(w, path, id) <==> Leads(root, 0, path, id));
    }
    assert w in [w];
  }

  lemma ReachesAppend(a: seq<Work>, b: seq<Work>, path: Path, id: string)
    ensures StackReaches(a + b, path, id) <==> StackReaches(a, path, id) || StackReaches(b, path, id)
    ensures StackHides(a + b) <==> StackHides(a) || StackHides(b)
  {
    if w :| w in a && Reaches(w, path, id) { assert w in a + b; }
    if w :| w in b && Reaches(w, path, id) { assert w in a + b; }
    if w :| w in a && Hides(w.dir, w.depth) { assert w in a + b; }
    if w :| w in b && Hides(w.dir, w.depth) { assert w in a + b; }
  }

  // One round without a match: w is replaced by its subdirectories.
  lemma RoundRemaining(root: Dir, id: string, rest: seq<Work>, w: Work, unsure: bool, hidden: bool)
    requires Remaining(root, id, rest + [w], unsure)
    requires w.dir.Listing? ==> forall i :: 0 <= i < |w.dir.entries| ==> !IsRollout(w.dir.entries[i], id)
    requires hidden <==> match w.dir
                         case Absent => false
                         case Unreadable => true
                         case Listing(es) => exists i :: 0 <= i < |es| && IsHidden(es[i])
    ensures var pushed := if w.dir.Listing? then Pushed(w, |w.dir.entries|) else [];
            Remaining(root, id, rest + pushed, unsure || hidden)
  {
    var pushed := if w.dir.Listing? then Pushed(w, |w.dir.entries|) else [];
    forall path ensures StackReaches(rest + [w], path, id) <==> StackReaches(rest + pushed, path, id) {
      ReachesAppend(rest, [w], path, id);
      ReachesAppend(rest, pushed, path, id);
      assert w in [w];
      if w.dir.Listing? {
        ListingLeads(w, path, id);
      }
    }
    ReachesAppend(rest, [w], [], id);
    ReachesAppend(rest, pushed, [], id);
    assert w in [w];
    if w.dir.Listing? {
      ListingHides(w);
    }
  }

  // Scan one listing: stop at a match, else collect the subdirectories.
  method ScanListing(w: Work, id: string, stack0: seq<Work>, unsure0: bool)
    returns (found: Option<Path>, stack: seq<Work>, unsure: bool)
    requires w.dir.Listing?
    ensures found.Some? ==> w.path <= found.value && Leads(w.dir, w.depth, found.value[|w.path|..], id)
    ensures found.None? ==>
              && (forall i :: 0 <= i < |w.dir.entries| ==> !IsRollout(w.dir.entries[i], id))
              && stack == stack0 + Pushed(w, |w.dir.entries|)
              && (unsure <==> unsure0 || exists i :: 0 <= i < |w.dir.entries| && IsHidden(w.dir.entries[i]))
  {
    hide NamesThread, ThreadId;
    found, stack, unsure := None, stack0, unsure0;
    for i := 0 to |w.dir.entries|
      invariant forall k :: 0 <= k < i ==> !IsRollout(w.dir.entries[k], id)
      invariant stack == stack0 + Pushed(w, i)
      invariant unsure <==> unsure0 || exists k :: 0 <= k < i && IsHidden(w.dir.entries[k])
    {
      match w.dir.entries[i] {
        case BadEntry => unsure := true;
        case NoType => unsure := true;
        case Symlink(_) => unsure := true;
        case SubDir(name, sub) =>
          if w.depth < MAX_DEPTH {
            stack := stack + [Work(w.path + [name], sub, w.depth + 1)];
          }
        case File(name) =>
          ThreadIdIs(name, id);
          if ThreadId(name) == Some(id) {
            found := Some(w.path + [name]);
            assert found.value[|w.path|..] == [name];
            assert LeadsFrom(w.dir, i, w.depth, [name], id);
            return;
          }
        case Special(_) =>
      }
    }
  }

  method SearchRollout(root: Dir, id: string) returns (answer: Answer)
    ensures Truthful(answer, root, id)
  {
    var unsure := false;
    var stack := [Work([], root, 0)];
    StartRemaining(root, id);
    while stack != []
      invariant Remaining(root, id, stack, unsure)
      decreases SizeOfWork(stack)
    {
      var w, rest := stack[|stack| - 1], stack[..|stack| - 1];
      assert stack == rest + [w];
      match w.dir {
        case Absent =>
          RoundRemaining(root, id, rest, w, unsure, false);
          stack := rest;
        case Unreadable =>
          RoundRemaining(root, id, rest, w, unsure, true);
          stack, unsure := rest, true;
        case Listing(es) =>
          ghost var before := unsure;
          var found;
          found, stack, unsure := ScanListing(w, id, rest, unsure);
          if found.Some? {
            FoundIsLed(root, id, rest, w, before, found.value);
            return Found(found.value);
          }
          RoundRemaining(root, id, rest, w, before, exists i :: 0 <= i < |es| && IsHidden(es[i]));
          PushedSize(rest, w);
      }
    }
    return if unsure then Unsure else NotFound;
  }

  lemma FoundIsLed(root: Dir, id: string, rest: seq<Work>, w: Work, unsure: bool, path: Path)
    requires Remaining(root, id, rest + [w], unsure) && Reaches(w, path, id)
    ensures Leads(root, 0, path, id)
  {
    assert w in rest + [w];
    assert StackReaches(rest + [w], path, id);
  }

  lemma PushedSize(rest: seq<Work>, w: Work)
    requires w.dir.Listing?
    ensures SizeOfWork(rest + Pushed(w, |w.dir.entries|)) < SizeOfWork(rest + [w])
  {
    SizeAppend(rest, Pushed(w, |w.dir.entries|));
    SizeAppend(rest, [w]);
    PushedIsSmaller(w, |w.dir.entries|);
    assert w.dir.entries[..|w.dir.entries|] == w.dir.entries;
    SizeOfOne(w);
  }

  // An answer is the only truthful one, up to which rollout is named.
  lemma TruthIsUnique(a: Answer, b: Answer, d: Dir, id: string)
    requires Truthful(a, d, id) && Truthful(b, d, id)
    ensures a == b || (a.Found? && b.Found?)
  {
  }

  // ----- Two roots, and what depends on them -----

  // `sessions` and its sibling `archived_sessions`.
  datatype Store = Store(sessions: Dir, archived: Dir)

  ghost predicate Exists(store: Store, id: string) {
    (exists path :: Leads(store.sessions, 0, path, id)) || (exists path :: Leads(store.archived, 0, path, id))
  }

  ghost predicate Opaque(store: Store) {
    Hides(store.sessions, 0) || Hides(store.archived, 0)
  }

  // Absence is proven: no rollout of id within the bound, and nothing was hidden.
  ghost predicate ProvenAbsent(store: Store, id: string) {
    !Exists(store, id) && !Opaque(store)
  }

  method FindRollout(store: Store, id: string) returns (answer: Answer)
    ensures answer.Found? <==> Exists(store, id)
    ensures answer.Found? ==> Leads(store.sessions, 0, answer.path, id) || Leads(store.archived, 0, answer.path, id)
    ensures answer.NotFound? <==> ProvenAbsent(store, id)
    ensures answer.Unsure? <==> !Exists(store, id) && Opaque(store)
  {
    var unsure := false;
    var roots := [store.sessions, store.archived];
    for i := 0 to 2
      invariant forall k, path :: 0 <= k < i ==> !Leads(roots[k], 0, path, id)
      invariant unsure <==> exists k :: 0 <= k < i && Hides(roots[k], 0)
    {
      var a := SearchRollout(roots[i], id);
      match a {
        case Found(_) => return a;
        case Unsure => unsure := true;
        case NotFound =>
      }
    }
    assert forall path :: !Leads(roots[0], 0, path, id) && !Leads(roots[1], 0, path, id);
    assert unsure <==> Hides(roots[0], 0) || Hides(roots[1], 0);
    return if unsure then Unsure else NotFound;
  }

  method RolloutExists(store: Store, id: string) returns (present: bool)
    ensures present <==> !ProvenAbsent(store, id)
  {
    var a := FindRollout(store, id);
    present := !a.NotFound?;
  }

  ghost predicate Resumable(store: Store, id: Option<string>) {
    id.Some? && id.value != "" && !ProvenAbsent(store, id.value)
  }

  // The stored id wins unless its absence is proven; then the recorded one, likewise.
  method ResumableChatId(store: Store, known: Option<string>, recorded: Option<string>) returns (id: Option<string>)
    ensures Resumable(store, known) ==> id == known
    ensures !Resumable(store, known) && Resumable(store, recorded) ==> id == recorded
    ensures !Resumable(store, known) && !Resumable(store, recorded) ==> id == None
  {
    var candidates := [known, recorded];
    for i := 0 to 2
      invariant forall k :: 0 <= k < i ==> !Resumable(store, candidates[k])
    {
      if candidates[i].Some? && candidates[i].value != "" {
        var present := RolloutExists(store, candidates[i].value);
        if present {
          assert i == 1 ==> !Resumable(store, candidates[0]);
          return candidates[i];
        }
      }
    }
    assert !Resumable(store, candidates[0]) && !Resumable(store, candidates[1]);
    return None;
  }

  // The id that replaces the stored one when the chat is toggled: only a recorded
  // one with a rollout, and only when the stored one is proven gone.
  method RefreshChatIdOnToggle(store: Store, known: Option<string>, recorded: Option<string>)
    returns (id: Option<string>)
    ensures id.Some? <==>
            && known.Some? && known.value != "" && ProvenAbsent(store, known.value)
            && recorded.Some? && recorded != known && !ProvenAbsent(store, recorded.value)
    ensures id.Some? ==> id == recorded
  {
    id := None;
    if recorded.None? || known.None? || known.value == "" {
      return;
    }
    var kept := RolloutExists(store, known.value);
    if !kept && known != recorded {
      var present := RolloutExists(store, recorded.value);
      if present {
        id := recorded;
      }
    }
  }
}
