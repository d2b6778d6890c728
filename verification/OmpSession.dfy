/**
 The omp importer on session files (`import_omp_history`, `omp_current_cursor`):
 byte index, active branch and branch import put together, and what repeated
 imports of a file that grows by appending emit.

 The two JSON parsers, of the few fields pass 1 reads and of a whole entry, are
 parameters.
 */
module OmpSession {
  import opened Wrappers
  import opened OmpIndex
  import OmpPath
  import opened OmpImport
  import OmpChaining
  import OmpEvents
  import OmpStamps

  const MAX_BYTES: nat := 512 * 1024 * 1024

  type ValueParser = Bytes -> Option<Value>

  function Lines(index: seq<Entry>): seq<IndexLine> {
    seq(|index|, i requires 0 <= i < |index| => index[i].line)
  }

  ghost predicate InFile(data: Bytes, index: seq<Entry>) {
    forall i :: 0 <= i < |index| ==> index[i].offset + index[i].len <= |data|
  }

  ghost predicate OnIndex(index: seq<Entry>, path: seq<nat>) {
    forall k :: 0 <= k < |path| ==> path[k] < |index|
  }

  // The nodes of a path: id and type from the index, the value read again.
  function NodesOf(data: Bytes, full: ValueParser, index: seq<Entry>, path: seq<nat>): (branch: Branch)
    requires InFile(data, index) && OnIndex(index, path)
    ensures |branch| == |path|
  {
    seq(|path|, k requires 0 <= k < |path| =>
      var e := index[path[k]];
      Node(e.line.id, e.line.ty, full(Span(data, e))))
  }

  // The active branch of a session file.
  ghost predicate IsSession(data: Bytes, parse: Parser, full: ValueParser, index: seq<Entry>, path: seq<nat>,
                            branch: Branch)
  {
    && Indexes(data, parse, index) && OmpPath.IsActive(Lines(index), path)
    && InFile(data, index) && OnIndex(index, path) && branch == NodesOf(data, full, index, path)
  }

  ghost predicate HasSession(data: Bytes, parse: Parser, full: ValueParser, branch: Branch) {
    exists index, path :: IsSession(data, parse, full, index, path, branch)
  }

  lemma ActiveOnIndex(index: seq<Entry>, path: seq<nat>)
    requires OmpPath.IsActive(Lines(index), path)
    ensures OnIndex(index, path)
  {
  }

  lemma IndexInFile(data: Bytes, parse: Parser, index: seq<Entry>)
    requires Indexes(data, parse, index)
    ensures InFile(data, index)
  {
    forall i | 0 <= i < |index| ensures index[i].offset + index[i].len <= |data| {
      assert index[i] in index;
    }
  }

  // ----- The program -----

  // A missing, unreadable or oversize file is None here; the watermark is echoed.
  function Readable(file: Option<Bytes>): Option<Bytes> {
    if file.Some? && |file.value| <= MAX_BYTES then file else None
  }

  // Pass 2: `parse_at` for every entry of the path.
  method ReadNodes(data: Bytes, full: ValueParser, index: seq<Entry>, path: seq<nat>) returns (branch: Branch)
    requires InFile(data, index) && OnIndex(index, path)
    ensures branch == NodesOf(data, full, index, path)
  {
    branch := [];
    for k := 0 to |path|
      invariant |branch| == k
      invariant forall i :: 0 <= i < k ==> branch[i] == NodesOf(data, full, index, path)[i]
    {
      var e := index[path[k]];
      branch := branch + [Node(e.line.id, e.line.ty, full(Span(data, e)))];
    }
  }

  method ReadSession(data: Bytes, parse: Parser, full: ValueParser) returns (branch: Branch)
    ensures HasSession(data, parse, full, branch)
  {
    hide Indexes, OmpPath.IsActive, InFile, OnIndex, NodesOf, Lines;
    var index := BuildIndex(data, parse);
    IndexInFile(data, parse, index);
    var path := OmpPath.ActivePath(Lines(index));
    ActiveOnIndex(index, path);
    branch := ReadNodes(data, full, index, path);
    assert IsSession(data, parse, full, index, path, branch);
  }

  method ImportOmpHistory(file: Option<Bytes>, parse: Parser, full: ValueParser, watermark: Option<string>)
    returns (events: seq<Event>, next: string)
    ensures Readable(file).None? ==> events == [] && next == watermark.GetOr("")
    ensures Readable(file).Some? ==>
              exists branch: Branch :: HasSession(file.value, parse, full, branch) &&
                  (events, next) == Import(branch, watermark)
  {
    if Readable(file).None? {
      return [], watermark.GetOr("");
    }
    var branch := ReadSession(file.value, parse, full);
    events, next := ImportBranch(branch, watermark);
  }

  method OmpCurrentCursor(file: Option<Bytes>, parse: Parser, full: ValueParser) returns (cursor: Option<string>)
    ensures Readable(file).None? ==> cursor == None
    ensures Readable(file).Some? ==>
              exists branch: Branch :: HasSession(file.value, parse, full, branch)
                               && cursor == if branch == [] then None else branch[|branch| - 1].id
  {
    if Readable(file).None? {
      return None;
    }
    var branch := ReadSession(file.value, parse, full);
    cursor := if branch == [] then None else branch[|branch| - 1].id;
  }

  // ----- One branch, and only longer -----

  // A file has one active branch, so the methods above return its import.
  lemma OneSession(data: Bytes, parse: Parser, full: ValueParser, a: Branch, b: Branch)
    requires HasSession(data, parse, full, a) && HasSession(data, parse, full, b)
    ensures a == b
  {
    hide Indexes, OmpPath.IsActive, InFile, OnIndex;
    var i, p :| IsSession(data, parse, full, i, p, a);
    var j, q :| IsSession(data, parse, full, j, q, b);
    assert data + [] == data;
    IndexGrows(data, [], parse, i, j);
    OmpPath.ActiveIsUnique(Lines(i), p, q);
  }

  // The file was appended to in place: what was indexed since is bookkeeping or a
  // chain of children of the leaf, with fresh ids and without leaf stamps.
  ghost predicate GrowsInPlace(before: seq<Entry>, now: seq<Entry>) {
    && |before| <= |now|
    && OmpPath.NoStamps(Lines(before))
    && (exists i :: 0 <= i < |before| && OmpPath.HasId(before[i].line))
    && OmpPath.GrowsBy(Lines(before), Lines(now[|before|..]))
  }

  lemma SessionGrows(data: Bytes, more: Bytes, parse: Parser, full: ValueParser,
                     i: seq<Entry>, p: seq<nat>, a: Branch, j: seq<Entry>, q: seq<nat>, b: Branch)
    requires IsSession(data, parse, full, i, p, a) && IsSession(data + more, parse, full, j, q, b)
    requires GrowsInPlace(i, j)
    ensures a <= b
  {
    hide Indexes, OmpPath.IsActive, OmpPath.GrowsBy;
    IndexGrows(data, more, parse, i, j);
    var rest := Lines(j[|i|..]);
    assert Lines(i) + rest == Lines(j);
    var n :| 0 <= n < |i| && OmpPath.HasId(i[n].line);
    assert OmpPath.HasId(Lines(i)[n]);
    var suffix := OmpPath.BranchGrows(Lines(i), rest, p);
    OmpPath.ActiveIsUnique(Lines(j), p + suffix, q);
    forall k | 0 <= k < |a| ensures a[k] == b[k] {
      assert q[k] == p[k] && j[p[k]] == i[p[k]];
      assert i[p[k]] in i;
      SpanRereads(data, more, parse, i, i[p[k]]);
    }
  }

  // Main result on files: when a session file has grown in place, without a reset,
  // importing it before and after emits what one import after emits, up to the
  // model stamp, exactly when the tail of the old branch was kept; with the stamps,
  // exactly when those were kept too; and returns the same watermark exactly when
  // its last turn stays closed.
  lemma ChainedFileImports(data: Bytes, more: Bytes, parse: Parser, full: ValueParser, w: Option<string>,
                           i: seq<Entry>, p: seq<nat>, before: Branch, j: seq<Entry>, q: seq<nat>, now: Branch)
    requires IsSession(data, parse, full, i, p, before) && IsSession(data + more, parse, full, j, q, now)
    requires GrowsInPlace(i, j) && OmpChaining.GoodIds(now)
    requires forall k :: |before| <= k < |now| ==>
               now[k].ty != Some("reset_boundary") && (w.Some? ==> now[k].id != w)
    ensures before <= now
    ensures var first, whole := Import(before, w), Import(now, w);
            var second := Import(now, Some(first.1));
            && (OmpChaining.Erased(first.0 + second.0) == OmpChaining.Erased(whole.0) <==>
                before == [] || OmpChaining.TailKept(before, now, w))
            && (first.0 + second.0 == whole.0 <==>
                before == [] || (OmpChaining.TailKept(before, now, w) && OmpStamps.StampsKept(before, now, w)))
            && (second.1 == whole.1 <==> before == [] || OmpChaining.StaysClosed(before, now, w))
  {
    hide Indexes, OmpPath.IsActive, OmpPath.GrowsBy, Import, NodesOf;
    hide OmpChaining.TailKept, OmpChaining.StaysClosed, OmpStamps.StampsKept;
    SessionGrows(data, more, parse, full, i, p, before, j, q, now);
    OmpChaining.ChainedImports(before, now, w);
    OmpStamps.ChainedStamps(before, now, w);
  }

  // ----- From bytes to events -----

  // The value in the line's bytes has the time and the contents of the event.
  ghost predicate SaidByLine(data: Bytes, full: ValueParser, line: Entry, e: Event) {
    && line.offset + line.len <= |data|
    && var v := full(data[line.offset..line.offset + line.len]);
       v.Some? && e.ts == v.value.ts && OmpEvents.Tells(v.value, e.payload)
  }

  // Every event that an import of a file emits was said by a line of the file on its
  // active branch.
  lemma FileSaid(data: Bytes, parse: Parser, full: ValueParser, index: seq<Entry>, path: seq<nat>, branch: Branch,
                 w: Option<string>, e: Event) returns (k: nat)
    requires IsSession(data, parse, full, index, path, branch) && e in Import(branch, w).0
    ensures k < |path| && path[k] < |index| && Indexed(data, parse, index[path[k]])
    ensures SaidByLine(data, full, index[path[k]], e)
  {
    hide Import, OmpEvents.Tells, OmpPath.IsActive, Indexed, Lines;
    k := BranchSaid(branch, w, e);
    assert index[path[k]] in index;
    var node := branch[k];
    assert node.value == full(Span(data, index[path[k]]));
  }

  lemma BranchSaid(branch: Branch, w: Option<string>, e: Event) returns (k: nat)
    requires e in Import(branch, w).0
    ensures k < |branch| && branch[k].value.Some?
    ensures var v := branch[k].value.value; e.ts == v.ts && OmpEvents.Tells(v, e.payload)
  {
    hide Import, OmpEvents.Tells, BoundaryAt, MarkBefore, Parsed, OmpEvents.BeganAt, OmpEvents.NamedLast;
    var r, m := WhereItReads(branch, w);
    assert branch != [] by {
      NothingToImport(w);
    }
    var items := Parsed(branch, Max(r, m), |branch|);
    var i, j := OmpEvents.ImportSaid(branch, w, r, m, e);
    assert j < |items| by {
      OmpEvents.EntryIsRead(items, i, j, "", e);
    }
    ParsedIs(branch, Max(r, m), |branch|);
    assert items[j] in items && ReadFrom(branch, items[j]);
    k := items[j].pos;
  }

  lemma NothingToImport(w: Option<string>)
    ensures Import([], w).0 == []
  {
  }

  lemma WhereItReads(branch: Branch, w: Option<string>) returns (r: nat, m: nat)
    ensures BoundaryAt(branch, r) && MarkBefore(branch, w, m)
  {
    LastResetIs(branch, |branch|);
    r, m := LastReset(branch, |branch|), 0;
    if w.Some? {
      AfterMarkIs(branch, w.value, 0);
      m := AfterMarkFrom(branch, w.value, 0);
    }
  }
}
