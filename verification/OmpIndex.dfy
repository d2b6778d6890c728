/**
 The byte index of an omp session file (`build_index`, `parse_at`).

 The file is a sequence of bytes; JSON parsing is a parameter. `Indexes` says
 what an index of a file is: one entry for each newline-terminated line that is
 short enough and parses, in file order. It determines the index.
 */
module OmpIndex {
  import opened Wrappers

  type Bytes = seq<bv8>

  const NEWLINE: bv8 := 10
  const MAX_LINE_BYTES: nat := 8 * 1024 * 1024

  datatype IndexLine = IndexLine(id: Option<string>, parent: Option<string>, ty: Option<string>,
                                 activeLeaf: Option<string>)

  type Parser = Bytes -> Option<IndexLine>

  datatype Entry = Entry(offset: nat, len: nat, line: IndexLine)

  // The bytes at..at+len are one whole line, with its newline.
  ghost predicate IsLine(data: Bytes, at: nat, len: nat) {
    && len > 0 && at + len <= |data|
    && (at == 0 || data[at - 1] == NEWLINE)
    && data[at + len - 1] == NEWLINE
    && (forall i :: at <= i < at + len - 1 ==> data[i] != NEWLINE)
  }

  ghost predicate Indexed(data: Bytes, parse: Parser, e: Entry) {
    IsLine(data, e.offset, e.len) && e.len <= MAX_LINE_BYTES
    && parse(data[e.offset..e.offset + e.len - 1]) == Some(e.line)
  }

  ghost predicate InOrder(index: seq<Entry>) {
    forall i, j :: 0 <= i < j < |index| ==> index[i].offset + index[i].len <= index[j].offset
  }

  // The index of the lines of data that end at or before `end`.
  ghost predicate IndexesTo(data: Bytes, parse: Parser, index: seq<Entry>, end: nat) {
    && InOrder(index)
    && (forall e :: e in index ==> Indexed(data, parse, e) && e.offset + e.len <= end)
    && (forall e: Entry :: Indexed(data, parse, e) && e.offset + e.len <= end ==> e in index)
  }

  ghost predicate Indexes(data: Bytes, parse: Parser, index: seq<Entry>) {
    IndexesTo(data, parse, index, |data|)
  }

  // ----- The program -----

  // `read_until`: the bytes from `at` to the next newline, or to the end of the file.
  method ReadUntil(data: Bytes, at: nat) returns (buf: Bytes)
    requires at <= |data|
    ensures at + |buf| <= |data| && buf == data[at..at + |buf|]
    ensures forall i :: 0 <= i < |buf| - 1 ==> buf[i] != NEWLINE
    ensures at + |buf| < |data| ==> buf != [] && buf[|buf| - 1] == NEWLINE
  {
    var n := at;
    while n < |data|
      invariant at <= n <= |data|
      invariant NEWLINE !in data[at..n]
      decreases |data| - n
    {
      n := n + 1;
      assert data[at..n] == data[at..n - 1] + [data[n - 1]];
      if data[n - 1] == NEWLINE {
        buf := data[at..n];
        assert forall i :: 0 <= i < |buf| - 1 ==> buf[i] == data[at..n - 1][i];
        return;
      }
    }
    buf := data[at..n];
  }

  method BuildIndex(data: Bytes, parse: Parser) returns (index: seq<Entry>)
    ensures Indexes(data, parse, index)
  {
    hide Indexes, IndexesTo, IsLine;
    index := [];
    NothingIndexed(data, parse);
    var offset, pos := 0, 0;  // bytes accounted for, bytes read
    while true
      invariant offset == pos <= |data|
      invariant offset == 0 || data[offset - 1] == NEWLINE
      invariant IndexesTo(data, parse, index, offset)
      decreases |data| - pos
    {
      var buf := ReadUntil(data, pos);
      pos := pos + |buf|;
      if buf == [] || buf[|buf| - 1] != NEWLINE {
        assert forall i :: 0 <= i < |buf| - 1 ==> buf[i] == data[offset + i];
        NoLineLeft(data, parse, index, offset);
        break;
      }
      var len := |buf|;
      LineRead(data, offset, buf);
      NextIndex(data, parse, index, offset, len);
      if len > MAX_LINE_BYTES {
        offset := offset + len;
        continue;
      }
      match parse(buf[..len - 1]) {
        case None =>
        case Some(line) =>
          index := index + [Entry(offset, len, line)];
      }
      offset := offset + len;
    }
  }

  lemma NothingIndexed(data: Bytes, parse: Parser)
    ensures IndexesTo(data, parse, [], 0)
  {
  }

  lemma LineRead(data: Bytes, at: nat, buf: Bytes)
    requires buf != [] && at + |buf| <= |data| && buf == data[at..at + |buf|]
    requires at == 0 || data[at - 1] == NEWLINE
    requires (forall i :: 0 <= i < |buf| - 1 ==> buf[i] != NEWLINE) && buf[|buf| - 1] == NEWLINE
    ensures IsLine(data, at, |buf|) && buf[..|buf| - 1] == data[at..at + |buf| - 1]
  {
    forall i | at <= i < at + |buf| - 1 ensures data[i] != NEWLINE {
      assert buf[i - at] == data[i];
    }
  }

  // Two lines of a file that overlap are the same line.
  lemma SameLine(data: Bytes, a: nat, m: nat, b: nat, n: nat)
    requires IsLine(data, a, m) && IsLine(data, b, n) && a < b + n <= a + m
    ensures a == b && m == n
  {
  }

  // The lines that end in at+1..at+len: only the one that starts at `at`.
  lemma OnlyLine(data: Bytes, parse: Parser, at: nat, len: nat)
    requires IsLine(data, at, len)
    ensures forall e :: Indexed(data, parse, e) && at < e.offset + e.len <= at + len ==> e.offset == at && e.len == len
  {
    forall e | Indexed(data, parse, e) && at < e.offset + e.len <= at + len ensures e.offset == at && e.len == len {
      SameLine(data, at, len, e.offset, e.len);
    }
  }

  // One more line: it is indexed when it is short enough and parses.
  lemma NextIndex(data: Bytes, parse: Parser, index: seq<Entry>, at: nat, len: nat)
    requires IsLine(data, at, len) && IndexesTo(data, parse, index, at)
    ensures var line := parse(data[at..at + len - 1]);
            IndexesTo(data, parse,
                      if len <= MAX_LINE_BYTES && line.Some? then index + [Entry(at, len, line.value)] else index,
                      at + len)
  {
    OnlyLine(data, parse, at, len);
    var line := parse(data[at..at + len - 1]);
    if len <= MAX_LINE_BYTES && line.Some? {
      AddEntry(data, parse, index, Entry(at, len, line.value));
    }
  }

  lemma AddEntry(data: Bytes, parse: Parser, index: seq<Entry>, e: Entry)
    requires Indexed(data, parse, e) && IndexesTo(data, parse, index, e.offset)
    requires forall f :: Indexed(data, parse, f) && e.offset < f.offset + f.len <= e.offset + e.len ==>
             f.offset == e.offset && f.len == e.len
    ensures IndexesTo(data, parse, index + [e], e.offset + e.len)
  {
    var index' := index + [e];
    forall i, j | 0 <= i < j < |index'| ensures index'[i].offset + index'[i].len <= index'[j].offset {
      assert index[i] in index;
    }
    forall f: Entry | Indexed(data, parse, f) && f.offset + f.len <= e.offset + e.len ensures f in index' {
      if e.offset < f.offset + f.len {
        assert f == e;
      }
    }
  }

  // After the last newline no line ends.
  lemma NoLineLeft(data: Bytes, parse: Parser, index: seq<Entry>, at: nat)
    requires at <= |data| && IndexesTo(data, parse, index, at)
    requires at < |data| ==> data[|data| - 1] != NEWLINE && forall i :: at <= i < |data| - 1 ==> data[i] != NEWLINE
    ensures Indexes(data, parse, index)
  {
  }

  // `parse_at` reads the span again, newline included.
  function Span(data: Bytes, e: Entry): Bytes
    requires e.offset + e.len <= |data|
  {
    data[e.offset..e.offset + e.len]
  }

  // ----- What the index keeps -----

  // The bytes read again, in the file or in any later state of it, are the bytes
  // that were indexed, with the newline.
  lemma SpanRereads(data: Bytes, more: Bytes, parse: Parser, index: seq<Entry>, e: Entry)
    requires Indexes(data, parse, index) && e in index
    ensures e.offset + e.len <= |data|
    ensures var span := Span(data + more, e);
            && span == Span(data, e) && span[e.len - 1] == NEWLINE
            && parse(span[..e.len - 1]) == Some(e.line)
  {
    assert (data + more)[e.offset..e.offset + e.len] == data[e.offset..e.offset + e.len];
    assert Span(data, e)[..e.len - 1] == data[e.offset..e.offset + e.len - 1];
  }

  lemma LineInBoth(data: Bytes, more: Bytes, parse: Parser, e: Entry)
    ensures e.offset + e.len <= |data| ==> (Indexed(data, parse, e) <==> Indexed(data + more, parse, e))
  {
    var all := data + more;
    assert forall i :: 0 <= i < |data| ==> all[i] == data[i];
    if 0 < e.len && e.offset + e.len <= |data| {
      assert all[e.offset..e.offset + e.len - 1] == data[e.offset..e.offset + e.len - 1];
    }
  }

  // Entries start in file order.
  lemma StartsInOrder(index: seq<Entry>, data: Bytes, parse: Parser)
    requires Indexes(data, parse, index)
    ensures forall i, j :: 0 <= i < |index| && 0 <= j < |index| ==> (index[i].offset < index[j].offset <==> i < j)
  {
    forall i, j | 0 <= i < |index| && 0 <= j < |index|
      ensures index[i].offset < index[j].offset <==> i < j
    {
      assert index[i] in index && index[j] in index;
    }
  }

  lemma NextEntrySame(data: Bytes, more: Bytes, parse: Parser, a: seq<Entry>, b: seq<Entry>, k: nat)
    requires Indexes(data, parse, a) && Indexes(data + more, parse, b)
    requires k < |a| && k <= |b| && forall i :: 0 <= i < k ==> a[i] == b[i]
    ensures k < |b| && a[k] == b[k]
  {
    StartsInOrder(a, data, parse);
    StartsInOrder(b, data + more, parse);
    var e := a[k];
    assert e in a;
    LineInBoth(data, more, parse, e);
    assert e in b;
    var m :| 0 <= m < |b| && b[m] == e;
    assert b[k] in b;
    LineInBoth(data, more, parse, b[k]);
  }

  lemma {:induction false} IndexGrowsTo(data: Bytes, more: Bytes, parse: Parser, a: seq<Entry>, b: seq<Entry>, k: nat)
    requires Indexes(data, parse, a) && Indexes(data + more, parse, b) && k <= |a|
    ensures k <= |b| && forall i :: 0 <= i < k ==> a[i] == b[i]
  {
    hide Indexes;
    if k > 0 {
      IndexGrowsTo(data, more, parse, a, b, k - 1);
      NextEntrySame(data, more, parse, a, b, k - 1);
    }
  }

  // The index of a file is a prefix of the index of any file it grows into. With
  // nothing appended: a file has one index.
  lemma IndexGrows(data: Bytes, more: Bytes, parse: Parser, a: seq<Entry>, b: seq<Entry>)
    requires Indexes(data, parse, a) && Indexes(data + more, parse, b)
    ensures a <= b
    ensures more == [] ==> a == b
  {
    hide Indexes;
    IndexGrowsTo(data, more, parse, a, b, |a|);
    if more == [] {
      assert data + more == data;
      IndexGrowsTo(data, more, parse, b, a, |b|);
    }
  }
}
