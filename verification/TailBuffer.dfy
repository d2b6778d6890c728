/**
 The tail-keeping output buffer of a background terminal (`OutputState`).

 A chunk is the sequence of its bytes, so its length is the program's `len()`.
 `Kept` says what the buffer holds after any history of pushes: everything while
 the history fits, else the shortest run of last chunks that has `limit` bytes.
 */
module TailBuffer {

  type Chunk = seq<bv8>

  function Total(chunks: seq<Chunk>): nat {
    if chunks == [] then 0 else |chunks[0]| + Total(chunks[1..])
  }

  function Bytes(chunks: seq<Chunk>): Chunk {
    if chunks == [] then [] else chunks[0] + Bytes(chunks[1..])
  }

  // Index of the first chunk kept: the last one from which `limit` bytes follow, or 0.
  function CutAt(chunks: seq<Chunk>, limit: nat): (k: nat)
    ensures k <= |chunks|
    ensures k < |chunks| || chunks == []
  {
    if chunks == [] || Total(chunks[1..]) < limit || |chunks| == 1 then 0
    else 1 + CutAt(chunks[1..], limit)
  }

  function Trimmed(chunks: seq<Chunk>, limit: nat): seq<Chunk> {
    chunks[CutAt(chunks, limit)..]
  }

  // Trimming once, after the whole history.
  function Kept(history: seq<Chunk>, limit: nat): seq<Chunk> {
    if Total(history) <= limit then history else Trimmed(history, limit)
  }

  lemma {:induction false} TotalAppend(a: seq<Chunk>, b: seq<Chunk>)
    ensures Total(a + b) == Total(a) + Total(b) && Bytes(a + b) == Bytes(a) + Bytes(b)
  {
    if a == [] {
      assert a + b == b;
    } else {
      assert (a + b)[1..] == a[1..] + b;
      TotalAppend(a[1..], b);
    }
  }

  lemma {:induction false} BytesLength(a: seq<Chunk>)
    ensures |Bytes(a)| == Total(a)
  {
    if a != [] {
      BytesLength(a[1..]);
    }
  }

  // The cut is the last index from which at least `limit` bytes follow.
  lemma {:induction false} CutIsShortest(chunks: seq<Chunk>, limit: nat, k: nat)
    requires Total(chunks) >= limit > 0 && k <= |chunks|
    ensures Total(Trimmed(chunks, limit)) >= limit
    ensures Total(chunks[k..]) >= limit <==> k <= CutAt(chunks, limit)
  {
    if Total(chunks[1..]) < limit {
      if 0 < k {
        assert chunks[1..] == chunks[1..k] + chunks[k..];
        TotalAppend(chunks[1..k], chunks[k..]);
      }
    } else {
      assert chunks[1..] != [];
      CutIsShortest(chunks[1..], limit, if k == 0 then 0 else k - 1);
      assert k > 0 ==> chunks[1..][k - 1..] == chunks[k..];
      assert chunks[1..][CutAt(chunks[1..], limit)..] == chunks[CutAt(chunks, limit)..];
    }
  }

  // ----- The program -----

  datatype Output = Output(chunks: seq<Chunk>, bytes: nat, truncated: bool)

  function Pushed(o: Output, limit: nat, chunk: Chunk): Output {
    var chunks, bytes := o.chunks + [chunk], o.bytes + |chunk|;
    if bytes > limit then Output(Trimmed(chunks, limit), Total(Trimmed(chunks, limit)), true)
    else Output(chunks, bytes, o.truncated)
  }

  // The buffer after a history of pushes.
  function After(history: seq<Chunk>, limit: nat): Output {
    if history == [] then Output([], 0, false)
    else Pushed(After(history[..|history| - 1], limit), limit, history[|history| - 1])
  }

  class OutputState {
    var chunks: seq<Chunk>
    var bytes: nat
    var truncated: bool
    const limit: nat

    function State(): Output
      reads this
    {
      Output(chunks, bytes, truncated)
    }

    constructor (limit: nat)
      ensures this.limit == limit && State() == After([], limit)
    {
      chunks, bytes, truncated := [], 0, false;
      this.limit := limit;
    }

    method Push(chunk: Chunk)
      modifies this
      ensures State() == Pushed(old(State()), limit, chunk)
    {
      bytes := bytes + |chunk|;
      chunks := chunks + [chunk];
      if bytes > limit {
        truncated := true;
        var kept: seq<Chunk>, total, i := [], 0, |chunks|;
        while i > 0
          invariant 0 <= i <= |chunks|
          invariant kept == chunks[i..] && total == Total(kept)
          invariant i < |chunks| ==> total < limit
          decreases i
        {
          i := i - 1;
          total := total + |chunks[i]|;
          kept := [chunks[i]] + kept;
          if total >= limit {
            break;
          }
        }
        CutFound(chunks, limit, i);
        chunks := kept;
        bytes := total;
      }
    }

    method Render() returns (output: Chunk, cut: bool)
      ensures output == Bytes(chunks) && cut == truncated
    {
      output, cut := [], truncated;
      var i := 0;
      while i < |chunks|
        invariant 0 <= i <= |chunks|
        invariant output == Bytes(chunks[..i])
      {
        assert chunks[..i + 1] == chunks[..i] + [chunks[i]];
        TotalAppend(chunks[..i], [chunks[i]]);
        output := output + chunks[i];
        i := i + 1;
      }
      assert chunks[..|chunks|] == chunks;
    }
  }

  // Where the backward scan of `Push` stops.
  lemma {:induction false} CutFound(chunks: seq<Chunk>, limit: nat, i: nat)
    requires i < |chunks|
    requires i == 0 || Total(chunks[i..]) >= limit
    requires i + 1 < |chunks| ==> Total(chunks[i + 1..]) < limit
    ensures CutAt(chunks, limit) == i
  {
    if i > 0 {
      assert chunks[1..][i - 1..] == chunks[i..] && i + 1 < |chunks| ==> chunks[1..][i..] == chunks[i + 1..];
      assert chunks[1..] == chunks[1..i] + chunks[i..];
      TotalAppend(chunks[1..i], chunks[i..]);
      CutFound(chunks[1..], limit, i - 1);
    }
  }

  // ----- Trimming on every push is trimming once at the end -----

  // The cut of a tail is the cut of the whole, as long as the cut is in the tail.
  lemma CutOfTail(all: seq<Chunk>, k: nat, limit: nat)
    requires limit > 0 && k <= |all| && Total(all[k..]) >= limit
    ensures Total(all) >= limit && CutAt(all, limit) == k + CutAt(all[k..], limit)
  {
    hide Total, CutAt, Trimmed;
    assert all == all[..k] + all[k..];
    TotalAppend(all[..k], all[k..]);
    var tail, m, n := all[k..], CutAt(all[k..], limit), CutAt(all, limit);
    CutIsShortest(all, limit, k);
    CutIsShortest(tail, limit, m);
    assert all[k + m..] == tail[m..];
    CutIsShortest(all, limit, k + m);
    CutIsShortest(all, limit, n);
    assert tail[n - k..] == all[n..];
    CutIsShortest(tail, limit, n - k);
  }

  lemma Retrim(h: seq<Chunk>, c: Chunk, limit: nat)
    requires limit > 0 && Total(h) >= limit
    ensures Trimmed(Trimmed(h, limit) + [c], limit) == Trimmed(h + [c], limit)
  {
    hide Total, CutAt;
    var k, all := CutAt(h, limit), h + [c];
    CutIsShortest(h, limit, k);
    assert Trimmed(h, limit) + [c] == all[k..];
    TotalAppend(Trimmed(h, limit), [c]);
    CutOfTail(all, k, limit);
  }

  // An empty chunk after an exactly full tail is appended without trimming.
  lemma EmptyChunkKeepsCut(h: seq<Chunk>, c: Chunk, limit: nat)
    requires limit > 0 && Total(h) >= limit && Total(Trimmed(h, limit)) + |c| <= limit
    ensures Trimmed(h + [c], limit) == Trimmed(h, limit) + [c]
  {
    var k, tail := CutAt(h, limit), Trimmed(h, limit) + [c];
    CutIsShortest(h, limit, k + 1);
    TotalAppend(Trimmed(h, limit)[1..], [c]);
    assert Trimmed(h, limit)[1..] == h[k + 1..] && tail[1..] == Trimmed(h, limit)[1..] + [c];
    assert CutAt(tail, limit) == 0;
    Retrim(h, c, limit);
  }

  lemma {:induction false} PushKeepsTail(history: seq<Chunk>, limit: nat)
    requires limit > 0
    ensures var o := After(history, limit);
            && o.chunks == Kept(history, limit)
            && o.bytes == Total(o.chunks)
            && (o.truncated <==> Total(history) > limit)
  {
    if history != [] {
      var h, c := history[..|history| - 1], history[|history| - 1];
      assert history == h + [c];
      PushKeepsTail(h, limit);
      TotalAppend(h, [c]);
      TotalAppend(Kept(h, limit), [c]);
      if Total(h) > limit {
        CutIsShortest(h, limit, 0);
        Retrim(h, c, limit);
        if Total(Kept(h, limit)) + |c| <= limit {
          EmptyChunkKeepsCut(h, c, limit);
        }
      }
    }
  }

  lemma TrimmedIsTail(history: seq<Chunk>, limit: nat)
    requires limit > 0 && Total(history) > limit
    ensures var kept := Trimmed(history, limit);
            && |Bytes(kept)| >= limit
            && kept != [] && |Bytes(kept[1..])| < limit
            && exists dropped :: Bytes(history) == dropped + Bytes(kept)
  {
    var k, kept := CutAt(history, limit), Trimmed(history, limit);
    CutIsShortest(history, limit, k);
    CutIsShortest(history, limit, k + 1);
    BytesLength(kept);
    BytesLength(kept[1..]);
    assert kept[1..] == history[k + 1..] && history == history[..k] + kept;
    TotalAppend(history[..k], kept);
  }

  // The text shown ends with the last `limit` bytes ever pushed, and without its
  // first chunk it would not.
  lemma LastBytesKept(history: seq<Chunk>, limit: nat)
    requires limit > 0
    ensures var kept := After(history, limit).chunks;
            && (Total(history) <= limit ==> kept == history)
            && (Total(history) > limit ==>
                  && (exists dropped :: Bytes(history) == dropped + Bytes(kept))
                  && |Bytes(kept)| >= limit && kept != [] && |Bytes(kept[1..])| < limit)
  {
    PushKeepsTail(history, limit);
    if Total(history) > limit {
      TrimmedIsTail(history, limit);
    }
  }

  ghost predicate EndsInTwoEmpty(history: seq<Chunk>) {
    |history| > 1 && history[|history| - 1] == [] && history[|history| - 2] == []
  }

  lemma TrimmedToLast(chunks: seq<Chunk>)
    requires chunks != []
    ensures Trimmed(chunks, 0) == [chunks[|chunks| - 1]]
  {
    CutFound(chunks, 0, |chunks| - 1);
  }

  lemma OneChunk(chunk: Chunk)
    ensures Total([chunk]) == |chunk| && Bytes([chunk]) == chunk
  {
    assert Bytes([chunk]) == chunk + [];
  }

  // A push with limit 0: bytes leave the new chunk alone, an empty chunk after an
  // empty buffer is appended.
  lemma PushedAtZero(o: Output, c: Chunk)
    ensures var next := Pushed(o, 0, c);
            if o.bytes + |c| > 0 then next == Output([c], |c|, true)
            else next == Output(o.chunks + [c], 0, o.truncated)
  {
    hide Trimmed, Total;
    TrimmedToLast(o.chunks + [c]);
    OneChunk(c);
  }

  lemma AfterOneMore(h: seq<Chunk>, c: Chunk, limit: nat)
    ensures After(h + [c], limit) == Pushed(After(h, limit), limit, c)
  {
    hide Pushed;
    assert (h + [c])[..|h|] == h;
  }

  lemma NothingPushed(limit: nat)
    ensures After([], limit) == Output([], 0, false) && Total([]) == 0
  {
  }

  // With limit 0 the last chunk is kept once there were bytes, and empty chunks
  // after an empty one pile up.
  lemma {:induction false} LimitZero(history: seq<Chunk>)
    ensures var o := After(history, 0);
            if Total(history) == 0 then o == Output(history, 0, false)
            else
              && o.truncated && history != [] && o.bytes == |history[|history| - 1]|
              && Bytes(o.chunks) == history[|history| - 1] && o.chunks != []
              && (o.chunks == [history[|history| - 1]] <==> !EndsInTwoEmpty(history))
  {
    hide After, Total, Bytes, Pushed;
    if history == [] {
      NothingPushed(0);
    } else {
      var h, c := history[..|history| - 1], history[|history| - 1];
      assert history == h + [c];
      LimitZero(h);
      TotalAppend(h, [c]);
      OneChunk(c);
      AfterOneMore(h, c, 0);
      PushedAtZero(After(h, 0), c);
      if After(h, 0).bytes + |c| == 0 && Total(h) > 0 {
        TotalAppend(After(h, 0).chunks, [c]);
        assert |After(h, 0).chunks + [c]| > 1 && h[|h| - 1] == [] && c == [];
      }
    }
  }

  // For every history and limit: what is shown is what trimming once would show, and
  // the chunks kept are the same exactly unless the limit is 0 and the history has
  // bytes and ends in two empty chunks.
  lemma TrimsLikeOnceIff(history: seq<Chunk>, limit: nat)
    ensures var o := After(history, limit);
            && Bytes(o.chunks) == Bytes(Kept(history, limit))
            && (o.truncated <==> Total(history) > limit)
            && (o.chunks == Kept(history, limit) <==>
                limit > 0 || Total(history) == 0 || !EndsInTwoEmpty(history))
  {
    hide After, Trimmed, Total, Bytes, EndsInTwoEmpty;
    if limit > 0 {
      PushKeepsTail(history, limit);
    } else {
      LimitZero(history);
      if Total(history) > 0 {
        TrimmedToLast(history);
        OneChunk(history[|history| - 1]);
      }
    }
  }

  // The PTY reader sends an empty chunk only after one that is not, so what it sends
  // is trimmed as if once, at every limit.
  lemma ReaderTrimsLikeOnce(history: seq<Chunk>, limit: nat)
    requires forall i :: 0 < i < |history| && history[i] == [] ==> history[i - 1] != []
    ensures After(history, limit).chunks == Kept(history, limit)
  {
    TrimsLikeOnceIff(history, limit);
  }
}
