/**
  The loop that reads PTY output: every chunk is scanned for queries and cut into
  parse items, the cursor-position queries ending an item each.
*/
module OutputPump {
  import opened Base
  import opened Incremental
  import opened QueryScan

  /** One call to the parse queue's enqueue. */
  datatype Item = Item(data: seq<byte>, cpr: bool)

  function Data(items: seq<Item>): (r: seq<byte>)
  {
    if items == [] then [] else Data(items[..|items| - 1]) + items[|items| - 1].data
  }

  /** Offsets at which the items flagged for a cursor report end. */
  function FlagEnds(items: seq<Item>): (ends: seq<nat>)
  {
    if items == [] then []
    else FlagEnds(items[..|items| - 1]) + if items[|items| - 1].cpr then [|Data(items)|] else []
  }

  lemma {:induction false} ItemsAppend(a: seq<Item>, b: seq<Item>)
    ensures Data(a + b) == Data(a) + Data(b)
    ensures FlagEnds(a + b) == FlagEnds(a) + Shift(FlagEnds(b), |Data(a)|)
    decreases |b|
  {
    if b == [] {
      assert a + b == a;
    } else {
      var init, last := b[..|b| - 1], b[|b| - 1];
      assert a + b == (a + init) + [last];
      assert b == init + [last];
      ItemsAppend(a, init);
    }
  }

  /** Cuts a chunk at the given ends. Whatever the ends are, no byte is lost or repeated. */
  method EnqueueParse(p: seq<byte>, cprEnds: seq<nat>) returns (items: seq<Item>)
    ensures Data(items) == p
    ensures Increasing(cprEnds, 0, |p|) ==> FlagEnds(items) == cprEnds
    ensures Increasing(cprEnds, 0, |p|) ==> forall i :: 0 <= i < |items| ==> items[i].data != []
  {
    items := [];
    if |p| == 0 {
      assert |cprEnds| > 0 ==> cprEnds[0] >= 0;
      return;
    }
    var start := 0;
    ghost var ok := Increasing(cprEnds, 0, |p|);
    for k := 0 to |cprEnds|
      invariant start <= |p| && Data(items) == p[..start]
      invariant ok ==> FlagEnds(items) == cprEnds[..k] && start == if k == 0 then 0 else cprEnds[k - 1]
      invariant ok ==> forall i :: 0 <= i < |items| ==> items[i].data != []
    {
      var end := cprEnds[k];
      if end < start {
        continue;
      }
      if end > |p| {
        end := |p|;
      }
      var it := if end > start then Item(p[start..end], true) else Item([], true);
      assert p[..start] + p[start..end] == p[..end];
      assert cprEnds[..k + 1] == cprEnds[..k] + [cprEnds[k]];
      items := items + [it];
      start := end;
    }
    assert cprEnds[..|cprEnds|] == cprEnds;
    if start < |p| {
      assert p[..start] + p[start..] == p;
      assert FlagEnds(items) + [] == FlagEnds(items);
      items := items + [Item(p[start..], false)];
    } else {
      assert p[..start] == p;
    }
  }

  /** Offsets within the chunk, moved to the stream, are the offsets of the stream's own queries. */
  lemma ChunkEnds(before: nat, hold: nat, len: nat, toks: seq<Tok<Answer>>, found: seq<Tok<Answer>>)
    requires hold <= before && TotalLen(toks) == before - hold
    requires Increasing(CprEnds(found), hold, hold + len)
    ensures Increasing(ClampAll(CprEnds(found), hold, len), 0, len)
    ensures CprEnds(toks + found) == CprEnds(toks) + Shift(ClampAll(CprEnds(found), hold, len), before)
  {
    CprEndsAppend(toks, found);
  }

  /** What a stream asks for, read off its tokens. */
  ghost predicate Answered(scan: seq<byte> -> Found<Answer>, stream: seq<byte>, replies: seq<byte>, items: seq<Item>)
    requires Progressing(scan)
  {
    replies == Replies(Drain(scan, stream).toks) && FlagEnds(items) == CprEnds(Drain(scan, stream).toks)
  }

  /** Queries found after a held tail end beyond that tail. */
  ghost predicate EndsPastHold(scan: seq<byte> -> Found<Answer>)
    requires Progressing(scan)
  {
    forall hold: seq<byte>, p: seq<byte> {:trigger Drain(scan, hold + p)} :: scan(hold).Incomplete? ==>
                                                                               Increasing(CprEnds(Drain(scan, hold + p).toks), |hold|, |hold| + |p|)
  }

  /** The next chunk, scanned together with the held tail, continues the answers of the stream. */
  lemma {:induction false} AnswerStep(lim: seq<byte> -> Found<Answer>, scan: seq<byte> -> Found<Answer>, giveUp: seq<byte> -> Found<Answer>,
                                      chunks: seq<seq<byte>>, p: seq<byte>, found: Drained<Answer>, ends: seq<nat>,
                                      replies: seq<byte>, items: seq<Item>, pieces: seq<Item>)
    requires Progressing(lim) && Stable(scan) && Limits(lim, scan, giveUp) && EndsPastHold(scan)
    requires giveUp(RestAfter(scan, chunks + [p])).Incomplete?
    requires Answered(scan, Concat(chunks), replies, items) && Data(items) == Concat(chunks)
    requires found == Drain(lim, RestAfter(scan, chunks) + p)
    requires ends == ClampAll(CprEnds(found.toks), |RestAfter(scan, chunks)|, |p|)
    requires Increasing(ends, 0, |p|) ==> FlagEnds(pieces) == ends
    ensures Answered(scan, Concat(chunks + [p]), replies + Replies(found.toks), items + pieces)
    ensures RestAfter(scan, chunks + [p]) == found.rest
  {
    var hold := RestAfter(scan, chunks);
    var toks := Drain(scan, Concat(chunks)).toks;
    FeedWithin(lim, scan, giveUp, chunks, p);
    assert scan(hold).Incomplete?;
    FeedContinues(scan, chunks, p);
    DrainAccounts(scan, Concat(chunks));
    ChunkEnds(|Concat(chunks)|, |hold|, |p|, toks, found.toks);
    RepliesAppend(toks, found.toks);
    ItemsAppend(items, pieces);
  }

  lemma HeadEndsPastHold()
    requires Progressing(Head)
    ensures EndsPastHold(Head)
  {
    forall hold: seq<byte>, p: seq<byte> | Head(hold).Incomplete?
      ensures Increasing(CprEnds(Drain(Head, hold + p).toks), |hold|, |hold| + |p|)
    {
      EndsBeyondHold(hold, p);
    }
  }

  /** The scanner holds the tail of the stream read so far, and all of its queries have been answered. */
  ghost predicate OnTrack(buf: seq<byte>, chunks: seq<seq<byte>>, replies: seq<byte>, items: seq<Item>)
    requires Progressing(Head)
  {
    buf == RestAfter(Head, chunks) && Answered(Head, Concat(chunks), replies, items)
  }

  /** The body of the read loop, for one chunk. */
  method PumpChunk(scanner: QueryScanner, p: seq<byte>, ghost before: seq<seq<byte>>, replies: seq<byte>, items: seq<Item>)
    returns (replies': seq<byte>, items': seq<Item>)
    requires Data(items) == Concat(before)
    modifies scanner
    ensures Progressing(Head)
    ensures Data(items') == Concat(before + [p])
    ensures old(OnTrack(scanner.buf, before, replies, items)) && GiveUp(RestAfter(Head, before + [p])).Incomplete?
            ==> OnTrack(scanner.buf, before + [p], replies', items')
  {
    HeadStable();
    HeadEndsPastHold();
    ConcatSnoc(before, p);
    if |p| == 0 {
      assert Concat(before) + p == Concat(before);
      return replies, items;
    }
    ghost var found := Drain(HeadWithin, scanner.buf + p);
    var reply, ends := scanner.Feed(p);
    var pieces := EnqueueParse(p, ends);
    ItemsAppend(items, pieces);
    if old(OnTrack(scanner.buf, before, replies, items)) && GiveUp(RestAfter(Head, before + [p])).Incomplete? {
      AnswerStep(HeadWithin, Head, GiveUp, before, p, found, ends, replies, items, pieces);
    }
    return replies + reply, items + pieces;
  }

  /**
    Every chunking that never overruns the hold limit yields the replies and the
    cursor-report offsets of the stream itself; and under every chunking the items
    put on the parse queue are exactly the bytes of the stream.
  */
  method PumpOutput(chunks: seq<seq<byte>>) returns (replies: seq<byte>, items: seq<Item>)
    ensures Progressing(Head)
    ensures Data(items) == Concat(chunks)
    ensures StaysWithin(Head, GiveUp, chunks) ==> Answered(Head, Concat(chunks), replies, items)
  {
    HeadStable();
    var scanner := new QueryScanner();
    replies, items := [], [];
    for i := 0 to |chunks|
      invariant Data(items) == Concat(chunks[..i])
      invariant StaysWithin(Head, GiveUp, chunks) ==> OnTrack(scanner.buf, chunks[..i], replies, items)
    {
      assert chunks[..i + 1] == chunks[..i] + [chunks[i]];
      replies, items := PumpChunk(scanner, chunks[i], chunks[..i], replies, items);
    }
    assert chunks[..|chunks|] == chunks;
  }

  /**
    Two chunkings of one stream, neither overrunning the limit, cannot be told apart,
    and the flagged items end exactly at the stream's cursor-position queries.
  */
  lemma ChunkingInvisible(stream: seq<byte>, r1: seq<byte>, items1: seq<Item>, r2: seq<byte>, items2: seq<Item>)
    requires Progressing(Head)
    requires Answered(Head, stream, r1, items1) && Answered(Head, stream, r2, items2)
    ensures r1 == r2 && FlagEnds(items1) == FlagEnds(items2)
    ensures forall e: nat :: e in FlagEnds(items1) <==> QueryAt(Head, stream, e)
  {
    forall e: nat ensures e in FlagEnds(items1) <==> QueryAt(Head, stream, e) {
      CprEndsAreTheQueries(stream, e);
    }
  }

  /** A stream is safe under every chunking exactly when no prefix leaves more than 128 bytes unfinished. */
  lemma SafeUnderEveryChunkingIff(stream: seq<byte>)
    requires Progressing(Head)
    ensures (forall k :: 0 <= k <= |stream| ==> |Drain(Head, stream[..k]).rest| <= 128)
       <==> forall chunks: seq<seq<byte>> :: Concat(chunks) == stream ==> StaysWithin(Head, GiveUp, chunks)
  {
    NeverGivesUpIff(Head, GiveUp, stream);
    assert (forall k :: 0 <= k <= |stream| ==> |Drain(Head, stream[..k]).rest| <= HOLD_MAX)
      <==> Holdable(Head, GiveUp, stream);
  }
}
