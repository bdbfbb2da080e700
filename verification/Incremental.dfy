/**
  Theory of incremental scanners. The terminal pipeline has three of them (the
  query scanner, the keyboard-mode stripper and the kitty key decoder); each keeps
  an unfinished tail between calls and rescans it with the next chunk. A scanner is
  described by what it finds at the head of its buffer; everything about chunking
  follows from one property of that description, `Stable`.
*/
module Incremental {
  import opened Base

  /** What stands at the head of a buffer: nothing complete yet, or a token. */
  datatype Found<+O> = Incomplete | Token(len: nat, out: O)

  datatype Tok<+O> = Tok(len: nat, out: O)

  /** Tokens found, and the tail that has to wait for more bytes. */
  datatype Drained<+O> = Drained(toks: seq<Tok<O>>, rest: seq<byte>)

  /** Every token is a non-empty piece of the buffer. */
  ghost predicate Progressing<O>(scan: seq<byte> -> Found<O>) {
    forall s: seq<byte> :: scan(s).Token? ==> 1 <= scan(s).len <= |s|
  }

  ghost predicate StableAt<O>(scan: seq<byte> -> Found<O>, s: seq<byte>, t: seq<byte>) {
    scan(s).Token? ==> scan(s + t) == scan(s)
  }

  /** A token, once recognised, is not changed by the bytes that follow. */
  ghost predicate Stable<O(!new)>(scan: seq<byte> -> Found<O>) {
    && Progressing(scan)
    && forall s: seq<byte>, t: seq<byte> :: StableAt(scan, s, t)
  }

  ghost function Drain<O>(scan: seq<byte> -> Found<O>, s: seq<byte>): (d: Drained<O>)
    requires Progressing(scan)
    ensures |d.rest| <= |s|
    ensures scan(d.rest).Incomplete?
    decreases |s|
  {
    match scan(s)
    case Incomplete => Drained([], s)
    case Token(n, out) =>
      var d := Drain(scan, s[n..]);
      Drained([Tok(n, out)] + d.toks, d.rest)
  }

  /** The scan of `s` comes to stand at offset `p`: what is there is not inside an earlier token. */
  ghost predicate Begins<O>(scan: seq<byte> -> Found<O>, s: seq<byte>, p: nat)
    requires Progressing(scan)
    decreases |s|
  {
    p == 0 || (scan(s).Token? && scan(s).len <= p && Begins(scan, s[scan(s).len..], p - scan(s).len))
  }

  function TotalLen<O>(toks: seq<Tok<O>>): (n: nat)
  {
    if toks == [] then 0 else TotalLen(toks[..|toks| - 1]) + toks[|toks| - 1].len
  }

  lemma {:induction false} TotalLenAppend<O>(a: seq<Tok<O>>, b: seq<Tok<O>>)
    ensures TotalLen(a + b) == TotalLen(a) + TotalLen(b)
    decreases |b|
  {
    if b == [] {
      assert a + b == a;
    } else {
      var init, last := b[..|b| - 1], b[|b| - 1];
      assert a + b == (a + init) + [last];
      TotalLenAppend(a, init);
    }
  }

  /** The tokens and the waiting tail account for every byte of the buffer. */
  lemma DrainAccounts<O>(scan: seq<byte> -> Found<O>, s: seq<byte>)
    requires Progressing(scan)
    ensures TotalLen(Drain(scan, s).toks) + |Drain(scan, s).rest| == |s|
    ensures Drain(scan, s).rest == s[|s| - |Drain(scan, s).rest|..]
  {
    DrainTotal(scan, s);
    DrainSuffix(scan, s);
  }

  lemma {:induction false} DrainTotal<O>(scan: seq<byte> -> Found<O>, s: seq<byte>)
    requires Progressing(scan)
    ensures TotalLen(Drain(scan, s).toks) + |Drain(scan, s).rest| == |s|
    decreases |s|
  {
    match scan(s)
    case Incomplete =>
    case Token(n, out) =>
      DrainTotal(scan, s[n..]);
      TotalLenAppend([Tok(n, out)], Drain(scan, s[n..]).toks);
      assert [] + [Tok(n, out)] == [Tok(n, out)];
  }

  lemma {:induction false} DrainSuffix<O>(scan: seq<byte> -> Found<O>, s: seq<byte>)
    requires Progressing(scan)
    ensures Drain(scan, s).rest == s[|s| - |Drain(scan, s).rest|..]
    decreases |s|
  {
    match scan(s)
    case Incomplete =>
    case Token(n, out) => DrainSuffix(scan, s[n..]);
  }

  /**
    Scanning a buffer and then its tail together with more bytes is the same as
    scanning all the bytes at once.
  */
  lemma {:induction false} DrainAppend<O(!new)>(scan: seq<byte> -> Found<O>, s: seq<byte>, t: seq<byte>)
    requires Stable(scan)
    ensures Drain(scan, s + t)
         == Drained(Drain(scan, s).toks + Drain(scan, Drain(scan, s).rest + t).toks,
                    Drain(scan, Drain(scan, s).rest + t).rest)
    decreases |s|
  {
    match scan(s)
    case Incomplete =>
    case Token(n, out) =>
      assert StableAt(scan, s, t);
      assert (s + t)[n..] == s[n..] + t;
      DrainAppend(scan, s[n..], t);
      var first := Drain(scan, s[n..]);
      var second := Drain(scan, first.rest + t);
      assert [Tok(n, out)] + (first.toks + second.toks) == ([Tok(n, out)] + first.toks) + second.toks;
  }

  /** The tail kept after the chunks of a run. */
  ghost function RestAfter<O>(scan: seq<byte> -> Found<O>, chunks: seq<seq<byte>>): seq<byte>
    requires Progressing(scan)
  {
    Drain(scan, Concat(chunks)).rest
  }

  /** Feeding one more chunk to the tail of a run continues the scan of the whole stream. */
  lemma FeedContinues<O(!new)>(scan: seq<byte> -> Found<O>, chunks: seq<seq<byte>>, p: seq<byte>)
    requires Stable(scan)
    ensures Drain(scan, Concat(chunks + [p]))
         == Drained(Drain(scan, Concat(chunks)).toks + Drain(scan, RestAfter(scan, chunks) + p).toks,
                    Drain(scan, RestAfter(scan, chunks) + p).rest)
  {
    ConcatSnoc(chunks, p);
    DrainAppend(scan, Concat(chunks), p);
  }

  // ---- Scanners that give up on a tail they cannot hold ----

  /**
    `lim` is the scanner `scan` with an escape hatch: `giveUp` decides what to do with
    an incomplete tail (keep waiting, or emit something and go on).
  */
  ghost predicate Limits<O(!new)>(lim: seq<byte> -> Found<O>, scan: seq<byte> -> Found<O>, giveUp: seq<byte> -> Found<O>)
  {
    forall s: seq<byte> :: lim(s) == if scan(s).Token? then scan(s) else giveUp(s)
  }

  /** As long as the tail need not be given up, the limited scanner does what the plain one does. */
  lemma {:induction false} LimitUnused<O(!new)>(lim: seq<byte> -> Found<O>, scan: seq<byte> -> Found<O>,
                                                giveUp: seq<byte> -> Found<O>, s: seq<byte>)
    requires Progressing(lim) && Progressing(scan) && Limits(lim, scan, giveUp)
    requires giveUp(Drain(scan, s).rest).Incomplete?
    ensures Drain(lim, s) == Drain(scan, s)
    decreases |s|
  {
    match scan(s)
    case Incomplete =>
    case Token(n, out) =>
      LimitUnused(lim, scan, giveUp, s[n..]);
  }

  /** A run never has to give up a tail. */
  ghost predicate StaysWithin<O>(scan: seq<byte> -> Found<O>, giveUp: seq<byte> -> Found<O>, chunks: seq<seq<byte>>)
    requires Progressing(scan)
  {
    forall i {:trigger chunks[..i]} :: 0 <= i <= |chunks| ==> giveUp(RestAfter(scan, chunks[..i])).Incomplete?
  }

  /** A chunk after which the tail can be held is scanned as the plain scanner would. */
  lemma FeedWithin<O(!new)>(lim: seq<byte> -> Found<O>, scan: seq<byte> -> Found<O>, giveUp: seq<byte> -> Found<O>,
                            chunks: seq<seq<byte>>, p: seq<byte>)
    requires Progressing(lim) && Stable(scan) && Limits(lim, scan, giveUp)
    requires giveUp(RestAfter(scan, chunks + [p])).Incomplete?
    ensures Drain(lim, RestAfter(scan, chunks) + p) == Drain(scan, RestAfter(scan, chunks) + p)
    ensures Drain(lim, RestAfter(scan, chunks) + p).rest == RestAfter(scan, chunks + [p])
  {
    FeedContinues(scan, chunks, p);
    LimitUnused(lim, scan, giveUp, RestAfter(scan, chunks) + p);
  }

  /** Every prefix of the stream ends in a tail that can be held. */
  ghost predicate Holdable<O>(scan: seq<byte> -> Found<O>, giveUp: seq<byte> -> Found<O>, stream: seq<byte>)
    requires Progressing(scan)
  {
    forall k {:trigger stream[..k]} :: 0 <= k <= |stream| ==> giveUp(Drain(scan, stream[..k]).rest).Incomplete?
  }

  /** The streams for which no chunking whatsoever reaches the give-up branch. */
  lemma NeverGivesUpIff<O(!new)>(scan: seq<byte> -> Found<O>, giveUp: seq<byte> -> Found<O>, stream: seq<byte>)
    requires Progressing(scan)
    ensures Holdable(scan, giveUp, stream)
       <==> forall chunks: seq<seq<byte>> :: Concat(chunks) == stream ==> StaysWithin(scan, giveUp, chunks)
  {
    if Holdable(scan, giveUp, stream) {
      forall chunks: seq<seq<byte>> | Concat(chunks) == stream ensures StaysWithin(scan, giveUp, chunks) {
        HoldableStays(scan, giveUp, stream, chunks);
      }
    }
    if forall chunks: seq<seq<byte>> :: Concat(chunks) == stream ==> StaysWithin(scan, giveUp, chunks) {
      forall k | 0 <= k <= |stream| ensures giveUp(Drain(scan, stream[..k]).rest).Incomplete? {
        TwoChunks(stream, k);
        var chunks := [stream[..k], stream[k..]];
        assert StaysWithin(scan, giveUp, chunks);
        assert RestAfter(scan, chunks[..1]) == Drain(scan, stream[..k]).rest;
      }
    }
  }

  lemma HoldableStays<O(!new)>(scan: seq<byte> -> Found<O>, giveUp: seq<byte> -> Found<O>, stream: seq<byte>, chunks: seq<seq<byte>>)
    requires Progressing(scan) && Holdable(scan, giveUp, stream) && Concat(chunks) == stream
    ensures StaysWithin(scan, giveUp, chunks)
  {
    forall i | 0 <= i <= |chunks| ensures giveUp(RestAfter(scan, chunks[..i])).Incomplete? {
      assert chunks == chunks[..i] + chunks[i..];
      ConcatAppend(chunks[..i], chunks[i..]);
      assert stream[..|Concat(chunks[..i])|] == Concat(chunks[..i]);
    }
  }

  lemma TwoChunks(stream: seq<byte>, k: nat)
    requires k <= |stream|
    ensures Concat([stream[..k], stream[k..]]) == stream && Concat([stream[..k], stream[k..]][..1]) == stream[..k]
  {
    var chunks := [stream[..k], stream[k..]];
    assert chunks == [stream[..k]] + [stream[k..]];
    ConcatSnoc([stream[..k]], stream[k..]);
    ConcatSnoc([], stream[..k]);
    assert [] + [stream[..k]] == [stream[..k]];
    assert chunks[..1] == [stream[..k]];
  }

  // ---- Scanning a buffer position by position ----

  /** The tokens `toks` have been taken off the front of `all`, up to `pos`. */
  ghost predicate Reached<O>(scan: seq<byte> -> Found<O>, all: seq<byte>, pos: nat, toks: seq<Tok<O>>)
    requires Progressing(scan)
  {
    && pos == TotalLen(toks) <= |all|
    && Drain(scan, all) == Drained(toks + Drain(scan, all[pos..]).toks, Drain(scan, all[pos..]).rest)
  }

  lemma ReachedStep<O>(scan: seq<byte> -> Found<O>, all: seq<byte>, pos: nat, end: nat, toks: seq<Tok<O>>, out: O)
    requires Progressing(scan)
    requires Reached(scan, all, pos, toks) && pos <= end && scan(all[pos..]) == Token(end - pos, out)
    ensures pos < end <= |all| && Reached(scan, all, end, toks + [Tok(end - pos, out)])
  {
    var t := Tok(end - pos, out);
    var rest := Drain(scan, all[end..]).toks;
    assert all[pos..][t.len..] == all[end..];
    assert toks + ([t] + rest) == (toks + [t]) + rest;
  }

  lemma ReachedEnd<O>(scan: seq<byte> -> Found<O>, all: seq<byte>, pos: nat, toks: seq<Tok<O>>)
    requires Progressing(scan)
    requires Reached(scan, all, pos, toks) && scan(all[pos..]).Incomplete?
    ensures Drain(scan, all) == Drained(toks, all[pos..])
  {
    assert toks + [] == toks;
  }
}
