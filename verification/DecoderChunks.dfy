/**
  For which streams the kitty key decoder does not depend on the cutting into chunks.
  It forwards a lone ESC at once, so a boundary after ESC always shows unless the
  sequence comes out as it went in.
*/
module DecoderChunks {
  import opened Base
  import opened Incremental
  import opened KeyFilters
  import QueryScan

  /** From position `from` on, whatever begins with ESC comes out as it went in. */
  ghost predicate Verbatim(scan: seq<byte> -> Found<seq<byte>>, s: seq<byte>, from: nat) {
    forall p :: from <= p < |s| && s[p] == ESC ==> VerbatimAt(scan, s, p)
  }

  /** A token is not changed by the bytes that follow, or is forwarded as it is. */
  ghost predicate SettlesAt(scan: seq<byte> -> Found<seq<byte>>, s: seq<byte>, t: seq<byte>) {
    scan(s).Token? && scan(s).len <= |s| ==> scan(s + t) == scan(s) || scan(s).out == s[..scan(s).len]
  }

  /** Scanners that forward text and a lone ESC at once. */
  ghost predicate Forwarding(scan: seq<byte> -> Found<seq<byte>>) {
    && Progressing(scan)
    && scan([]).Incomplete?
    && scan([ESC]) == Token(1, [ESC])
    && (forall u: seq<byte> :: TextAt(scan, u))
    && (forall u: seq<byte>, t: seq<byte> :: SettlesAt(scan, u, t))
  }

  /** Nothing of a verbatim stream waits at its end. */
  lemma NothingWaits(scan: seq<byte> -> Found<seq<byte>>, s: seq<byte>, q: nat)
    requires Forwarding(scan) && q < |s| && Verbatim(scan, s, q)
    ensures scan(s[q..]).Token?
  {
    assert TextAt(scan, s[q..]);
    assert s[q] == ESC ==> VerbatimAt(scan, s, q);
  }

  /** What came out of a buffer and the tail that waits are the buffer. */
  ghost predicate Forwarded(scan: seq<byte> -> Found<seq<byte>>, u: seq<byte>)
    requires Progressing(scan)
  {
    Output(Drain(scan, u).toks) + Drain(scan, u).rest == u
  }

  lemma TokenForwarded(scan: seq<byte> -> Found<seq<byte>>, u: seq<byte>, n: nat)
    requires Progressing(scan) && n <= |u| && scan(u) == Token(n, u[..n]) && Forwarded(scan, u[n..])
    ensures Forwarded(scan, u)
  {
    TokenThen(scan, u);
    Prepend(u[..n], Output(Drain(scan, u[n..]).toks), Drain(scan, u[n..]).rest, u[n..]);
    Halves(u, n);
  }

  lemma Halves(u: seq<byte>, n: nat)
    requires n <= |u|
    ensures u[..n] + u[n..] == u
  {
  }

  lemma PieceBehind(s: seq<byte>, q: nat, r: nat, n: nat)
    requires q + n <= r <= |s|
    ensures s[q..r][n..] == s[q + n..r]
  {
  }

  lemma NothingForwarded(scan: seq<byte> -> Found<seq<byte>>, u: seq<byte>)
    requires Progressing(scan) && scan(u).Incomplete?
    ensures Forwarded(scan, u)
  {
    assert Drain(scan, u) == Drained([], u);
  }

  /** A piece of a verbatim stream comes out as it went in, up to the tail that waits. */
  lemma {:induction false} PieceForwarded(scan: seq<byte> -> Found<seq<byte>>, s: seq<byte>, q: nat, r: nat)
    requires Forwarding(scan) && q <= r <= |s| && Verbatim(scan, s, q)
    ensures Forwarded(scan, s[q..r])
    decreases r - q
  {
    if scan(s[q..r]).Token? {
      HeadForwarded(scan, s, q, r);
      var n := scan(s[q..r]).len;
      PieceForwarded(scan, s, q + n, r);
      PieceBehind(s, q, r, n);
      TokenForwarded(scan, s[q..r], n);
    } else {
      NothingForwarded(scan, s[q..r]);
    }
  }

  lemma TailForwarded(scan: seq<byte> -> Found<seq<byte>>, s: seq<byte>, q: nat)
    requires Forwarding(scan) && q <= |s| && Verbatim(scan, s, q)
    ensures Drain(scan, s[q..]).rest == [] && Output(Drain(scan, s[q..]).toks) == s[q..]
  {
    TailEmpty(scan, s, q);
    PieceForwarded(scan, s, q, |s|);
    assert s[q..|s|] == s[q..];
    assert Output(Drain(scan, s[q..]).toks) + [] == Output(Drain(scan, s[q..]).toks);
  }

  lemma {:induction false} TailEmpty(scan: seq<byte> -> Found<seq<byte>>, s: seq<byte>, q: nat)
    requires Forwarding(scan) && q <= |s| && Verbatim(scan, s, q)
    ensures Drain(scan, s[q..]).rest == []
    decreases |s| - q
  {
    if q < |s| {
      NothingWaits(scan, s, q);
      var n := scan(s[q..]).len;
      TailEmpty(scan, s, q + n);
      assert s[q..][n..] == s[q + n..];
    }
  }

  lemma HeadForwarded(scan: seq<byte> -> Found<seq<byte>>, s: seq<byte>, q: nat, r: nat)
    requires Forwarding(scan) && q <= r <= |s| && Verbatim(scan, s, q) && scan(s[q..r]).Token?
    ensures var f := scan(s[q..r]); 1 <= f.len <= r - q && f.out == s[q..r][..f.len]
  {
    var u, t := s[q..r], s[r..];
    assert u + t == s[q..] && u[0] == s[q];
    assert SettlesAt(scan, u, t) && TextAt(scan, u);
    if s[q] == ESC {
      assert VerbatimAt(scan, s, q);
    }
  }

  /** Any chunking of a verbatim stream: what was put out and what is held are the bytes fed so far. */
  lemma {:induction false} ChunksForwarded(scan: seq<byte> -> Found<seq<byte>>, s: seq<byte>, chunks: seq<seq<byte>>)
    requires Forwarding(scan) && Verbatim(scan, s, 0) && Concat(chunks) <= s
    ensures var r := Run(scan, chunks); r.out + r.hold == Concat(chunks) && (Concat(chunks) == s ==> r.hold == [])
    decreases |chunks|
  {
    if chunks != [] {
      var init, p := chunks[..|chunks| - 1], chunks[|chunks| - 1];
      assert chunks == init + [p];
      ConcatSnoc(init, p);
      assert Concat(init) <= Concat(chunks);
      ChunksForwarded(scan, s, init);
      var before := Run(scan, init);
      Prepend(before.out, before.hold, p, before.hold + p);
      ChunkForwarded(scan, s, before.out, before.hold + p);
    }
  }

  lemma ChunkForwarded(scan: seq<byte> -> Found<seq<byte>>, s: seq<byte>, out: seq<byte>, u: seq<byte>)
    requires Forwarding(scan) && Verbatim(scan, s, 0) && out + u <= s
    ensures (out + Output(Drain(scan, u).toks)) + Drain(scan, u).rest == out + u
    ensures out + u == s ==> Drain(scan, u).rest == []
  {
    var q, r := |out|, |out + u|;
    assert u == s[q..r];
    PieceForwarded(scan, s, q, r);
    Prepend(out, Output(Drain(scan, u).toks), Drain(scan, u).rest, u);
    if r == |s| {
      TailEmpty(scan, s, q);
      assert s[q..] == s[q..r];
    }
  }

  lemma AllForwarded(scan: seq<byte> -> Found<seq<byte>>, s: seq<byte>, chunks: seq<seq<byte>>)
    requires Forwarding(scan) && Verbatim(scan, s, 0) && Concat(chunks) == s
    ensures Run(scan, chunks) == Filtered(s, [])
  {
    ChunksForwarded(scan, s, chunks);
    assert Run(scan, chunks).out + [] == Run(scan, chunks).out;
  }

  function Bytewise(s: seq<byte>): seq<seq<byte>> {
    if s == [] then [] else Bytewise(s[..|s| - 1]) + [[s[|s| - 1]]]
  }

  lemma {:induction false} BytewiseConcat(s: seq<byte>)
    ensures Concat(Bytewise(s)) == s
    decreases |s|
  {
    if s != [] {
      BytewiseConcat(s[..|s| - 1]);
      ConcatSnoc(Bytewise(s[..|s| - 1]), [s[|s| - 1]]);
    }
  }

  lemma OneByte(scan: seq<byte> -> Found<seq<byte>>, b: byte)
    requires Forwarding(scan)
    ensures Drain(scan, [b]).rest == [] && Output(Drain(scan, [b]).toks) == [b]
  {
    assert TextAt(scan, [b]);
    assert scan([b]) == Token(1, [b]);
    TokenThen(scan, [b]);
    assert [b][1..] == [];
  }

  /** One more chunk after a run that holds nothing. */
  lemma RunSnoc(scan: seq<byte> -> Found<seq<byte>>, init: seq<seq<byte>>, p: seq<byte>)
    requires Progressing(scan) && Run(scan, init).hold == []
    ensures Run(scan, init + [p]) == Filtered(Run(scan, init).out + Output(Drain(scan, p).toks), Drain(scan, p).rest)
  {
    assert (init + [p])[..|init|] == init;
    assert [] + p == p;
  }

  /** Fed byte by byte, such a scanner forwards every stream. */
  lemma {:induction false} BytewiseForwards(scan: seq<byte> -> Found<seq<byte>>, s: seq<byte>)
    requires Forwarding(scan)
    ensures Run(scan, Bytewise(s)) == Filtered(s, [])
    decreases |s|
  {
    if s != [] {
      var n := |s| - 1;
      BytewiseForwards(scan, s[..n]);
      OneByte(scan, s[n]);
      RunSnoc(scan, Bytewise(s[..n]), [s[n]]);
      InitLast(s);
    }
  }

  /** The bytes before the last rewritten position one by one, and then the rest, do not come out as they went in. */
  lemma RewrittenShows(scan: seq<byte> -> Found<seq<byte>>, s: seq<byte>, p: nat)
    requires Forwarding(scan) && p < |s| && s[p] == ESC && !VerbatimAt(scan, s, p) && Verbatim(scan, s, p + 1)
    ensures Concat(Bytewise(s[..p]) + [s[p..]]) == s
    ensures Run(scan, Bytewise(s[..p]) + [s[p..]]) != Filtered(s, [])
  {
    var init, tail := Bytewise(s[..p]), s[p..];
    BytewiseConcat(s[..p]);
    ConcatSnoc(init, tail);
    BytewiseForwards(scan, s[..p]);
    RunSnoc(scan, init, tail);
    assert s == s[..p] + tail;
    RewrittenTail(scan, s, p);
    var d := Drain(scan, tail);
    if s[..p] + Output(d.toks) == s {
      assert Output(d.toks) == (s[..p] + Output(d.toks))[p..] == tail;
    }
  }

  lemma RewrittenTail(scan: seq<byte> -> Found<seq<byte>>, s: seq<byte>, p: nat)
    requires Forwarding(scan) && p < |s| && s[p] == ESC && !VerbatimAt(scan, s, p) && Verbatim(scan, s, p + 1)
    ensures var d := Drain(scan, s[p..]); d.rest == [] ==> Output(d.toks) != s[p..]
  {
    var f := scan(s[p..]);
    if f.Token? {
      assert s[p..][f.len..] == s[p + f.len..] && s[p..][..f.len] == s[p..p + f.len];
      TailForwarded(scan, s, p + f.len);
      TokenRewritten(scan, s[p..]);
    }
  }

  lemma TokenRewritten(scan: seq<byte> -> Found<seq<byte>>, u: seq<byte>)
    requires Progressing(scan) && scan(u).Token? && scan(u).out != u[..scan(u).len]
    requires Output(Drain(scan, u[scan(u).len..]).toks) == u[scan(u).len..]
    ensures Output(Drain(scan, u).toks) != u
  {
    TokenThen(scan, u);
    SameEnds(scan(u).out, u, scan(u).len);
  }

  /** The last position from which on not everything is verbatim. */
  lemma {:induction false} LastRewritten(scan: seq<byte> -> Found<seq<byte>>, s: seq<byte>, from: nat) returns (p: nat)
    requires from <= |s| && !Verbatim(scan, s, from)
    ensures from <= p < |s| && s[p] == ESC && !VerbatimAt(scan, s, p) && Verbatim(scan, s, p + 1)
    decreases |s| - from
  {
    if Verbatim(scan, s, from + 1) {
      p := from;
    } else {
      p := LastRewritten(scan, s, from + 1);
    }
  }

  lemma RewrittenDisagrees(scan: seq<byte> -> Found<seq<byte>>, s: seq<byte>) returns (a: seq<seq<byte>>, b: seq<seq<byte>>)
    requires Forwarding(scan) && !Verbatim(scan, s, 0)
    ensures Concat(a) == s && Concat(b) == s && !Agree(scan, a, b)
  {
    var p := LastRewritten(scan, s, 0);
    RewrittenShows(scan, s, p);
    BytewiseForwards(scan, s);
    BytewiseConcat(s);
    a, b := Bytewise(s[..p]) + [s[p..]], Bytewise(s);
  }

  /** All chunkings of a stream agree if and only if nothing in it would be rewritten or held. */
  lemma ChunkingsAgreeIff(scan: seq<byte> -> Found<seq<byte>>, s: seq<byte>)
    requires Forwarding(scan)
    ensures (forall a: seq<seq<byte>>, b: seq<seq<byte>> :: Concat(a) == s && Concat(b) == s ==> Agree(scan, a, b))
       <==> Verbatim(scan, s, 0)
  {
    if Verbatim(scan, s, 0) {
      forall a: seq<seq<byte>>, b: seq<seq<byte>> | Concat(a) == s && Concat(b) == s ensures Agree(scan, a, b) {
        AllForwarded(scan, s, a);
        AllForwarded(scan, s, b);
      }
    } else {
      var a, b := RewrittenDisagrees(scan, s);
    }
  }

  lemma KittyForwards(decode: seq<byte> -> Option<seq<byte>>)
    ensures Forwarding(KittyWithin(decode))
  {
    KittyStable(decode);
    forall u: seq<byte>, t: seq<byte> ensures SettlesAt(KittyWithin(decode), u, t) {
      assert StableAt(KittyHead(decode), u, t);
    }
  }

  /**
    All ways of cutting a stream give the decoder the same output and the same held
    tail if and only if every sequence that begins with ESC, anywhere in the stream,
    is complete or given up, and comes out as it went in.
  */
  lemma DecoderAgreesIff(decode: seq<byte> -> Option<seq<byte>>, s: seq<byte>)
    ensures Progressing(KittyWithin(decode))
    ensures (forall a: seq<seq<byte>>, b: seq<seq<byte>> :: Concat(a) == s && Concat(b) == s ==> Agree(KittyWithin(decode), a, b))
       <==> forall p :: 0 <= p < |s| && s[p] == ESC ==> VerbatimAt(KittyWithin(decode), s, p)
  {
    KittyForwards(decode);
    ChunkingsAgreeIff(KittyWithin(decode), s);
  }

  /** A run of one chunk that the scanner takes as one token. */
  lemma OneToken(scan: seq<byte> -> Found<seq<byte>>, u: seq<byte>)
    requires Progressing(scan) && scan([]).Incomplete? && scan(u).Token? && scan(u).len == |u|
    ensures Run(scan, [u]) == Filtered(scan(u).out, [])
  {
    RunSnoc(scan, [], u);
    assert [] + [u] == [u] && u[|u|..] == [];
    TokenThen(scan, u);
  }

  lemma EscThenText(scan: seq<byte> -> Found<seq<byte>>, text: seq<byte>)
    requires Forwarding(scan) && ESC !in text
    ensures Run(scan, [[ESC], text]) == Filtered([ESC] + text, [])
  {
    OneToken(scan, [ESC]);
    TailForwarded(scan, text, 0);
    assert text[0..] == text;
    RunSnoc(scan, [[ESC]], text);
    assert [[ESC]] + [text] == [[ESC], text];
  }

  ghost predicate IsReport(report: seq<byte>) {
    && |report| >= 2 && report[0] == LBRACKET && QueryScan.CsiFinal(report[|report| - 1])
    && forall k :: 1 <= k < |report| - 1 ==> report[k] >= 0x20 && !QueryScan.CsiFinal(report[k])
  }

  lemma ReportIsText(report: seq<byte>)
    requires IsReport(report)
    ensures ESC !in report
  {
    forall k | 0 <= k < |report| ensures report[k] != ESC {
      if k == |report| - 1 {
        assert QueryScan.CsiFinal(report[k]);
      }
    }
  }

  lemma WholeReport(decode: seq<byte> -> Option<seq<byte>>, report: seq<byte>)
    requires IsReport(report)
    ensures KittyWithin(decode)([ESC] + report) == Token(|report| + 1, KittyRewrite(decode)([ESC] + report))
  {
    var s := [ESC] + report;
    var j := CsiStop(s, 2);
    assert forall k :: 2 <= k < |s| - 1 ==> s[k] == report[k - 1];
    assert s[|s| - 1] == report[|report| - 1];
    assert j == |s| - 1;
    assert s[..j + 1] == s;
  }

  /** A boundary right after ESC makes the decoder forward a report that it rewrites when it comes in one piece. */
  lemma SplitReportIsNotDecoded(decode: seq<byte> -> Option<seq<byte>>, report: seq<byte>)
    requires IsReport(report)
    ensures Progressing(KittyWithin(decode))
    ensures Run(KittyWithin(decode), [[ESC], report]) == Filtered([ESC] + report, [])
    ensures Run(KittyWithin(decode), [[ESC] + report]) == Filtered(KittyRewrite(decode)([ESC] + report), [])
  {
    KittyForwards(decode);
    WholeReport(decode, report);
    OneToken(KittyWithin(decode), [ESC] + report);
    ReportIsText(report);
    EscThenText(KittyWithin(decode), report);
  }

  lemma TwoCuts(a: seq<byte>, b: seq<byte>)
    ensures Concat([a, b]) == a + b == Concat([a + b])
  {
    assert [a, b][..1] == [a] && [a][..0] == [];
    assert Concat<byte>([]) == [] && Concat([a]) == [] + a == a;
    assert [a + b][..0] == [] && [] + (a + b) == a + b;
  }

  /** The two ways of cutting agree if and only if the report stands for itself. */
  lemma DecodedReportShows(decode: seq<byte> -> Option<seq<byte>>, report: seq<byte>)
    requires IsReport(report)
    ensures Progressing(KittyWithin(decode))
    ensures Concat([[ESC], report]) == Concat([[ESC] + report])
    ensures Agree(KittyWithin(decode), [[ESC], report], [[ESC] + report]) <==> KittyRewrite(decode)([ESC] + report) == [ESC] + report
  {
    SplitReportIsNotDecoded(decode, report);
    TwoCuts([ESC], report);
  }
}
