/**
  The two byte filters between the outer terminal and the child: the stripper that
  removes keyboard-mode changes from PTY output, and the decoder that turns kitty key
  reports back into plain bytes. What they do with one complete control sequence is a
  parameter here; what matters is that the cutting of the stream into chunks does not
  show in their output.
*/
module KeyFilters {
  import opened Base
  import opened Incremental
  import QueryScan

  const STRIP_HOLD_MAX := 64
  const KITTY_HOLD_MAX := 256

  /** Where the parameters of a control sequence stop: at a final byte or a control byte. */
  function CsiStop(s: seq<byte>, i: nat): (j: nat)
    requires i <= |s|
    ensures i <= j <= |s|
    ensures forall k :: i <= k < j ==> !QueryScan.CsiFinal(s[k]) && s[k] >= 0x20
    ensures j < |s| ==> QueryScan.CsiFinal(s[j]) || s[j] < 0x20
    decreases |s| - i
  {
    if i == |s| || QueryScan.CsiFinal(s[i]) || s[i] < 0x20 then i else CsiStop(s, i + 1)
  }

  /**
    The grammar both filters follow. `complete` says what becomes of a complete
    control sequence, `cancelled` of one interrupted by a control byte.
  */
  function Head(s: seq<byte>, complete: seq<byte> -> seq<byte>, cancelled: seq<byte> -> seq<byte>): (f: Found<seq<byte>>)
    ensures f.Token? ==> 1 <= f.len <= |s|
  {
    if s == [] then Incomplete
    else if s[0] != ESC then Token(1, [s[0]])
    else if |s| < 2 then Incomplete
    else if s[1] != LBRACKET then Token(2, s[..2])
    else
      var j := CsiStop(s, 2);
      if j == |s| then Incomplete
      else if s[j] < 0x20 then Token(j, cancelled(s[..j]))
      else Token(j + 1, complete(s[..j + 1]))
  }

  /** A byte that ends a control sequence, or cancels it. */
  ghost predicate Stops(s: seq<byte>, i: int) {
    2 <= i < |s| && (0x40 <= s[i] <= 0x7e || s[i] < 0x20)
  }

  /** The grammar, byte by byte: a control sequence runs to its final byte, or up to the control byte that cancels it. */
  lemma HeadMeans(s: seq<byte>, complete: seq<byte> -> seq<byte>, cancelled: seq<byte> -> seq<byte>)
    requires s != []
    ensures s[0] != 0x1b ==> Head(s, complete, cancelled) == Token(1, [s[0]])
    ensures s == [0x1b] ==> Head(s, complete, cancelled).Incomplete?
    ensures |s| >= 2 && s[0] == 0x1b && s[1] != 0x5b ==> Head(s, complete, cancelled) == Token(2, [0x1b, s[1]])
    ensures |s| >= 2 && s[0] == 0x1b && s[1] == 0x5b ==>
              && (Head(s, complete, cancelled).Token? <==> exists i :: Stops(s, i))
              && forall i :: Stops(s, i) && (forall k :: k < i ==> !Stops(s, k)) ==>
                               Head(s, complete, cancelled) == if s[i] < 0x20 then Token(i, cancelled(s[..i])) else Token(i + 1, complete(s[..i + 1]))
  {
    if |s| >= 2 && s[0] == 0x1b {
      assert s[..2] == [0x1b, s[1]];
      if s[1] == 0x5b {
        var j := CsiStop(s, 2);
        if j < |s| { assert Stops(s, j); }
        forall i | Stops(s, i) ensures j <= i && (i > j ==> Stops(s, j)) {
          assert QueryScan.CsiFinal(s[i]) || s[i] < 0x20;
        }
      }
    }
  }

  /** What becomes of complete sequences: focus reports vanish, key reports are decoded, others pass. */
  lemma RewriteMeans(decode: seq<byte> -> Option<seq<byte>>, s: seq<byte>)
    requires s != []
    ensures s[|s| - 1] == 0x49 || s[|s| - 1] == 0x4f ==> KittyRewrite(decode)(s) == []
    ensures s[|s| - 1] != 0x49 && s[|s| - 1] != 0x4f && decode(s).Some? ==> KittyRewrite(decode)(s) == decode(s).value
    ensures s[|s| - 1] != 0x49 && s[|s| - 1] != 0x4f && decode(s).None? ==> KittyRewrite(decode)(s) == s
  {
  }

  lemma CsiStopStable(s: seq<byte>, t: seq<byte>, i: nat)
    requires i <= |s| && CsiStop(s, i) < |s|
    ensures CsiStop(s + t, i) == CsiStop(s, i)
    decreases |s| - i
  {
    if !(QueryScan.CsiFinal(s[i]) || s[i] < 0x20) {
      CsiStopStable(s, t, i + 1);
    }
  }

  lemma HeadPrefix(s: seq<byte>, t: seq<byte>, complete: seq<byte> -> seq<byte>, cancelled: seq<byte> -> seq<byte>)
    requires Head(s, complete, cancelled).Token?
    ensures Head(s + t, complete, cancelled) == Head(s, complete, cancelled)
  {
    if s[0] == ESC {
      if s[1] == LBRACKET {
        CsiStopStable(s, t, 2);
        var j := CsiStop(s, 2);
        assert (s + t)[..j] == s[..j] && (s + t)[..j + 1] == s[..j + 1];
      } else {
        assert (s + t)[..2] == s[..2];
      }
    }
  }

  // ---- Output of a token list, and of a run ----

  function Output(toks: seq<Tok<seq<byte>>>): (r: seq<byte>)
  {
    if toks == [] then [] else Output(toks[..|toks| - 1]) + toks[|toks| - 1].out
  }

  lemma OutputSnoc(toks: seq<Tok<seq<byte>>>, t: Tok<seq<byte>>)
    ensures Output(toks + [t]) == Output(toks) + t.out
  {
    assert (toks + [t])[..|toks|] == toks;
  }

  lemma {:induction false} OutputAppend(a: seq<Tok<seq<byte>>>, b: seq<Tok<seq<byte>>>)
    ensures Output(a + b) == Output(a) + Output(b)
    decreases |b|
  {
    if b == [] {
      assert a + b == a;
    } else {
      var init, last := b[..|b| - 1], b[|b| - 1];
      assert a + b == (a + init) + [last];
      OutputSnoc(a + init, last);
      OutputAppend(a, init);
      assert (Output(a) + Output(init)) + last.out == Output(a) + (Output(init) + last.out);
    }
  }

  datatype Filtered = Filtered(out: seq<byte>, hold: seq<byte>)

  /** All the output of a run of calls, and what is held after it. */
  ghost function Run(scan: seq<byte> -> Found<seq<byte>>, chunks: seq<seq<byte>>): Filtered
    requires Progressing(scan)
  {
    if chunks == [] then Filtered([], [])
    else
      var before := Run(scan, chunks[..|chunks| - 1]);
      var d := Drain(scan, before.hold + chunks[|chunks| - 1]);
      Filtered(before.out + Output(d.toks), d.rest)
  }

  /** A run that never gives up a tail has the output and the held tail of the stream scanned whole. */
  lemma {:induction false} RunIsDrain(lim: seq<byte> -> Found<seq<byte>>, scan: seq<byte> -> Found<seq<byte>>,
                                      giveUp: seq<byte> -> Found<seq<byte>>, chunks: seq<seq<byte>>)
    requires Progressing(lim) && Stable(scan) && Limits(lim, scan, giveUp)
    requires scan([]).Incomplete? && StaysWithin(scan, giveUp, chunks)
    ensures Run(lim, chunks) == Filtered(Output(Drain(scan, Concat(chunks)).toks), RestAfter(scan, chunks))
    decreases |chunks|
  {
    if chunks != [] {
      var init, p := chunks[..|chunks| - 1], chunks[|chunks| - 1];
      assert chunks == init + [p];
      forall i | 0 <= i <= |init| ensures giveUp(RestAfter(scan, init[..i])).Incomplete? {
        assert init[..i] == chunks[..i];
      }
      RunIsDrain(lim, scan, giveUp, init);
      assert chunks[..|chunks|] == init + [p];
      FeedWithin(lim, scan, giveUp, init, p);
      FeedContinues(scan, init, p);
      OutputAppend(Drain(scan, Concat(init)).toks, Drain(scan, RestAfter(scan, init) + p).toks);
    }
  }

  /** Text is forwarded byte by byte. */
  ghost predicate TextAt(scan: seq<byte> -> Found<seq<byte>>, s: seq<byte>) {
    s != [] && s[0] != ESC ==> scan(s) == Token(1, [s[0]])
  }

  /** What a scanner finds at a position is what stands there. */
  ghost predicate VerbatimAt(scan: seq<byte> -> Found<seq<byte>>, s: seq<byte>, p: nat)
    requires p <= |s|
  {
    var f := scan(s[p..]); f.Token? && f.len <= |s| - p && f.out == s[p..p + f.len]
  }

  ghost predicate Agree(scan: seq<byte> -> Found<seq<byte>>, a: seq<seq<byte>>, b: seq<seq<byte>>)
    requires Progressing(scan)
  {
    Run(scan, a) == Run(scan, b)
  }

  lemma OutputCons(t: Tok<seq<byte>>, toks: seq<Tok<seq<byte>>>)
    ensures Output([t] + toks) == t.out + Output(toks)
  {
    OutputAppend([t], toks);
    OutputSnoc([], t);
    assert [] + [t] == [t];
  }

  lemma TokenThen(scan: seq<byte> -> Found<seq<byte>>, u: seq<byte>)
    requires Progressing(scan) && scan(u).Token?
    ensures Drain(scan, u).rest == Drain(scan, u[scan(u).len..]).rest
    ensures Output(Drain(scan, u).toks) == scan(u).out + Output(Drain(scan, u[scan(u).len..]).toks)
  {
    OutputCons(Tok(scan(u).len, scan(u).out), Drain(scan, u[scan(u).len..]).toks);
  }

  lemma Prepend(a: seq<byte>, x: seq<byte>, y: seq<byte>, b: seq<byte>)
    requires x + y == b
    ensures (a + x) + y == a + b
  {
    assert (a + x) + y == a + (x + y);
  }

  lemma SameEnds(x: seq<byte>, u: seq<byte>, n: nat)
    requires n <= |u|
    ensures x + u[n..] == u ==> x == u[..n]
  {
    if x + u[n..] == u {
      assert |x| == n;
      assert x == (x + u[n..])[..n];
    }
  }

  lemma FilterStep(scan: seq<byte> -> Found<seq<byte>>, all: seq<byte>, pos: nat, end: nat,
                   toks: seq<Tok<seq<byte>>>, out: seq<byte>, piece: seq<byte>)
    returns (toks': seq<Tok<seq<byte>>>)
    requires Progressing(scan) && Reached(scan, all, pos, toks) && out == Output(toks)
    requires pos <= end && scan(all[pos..]) == Token(end - pos, piece)
    ensures pos < end <= |all| && Reached(scan, all, end, toks') && Output(toks') == out + piece
  {
    toks' := toks + [Tok(end - pos, piece)];
    ReachedStep(scan, all, pos, end, toks, piece);
    OutputSnoc(toks, Tok(end - pos, piece));
  }

  /** The index loop shared by both filters: the end of the sequence at `i`, and whether a control byte cut it off. */
  method ScanCsi(buf: seq<byte>, i: nat) returns (j: nat, cancelled: bool)
    requires i + 2 <= |buf|
    ensures j == i + CsiStop(buf[i..], 2) && i + 2 <= j <= |buf|
    ensures cancelled == (j < |buf| && buf[j] < 0x20)
  {
    j := i + 2;
    cancelled := false;
    ghost var s := buf[i..];
    while j < |buf| && !QueryScan.CsiFinal(buf[j])
      invariant i + 2 <= j <= |buf| && CsiStop(s, 2) == CsiStop(s, j - i)
      invariant !cancelled
    {
      if buf[j] < 0x20 {
        return j, true;
      }
      j := j + 1;
    }
  }

  /** `scan` follows the grammar at position `i` of the buffer, and keeps to the hold limit. */
  ghost predicate FollowsAt(scan: seq<byte> -> Found<seq<byte>>, buf: seq<byte>, i: nat,
                            complete: seq<byte> -> seq<byte>, cancelled: seq<byte> -> seq<byte>,
                            giveUp: seq<byte> -> Found<seq<byte>>)
    requires i < |buf|
  {
    && (buf[i] != ESC ==> scan(buf[i..]) == Token(1, [buf[i]]))
    && (buf[i] == ESC && i + 1 == |buf| ==> scan(buf[i..]) == giveUp(buf[i..]))
    && (buf[i] == ESC && i + 1 < |buf| && buf[i + 1] != LBRACKET ==> scan(buf[i..]) == Token(2, [buf[i], buf[i + 1]]))
    && (buf[i] == ESC && i + 1 < |buf| && buf[i + 1] == LBRACKET ==>
          var j := i + CsiStop(buf[i..], 2);
          && (j == |buf| ==> scan(buf[i..]) == giveUp(buf[i..]))
          && (j < |buf| && buf[j] < 0x20 ==> scan(buf[i..]) == Token(j - i, cancelled(buf[i..j])))
          && (j < |buf| && buf[j] >= 0x20 ==> scan(buf[i..]) == Token(j + 1 - i, complete(buf[i..j + 1]))))
  }

  lemma HeadFollows(scan: seq<byte> -> Found<seq<byte>>, buf: seq<byte>, i: nat,
                    complete: seq<byte> -> seq<byte>, cancelled: seq<byte> -> seq<byte>,
                    giveUp: seq<byte> -> Found<seq<byte>>)
    requires i < |buf|
    requires var h := Head(buf[i..], complete, cancelled); scan(buf[i..]) == if h.Token? then h else giveUp(buf[i..])
    ensures FollowsAt(scan, buf, i, complete, cancelled, giveUp)
  {
    var s := buf[i..];
    if s[0] == ESC && |s| >= 2 {
      assert s[..2] == [buf[i], buf[i + 1]];
      if s[1] == LBRACKET {
        var j := CsiStop(s, 2);
        assert s[..j] == buf[i..i + j];
        if j < |s| { assert s[..j + 1] == buf[i..i + j + 1]; }
      }
    }
  }

  // ---- The keyboard-mode stripper ----

  const DROP: seq<byte> -> seq<byte> := _ => []

  /** An unfinished control sequence over the limit loses its ESC to the output. */
  function StripGiveUp(s: seq<byte>): (f: Found<seq<byte>>)
    ensures f.Token? ==> 1 <= f.len <= |s|
  {
    if |s| > STRIP_HOLD_MAX then Token(1, [s[0]]) else Incomplete
  }

  /** A complete sequence is rewritten, a cancelled one is dropped. */
  function StripHead(rewrite: seq<byte> -> seq<byte>): (seq<byte> -> Found<seq<byte>>)
  {
    s => Head(s, rewrite, DROP)
  }

  function StripWithin(rewrite: seq<byte> -> seq<byte>): (seq<byte> -> Found<seq<byte>>)
  {
    s => var h := Head(s, rewrite, DROP); if h.Token? then h else StripGiveUp(s)
  }

  lemma StripStable(rewrite: seq<byte> -> seq<byte>)
    ensures Stable(StripHead(rewrite)) && Progressing(StripWithin(rewrite))
    ensures Limits(StripWithin(rewrite), StripHead(rewrite), StripGiveUp)
  {
    forall s: seq<byte>, t: seq<byte> ensures StableAt(StripHead(rewrite), s, t) {
      if Head(s, rewrite, DROP).Token? {
        HeadPrefix(s, t, rewrite, DROP);
      }
    }
  }

  lemma StripFollows(rewrite: seq<byte> -> seq<byte>, buf: seq<byte>, i: nat)
    requires i < |buf|
    ensures FollowsAt(StripWithin(rewrite), buf, i, rewrite, DROP, StripGiveUp)
  {
    HeadFollows(StripWithin(rewrite), buf, i, rewrite, DROP, StripGiveUp);
  }

  /** What stands at position `i`: the end of a piece and its output, or a tail to wait on. */
  method StripNext(rewrite: seq<byte> -> seq<byte>, buf: seq<byte>, i: nat)
    returns (end: nat, piece: seq<byte>, wait: bool)
    requires i < |buf|
    ensures i <= end && StripWithin(rewrite)(buf[i..]) == if wait then Incomplete else Token(end - i, piece)
  {
    StripFollows(rewrite, buf, i);
    if buf[i] != ESC {
      return i + 1, [buf[i]], false;
    }
    if i + 1 >= |buf| {
      return |buf|, [], true;
    }
    if buf[i + 1] != LBRACKET {
      return i + 2, [buf[i], buf[i + 1]], false;
    }
    var j, cancelled := ScanCsi(buf, i);
    if cancelled {
      return j, [], false;
    }
    if j >= |buf| {
      if |buf| - i > STRIP_HOLD_MAX {
        return i + 1, [buf[i]], false;
      }
      return |buf|, [], true;
    }
    return j + 1, rewrite(buf[i..j + 1]), false;
  }

  /** Removes keyboard-mode changes from PTY output; `rewrite` is applied to each complete control sequence. */
  class ModeStripper {
    const rewrite: seq<byte> -> seq<byte>
    var hold: seq<byte>

    constructor (rewrite: seq<byte> -> seq<byte>)
      ensures this.rewrite == rewrite && hold == []
    {
      this.rewrite := rewrite;
      hold := [];
    }

    method Feed(p: seq<byte>) returns (out: seq<byte>)
      modifies this`hold
      ensures Progressing(StripWithin(rewrite))
      ensures var d := Drain(StripWithin(rewrite), old(hold) + p); out == Output(d.toks) && hold == d.rest
    {
      ghost var scan := StripWithin(rewrite);
      StripStable(rewrite);
      var buf := hold + p;
      hold := [];
      out := [];
      var i := 0;
      ghost var toks: seq<Tok<seq<byte>>> := [];
      while i < |buf|
        invariant i <= |buf| && hold == []
        invariant Reached(scan, buf, i, toks) && out == Output(toks)
        decreases |buf| - i
      {
        var end, piece, wait := StripNext(rewrite, buf, i);
        if wait {
          hold := buf[i..];
          break;
        }
        toks := FilterStep(scan, buf, i, end, toks, out, piece);
        out := out + piece;
        i := end;
      }
      ReachedEnd(scan, buf, i, toks);
    }
  }

  /** Every chunking that never overruns 64 held bytes gives the same output and the same held tail. */
  lemma StripperChunking(rewrite: seq<byte> -> seq<byte>, chunks: seq<seq<byte>>)
    requires Progressing(StripHead(rewrite)) && Progressing(StripWithin(rewrite))
    requires StaysWithin(StripHead(rewrite), StripGiveUp, chunks)
    ensures var d := Drain(StripHead(rewrite), Concat(chunks));
            Run(StripWithin(rewrite), chunks) == Filtered(Output(d.toks), d.rest)
  {
    StripStable(rewrite);
    RunIsDrain(StripWithin(rewrite), StripHead(rewrite), StripGiveUp, chunks);
  }

  /** The streams no chunking of which reaches the overflow branch: no prefix leaves more than 64 bytes unfinished. */
  lemma StripperSafeIff(rewrite: seq<byte> -> seq<byte>, stream: seq<byte>)
    requires Progressing(StripHead(rewrite))
    ensures (forall k :: 0 <= k <= |stream| ==> |Drain(StripHead(rewrite), stream[..k]).rest| <= 64)
       <==> forall chunks: seq<seq<byte>> :: Concat(chunks) == stream ==> StaysWithin(StripHead(rewrite), StripGiveUp, chunks)
  {
    NeverGivesUpIff(StripHead(rewrite), StripGiveUp, stream);
    assert (forall k :: 0 <= k <= |stream| ==> |Drain(StripHead(rewrite), stream[..k]).rest| <= STRIP_HOLD_MAX)
      <==> Holdable(StripHead(rewrite), StripGiveUp, stream);
  }

  // ---- The kitty key decoder ----

  const KEEP: seq<byte> -> seq<byte> := s => s

  /** A lone ESC is never held; an unfinished sequence over the limit is forwarded whole. */
  function KittyGiveUp(s: seq<byte>): (f: Found<seq<byte>>)
    ensures f.Token? ==> 1 <= f.len <= |s|
  {
    if s == [ESC] then Token(1, s)
    else if |s| > KITTY_HOLD_MAX then Token(|s|, s)
    else Incomplete
  }

  /** Focus reports vanish, key reports are decoded, everything else is forwarded. */
  function KittyRewrite(decode: seq<byte> -> Option<seq<byte>>): (seq<byte> -> seq<byte>)
  {
    s => if s != [] && (s[|s| - 1] == 0x49 || s[|s| - 1] == 0x4f) then []
      else match decode(s) case Some(b) => b case None => s
  }

  function KittyHead(decode: seq<byte> -> Option<seq<byte>>): (seq<byte> -> Found<seq<byte>>)
  {
    s => Head(s, KittyRewrite(decode), KEEP)
  }

  function KittyWithin(decode: seq<byte> -> Option<seq<byte>>): (seq<byte> -> Found<seq<byte>>)
  {
    s => var h := Head(s, KittyRewrite(decode), KEEP); if h.Token? then h else KittyGiveUp(s)
  }

  /** What becomes of an unfinished sequence: over 64 bytes the stripper gives up its ESC, over 256 the decoder all of it. */
  lemma GivingUpMeans(rewrite: seq<byte> -> seq<byte>, decode: seq<byte> -> Option<seq<byte>>, s: seq<byte>)
    requires s != []
    ensures StripHead(rewrite)(s).Incomplete? ==> StripWithin(rewrite)(s) == if |s| > 64 then Token(1, [s[0]]) else Incomplete
    ensures KittyHead(decode)(s).Incomplete? ==>
              KittyWithin(decode)(s) == if s == [0x1b] then Token(1, [0x1b]) else if |s| > 256 then Token(|s|, s) else Incomplete
    ensures StripHead(rewrite)(s).Token? ==> StripWithin(rewrite)(s) == StripHead(rewrite)(s)
    ensures KittyHead(decode)(s).Token? ==> KittyWithin(decode)(s) == KittyHead(decode)(s)
  {
  }

  lemma KittyStable(decode: seq<byte> -> Option<seq<byte>>)
    ensures Stable(KittyHead(decode)) && Progressing(KittyWithin(decode))
    ensures Limits(KittyWithin(decode), KittyHead(decode), KittyGiveUp)
  {
    forall s: seq<byte>, t: seq<byte> ensures StableAt(KittyHead(decode), s, t) {
      if Head(s, KittyRewrite(decode), KEEP).Token? {
        HeadPrefix(s, t, KittyRewrite(decode), KEEP);
      }
    }
  }

  lemma KittyFollows(decode: seq<byte> -> Option<seq<byte>>, buf: seq<byte>, i: nat)
    requires i < |buf|
    ensures FollowsAt(KittyWithin(decode), buf, i, KittyRewrite(decode), KEEP, KittyGiveUp)
  {
    HeadFollows(KittyWithin(decode), buf, i, KittyRewrite(decode), KEEP, KittyGiveUp);
  }

  /** What stands at position `i`: the end of a piece and its output, or a tail to wait on. */
  method KittyNext(decode: seq<byte> -> Option<seq<byte>>, buf: seq<byte>, i: nat)
    returns (end: nat, piece: seq<byte>, wait: bool)
    requires i < |buf|
    ensures i <= end && KittyWithin(decode)(buf[i..]) == if wait then Incomplete else Token(end - i, piece)
  {
    KittyFollows(decode, buf, i);
    if buf[i] != ESC {
      return i + 1, [buf[i]], false;
    }
    if i + 1 >= |buf| {
      assert buf[i..] == [ESC];
      return |buf|, [ESC], false;
    }
    if buf[i + 1] != LBRACKET {
      return i + 2, [buf[i], buf[i + 1]], false;
    }
    end, piece, wait := KittyCsi(decode, buf, i);
  }

  /** The same for a control sequence. */
  method KittyCsi(decode: seq<byte> -> Option<seq<byte>>, buf: seq<byte>, i: nat)
    returns (end: nat, piece: seq<byte>, wait: bool)
    requires i + 1 < |buf| && buf[i] == ESC && buf[i + 1] == LBRACKET
    ensures i <= end && KittyWithin(decode)(buf[i..]) == if wait then Incomplete else Token(end - i, piece)
  {
    KittyFollows(decode, buf, i);
    var j, cancelled := ScanCsi(buf, i);
    if cancelled {
      return j, buf[i..j], false;
    }
    if j >= |buf| {
      if |buf| - i > KITTY_HOLD_MAX {
        return |buf|, buf[i..], false;
      }
      return |buf|, [], true;
    }
    piece := RewriteKey(decode, buf[i..j + 1]);
    return j + 1, piece, false;
  }

  /** Turns kitty key reports into plain bytes; `decode` knows the reports. */
  class KittyKeyDecoder {
    const decode: seq<byte> -> Option<seq<byte>>
    var hold: seq<byte>

    constructor (decode: seq<byte> -> Option<seq<byte>>)
      ensures this.decode == decode && hold == []
    {
      this.decode := decode;
      hold := [];
    }

    method Feed(p: seq<byte>) returns (out: seq<byte>)
      modifies this`hold
      ensures Progressing(KittyWithin(decode))
      ensures var d := Drain(KittyWithin(decode), old(hold) + p); out == Output(d.toks) && hold == d.rest
    {
      ghost var scan := KittyWithin(decode);
      KittyStable(decode);
      var buf := hold + p;
      hold := [];
      out := [];
      var i := 0;
      ghost var toks: seq<Tok<seq<byte>>> := [];
      while i < |buf|
        invariant i <= |buf| && hold == []
        invariant Reached(scan, buf, i, toks) && out == Output(toks)
        decreases |buf| - i
      {
        var end, piece, wait := KittyNext(decode, buf, i);
        if wait {
          hold := buf[i..];
          break;
        }
        toks := FilterStep(scan, buf, i, end, toks, out, piece);
        out := out + piece;
        i := end;
      }
      ReachedEnd(scan, buf, i, toks);
    }
  }

  method RewriteKey(decode: seq<byte> -> Option<seq<byte>>, s: seq<byte>) returns (piece: seq<byte>)
    requires s != []
    ensures piece == KittyRewrite(decode)(s)
  {
    var fin := s[|s| - 1];
    if fin == 0x49 || fin == 0x4f {
      return [];
    }
    var d := decode(s);
    piece := match d case Some(b) => b case None => s;
  }

  /** Every chunking without a boundary after a lone ESC and without an overlong tail gives the same output. */
  lemma DecoderChunking(decode: seq<byte> -> Option<seq<byte>>, chunks: seq<seq<byte>>)
    requires Progressing(KittyHead(decode)) && Progressing(KittyWithin(decode))
    requires StaysWithin(KittyHead(decode), KittyGiveUp, chunks)
    ensures var d := Drain(KittyHead(decode), Concat(chunks));
            Run(KittyWithin(decode), chunks) == Filtered(Output(d.toks), d.rest)
  {
    KittyStable(decode);
    RunIsDrain(KittyWithin(decode), KittyHead(decode), KittyGiveUp, chunks);
  }

  /** The streams safe under every chunking: no prefix ends in a lone ESC or leaves more than 256 bytes unfinished. */
  lemma DecoderSafeIff(decode: seq<byte> -> Option<seq<byte>>, stream: seq<byte>)
    requires Progressing(KittyHead(decode))
    ensures (forall k :: 0 <= k <= |stream| ==>
                           var rest := Drain(KittyHead(decode), stream[..k]).rest; rest != [0x1b] && |rest| <= 256)
       <==> forall chunks: seq<seq<byte>> :: Concat(chunks) == stream ==> StaysWithin(KittyHead(decode), KittyGiveUp, chunks)
  {
    NeverGivesUpIff(KittyHead(decode), KittyGiveUp, stream);
    assert (forall k :: 0 <= k <= |stream| ==>
                          var rest := Drain(KittyHead(decode), stream[..k]).rest; rest != [ESC] && |rest| <= KITTY_HOLD_MAX)
      <==> Holdable(KittyHead(decode), KittyGiveUp, stream);
  }
}
