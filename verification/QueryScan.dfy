/**
  The scanner that watches PTY output for terminal probes, and the loop that cuts
  the output into parse items at the cursor-position queries.
  CSI syntax is that of section 5.4 of ECMA-48.
*/
module QueryScan {
  import opened Base
  import opened Incremental

  const RBRACKET: byte := 0x5d   // ]
  const BACKSLASH: byte := 0x5c
  const BEL: byte := 0x07
  const HOLD_MAX := 128

  /** What one recognised piece of output asks for. */
  datatype Answer = Answer(reply: seq<byte>, cpr: bool)

  const NOTHING := Answer([], false)

  predicate CsiFinal(c: byte) {
    0x40 <= c <= 0x7e
  }

  /** `s[..i + 1]` ends an OSC or DCS string: BEL, or ESC backslash. */
  predicate StringEndsAt(s: seq<byte>, i: nat)
    requires i < |s|
  {
    s[i] == BEL || (i >= 1 && s[i - 1] == ESC && s[i] == BACKSLASH)
  }

  /** Index of the first CSI final byte at or after `i`, or the length. */
  function FindFinal(s: seq<byte>, i: nat): (j: nat)
    requires i <= |s|
    ensures i <= j <= |s|
    ensures forall k :: i <= k < j ==> !CsiFinal(s[k])
    ensures j < |s| ==> CsiFinal(s[j])
    decreases |s| - i
  {
    if i == |s| || CsiFinal(s[i]) then i else FindFinal(s, i + 1)
  }

  /** Index of the first string terminator at or after `i`, or the length. */
  function FindStringEnd(s: seq<byte>, i: nat): (j: nat)
    requires i <= |s|
    ensures i <= j <= |s|
    ensures forall k :: i <= k < j ==> !StringEndsAt(s, k)
    ensures j < |s| ==> StringEndsAt(s, j)
    decreases |s| - i
  {
    if i == |s| || StringEndsAt(s, i) then i else FindStringEnd(s, i + 1)
  }

  /** The answer to a complete control sequence. */
  function ReplyCSI(s: seq<byte>): (a: Answer)
    requires |s| >= 3
    // only CSI 6 n is left to the parse worker
    ensures a.cpr <==> s[2..] == [0x36, 0x6e]
    ensures a.cpr ==> a.reply == []
  {
    var fin := s[|s| - 1];
    var body := s[2..|s| - 1];
    assert s[2..] == body + [fin];
    if fin == 0x6e then
      assert body == [0x36] ==> s[2..] == [0x36, 0x6e];
      assert s[2..] == [0x36, 0x6e] ==> body == s[2..][..1];
      if body == [0x36] then Answer([], true)
      else if body == [0x35] then Answer([0x1b, 0x5b, 0x30, 0x6e], false)
      else NOTHING
    else if fin == 0x63 then
      if body == [] || body == [0x30] then Answer([0x1b, 0x5b, 0x3f, 0x31, 0x3b, 0x32, 0x63], false)
      else if body[0] == 0x3e then Answer([0x1b, 0x5b, 0x3e, 0x30, 0x3b, 0x31, 0x63], false)
      else NOTHING
    else if fin == 0x75 && body == [0x3f] then
      Answer([0x1b, 0x5b, 0x3f, 0x30, 0x75], false)
    else NOTHING
  }

  /** The sequence that begins at an ESC: its answer and length, if it is all there. */
  function EscapeAt(s: seq<byte>): (f: Found<Answer>)
    ensures f.Token? ==> 2 <= f.len <= |s| && (f.out.cpr ==> f.out.reply == [])
  {
    if |s| < 2 || s[0] != ESC then Incomplete
    else if s[1] == LBRACKET then
      var j := FindFinal(s, 2);
      if j < |s| then Token(j + 1, ReplyCSI(s[..j + 1])) else Incomplete
    else if s[1] == RBRACKET || s[1] == 0x50 then
      var j := FindStringEnd(s, 2);
      if j < |s| then Token(j + 1, NOTHING) else Incomplete
    else Token(2, NOTHING)
  }

  /** Reference tokenizer: text one byte at a time, escape sequences whole. */
  function Head(s: seq<byte>): (f: Found<Answer>)
    ensures f.Token? ==> 1 <= f.len <= |s|
  {
    if s == [] then Incomplete
    else if s[0] != ESC then Token(1, NOTHING)
    else EscapeAt(s)
  }

  /** An unfinished sequence longer than the hold limit loses its ESC. */
  function GiveUp(s: seq<byte>): (f: Found<Answer>)
    ensures f.Token? ==> 1 <= f.len <= |s|
  {
    if |s| > HOLD_MAX then Token(1, NOTHING) else Incomplete
  }

  /** The tokenizer the code runs: the reference one with the hold limit. */
  function HeadWithin(s: seq<byte>): (f: Found<Answer>)
    ensures f.Token? ==> 1 <= f.len <= |s|
  {
    if Head(s).Token? then Head(s) else GiveUp(s)
  }

  /** A sequence of which more than 128 bytes are there and no end is skipped byte by byte. */
  lemma GivingUpMeans(s: seq<byte>)
    ensures HeadWithin(s) == if Head(s).Token? then Head(s) else if |s| > 128 then Token(1, Answer([], false)) else Incomplete
  {
  }

  lemma FindFinalStable(s: seq<byte>, t: seq<byte>, i: nat)
    requires i <= |s| && FindFinal(s, i) < |s|
    ensures FindFinal(s + t, i) == FindFinal(s, i)
    decreases |s| - i
  {
    if i < |s| && !CsiFinal(s[i]) {
      FindFinalStable(s, t, i + 1);
    }
  }

  lemma FindStringEndStable(s: seq<byte>, t: seq<byte>, i: nat)
    requires i <= |s| && FindStringEnd(s, i) < |s|
    ensures FindStringEnd(s + t, i) == FindStringEnd(s, i)
    decreases |s| - i
  {
    if i < |s| && !StringEndsAt(s, i) {
      FindStringEndStable(s, t, i + 1);
    }
  }

  lemma HeadStableAt(s: seq<byte>, t: seq<byte>)
    ensures StableAt(Head, s, t)
  {
    if Head(s).Token? && s[0] == ESC {
      var j := if s[1] == LBRACKET then FindFinal(s, 2) else FindStringEnd(s, 2);
      if s[1] == LBRACKET {
        FindFinalStable(s, t, 2);
        assert (s + t)[..j + 1] == s[..j + 1];
      } else if s[1] == RBRACKET || s[1] == 0x50 {
        FindStringEndStable(s, t, 2);
      }
    }
  }

  // ---- The tokenizer, byte by byte ----

  /** The first byte from the third on that ends a control sequence, or BEL or ESC backslash, which end a string. */
  ghost predicate CsiEnd(s: seq<byte>, i: int) {
    2 <= i < |s| && 0x40 <= s[i] <= 0x7e
  }

  ghost predicate StringEnd(s: seq<byte>, i: int) {
    2 <= i < |s| && (s[i] == 0x07 || (s[i] == 0x5c && s[i - 1] == 0x1b))
  }

  /** Text is one byte; ESC [ runs to its final byte, ESC ] and ESC P to their terminator, any other ESC takes one byte more. */
  lemma HeadMeans(s: seq<byte>)
    requires s != []
    ensures s[0] != 0x1b ==> Head(s) == Token(1, NOTHING)
    ensures s == [0x1b] ==> Head(s).Incomplete?
    ensures |s| >= 2 && s[0] == 0x1b && s[1] == 0x5b ==>
              && (Head(s).Token? <==> exists i :: CsiEnd(s, i))
              && (Head(s).Token? ==> CsiEnd(s, Head(s).len - 1) && forall i :: i < Head(s).len - 1 ==> !CsiEnd(s, i))
    ensures |s| >= 2 && s[0] == 0x1b && (s[1] == 0x5d || s[1] == 0x50) ==>
              && (Head(s).Token? <==> exists i :: StringEnd(s, i))
              && (Head(s).Token? ==> StringEnd(s, Head(s).len - 1) && Head(s).out == NOTHING && forall i :: i < Head(s).len - 1 ==> !StringEnd(s, i))
    ensures |s| >= 2 && s[0] == 0x1b && s[1] != 0x5b && s[1] != 0x5d && s[1] != 0x50 ==> Head(s) == Token(2, NOTHING)
  {
    if |s| >= 2 && s[0] == 0x1b {
      if s[1] == 0x5b {
        var j := FindFinal(s, 2);
        forall i | CsiEnd(s, i) ensures j <= i { assert CsiFinal(s[i]); }
        if j < |s| { assert CsiEnd(s, j); }
      } else if s[1] == 0x5d || s[1] == 0x50 {
        var j := FindStringEnd(s, 2);
        forall i | StringEnd(s, i) ensures j <= i { assert StringEndsAt(s, i); }
        if j < |s| { assert StringEnd(s, j); }
      }
    }
  }

  /** The replies: status, device attributes (primary and secondary), keyboard protocol; a cursor-position query is flagged. */
  lemma RepliesMean(s: seq<byte>)
    requires |s| >= 3
    ensures ReplyCSI([0x1b, 0x5b, 0x35, 0x6e]).reply == [0x1b, 0x5b, 0x30, 0x6e]
    ensures ReplyCSI([0x1b, 0x5b, 0x63]).reply == ReplyCSI([0x1b, 0x5b, 0x30, 0x63]).reply == [0x1b, 0x5b, 0x3f, 0x31, 0x3b, 0x32, 0x63]
    ensures |s| >= 4 && s[2] == 0x3e && s[|s| - 1] == 0x63 ==> ReplyCSI(s).reply == [0x1b, 0x5b, 0x3e, 0x30, 0x3b, 0x31, 0x63]
    ensures ReplyCSI([0x1b, 0x5b, 0x3f, 0x75]).reply == [0x1b, 0x5b, 0x3f, 0x30, 0x75]
    ensures ReplyCSI(s).cpr <==> s[2..] == [0x36, 0x6e]
    ensures ReplyCSI(s).reply != [] ==> s[2..] == [0x35, 0x6e] || s[2..] == [0x63] || s[2..] == [0x30, 0x63]
                                        || (|s| >= 4 && s[2] == 0x3e && s[|s| - 1] == 0x63) || s[2..] == [0x3f, 0x75]
  {
    var fin, body := s[|s| - 1], s[2..|s| - 1];
    assert s[2..] == body + [fin];
    var status: seq<byte> := [0x1b, 0x5b, 0x35, 0x6e];
    assert status[2..3] == [0x35];
    var zero: seq<byte> := [0x1b, 0x5b, 0x30, 0x63];
    assert zero[2..3] == [0x30];
    var kitty: seq<byte> := [0x1b, 0x5b, 0x3f, 0x75];
    assert kitty[2..3] == [0x3f];
  }

  /** The tokenizer is stable, so every fact about chunking applies to it. */
  lemma HeadStable()
    ensures Stable(Head) && Progressing(Head) && Progressing(HeadWithin) && Limits(HeadWithin, Head, GiveUp)
  {
    forall s: seq<byte>, t: seq<byte> ensures StableAt(Head, s, t) {
      HeadStableAt(s, t);
    }
  }

  /** A token needs no byte beyond its own end. */
  lemma HeadLocal(s: seq<byte>, t: seq<byte>)
    requires Head(s).Incomplete? && Head(s + t).Token?
    ensures |s| < Head(s + t).len
  {
    if s != [] {
      var u := s + t;
      assert u[0] == s[0] == ESC;
      if |s| >= 2 {
        assert u[1] == s[1];
        if s[1] == LBRACKET {
          assert forall k :: 2 <= k < |s| ==> u[k] == s[k];
          assert FindFinal(s, 2) == |s|;
        } else {
          assert forall k :: 2 <= k < |s| ==> StringEndsAt(u, k) == StringEndsAt(s, k);
          assert FindStringEnd(s, 2) == |s|;
        }
      }
    }
  }

  // ---- Reading a token list ----

  function Replies(toks: seq<Tok<Answer>>): (r: seq<byte>)
  {
    if toks == [] then []
    else Replies(toks[..|toks| - 1]) + toks[|toks| - 1].out.reply
  }

  /** Offsets, from the first token, at which the cursor-position queries end. */
  function CprEnds(toks: seq<Tok<Answer>>): (ends: seq<nat>)
  {
    if toks == [] then []
    else CprEnds(toks[..|toks| - 1]) + if toks[|toks| - 1].out.cpr then [TotalLen(toks)] else []
  }

  function Shift(ends: seq<nat>, n: nat): (r: seq<nat>)
    ensures |r| == |ends|
  {
    seq(|ends|, i requires 0 <= i < |ends| => ends[i] + n)
  }

  lemma CprEndsSnoc(toks: seq<Tok<Answer>>, t: Tok<Answer>)
    ensures CprEnds(toks + [t]) == CprEnds(toks) + if t.out.cpr then [TotalLen(toks) + t.len] else []
  {
    assert (toks + [t])[..|toks|] == toks;
  }

  lemma {:induction false} RepliesAppend(a: seq<Tok<Answer>>, b: seq<Tok<Answer>>)
    ensures Replies(a + b) == Replies(a) + Replies(b)
    decreases |b|
  {
    if b == [] {
      assert a + b == a;
    } else {
      var init, last := b[..|b| - 1], b[|b| - 1];
      assert a + b == (a + init) + [last];
      RepliesAppend(a, init);
      assert (Replies(a) + Replies(init)) + last.out.reply == Replies(a) + (Replies(init) + last.out.reply);
    }
  }

  lemma {:induction false} CprEndsAppend(a: seq<Tok<Answer>>, b: seq<Tok<Answer>>)
    ensures CprEnds(a + b) == CprEnds(a) + Shift(CprEnds(b), TotalLen(a))
    decreases |b|
  {
    if b == [] {
      assert a + b == a;
    } else {
      var init, last := b[..|b| - 1], b[|b| - 1];
      assert a + b == (a + init) + [last];
      assert b == init + [last];
      CprEndsSnoc(a + init, last);
      CprEndsSnoc(init, last);
      CprEndsAppend(a, init);
      TotalLenAppend(a, init);
    }
  }

  /** The ends are strictly increasing and lie within the scanned bytes. */
  ghost predicate Increasing(ends: seq<nat>, lo: nat, hi: nat) {
    && (forall i :: 0 <= i < |ends| ==> lo < ends[i] <= hi)
    && (forall i, j :: 0 <= i < j < |ends| ==> ends[i] < ends[j])
  }

  ghost predicate AllNonempty(toks: seq<Tok<Answer>>) {
    forall i :: 0 <= i < |toks| ==> toks[i].len >= 1
  }

  lemma {:induction false} CprEndsIncreasing(toks: seq<Tok<Answer>>)
    requires AllNonempty(toks)
    ensures Increasing(CprEnds(toks), 0, TotalLen(toks))
    decreases |toks|
  {
    if toks != [] {
      CprEndsIncreasing(toks[..|toks| - 1]);
    }
  }

  lemma {:induction false} DrainNonempty(scan: seq<byte> -> Found<Answer>, s: seq<byte>)
    requires Progressing(scan)
    ensures AllNonempty(Drain(scan, s).toks)
    decreases |s|
  {
    match scan(s)
    case Incomplete =>
    case Token(n, out) => DrainNonempty(scan, s[n..]);
  }

  lemma CprEndsCons(t: Tok<Answer>, rest: seq<Tok<Answer>>)
    ensures CprEnds([t] + rest) == (if t.out.cpr then [t.len] else []) + Shift(CprEnds(rest), t.len)
    ensures TotalLen([t] + rest) == t.len + TotalLen(rest)
  {
    CprEndsAppend([t], rest);
    TotalLenAppend([t], rest);
    CprEndsSnoc([], t);
    assert [] + [t] == [t];
  }

  /** The bytes that end at offset `e` are ESC [ 6 n. */
  ghost predicate QueryEndsAt(s: seq<byte>, e: nat) {
    4 <= e <= |s| && s[e - 4..e] == [0x1b, 0x5b, 0x36, 0x6e]
  }

  /** A token is flagged exactly when it is the query. */
  ghost predicate FlagsQuery(scan: seq<byte> -> Found<Answer>, u: seq<byte>) {
    && (scan(u).Token? && scan(u).out.cpr ==> scan(u).len == 4 && QueryEndsAt(u, 4))
    && (QueryEndsAt(u, 4) ==> scan(u).Token? && scan(u).out.cpr)
  }

  ghost predicate FlagsQueries(scan: seq<byte> -> Found<Answer>) {
    forall u: seq<byte> :: FlagsQuery(scan, u)
  }

  lemma QueryEndsDrop(s: seq<byte>, n: nat, e: nat)
    requires n + 4 <= e && n <= |s|
    ensures QueryEndsAt(s, e) <==> QueryEndsAt(s[n..], e - n)
  {
    if e <= |s| { SliceOfDrop(s, n, e - 4, e); }
  }

  lemma ShiftIn(ends: seq<nat>, n: nat, e: nat)
    ensures e in Shift(ends, n) <==> n <= e && e - n in ends
  {
    if n <= e && e - n in ends {
      var i :| 0 <= i < |ends| && ends[i] == e - n;
      assert Shift(ends, n)[i] == e;
    }
  }

  /** A query that is not inside another sequence ends at `e`. */
  ghost predicate QueryAt(scan: seq<byte> -> Found<Answer>, s: seq<byte>, e: nat)
    requires Progressing(scan)
  {
    QueryEndsAt(s, e) && Begins(scan, s, e - 4)
  }

  lemma QueryStep(scan: seq<byte> -> Found<Answer>, s: seq<byte>, n: nat, out: Answer, e: nat)
    requires Progressing(scan) && scan(s) == Token(n, out)
    requires out.cpr <==> QueryEndsAt(s, 4)
    requires out.cpr ==> n == 4
    ensures QueryAt(scan, s, e) <==> (out.cpr && e == n) || (n <= e && QueryAt(scan, s[n..], e - n))
  {
    if n + 4 <= e {
      QueryEndsDrop(s, n, e);
    }
  }

  lemma EndsStep(t: Tok<Answer>, toks: seq<Tok<Answer>>, e: nat)
    ensures e in CprEnds([t] + toks) <==> (t.out.cpr && e == t.len) || (t.len <= e && e - t.len in CprEnds(toks))
  {
    CprEndsCons(t, toks);
    ShiftIn(CprEnds(toks), t.len, e);
  }

  /** A flagged token ends at `e`. */
  ghost predicate FlaggedAt(scan: seq<byte> -> Found<Answer>, s: seq<byte>, e: nat)
    requires Progressing(scan)
    decreases |s|
  {
    && scan(s).Token?
    && ((scan(s).out.cpr && e == scan(s).len) || (scan(s).len <= e && FlaggedAt(scan, s[scan(s).len..], e - scan(s).len)))
  }

  lemma {:induction false} FlaggedAreEnds(scan: seq<byte> -> Found<Answer>, s: seq<byte>, e: nat)
    requires Progressing(scan)
    ensures e in CprEnds(Drain(scan, s).toks) <==> FlaggedAt(scan, s, e)
    decreases |s|
  {
    match scan(s)
    case Incomplete =>
    case Token(n, out) =>
      EndsStep(Tok(n, out), Drain(scan, s[n..]).toks, e);
      if n <= e {
        FlaggedAreEnds(scan, s[n..], e - n);
      }
  }

  lemma {:induction false} FlaggedAreQueries(scan: seq<byte> -> Found<Answer>, s: seq<byte>, e: nat)
    requires Progressing(scan) && FlagsQueries(scan)
    ensures FlaggedAt(scan, s, e) <==> QueryAt(scan, s, e)
    decreases |s|
  {
    assert FlagsQuery(scan, s);
    match scan(s)
    case Incomplete =>
    case Token(n, out) =>
      QueryStep(scan, s, n, out, e);
      if n <= e {
        FlaggedAreQueries(scan, s[n..], e - n);
      }
  }

  /**
    The offsets reported for cursor-position queries are exactly the ends of the
    queries ESC [ 6 n that are not inside another sequence: none is invented and none
    is missed.
  */
  lemma {:induction false} CprEndsAreTheQueries(s: seq<byte>, e: nat)
    requires Progressing(Head)
    ensures e in CprEnds(Drain(Head, s).toks) <==> QueryAt(Head, s, e)
  {
    forall u: seq<byte> ensures FlagsQuery(Head, u) {
      if Head(u).Token? && Head(u).out.cpr { CprTokenBytes(u); }
      if QueryEndsAt(u, 4) { QueryIsFlagged(u); }
    }
    FlaggedAreEnds(Head, s, e);
    FlaggedAreQueries(Head, s, e);
  }

  lemma QueryIsFlagged(s: seq<byte>)
    requires QueryEndsAt(s, 4)
    ensures Head(s).Token? && Head(s).out.cpr
  {
    assert s[..4] == [0x1b, 0x5b, 0x36, 0x6e];
    assert s[0] == s[..4][0] && s[1] == s[..4][1] && s[2] == s[..4][2] && s[3] == s[..4][3];
    assert FindFinal(s, 2) == FindFinal(s, 3) == 3;
    assert s[..4][2..] == [0x36, 0x6e];
  }

  lemma CprTokenBytes(s: seq<byte>)
    requires Head(s).Token? && Head(s).out.cpr
    ensures Head(s).len == 4 <= |s| && s[..4] == [0x1b, 0x5b, 0x36, 0x6e]
  {
    var n := Head(s).len;
    assert s[..n][2..] == [0x36, 0x6e];
    assert s[..n][2] == 0x36 && s[..n][3] == 0x6e;
  }

  lemma EndsBeyond(scan: seq<byte> -> Found<Answer>, s: seq<byte>, held: nat)
    requires Progressing(scan) && (scan(s).Token? ==> held < scan(s).len)
    ensures Increasing(CprEnds(Drain(scan, s).toks), held, |s|)
  {
    DrainNonempty(scan, s);
    DrainAccounts(scan, s);
    CprEndsIncreasing(Drain(scan, s).toks);
    match scan(s)
    case Incomplete =>
    case Token(n, out) => CprEndsCons(Tok(n, out), Drain(scan, s[n..]).toks);
  }

  /** Queries found after a held tail end beyond that tail: the position clamps never fire. */
  lemma {:induction false} EndsBeyondHold(hold: seq<byte>, p: seq<byte>)
    requires Progressing(Head) && Head(hold).Incomplete?
    ensures Increasing(CprEnds(Drain(Head, hold + p).toks), |hold|, |hold| + |p|)
  {
    if Head(hold + p).Token? {
      HeadLocal(hold, p);
    }
    EndsBeyond(Head, hold + p, |hold|);
  }

  // ---- The code ----

  method IndexEsc(buf: seq<byte>, pos: nat) returns (i: nat, found: bool)
    requires pos <= |buf|
    ensures pos <= i <= |buf| && found == (i < |buf|)
    ensures forall k :: pos <= k < i ==> buf[k] != ESC
    ensures found ==> buf[i] == ESC
  {
    i := pos;
    while i < |buf| && buf[i] != ESC
      invariant pos <= i <= |buf|
      invariant forall k :: pos <= k < i ==> buf[k] != ESC
    {
      i := i + 1;
    }
    found := i < |buf|;
  }

  /** The first complete query, `consumed == 0` when the sequence is not all there. */
  method ConsumeQuery(s: seq<byte>) returns (reply: seq<byte>, consumed: nat, cpr: bool)
    ensures EscapeAt(s) == if consumed == 0 then Incomplete else Token(consumed, Answer(reply, cpr))
    ensures cpr ==> consumed > 0 && reply == []
  {
    reply, consumed, cpr := [], 0, false;
    if |s| < 2 || s[0] != ESC {
      return;
    }
    if s[1] == LBRACKET {
      var i := 2;
      while i < |s|
        invariant 2 <= i <= |s|
        invariant FindFinal(s, 2) == FindFinal(s, i)
      {
        if CsiFinal(s[i]) {
          var a := ReplyCSI(s[..i + 1]);
          return a.reply, i + 1, a.cpr;
        }
        i := i + 1;
      }
    } else if s[1] == RBRACKET || s[1] == 0x50 {
      var i := 2;
      while i < |s|
        invariant 2 <= i <= |s|
        invariant FindStringEnd(s, 2) == FindStringEnd(s, i)
      {
        if StringEndsAt(s, i) {
          return [], i + 1, false;
        }
        i := i + 1;
      }
    } else {
      consumed := 2;
    }
  }

  /** An end position is reported relative to the new chunk and forced into it. */
  function Clamp(end: int, max: nat): (r: nat)
    ensures 0 <= end <= max ==> r == end
    ensures end < 0 ==> r == 0
    ensures end > max ==> r == max
  {
    if end < 0 then 0 else if end > max then max else end
  }

  function ClampAll(ends: seq<nat>, prefix: nat, max: nat): (r: seq<nat>)
    ensures |r| == |ends|
  {
    seq(|ends|, i requires 0 <= i < |ends| => Clamp(ends[i] - prefix, max))
  }

  /** The accumulators of the loop hold what the tokens taken so far ask for. */
  ghost predicate Scanned(scan: seq<byte> -> Found<Answer>, all: seq<byte>, pos: nat, prefix: nat, max: nat,
                          toks: seq<Tok<Answer>>, replies: seq<byte>, ends: seq<nat>)
    requires Progressing(scan)
  {
    Reached(scan, all, pos, toks) && replies == Replies(toks) && ends == ClampAll(CprEnds(toks), prefix, max)
  }

  lemma ScanToken(scan: seq<byte> -> Found<Answer>, all: seq<byte>, pos: nat, prefix: nat, max: nat,
                  toks: seq<Tok<Answer>>, replies: seq<byte>, ends: seq<nat>, end: nat, reply: seq<byte>, cpr: bool)
    returns (toks': seq<Tok<Answer>>)
    requires Progressing(scan) && Scanned(scan, all, pos, prefix, max, toks, replies, ends)
    requires pos <= end && scan(all[pos..]) == Token(end - pos, Answer(reply, cpr)) && (cpr ==> reply == [])
    ensures pos < end <= |all|
    ensures cpr ==> Scanned(scan, all, end, prefix, max, toks', replies, ends + [Clamp(end - prefix, max)])
    ensures !cpr && |reply| > 0 ==> Scanned(scan, all, end, prefix, max, toks', replies + reply, ends)
    ensures !cpr && |reply| == 0 ==> Scanned(scan, all, end, prefix, max, toks', replies, ends)
  {
    var t := Tok(end - pos, Answer(reply, cpr));
    toks' := toks + [t];
    ReachedStep(scan, all, pos, end, toks, Answer(reply, cpr));
  }

  lemma EscapeHead(s: seq<byte>)
    requires s != [] && s[0] == ESC
    ensures HeadWithin(s) == if EscapeAt(s).Token? then EscapeAt(s) else GiveUp(s)
  {
  }

  /** A run of text is passed over at once; it asks for nothing. */
  lemma {:induction false} ScanText(scan: seq<byte> -> Found<Answer>, all: seq<byte>, pos: nat, prefix: nat, max: nat,
                                    toks: seq<Tok<Answer>>, replies: seq<byte>, ends: seq<nat>, i: nat)
    returns (toks': seq<Tok<Answer>>)
    requires Progressing(scan) && Scanned(scan, all, pos, prefix, max, toks, replies, ends)
    requires pos <= i <= |all|
    requires forall k :: pos <= k < i ==> scan(all[k..]) == Token(1, NOTHING)
    ensures Scanned(scan, all, i, prefix, max, toks', replies, ends)
    decreases i - pos
  {
    if pos == i {
      toks' := toks;
    } else {
      toks' := ScanToken(scan, all, pos, prefix, max, toks, replies, ends, pos + 1, [], false);
      toks' := ScanText(scan, all, pos + 1, prefix, max, toks', replies, ends, i);
    }
  }

  /** What begins with ESC at `pos`: taken, given up, or waited for, in which case `end == pos`. */
  method ScanEscape(all: seq<byte>, pos: nat, prefix: nat, max: nat, ghost toks: seq<Tok<Answer>>, replies: seq<byte>, ends: seq<nat>)
    returns (end: nat, replies': seq<byte>, ends': seq<nat>, ghost toks': seq<Tok<Answer>>)
    requires pos < |all| && all[pos] == ESC && Progressing(HeadWithin)
    requires Scanned(HeadWithin, all, pos, prefix, max, toks, replies, ends)
    ensures pos <= end <= |all| && Scanned(HeadWithin, all, end, prefix, max, toks', replies', ends')
    ensures end == pos <==> HeadWithin(all[pos..]).Incomplete?
  {
    var reply, n, cpr := ConsumeQuery(all[pos..]);
    EscapeHead(all[pos..]);
    end, replies', ends', toks' := pos, replies, ends, toks;
    if n == 0 {
      if |all| - pos > HOLD_MAX {
        toks' := ScanToken(HeadWithin, all, pos, prefix, max, toks, replies, ends, pos + 1, [], false);
        end := pos + 1;
      }
      return;
    }
    end := pos + n;
    toks' := ScanToken(HeadWithin, all, pos, prefix, max, toks, replies, ends, end, reply, cpr);
    if cpr {
      ends' := ends + [Clamp(end - prefix, max)];
    } else if |reply| > 0 {
      replies' := replies + reply;
    }
  }

  class QueryScanner {
    var buf: seq<byte>

    constructor ()
      ensures buf == []
    {
      buf := [];
    }

    /** One call scans the held tail and the new bytes together. */
    method Feed(p: seq<byte>) returns (replies: seq<byte>, cprEnds: seq<nat>)
      modifies this
      ensures Progressing(HeadWithin)
      ensures var d := Drain(HeadWithin, old(buf) + p);
              && buf == d.rest
              && replies == Replies(d.toks)
              && cprEnds == ClampAll(CprEnds(d.toks), |old(buf)|, |p|)
    {
      HeadStable();
      var prefix := |buf|;
      buf := buf + p;
      var all := buf;
      replies, cprEnds := [], [];
      var pos := 0;
      ghost var toks: seq<Tok<Answer>> := [];
      while pos < |all|
        invariant pos <= |all| && Scanned(HeadWithin, all, pos, prefix, |p|, toks, replies, cprEnds)
        decreases |all| - pos
      {
        if all[pos] != ESC {
          var i, found := IndexEsc(all, pos);
          toks := ScanText(HeadWithin, all, pos, prefix, |p|, toks, replies, cprEnds, i);
          pos := i;
          if !found {
            break;
          }
          continue;
        }
        var end;
        end, replies, cprEnds, toks := ScanEscape(all, pos, prefix, |p|, toks, replies, cprEnds);
        if end == pos {
          break;
        }
        pos := end;
      }
      ReachedEnd(HeadWithin, all, pos, toks);
      if pos >= |all| {
        buf := [];
      } else {
        buf := all[pos..];
      }
    }
  }
}
