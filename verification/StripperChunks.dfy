/**
  For which streams the keyboard-mode stripper does not depend on the cutting into
  chunks. It gives up on a sequence once more than 64 bytes of it are held, and what
  was held comes out as text; so a boundary shows exactly if the whole sequence would
  have come out as something else.
*/
module StripperChunks {
  import opened Base
  import opened Incremental
  import opened KeyFilters
  import QueryScan

  /** The first 65 bytes are an unfinished sequence. */
  ghost predicate Overlong(scan: seq<byte> -> Found<seq<byte>>, u: seq<byte>) {
    |u| >= 65 && scan(u[..65]).Incomplete?
  }

  // ---- What is needed of the grammar ----

  ghost predicate NoEsc(u: seq<byte>, from: nat, to: nat) {
    forall k :: from <= k < to && k < |u| ==> u[k] != ESC
  }

  /** An unfinished sequence is one ESC and what is not ESC. */
  ghost predicate UnfinishedAt(scan: seq<byte> -> Found<seq<byte>>, u: seq<byte>) {
    scan(u).Incomplete? && u != [] ==> u[0] == ESC && NoEsc(u, 1, |u|)
  }

  /** So is a finished one, unless it is ESC and one byte. */
  ghost predicate FinishedAt(scan: seq<byte> -> Found<seq<byte>>, u: seq<byte>) {
    scan(u).Token? && scan(u).len > 2 ==> NoEsc(u, 1, scan(u).len)
  }

  /** An unfinished sequence is no shorter when finished. */
  ghost predicate GrowsAt(scan: seq<byte> -> Found<seq<byte>>, u: seq<byte>, t: seq<byte>) {
    scan(u).Incomplete? && scan(u + t).Token? ==> scan(u + t).len >= |u|
  }

  /** A token depends on its own bytes and the next one. */
  ghost predicate LocalAt(scan: seq<byte> -> Found<seq<byte>>, u: seq<byte>, k: nat) {
    scan(u).Token? && scan(u).len < k <= |u| ==> scan(u[..k]) == scan(u)
  }

  ghost predicate Grammar(scan: seq<byte> -> Found<seq<byte>>) {
    && Stable(scan) && scan([]).Incomplete?
    && (forall u: seq<byte> :: TextAt(scan, u) && UnfinishedAt(scan, u) && FinishedAt(scan, u))
    && (forall u: seq<byte>, t: seq<byte> :: GrowsAt(scan, u, t))
    && (forall u: seq<byte>, k: nat :: LocalAt(scan, u, k))
  }

  ghost predicate Stripping(scan: seq<byte> -> Found<seq<byte>>, lim: seq<byte> -> Found<seq<byte>>) {
    Grammar(scan) && Progressing(lim) && Limits(lim, scan, StripGiveUp)
  }

  // ---- Output and held tail of one buffer ----

  ghost function Feed(lim: seq<byte> -> Found<seq<byte>>, u: seq<byte>): Filtered
    requires Progressing(lim)
  {
    Filtered(Output(Drain(lim, u).toks), Drain(lim, u).rest)
  }

  function After(out: seq<byte>, f: Filtered): Filtered {
    Filtered(out + f.out, f.hold)
  }

  /** A buffer, and then what is left of it with more bytes. */
  ghost function FeedTwice(lim: seq<byte> -> Found<seq<byte>>, u: seq<byte>, t: seq<byte>): Filtered
    requires Progressing(lim)
  {
    After(Feed(lim, u).out, Feed(lim, Feed(lim, u).hold + t))
  }

  lemma FeedToken(lim: seq<byte> -> Found<seq<byte>>, u: seq<byte>)
    requires Progressing(lim) && lim(u).Token?
    ensures Feed(lim, u) == After(lim(u).out, Feed(lim, u[lim(u).len..]))
  {
    TokenThen(lim, u);
  }

  lemma FeedRest(lim: seq<byte> -> Found<seq<byte>>, u: seq<byte>)
    requires Progressing(lim) && lim(u).Incomplete?
    ensures Feed(lim, u) == Filtered([], u)
  {
  }

  lemma AfterAfter(a: seq<byte>, b: seq<byte>, f: Filtered)
    ensures After(a, After(b, f)) == After(a + b, f)
  {
    assert a + (b + f.out) == (a + b) + f.out;
  }

  lemma TextStep(scan: seq<byte> -> Found<seq<byte>>, lim: seq<byte> -> Found<seq<byte>>, x: seq<byte>, y: seq<byte>)
    requires Stripping(scan, lim) && x != [] && x[0] != ESC
    ensures Feed(lim, x + y) == After([x[0]], Feed(lim, x[1..] + y))
  {
    assert TextAt(scan, x + y);
    assert (x + y)[1..] == x[1..] + y;
    FeedToken(lim, x + y);
  }

  lemma AfterNothing(f: Filtered)
    ensures After([], f) == f
  {
    assert [] + f.out == f.out;
  }

  lemma TextTail(x: seq<byte>)
    requires x != [] && NoEsc(x, 0, |x|)
    ensures x[0] != ESC && NoEsc(x[1..], 0, |x[1..]|) && [x[0]] + x[1..] == x
  {
  }

  /** Text at the front of a buffer comes out as it is. */
  lemma {:induction false} TextFirst(scan: seq<byte> -> Found<seq<byte>>, lim: seq<byte> -> Found<seq<byte>>, x: seq<byte>, y: seq<byte>)
    requires Stripping(scan, lim) && NoEsc(x, 0, |x|)
    ensures Feed(lim, x + y) == After(x, Feed(lim, y))
    decreases |x|
  {
    if x == [] {
      assert x + y == y;
      AfterNothing(Feed(lim, y));
    } else {
      TextTail(x);
      TextStep(scan, lim, x, y);
      TextFirst(scan, lim, x[1..], y);
      AfterAfter([x[0]], x[1..], Feed(lim, y));
    }
  }

  lemma TextAlone(scan: seq<byte> -> Found<seq<byte>>, lim: seq<byte> -> Found<seq<byte>>, x: seq<byte>)
    requires Stripping(scan, lim) && NoEsc(x, 0, |x|)
    ensures Feed(lim, x) == Filtered(x, [])
  {
    TextFirst(scan, lim, x, []);
    FeedRest(lim, []);
    assert x + [] == x;
  }

  lemma SequenceTail(u: seq<byte>)
    requires u != [] && NoEsc(u, 1, |u|)
    ensures NoEsc(u[1..], 0, |u[1..]|) && [u[0]] + u[1..] == u
  {
  }

  /** A sequence that is given up comes out as it is. */
  lemma GivenUp(scan: seq<byte> -> Found<seq<byte>>, lim: seq<byte> -> Found<seq<byte>>, u: seq<byte>)
    requires Stripping(scan, lim) && scan(u).Incomplete? && |u| > STRIP_HOLD_MAX
    ensures Feed(lim, u) == Filtered(u, [])
  {
    assert UnfinishedAt(scan, u);
    SequenceTail(u);
    FeedToken(lim, u);
    TextAlone(scan, lim, u[1..]);
  }

  // ---- Streams for which giving up does not show ----

  /** Every complete sequence that is too long to be held comes out as it is. */
  ghost predicate Tolerant(scan: seq<byte> -> Found<seq<byte>>, s: seq<byte>)
    requires Progressing(scan)
    decreases |s|
  {
    scan(s).Token? ==> (Overlong(scan, s) ==> scan(s).out == s[..scan(s).len]) && Tolerant(scan, s[scan(s).len..])
  }

  lemma {:induction false} TolerantPrefix(scan: seq<byte> -> Found<seq<byte>>, s: seq<byte>, t: seq<byte>)
    requires Stable(scan) && Tolerant(scan, s + t)
    ensures Tolerant(scan, s)
    decreases |s|
  {
    if scan(s).Token? {
      assert StableAt(scan, s, t);
      var n := scan(s).len;
      assert (s + t)[n..] == s[n..] + t && (s + t)[..n] == s[..n];
      if Overlong(scan, s) {
        assert (s + t)[..STRIP_HOLD_MAX + 1] == s[..STRIP_HOLD_MAX + 1];
      }
      TolerantPrefix(scan, s[n..], t);
    }
  }

  lemma UnfinishedIsOverlong(scan: seq<byte> -> Found<seq<byte>>, s: seq<byte>, t: seq<byte>)
    requires Stable(scan) && scan(s).Incomplete? && |s| > STRIP_HOLD_MAX
    ensures Overlong(scan, s + t)
  {
    var k := STRIP_HOLD_MAX + 1;
    assert StableAt(scan, s[..k], s[k..]);
    assert s[..k] + s[k..] == s && (s + t)[..k] == s[..k];
  }

  /** A sequence that was given up, and the rest of it. */
  lemma GivenUpThenMore(scan: seq<byte> -> Found<seq<byte>>, lim: seq<byte> -> Found<seq<byte>>, s: seq<byte>, t: seq<byte>)
    requires Stripping(scan, lim) && scan(s).Incomplete? && |s| > STRIP_HOLD_MAX && Tolerant(scan, s + t)
    ensures Feed(lim, s + t) == After(s, Feed(lim, t))
  {
    var all := s + t;
    UnfinishedIsOverlong(scan, s, t);
    assert GrowsAt(scan, s, t) && UnfinishedAt(scan, all) && FinishedAt(scan, all);
    if scan(all).Token? {
      FinishedThenMore(scan, lim, s, t);
    } else {
      GivenUp(scan, lim, all);
      assert forall k :: 0 <= k < |t| ==> t[k] == all[|s| + k];
      TextAlone(scan, lim, t);
    }
  }

  lemma FinishedThenMore(scan: seq<byte> -> Found<seq<byte>>, lim: seq<byte> -> Found<seq<byte>>, s: seq<byte>, t: seq<byte>)
    requires Stripping(scan, lim) && |s| > STRIP_HOLD_MAX && scan(s + t).Token? && scan(s + t).len >= |s|
    requires scan(s + t).out == (s + t)[..scan(s + t).len] && FinishedAt(scan, s + t)
    ensures Feed(lim, s + t) == After(s, Feed(lim, t))
  {
    var all, n := s + t, scan(s + t).len;
    var x, y := t[..n - |s|], t[n - |s|..];
    assert x + y == t && all[n..] == y && all[..n] == s + x;
    assert forall k :: 0 <= k < |x| ==> x[k] == all[|s| + k];
    FeedToken(lim, all);
    TextFirst(scan, lim, x, y);
    AfterAfter(s, x, Feed(lim, y));
  }

  lemma TokenInFront(lim: seq<byte> -> Found<seq<byte>>, s: seq<byte>, t: seq<byte>, n: nat)
    requires Progressing(lim) && n <= |s| && lim(s).Token? && lim(s).len == n && lim(s + t) == lim(s)
    ensures Feed(lim, s + t) == After(lim(s).out, Feed(lim, s[n..] + t))
    ensures FeedTwice(lim, s, t) == After(lim(s).out, FeedTwice(lim, s[n..], t))
  {
    assert (s + t)[n..] == s[n..] + t;
    FeedToken(lim, s);
    FeedToken(lim, s + t);
    AfterAfter(lim(s).out, Feed(lim, s[n..]).out, Feed(lim, Feed(lim, s[n..]).hold + t));
  }

  lemma HeldInFront(lim: seq<byte> -> Found<seq<byte>>, s: seq<byte>, t: seq<byte>)
    requires Progressing(lim) && lim(s).Incomplete?
    ensures Feed(lim, s + t) == FeedTwice(lim, s, t)
  {
    FeedRest(lim, s);
    AfterNothing(Feed(lim, s + t));
  }

  lemma GivenUpInFront(scan: seq<byte> -> Found<seq<byte>>, lim: seq<byte> -> Found<seq<byte>>, s: seq<byte>, t: seq<byte>)
    requires Stripping(scan, lim) && scan(s).Incomplete? && |s| > STRIP_HOLD_MAX && Tolerant(scan, s + t)
    ensures Feed(lim, s + t) == FeedTwice(lim, s, t)
  {
    GivenUp(scan, lim, s);
    GivenUpThenMore(scan, lim, s, t);
    assert [] + t == t;
  }

  lemma TolerantBehind(scan: seq<byte> -> Found<seq<byte>>, s: seq<byte>, t: seq<byte>)
    requires Stable(scan) && scan(s).Token? && Tolerant(scan, s + t)
    ensures scan(s + t) == scan(s) && 1 <= scan(s).len <= |s| && Tolerant(scan, s[scan(s).len..] + t)
  {
    assert StableAt(scan, s, t);
    assert (s + t)[scan(s).len..] == s[scan(s).len..] + t;
  }

  /** Feeding a tolerant stream in two parts gives what feeding it whole gives. */
  lemma {:induction false} FeedAppend(scan: seq<byte> -> Found<seq<byte>>, lim: seq<byte> -> Found<seq<byte>>, s: seq<byte>, t: seq<byte>)
    requires Stripping(scan, lim) && Tolerant(scan, s + t)
    ensures Feed(lim, s + t) == FeedTwice(lim, s, t)
    decreases |s|
  {
    if scan(s).Token? {
      TolerantBehind(scan, s, t);
      FeedAppend(scan, lim, s[scan(s).len..], t);
      TokenInFront(lim, s, t, scan(s).len);
    } else if |s| > STRIP_HOLD_MAX {
      GivenUpInFront(scan, lim, s, t);
    } else {
      HeldInFront(lim, s, t);
    }
  }

  lemma RunStep(lim: seq<byte> -> Found<seq<byte>>, init: seq<seq<byte>>, p: seq<byte>)
    requires Progressing(lim)
    ensures Run(lim, init + [p]) == After(Run(lim, init).out, Feed(lim, Run(lim, init).hold + p))
  {
    assert (init + [p])[..|init|] == init;
  }

  lemma {:induction false} RunIsFeed(scan: seq<byte> -> Found<seq<byte>>, lim: seq<byte> -> Found<seq<byte>>, chunks: seq<seq<byte>>)
    requires Stripping(scan, lim) && Tolerant(scan, Concat(chunks))
    ensures Run(lim, chunks) == Feed(lim, Concat(chunks))
    decreases |chunks|
  {
    if chunks == [] {
      FeedRest(lim, []);
    } else {
      var init, p := chunks[..|chunks| - 1], chunks[|chunks| - 1];
      assert chunks == init + [p];
      ConcatSnoc(init, p);
      TolerantPrefix(scan, Concat(init), p);
      RunIsFeed(scan, lim, init);
      RunStep(lim, init, p);
      FeedAppend(scan, lim, Concat(init), p);
    }
  }

  // ---- Streams for which it shows ----

  /** An overlong sequence comes out as it is when it is cut after 65 bytes. */
  lemma CutForwards(scan: seq<byte> -> Found<seq<byte>>, lim: seq<byte> -> Found<seq<byte>>, s: seq<byte>, n: nat)
    requires Stripping(scan, lim) && scan(s).Token? && scan(s).len == n && Overlong(scan, s)
    ensures STRIP_HOLD_MAX < n <= |s|
    ensures FeedTwice(lim, s[..STRIP_HOLD_MAX + 1], s[STRIP_HOLD_MAX + 1..]) == After(s[..n], Feed(lim, s[n..]))
  {
    var k := STRIP_HOLD_MAX + 1;
    assert s[..k] + s[k..] == s;
    assert GrowsAt(scan, s[..k], s[k..]) && FinishedAt(scan, s);
    GivenUp(scan, lim, s[..k]);
    assert [] + s[k..] == s[k..];
    RestIsText(scan, lim, s, k, n);
  }

  lemma RestIsText(scan: seq<byte> -> Found<seq<byte>>, lim: seq<byte> -> Found<seq<byte>>, s: seq<byte>, k: nat, n: nat)
    requires Stripping(scan, lim) && 1 <= k <= n <= |s| && NoEsc(s, 1, n)
    ensures After(s[..k], Feed(lim, s[k..])) == After(s[..n], Feed(lim, s[n..]))
  {
    var x, y := s[k..n], s[n..];
    assert x + y == s[k..] && s[..k] + x == s[..n];
    assert forall i :: 0 <= i < |x| ==> x[i] == s[k + i];
    TextFirst(scan, lim, x, y);
    AfterAfter(s[..k], x, Feed(lim, y));
  }

  /** So if it comes out as something else when it is whole, the cut shows. */
  lemma CutShows(scan: seq<byte> -> Found<seq<byte>>, lim: seq<byte> -> Found<seq<byte>>, s: seq<byte>, n: nat)
    requires Stripping(scan, lim) && scan(s).Token? && scan(s).len == n <= |s| && Overlong(scan, s) && scan(s).out != s[..n]
    ensures Feed(lim, s) != FeedTwice(lim, s[..STRIP_HOLD_MAX + 1], s[STRIP_HOLD_MAX + 1..])
  {
    CutForwards(scan, lim, s, n);
    FeedToken(lim, s);
    if After(scan(s).out, Feed(lim, s[n..])) == After(s[..n], Feed(lim, s[n..])) {
      SameAfter(scan(s).out, s[..n], Feed(lim, s[n..]));
    }
  }

  lemma SameAfter(x: seq<byte>, y: seq<byte>, f: Filtered)
    requires After(x, f) == After(y, f)
    ensures x == y
  {
    assert x == (x + f.out)[..|x|] && y == (y + f.out)[..|y|] && |x| == |y|;
  }

  lemma DifferAfter(a: seq<byte>, f: Filtered, g: Filtered)
    requires f != g
    ensures After(a, f) != After(a, g)
  {
    assert f.out == (a + f.out)[|a|..] && g.out == (a + g.out)[|a|..];
  }

  lemma CutBehind(s: seq<byte>, n: nat, k: nat)
    requires n + k <= |s|
    ensures s[..n + k] + s[n + k..] == s
    ensures s[..n + k][n..] == s[n..][..k] && s[n..][k..] == s[n + k..] && s[..n + k][n..] + s[n + k..] == s[n..]
  {
  }

  /** A token in front of a stream does not hide what shows in the rest. */
  lemma ShowsBehind(scan: seq<byte> -> Found<seq<byte>>, lim: seq<byte> -> Found<seq<byte>>, s: seq<byte>, n: nat, k: nat)
    requires Stripping(scan, lim) && scan(s).Token? && scan(s).len == n && 0 < k && n + k <= |s|
    requires Feed(lim, s[n..]) != FeedTwice(lim, s[n..][..k], s[n..][k..])
    ensures Feed(lim, s) != FeedTwice(lim, s[..n + k], s[n + k..])
  {
    var u, t := s[..n + k], s[n + k..];
    assert LocalAt(scan, s, n + k);
    CutBehind(s, n, k);
    TokenInFront(lim, u, t, n);
    DifferAfter(lim(u).out, Feed(lim, s[n..]), FeedTwice(lim, u[n..], t));
  }

  lemma NotTolerant(scan: seq<byte> -> Found<seq<byte>>, s: seq<byte>)
    requires Progressing(scan) && !Tolerant(scan, s)
    ensures scan(s).Token? && 1 <= scan(s).len <= |s|
    ensures Tolerant(scan, s[scan(s).len..]) ==> Overlong(scan, s) && scan(s).out != s[..scan(s).len]
  {
  }

  lemma {:induction false} SomeCutShows(scan: seq<byte> -> Found<seq<byte>>, lim: seq<byte> -> Found<seq<byte>>, s: seq<byte>) returns (k: nat)
    requires Stripping(scan, lim) && !Tolerant(scan, s)
    ensures 0 < k <= |s| && Feed(lim, s) != FeedTwice(lim, s[..k], s[k..])
    decreases |s|
  {
    NotTolerant(scan, s);
    var n := scan(s).len;
    if Tolerant(scan, s[n..]) {
      CutShows(scan, lim, s, n);
      k := STRIP_HOLD_MAX + 1;
    } else {
      var j := SomeCutShows(scan, lim, s[n..]);
      ShowsBehind(scan, lim, s, n, j);
      k := n + j;
    }
  }

  lemma RunWhole(lim: seq<byte> -> Found<seq<byte>>, s: seq<byte>)
    requires Progressing(lim)
    ensures Run(lim, [s]) == Feed(lim, s) && Concat([s]) == s
  {
    RunStep(lim, [], s);
    ConcatSnoc([], s);
    assert [] + [s] == [s] && [] + s == s;
    AfterNothing(Feed(lim, s));
  }

  lemma RunHalves(lim: seq<byte> -> Found<seq<byte>>, s: seq<byte>, k: nat)
    requires Progressing(lim) && k <= |s|
    ensures Run(lim, [s[..k], s[k..]]) == FeedTwice(lim, s[..k], s[k..])
  {
    RunWhole(lim, s[..k]);
    RunStep(lim, [s[..k]], s[k..]);
    assert [s[..k]] + [s[k..]] == [s[..k], s[k..]];
  }

  // ---- The theorem ----

  lemma ToleratesIff(scan: seq<byte> -> Found<seq<byte>>, lim: seq<byte> -> Found<seq<byte>>, s: seq<byte>)
    requires Stripping(scan, lim)
    ensures (forall a: seq<seq<byte>>, b: seq<seq<byte>> :: Concat(a) == s && Concat(b) == s ==> Agree(lim, a, b))
       <==> Tolerant(scan, s)
  {
    if Tolerant(scan, s) {
      forall a: seq<seq<byte>>, b: seq<seq<byte>> | Concat(a) == s && Concat(b) == s ensures Agree(lim, a, b) {
        RunIsFeed(scan, lim, a);
        RunIsFeed(scan, lim, b);
      }
    } else {
      var k := SomeCutShows(scan, lim, s);
      RunWhole(lim, s);
      RunHalves(lim, s, k);
      TwoChunks(s, k);
      assert !Agree(lim, [s], [s[..k], s[k..]]);
    }
  }

  /** The sequence at `p` is not complete, or fits the hold, or comes out as it is. */
  ghost predicate FitsAt(scan: seq<byte> -> Found<seq<byte>>, s: seq<byte>, p: nat)
    requires p <= |s|
  {
    scan(s[p..]).Token? && Overlong(scan, s[p..]) ==> VerbatimAt(scan, s, p)
  }

  lemma FitsBehind(scan: seq<byte> -> Found<seq<byte>>, s: seq<byte>, n: nat, p: nat)
    requires Progressing(scan) && n <= p <= |s|
    ensures FitsAt(scan, s[n..], p - n) <==> FitsAt(scan, s, p)
  {
    assert s[n..][p - n..] == s[p..];
    if scan(s[p..]).Token? { SliceOfDrop(s, n, p, p + scan(s[p..]).len); }
  }

  lemma {:induction false} TolerantFits(scan: seq<byte> -> Found<seq<byte>>, s: seq<byte>, p: nat)
    requires Progressing(scan) && Tolerant(scan, s) && p <= |s| && Begins(scan, s, p)
    ensures FitsAt(scan, s, p)
    decreases |s|
  {
    if p == 0 {
      assert s[0..] == s;
    } else {
      TolerantFits(scan, s[scan(s).len..], p - scan(s).len);
      FitsBehind(scan, s, scan(s).len, p);
    }
  }

  lemma {:induction false} Misfit(scan: seq<byte> -> Found<seq<byte>>, s: seq<byte>) returns (p: nat)
    requires Progressing(scan) && !Tolerant(scan, s)
    ensures p <= |s| && Begins(scan, s, p) && !FitsAt(scan, s, p)
    decreases |s|
  {
    NotTolerant(scan, s);
    var n := scan(s).len;
    if Tolerant(scan, s[n..]) {
      p := 0;
      assert s[0..] == s;
    } else {
      var q := Misfit(scan, s[n..]);
      FitsBehind(scan, s, n, n + q);
      p := n + q;
    }
  }

  /** The condition, position by position. */
  lemma TolerantMeans(scan: seq<byte> -> Found<seq<byte>>, s: seq<byte>)
    requires Progressing(scan)
    ensures Tolerant(scan, s) <==> forall p: nat :: p <= |s| && Begins(scan, s, p) ==> FitsAt(scan, s, p)
  {
    if Tolerant(scan, s) {
      forall p: nat | p <= |s| && Begins(scan, s, p) ensures FitsAt(scan, s, p) { TolerantFits(scan, s, p); }
    } else {
      var p := Misfit(scan, s);
    }
  }

  lemma StripGrammar(rewrite: seq<byte> -> seq<byte>)
    ensures Stripping(StripHead(rewrite), StripWithin(rewrite))
  {
    StripStable(rewrite);
    var scan := StripHead(rewrite);
    forall u: seq<byte> ensures TextAt(scan, u) && UnfinishedAt(scan, u) && FinishedAt(scan, u) { StripBytes(rewrite, u); }
    forall u: seq<byte>, t: seq<byte> ensures GrowsAt(scan, u, t) { StripGrows(rewrite, u, t); }
    forall u: seq<byte>, k: nat ensures LocalAt(scan, u, k) { StripLocal(rewrite, u, k); }
  }

  lemma StripBytes(rewrite: seq<byte> -> seq<byte>, u: seq<byte>)
    ensures TextAt(StripHead(rewrite), u) && UnfinishedAt(StripHead(rewrite), u) && FinishedAt(StripHead(rewrite), u)
  {
    if |u| >= 2 && u[0] == ESC && u[1] == LBRACKET {
      assert forall k :: 2 <= k < CsiStop(u, 2) ==> u[k] >= 0x20;
    }
  }

  lemma StripGrows(rewrite: seq<byte> -> seq<byte>, u: seq<byte>, t: seq<byte>)
    ensures GrowsAt(StripHead(rewrite), u, t)
  {
    if |u| >= 2 && u[0] == ESC && u[1] == LBRACKET && CsiStop(u, 2) == |u| {
      assert forall k :: 2 <= k < |u| ==> (u + t)[k] == u[k];
      assert CsiStop(u + t, 2) >= |u|;
    }
  }

  lemma StopInPrefix(u: seq<byte>, k: nat)
    requires 2 <= |u| && CsiStop(u, 2) < k <= |u|
    ensures CsiStop(u[..k], 2) == CsiStop(u, 2)
  {
    assert u[..k][CsiStop(u, 2)] == u[CsiStop(u, 2)];
  }

  lemma StripLocal(rewrite: seq<byte> -> seq<byte>, u: seq<byte>, k: nat)
    ensures LocalAt(StripHead(rewrite), u, k)
  {
    var h := Head(u, rewrite, DROP);
    if h.Token? && h.len < k <= |u| && u[0] == ESC {
      if u[1] == LBRACKET {
        var j := CsiStop(u, 2);
        StopInPrefix(u, k);
        assert u[..k][..j] == u[..j] && u[..k][..j + 1] == u[..j + 1];
      } else {
        assert u[..k][..2] == u[..2];
      }
    }
  }

  /**
    All ways of cutting a stream give the stripper the same output and the same held
    tail if and only if every complete sequence of which more than 64 bytes can be
    unfinished comes out as it went in.
  */
  lemma StripperAgreesIff(rewrite: seq<byte> -> seq<byte>, s: seq<byte>)
    ensures Progressing(StripHead(rewrite)) && Progressing(StripWithin(rewrite))
    ensures (forall a: seq<seq<byte>>, b: seq<seq<byte>> :: Concat(a) == s && Concat(b) == s ==> Agree(StripWithin(rewrite), a, b))
       <==> forall p: nat :: p <= |s| && Begins(StripHead(rewrite), s, p) ==> FitsAt(StripHead(rewrite), s, p)
  {
    StripGrammar(rewrite);
    ToleratesIff(StripHead(rewrite), StripWithin(rewrite), s);
    TolerantMeans(StripHead(rewrite), s);
  }
}
