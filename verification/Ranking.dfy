/**
  Ranking search results. How well an entry matches outweighs everything about when,
  where and how often it was run.
*/
module Ranking {
  import opened Base
  import opened Merge
  import opened FuzzyMatch

  const CLASS_WEIGHT := 1_000_000
  const RECENCY_WEIGHT := 200
  const FREQ_WEIGHT := 80
  const CWD_WEIGHT := 400
  const DEVICE_WEIGHT := 80
  const SESSION_WEIGHT := 120
  const DAY := 86_400_000

  /** The lowest frequency that cannot turn the order of match classes. */
  const FREQ_FLOOR := -12_397

  /** Text operations of the language's library: trimming, lower case, and splitting at white space. */
  datatype Text = Text(trim: string -> string, lower: string -> string, fields: string -> seq<string>)

  /** `freq` is how often each command was run; without it the entries themselves are counted. */
  datatype Context = Context(now: int, cwd: string, device: string, session: string, freq: Option<map<string, int>>)

  datatype Parts = Parts(matched: int, recency: int, frequency: int, cwd: int, device: int, session: int)

  datatype Result = Result(entry: Entry, score: int, parts: Parts)

  // ---- Scores ----

  function ContextParts(e: Entry, now: int, ctx: Context, freq: map<string, int>): Parts {
    var age := if now - e.start < 0 then 0 else now - e.start;
    var rec := if 30 - age / DAY < 0 then 0 else 30 - age / DAY;
    var n := if e.command !in freq then 0 else if freq[e.command] > 20 then 20 else freq[e.command];
    Parts(0, rec * RECENCY_WEIGHT, n * FREQ_WEIGHT,
          if ctx.cwd != "" && e.cwd == ctx.cwd then CWD_WEIGHT else 0,
          if ctx.device != "" && e.device == ctx.device then DEVICE_WEIGHT else 0,
          if ctx.session != "" && e.session == ctx.session then SESSION_WEIGHT else 0)
  }

  function ContextScore(p: Parts): int {
    p.recency + p.frequency + p.cwd + p.device + p.session
  }

  ghost predicate AtLeast(freq: map<string, int>, m: int) {
    forall c :: c in freq ==> freq[c] >= m
  }

  /** All that context can add, and all that negative frequencies can take away. */
  lemma ContextIsBounded(e: Entry, now: int, ctx: Context, freq: map<string, int>, m: int)
    requires AtLeast(freq, m)
    ensures ContextScore(ContextParts(e, now, ctx, freq)) <= 8200
    ensures ContextScore(ContextParts(e, now, ctx, freq)) >= if m < 0 then m * FREQ_WEIGHT else 0
  {
  }

  /** The full days between two times; none if the first is not before the second. */
  ghost predicate DaysBetween(start: int, now: int, days: int) {
    if now <= start then days == 0 else 0 <= days && days * 86_400_000 <= now - start < (days + 1) * 86_400_000
  }

  /** What each part of the context is worth, and that nothing else counts. */
  lemma ContextMeans(e: Entry, now: int, ctx: Context, freq: map<string, int>, days: int)
    requires DaysBetween(e.start, now, days)
    ensures var p := ContextParts(e, now, ctx, freq);
            && p.matched == 0
            && p.recency == (if days < 30 then 200 * (30 - days) else 0)
            && p.frequency == (if e.command !in freq then 0 else if freq[e.command] <= 20 then 80 * freq[e.command] else 1600)
            && p.cwd == (if e.cwd == ctx.cwd && ctx.cwd != "" then 400 else 0)
            && p.device == (if e.device == ctx.device && ctx.device != "" then 80 else 0)
            && p.session == (if e.session == ctx.session && ctx.session != "" then 120 else 0)
            && ContextScore(p) == p.recency + p.frequency + p.cwd + p.device + p.session
  {
    if now > e.start {
      DayUnique(now - e.start, days);
    }
  }

  lemma DayUnique(age: int, days: int)
    requires days * 86_400_000 <= age < (days + 1) * 86_400_000
    ensures age / DAY == days
  {
  }

  /** The worst class of any term. */
  function ClassOf(terms: seq<string>, c: string): (r: int)
    ensures CLASS_FUZZY <= r <= CLASS_PREFIX
  {
    if terms == [] then CLASS_PREFIX
    else
      var r := ClassOf(terms[..|terms| - 1], c);
      var m := MatchClass(terms[|terms| - 1], c);
      if m < r then m else r
  }

  function Sum(ns: seq<int>): int {
    if ns == [] then 0 else Sum(ns[..|ns| - 1]) + ns[|ns| - 1]
  }

  /** The narrowest window of every term. */
  ghost predicate AreSpans(terms: seq<string>, c: string, spans: seq<int>) {
    |spans| == |terms| && forall i :: 0 <= i < |terms| ==> IsMinSpan(terms[i], c, spans[i])
  }

  ghost predicate AllOccur(terms: seq<string>, c: string) {
    forall i :: 0 <= i < |terms| ==> Occurs(terms[i], c)
  }

  ghost predicate IsFuzzyScore(terms: seq<string>, c: string, score: int) {
    if terms == [] then score == 0
    else exists spans :: AreSpans(terms, c, spans) && score == ClassOf(terms, c) * 1_000_000 - Sum(spans)
  }

  /** The worst class and the sum of the spans, over the terms seen. */
  ghost predicate Tally(terms: seq<string>, c: string, spans: seq<int>, cls: int, spanSum: int) {
    AreSpans(terms, c, spans) && cls == ClassOf(terms, c) && spanSum == Sum(spans)
  }

  method FuzzyScore(terms: seq<string>, c: string) returns (score: int, ok: bool)
    ensures ok <==> AllOccur(terms, c)
    ensures ok ==> IsFuzzyScore(terms, c, score)
  {
    if |terms| == 0 {
      return 0, true;
    }
    var cls, spanSum := CLASS_PREFIX, 0;
    ghost var spans: seq<int> := [];
    for i := 0 to |terms|
      invariant Tally(terms[..i], c, spans, cls, spanSum)
    {
      assert terms[..i + 1] == terms[..i] + [terms[i]];
      var span, found := MinSpan(terms[i], c);
      if !found {
        return 0, false;
      }
      spanSum := spanSum + span;
      spans := spans + [span];
      var m := MatchClass(terms[i], c);
      if m < cls {
        cls := m;
      }
    }
    assert terms[..|terms|] == terms;
    score, ok := cls * CLASS_WEIGHT - spanSum, true;
  }

  // ---- Class dominance ----

  function Lengths(terms: seq<string>): int {
    if terms == [] then 0 else Lengths(terms[..|terms| - 1]) + |terms[|terms| - 1]|
  }

  /** No spans sum to less than the terms' lengths, and those of a match in one piece sum to exactly that. */
  lemma {:induction false} SpansAndLengths(terms: seq<string>, c: string, spans: seq<int>)
    requires AreSpans(terms, c, spans)
    ensures Sum(spans) >= Lengths(terms)
    ensures ClassOf(terms, c) >= CLASS_SUBSTRING ==> Sum(spans) == Lengths(terms)
    decreases |terms|
  {
    if terms != [] {
      var n := |terms| - 1;
      SpansAndLengths(terms[..n], c, spans[..n]);
      SpanAtLeast(terms[n], c, spans[n]);
      if ClassOf(terms, c) >= CLASS_SUBSTRING {
        ContainedSpan(terms[n], c, spans[n]);
      }
    }
  }

  /** For one query, a strictly better match class scores strictly higher, unless context outweighs a class. */
  lemma ClassDominates(terms: seq<string>, a: string, scoreA: int, contextA: int, b: string, scoreB: int, contextB: int)
    requires terms != [] && IsFuzzyScore(terms, a, scoreA) && IsFuzzyScore(terms, b, scoreB)
    requires ClassOf(terms, a) > ClassOf(terms, b) && contextB - contextA < CLASS_WEIGHT
    ensures scoreA + contextA > scoreB + contextB
  {
    var sa :| AreSpans(terms, a, sa) && scoreA == ClassOf(terms, a) * CLASS_WEIGHT - Sum(sa);
    var sb :| AreSpans(terms, b, sb) && scoreB == ClassOf(terms, b) * CLASS_WEIGHT - Sum(sb);
    SpansAndLengths(terms, a, sa);
    SpansAndLengths(terms, b, sb);
  }

  /** The class decides exactly while context does not outweigh the gap and the width that the worse match loses. */
  lemma ClassDominatesIff(terms: seq<string>, a: string, scoreA: int, contextA: int, b: string, scoreB: int, contextB: int, spans: seq<int>)
    requires terms != [] && IsFuzzyScore(terms, a, scoreA) && IsFuzzyScore(terms, b, scoreB) && AreSpans(terms, b, spans)
    requires ClassOf(terms, a) > ClassOf(terms, b)
    ensures scoreA + contextA > scoreB + contextB
       <==> contextB - contextA < (ClassOf(terms, a) - ClassOf(terms, b)) * CLASS_WEIGHT + Sum(spans) - Lengths(terms)
  {
    var sa :| AreSpans(terms, a, sa) && scoreA == ClassOf(terms, a) * CLASS_WEIGHT - Sum(sa);
    var sb :| AreSpans(terms, b, sb) && scoreB == ClassOf(terms, b) * CLASS_WEIGHT - Sum(sb);
    SpansAndLengths(terms, a, sa);
    SameSpans(terms, b, sb, spans);
  }

  lemma SameSpans(terms: seq<string>, c: string, s: seq<int>, t: seq<int>)
    requires AreSpans(terms, c, s) && AreSpans(terms, c, t)
    ensures s == t
  {
    forall i | 0 <= i < |s| ensures s[i] == t[i] {
      assert IsMinSpan(terms[i], c, s[i]) && IsMinSpan(terms[i], c, t[i]);
    }
  }

  /** Between two matches of one class in one piece, only context decides. */
  lemma SameClassSameMatch(terms: seq<string>, a: string, scoreA: int, b: string, scoreB: int)
    requires terms != [] && IsFuzzyScore(terms, a, scoreA) && IsFuzzyScore(terms, b, scoreB)
    requires ClassOf(terms, a) == ClassOf(terms, b) >= CLASS_SUBSTRING
    ensures scoreA == scoreB
  {
    var sa :| AreSpans(terms, a, sa) && scoreA == ClassOf(terms, a) * CLASS_WEIGHT - Sum(sa);
    var sb :| AreSpans(terms, b, sb) && scoreB == ClassOf(terms, b) * CLASS_WEIGHT - Sum(sb);
    SpansAndLengths(terms, a, sa);
    SpansAndLengths(terms, b, sb);
  }

  // ---- Sorting ----

  /** `b` may follow `a`. */
  predicate InOrder(a: Result, b: Result) {
    a.score > b.score || (a.score == b.score && a.entry.start >= b.entry.start)
  }

  /** Higher scores first, and among equal scores later starts first. */
  ghost predicate Ordered(rs: seq<Result>) {
    forall i, j :: 0 <= i < j < |rs| ==>
                     rs[i].score > rs[j].score || (rs[i].score == rs[j].score && rs[i].entry.start >= rs[j].entry.start)
  }

  /** The results that sort the same, in their order. */
  function WithKey(rs: seq<Result>, score: int, start: int): seq<Result> {
    if rs == [] then []
    else
      var r, init := rs[|rs| - 1], rs[..|rs| - 1];
      WithKey(init, score, start) + if r.score == score && r.entry.start == start then [r] else []
  }

  /** The same results, and those that sort the same in their old order. */
  ghost predicate StableSortOf(rs: seq<Result>, sorted: seq<Result>) {
    && Ordered(sorted) && multiset(sorted) == multiset(rs)
    && forall score, start :: WithKey(sorted, score, start) == WithKey(rs, score, start)
  }

  function KeyAt(rs: seq<Result>, score: int, start: int): set<int> {
    set i | 0 <= i < |rs| && rs[i].score == score && rs[i].entry.start == start
  }

  lemma KeyAtMore(rs: seq<Result>, score: int, start: int)
    requires rs != []
    ensures var n := |rs| - 1;
            KeyAt(rs, score, start) == KeyAt(rs[..n], score, start) + if rs[n].score == score && rs[n].entry.start == start then {n} else {}
  {
  }

  /** The results with this score and start, in their order. */
  lemma {:induction false} WithKeyMeans(rs: seq<Result>, score: int, start: int)
    ensures PartOf(rs, KeyAt(rs, score, start), WithKey(rs, score, start))
    decreases |rs|
  {
    if rs == [] {
      PartOfNothing(rs, KeyAt(rs, score, start), WithKey(rs, score, start));
    } else {
      WithKeyMeans(rs[..|rs| - 1], score, start);
      KeyAtMore(rs, score, start);
      PartSnoc(rs, KeyAt(rs[..|rs| - 1], score, start), WithKey(rs[..|rs| - 1], score, start));
    }
  }

  lemma {:induction false} WithKeyAppend(a: seq<Result>, b: seq<Result>, score: int, start: int)
    ensures WithKey(a + b, score, start) == WithKey(a, score, start) + WithKey(b, score, start)
    decreases |b|
  {
    if b == [] {
      assert a + b == a;
    } else {
      var init := b[..|b| - 1];
      assert (a + b)[..|a + b| - 1] == a + init;
      WithKeyAppend(a, init, score, start);
    }
  }

  lemma {:induction false} WithKeyNone(rs: seq<Result>, score: int, start: int)
    requires forall i :: 0 <= i < |rs| ==> !(rs[i].score == score && rs[i].entry.start == start)
    ensures WithKey(rs, score, start) == []
    decreases |rs|
  {
    if rs != [] { WithKeyNone(rs[..|rs| - 1], score, start); }
  }

  lemma InsertKeepsKeys(rs: seq<Result>, r: Result, k: nat, score: int, start: int)
    requires k <= |rs|
    requires forall i :: k <= i < |rs| ==> !InOrder(rs[i], r)
    ensures WithKey(rs[..k] + [r] + rs[k..], score, start) == WithKey(rs + [r], score, start)
  {
    var a, b := rs[..k], rs[k..];
    assert rs == a + b;
    WithKeyAppend(a + [r], b, score, start);
    WithKeyAppend(a, [r], score, start);
    WithKeyAppend(a + b, [r], score, start);
    WithKeyAppend(a, b, score, start);
    if r.score == score && r.entry.start == start {
      WithKeyNone(b, score, start);
    } else {
      WithKeyNone([r], score, start);
    }
  }

  method SortResults(rs: seq<Result>) returns (sorted: seq<Result>)
    ensures StableSortOf(rs, sorted)
  {
    sorted := [];
    for n := 0 to |rs|
      invariant StableSortOf(rs[..n], sorted)
    {
      var k := |sorted|;
      while k > 0 && !InOrder(sorted[k - 1], rs[n])
        invariant 0 <= k <= |sorted|
        invariant forall i :: k <= i < |sorted| ==> !InOrder(sorted[i], rs[n])
      {
        k := k - 1;
      }
      InsertIsStable(rs[..n], sorted, rs[n], k);
      assert rs[..n + 1] == rs[..n] + [rs[n]];
      sorted := sorted[..k] + [rs[n]] + sorted[k..];
    }
    assert rs[..|rs|] == rs;
  }

  lemma InsertSameKeys(rs: seq<Result>, sorted: seq<Result>, r: Result, k: nat, score: int, start: int)
    requires k <= |sorted| && forall i :: k <= i < |sorted| ==> !InOrder(sorted[i], r)
    requires WithKey(sorted, score, start) == WithKey(rs, score, start)
    ensures WithKey(sorted[..k] + [r] + sorted[k..], score, start) == WithKey(rs + [r], score, start)
  {
    InsertKeepsKeys(sorted, r, k, score, start);
    WithKeyAppend(sorted, [r], score, start);
    WithKeyAppend(rs, [r], score, start);
  }

  lemma InsertSameResults(rs: seq<Result>, sorted: seq<Result>, r: Result, k: nat)
    requires k <= |sorted| && multiset(sorted) == multiset(rs)
    ensures multiset(sorted[..k] + [r] + sorted[k..]) == multiset(rs + [r])
  {
    assert sorted == sorted[..k] + sorted[k..];
  }

  lemma InsertKeepsOrder(rs: seq<Result>, r: Result, k: nat)
    requires Ordered(rs) && k <= |rs| && (k > 0 ==> InOrder(rs[k - 1], r))
    requires forall i :: k <= i < |rs| ==> !InOrder(rs[i], r)
    ensures Ordered(rs[..k] + [r] + rs[k..])
  {
    var rs' := rs[..k] + [r] + rs[k..];
    assert forall i :: 0 <= i < |rs'| ==> rs'[i] == if i < k then rs[i] else if i == k then r else rs[i - 1];
  }

  lemma InsertIsStable(rs: seq<Result>, sorted: seq<Result>, r: Result, k: nat)
    requires StableSortOf(rs, sorted) && k <= |sorted| && (k > 0 ==> InOrder(sorted[k - 1], r))
    requires forall i :: k <= i < |sorted| ==> !InOrder(sorted[i], r)
    ensures StableSortOf(rs + [r], sorted[..k] + [r] + sorted[k..])
  {
    InsertKeepsOrder(sorted, r, k);
    InsertSameResults(rs, sorted, r, k);
    forall score, start ensures WithKey(sorted[..k] + [r] + sorted[k..], score, start) == WithKey(rs + [r], score, start) {
      InsertSameKeys(rs, sorted, r, k, score, start);
    }
  }

  // ---- Rank ----

  /** How many of the entries run the command. */
  function CountOf(entries: seq<Entry>, command: string): nat {
    if entries == [] then 0
    else CountOf(entries[..|entries| - 1], command) + if entries[|entries| - 1].command == command then 1 else 0
  }

  /** Exactly the commands of the entries, each with its count. */
  ghost predicate Counts(entries: seq<Entry>, freq: map<string, int>) {
    forall c :: (c in freq <==> CountOf(entries, c) > 0) && (c in freq ==> freq[c] == CountOf(entries, c))
  }

  function RunsAt(entries: seq<Entry>, command: string): set<int> {
    set i | 0 <= i < |entries| && entries[i].command == command
  }

  lemma RunsAtMore(entries: seq<Entry>, command: string)
    requires entries != []
    ensures var n := |entries| - 1;
            && n !in RunsAt(entries[..n], command)
            && RunsAt(entries, command) == RunsAt(entries[..n], command) + if entries[n].command == command then {n} else {}
  {
  }

  /** A count is the number of entries with that command. */
  lemma {:induction false} CountMeans(entries: seq<Entry>, command: string)
    ensures CountOf(entries, command) == |set i | 0 <= i < |entries| && entries[i].command == command|
    decreases |entries|
  {
    assert RunsAt(entries, command) == set i | 0 <= i < |entries| && entries[i].command == command;
    if entries != [] {
      CountMeans(entries[..|entries| - 1], command);
      RunsAtMore(entries, command);
    }
  }

  method Frequency(entries: seq<Entry>) returns (freq: map<string, int>)
    ensures Counts(entries, freq)
  {
    freq := map[];
    for i := 0 to |entries|
      invariant Counts(entries[..i], freq)
    {
      assert entries[..i + 1][..i] == entries[..i];
      var c := entries[i].command;
      freq := freq[c := if c in freq then freq[c] + 1 else 1];
    }
    assert entries[..|entries|] == entries;
  }

  /** The frequencies a search works with: those handed in, or the entries' own. */
  ghost predicate IsFreq(entries: seq<Entry>, ctx: Context, freq: map<string, int>) {
    if ctx.freq.Some? then freq == ctx.freq.value else Counts(entries, freq)
  }

  /** A result of an empty query: what context says about the entry. */
  ghost predicate IsContextResult(ctx: Context, freq: map<string, int>, r: Result) {
    r.parts == ContextParts(r.entry, ctx.now, ctx, freq) && r.score == ContextScore(r.parts)
  }

  /** A fuzzy result: its score is the match and what context says about the entry. */
  ghost predicate IsFuzzyResult(text: Text, terms: seq<string>, ctx: Context, freq: map<string, int>, r: Result) {
    && IsFuzzyScore(terms, text.lower(r.entry.command), r.parts.matched)
    && r.parts == ContextParts(r.entry, ctx.now, ctx, freq).(matched := r.parts.matched)
    && r.score == r.parts.matched + ContextScore(r.parts)
  }

  /** The entries that have every term, in their order. */
  ghost function Matching(text: Text, terms: seq<string>, entries: seq<Entry>): seq<Entry> {
    if entries == [] then []
    else
      var e := entries[|entries| - 1];
      Matching(text, terms, entries[..|entries| - 1]) + if AllOccur(terms, text.lower(e.command)) then [e] else []
  }

  ghost function MatchingAt(text: Text, terms: seq<string>, entries: seq<Entry>): set<int> {
    set i | 0 <= i < |entries| && AllOccur(terms, text.lower(entries[i].command))
  }

  lemma MatchingAtMore(text: Text, terms: seq<string>, entries: seq<Entry>)
    requires entries != []
    ensures var n := |entries| - 1;
            MatchingAt(text, terms, entries) == MatchingAt(text, terms, entries[..n]) + if AllOccur(terms, text.lower(entries[n].command)) then {n} else {}
  {
  }

  /** The entries in which every term occurs, in their order. */
  lemma {:induction false} MatchingMeans(text: Text, terms: seq<string>, entries: seq<Entry>)
    ensures PartOf(entries, MatchingAt(text, terms, entries), Matching(text, terms, entries))
    decreases |entries|
  {
    if entries == [] {
      PartOfNothing(entries, MatchingAt(text, terms, entries), Matching(text, terms, entries));
    } else {
      MatchingMeans(text, terms, entries[..|entries| - 1]);
      MatchingAtMore(text, terms, entries);
      PartSnoc(entries, MatchingAt(text, terms, entries[..|entries| - 1]), Matching(text, terms, entries[..|entries| - 1]));
    }
  }

  function EntriesOf(rs: seq<Result>): (es: seq<Entry>)
    ensures |es| == |rs| && forall i :: 0 <= i < |rs| ==> es[i] == rs[i].entry
  {
    seq(|rs|, i requires 0 <= i < |rs| => rs[i].entry)
  }

  method FuzzyResults(text: Text, terms: seq<string>, entries: seq<Entry>, ctx: Context, freq: map<string, int>) returns (out: seq<Result>)
    ensures EntriesOf(out) == Matching(text, terms, entries)
    ensures forall i :: 0 <= i < |out| ==> IsFuzzyResult(text, terms, ctx, freq, out[i])
  {
    out := [];
    for i := 0 to |entries|
      invariant EntriesOf(out) == Matching(text, terms, entries[..i])
      invariant forall j :: 0 <= j < |out| ==> IsFuzzyResult(text, terms, ctx, freq, out[j])
    {
      var e := entries[i];
      assert entries[..i + 1][..i] == entries[..i];
      var matched, ok := FuzzyScore(terms, text.lower(e.command));
      if ok {
        var p := ContextParts(e, ctx.now, ctx, freq).(matched := matched);
        var r := Result(e, matched + ContextScore(p), p);
        assert (out + [r])[..|out|] == out;
        out := out + [r];
      }
    }
    assert entries[..|entries|] == entries;
  }

  ghost predicate ByClass(text: Text, terms: seq<string>, rs: seq<Result>) {
    forall i, j :: 0 <= i < j < |rs| ==>
                     ClassOf(terms, text.lower(rs[i].entry.command)) >= ClassOf(terms, text.lower(rs[j].entry.command))
  }

  /** The class of a query is that of its worst term. */
  lemma {:induction false} ClassOfMeans(terms: seq<string>, c: string, k: int)
    requires 1 <= k <= 3
    ensures ClassOf(terms, c) >= k <==> forall i :: 0 <= i < |terms| ==> MatchClass(terms[i], c) >= k
    decreases |terms|
  {
    if terms != [] {
      ClassOfMeans(terms[..|terms| - 1], c, k);
      InitLast(terms);
    }
  }

  ghost predicate AllStart(terms: seq<string>, c: string) {
    forall i :: 0 <= i < |terms| ==> StartsWith(c, terms[i])
  }

  ghost predicate AllInOnePiece(terms: seq<string>, c: string) {
    forall i :: 0 <= i < |terms| ==> HasPiece(c, terms[i])
  }

  /** Ranked by class: commands that start with the terms come first, then those that contain each in one piece. */
  lemma BetterMatchesFirst(text: Text, terms: seq<string>, rs: seq<Result>, i: nat, j: nat)
    requires ByClass(text, terms, rs) && i < j < |rs|
    ensures AllStart(terms, text.lower(rs[j].entry.command)) ==> AllStart(terms, text.lower(rs[i].entry.command))
    ensures AllInOnePiece(terms, text.lower(rs[j].entry.command)) ==> AllInOnePiece(terms, text.lower(rs[i].entry.command))
  {
    ClassInTerms(terms, text.lower(rs[i].entry.command));
    ClassInTerms(terms, text.lower(rs[j].entry.command));
  }

  lemma ClassInTerms(terms: seq<string>, c: string)
    ensures ClassOf(terms, c) >= 3 <==> AllStart(terms, c)
    ensures ClassOf(terms, c) >= 2 <==> AllInOnePiece(terms, c)
  {
    ClassOfMeans(terms, c, 3);
    ClassOfMeans(terms, c, 2);
    forall i | 0 <= i < |terms|
      ensures (MatchClass(terms[i], c) >= 3 <==> StartsWith(c, terms[i])) && (MatchClass(terms[i], c) >= 2 <==> HasPiece(c, terms[i]))
    {
      MatchClassMeans(terms[i], c);
    }
  }

  /** In a sorted list of fuzzy results the match class never goes up. */
  lemma ClassNeverRises(text: Text, terms: seq<string>, ctx: Context, freq: map<string, int>, rs: seq<Result>)
    requires terms != [] && AtLeast(freq, FREQ_FLOOR)
    requires Ordered(rs) && forall i :: 0 <= i < |rs| ==> IsFuzzyResult(text, terms, ctx, freq, rs[i])
    ensures ByClass(text, terms, rs)
  {
    forall i, j | 0 <= i < j < |rs|
      ensures ClassOf(terms, text.lower(rs[i].entry.command)) >= ClassOf(terms, text.lower(rs[j].entry.command))
    {
      var a, b := text.lower(rs[i].entry.command), text.lower(rs[j].entry.command);
      assert InOrder(rs[i], rs[j]);
      ContextIsBounded(rs[i].entry, ctx.now, ctx, freq, FREQ_FLOOR);
      ContextIsBounded(rs[j].entry, ctx.now, ctx, freq, FREQ_FLOOR);
      if ClassOf(terms, b) > ClassOf(terms, a) {
        ClassDominates(terms, b, rs[j].parts.matched, ContextScore(rs[j].parts), a, rs[i].parts.matched, ContextScore(rs[i].parts));
      }
    }
  }

  lemma SortedResults(text: Text, terms: seq<string>, ctx: Context, freq: map<string, int>, rs: seq<Result>, sorted: seq<Result>)
    requires StableSortOf(rs, sorted) && forall i :: 0 <= i < |rs| ==> IsFuzzyResult(text, terms, ctx, freq, rs[i])
    ensures forall i :: 0 <= i < |sorted| ==> IsFuzzyResult(text, terms, ctx, freq, sorted[i])
  {
    forall i | 0 <= i < |sorted| ensures IsFuzzyResult(text, terms, ctx, freq, sorted[i]) {
      assert sorted[i] in multiset(sorted);
      assert sorted[i] in rs;
    }
  }

  /** The entries whose command contains the query, in their order. */
  function Containing(text: Text, q: string, entries: seq<Entry>): seq<Entry> {
    if entries == [] then []
    else
      var e := entries[|entries| - 1];
      Containing(text, q, entries[..|entries| - 1]) + if Contains(q, text.lower(e.command)) then [e] else []
  }

  ghost function ContainingAt(text: Text, q: string, entries: seq<Entry>): set<int> {
    set i | 0 <= i < |entries| && HasPiece(text.lower(entries[i].command), q)
  }

  lemma ContainingAtMore(text: Text, q: string, entries: seq<Entry>)
    requires entries != []
    ensures var n := |entries| - 1;
            ContainingAt(text, q, entries) == ContainingAt(text, q, entries[..n]) + if HasPiece(text.lower(entries[n].command), q) then {n} else {}
  {
  }

  /** The entries whose command has the query in one piece, in their order. */
  lemma {:induction false} ContainingMeans(text: Text, q: string, entries: seq<Entry>)
    ensures PartOf(entries, ContainingAt(text, q, entries), Containing(text, q, entries))
    decreases |entries|
  {
    if entries == [] {
      PartOfNothing(entries, ContainingAt(text, q, entries), Containing(text, q, entries));
    } else {
      ContainingMeans(text, q, entries[..|entries| - 1]);
      ContainingAtMore(text, q, entries);
      ContainsMeans(q, text.lower(entries[|entries| - 1].command));
      PartSnoc(entries, ContainingAt(text, q, entries[..|entries| - 1]), Containing(text, q, entries[..|entries| - 1]));
    }
  }

  method ExactResults(text: Text, q: string, entries: seq<Entry>) returns (out: seq<Result>)
    ensures EntriesOf(out) == Containing(text, q, entries)
    ensures forall i :: 0 <= i < |out| ==> out[i].score == 1
  {
    out := [];
    for i := 0 to |entries|
      invariant EntriesOf(out) == Containing(text, q, entries[..i])
      invariant forall j :: 0 <= j < |out| ==> out[j].score == 1
    {
      var e := entries[i];
      assert entries[..i + 1][..i] == entries[..i];
      if Contains(q, text.lower(e.command)) {
        var r := Result(e, 1, Parts(1, 0, 0, 0, 0, 0));
        assert (out + [r])[..|out|] == out;
        out := out + [r];
      }
    }
    assert entries[..|entries|] == entries;
  }

  method ContextResults(entries: seq<Entry>, ctx: Context, freq: map<string, int>) returns (out: seq<Result>)
    ensures EntriesOf(out) == entries
    ensures forall i :: 0 <= i < |out| ==> IsContextResult(ctx, freq, out[i])
  {
    out := [];
    for i := 0 to |entries|
      invariant EntriesOf(out) == entries[..i]
      invariant forall j :: 0 <= j < |out| ==> IsContextResult(ctx, freq, out[j])
    {
      var p := ContextParts(entries[i], ctx.now, ctx, freq);
      var r := Result(entries[i], ContextScore(p), p);
      assert (out + [r])[..|out|] == out;
      out := out + [r];
    }
  }

  /** The answer to an empty query: all entries, by what context says about them. */
  ghost predicate IsContextAnswer(ctx: Context, freq: map<string, int>, entries: seq<Entry>, out: seq<Result>) {
    exists found :: StableSortOf(found, out) && EntriesOf(found) == entries
                    && forall i :: 0 <= i < |found| ==> IsContextResult(ctx, freq, found[i])
  }

  /** What a fuzzy search answers: the entries with every term, best class first, ties in their old order. */
  ghost predicate IsFuzzyAnswer(text: Text, terms: seq<string>, ctx: Context, freq: map<string, int>, entries: seq<Entry>, out: seq<Result>) {
    && (exists found :: StableSortOf(found, out) && EntriesOf(found) == Matching(text, terms, entries))
    && (forall i :: 0 <= i < |out| ==> IsFuzzyResult(text, terms, ctx, freq, out[i]))
    && (terms != [] && AtLeast(freq, FREQ_FLOOR) ==> ByClass(text, terms, out))
  }

  /** The three searches. `freq` is returned so that the scores can be stated. */
  method RankWith(text: Text, query: string, entries: seq<Entry>, exact: bool, ctx: Context)
    returns (out: seq<Result>, freq: map<string, int>)
    ensures IsFreq(entries, ctx, freq)
    ensures text.trim(query) == "" ==> IsContextAnswer(ctx, freq, entries, out)
    ensures text.trim(query) != "" && exact ==>
              && EntriesOf(out) == Containing(text, text.lower(text.trim(query)), entries)
              && forall i :: 0 <= i < |out| ==> out[i].score == 1
    ensures text.trim(query) != "" && !exact ==>
              var terms := text.fields(text.lower(text.trim(query)));
              && IsFuzzyAnswer(text, terms, ctx, freq, entries, out)
              && (terms != [] && ctx.freq.None? ==> ByClass(text, terms, out))
  {
    if ctx.freq.Some? {
      freq := ctx.freq.value;
    } else {
      freq := Frequency(entries);
      CountsAreNotNegative(entries, freq);
    }
    var q := text.trim(query);
    if q == "" {
      var found := ContextResults(entries, ctx, freq);
      out := SortResults(found);
    } else if exact {
      out := ExactResults(text, text.lower(q), entries);
    } else {
      var terms := text.fields(text.lower(q));
      var found := FuzzyResults(text, terms, entries, ctx, freq);
      out := SortResults(found);
      SortedResults(text, terms, ctx, freq, found, out);
      if terms != [] && AtLeast(freq, FREQ_FLOOR) {
        ClassNeverRises(text, terms, ctx, freq, out);
      }
    }
  }

  /** Counted frequencies are never negative, so a search that counts for itself ranks by class. */
  lemma CountsAreNotNegative(entries: seq<Entry>, freq: map<string, int>)
    requires Counts(entries, freq)
    ensures AtLeast(freq, 0) && AtLeast(freq, FREQ_FLOOR)
  {
  }

  // ---- How negative a frequency may be ----

  /** Two entries of one search: the better class has the higher score. */
  ghost predicate BetterWins(terms: seq<string>, ctx: Context, freq: map<string, int>, ea: Entry, scoreA: int, eb: Entry, scoreB: int) {
    terms != [] && IsFuzzyScore(terms, ea.command, scoreA) && IsFuzzyScore(terms, eb.command, scoreB)
    && ClassOf(terms, ea.command) > ClassOf(terms, eb.command) ==>
      scoreA + ContextScore(ContextParts(ea, ctx.now, ctx, freq)) > scoreB + ContextScore(ContextParts(eb, ctx.now, ctx, freq))
  }

  ghost predicate ClassDecides(freq: map<string, int>) {
    forall terms: seq<string>, ctx: Context, ea: Entry, scoreA: int, eb: Entry, scoreB: int ::
      BetterWins(terms, ctx, freq, ea, scoreA, eb, scoreB)
  }

  lemma AboveFloor(freq: map<string, int>)
    requires AtLeast(freq, FREQ_FLOOR)
    ensures ClassDecides(freq)
  {
    forall terms: seq<string>, ctx: Context, ea: Entry, scoreA: int, eb: Entry, scoreB: int
      ensures BetterWins(terms, ctx, freq, ea, scoreA, eb, scoreB)
    {
      ContextIsBounded(ea, ctx.now, ctx, freq, FREQ_FLOOR);
      ContextIsBounded(eb, ctx.now, ctx, freq, FREQ_FLOOR);
      if terms != [] && IsFuzzyScore(terms, ea.command, scoreA) && IsFuzzyScore(terms, eb.command, scoreB)
         && ClassOf(terms, ea.command) > ClassOf(terms, eb.command) {
        ClassDominates(terms, ea.command, scoreA, ContextScore(ContextParts(ea, ctx.now, ctx, freq)),
                       eb.command, scoreB, ContextScore(ContextParts(eb, ctx.now, ctx, freq)));
      }
    }
  }

  lemma OneTerm(term: string, c: string)
    requires MatchClass(term, c) >= CLASS_SUBSTRING
    ensures IsFuzzyScore([term], c, MatchClass(term, c) * CLASS_WEIGHT - |term|) && ClassOf([term], c) == MatchClass(term, c)
  {
    assert ContainsAt(term, c, 0) || Contains(term, c);
    var p: nat :| ContainsAt(term, c, p);
    PlacesEmbed(term, c, p);
    forall at | Embeds(term, c, at) ensures |term| <= Width(at) { WidthAtLeast(term, c, at); }
    assert IsMinSpan(term, c, |term|);
    assert [term][..0] == [] && [|term|][..0] == [];
    assert ClassOf([], c) == CLASS_PREFIX && ClassOf([term], c) == MatchClass(term, c);
    assert AreSpans([term], c, [|term|]) && Sum([|term|]) == |term|;
  }

  function Ran(command: string, start: int, cwd: string): Entry {
    Entry("", command, start, None, None, None, cwd, cwd, "", cwd, "", false, "", None)
  }

  /** The least and the most that context can say. */
  lemma ExtremeContexts(freq: map<string, int>, ctx: Context)
    requires "a" in freq && freq["a"] <= 0 && "ba" in freq && freq["ba"] == 20
    requires ctx.now == 31 * DAY && ctx.cwd == "/" && ctx.device == "/" && ctx.session == "/"
    ensures ContextScore(ContextParts(Ran("a", 0, ""), ctx.now, ctx, freq)) == freq["a"] * FREQ_WEIGHT
    ensures ContextScore(ContextParts(Ran("ba", 31 * DAY, "/"), ctx.now, ctx, freq)) == 8200
  {
  }

  lemma PrefixAndSubstring()
    ensures IsFuzzyScore(["a"], "a", 3 * CLASS_WEIGHT - 1) && ClassOf(["a"], "a") == CLASS_PREFIX
    ensures IsFuzzyScore(["a"], "ba", 2 * CLASS_WEIGHT - 1) && ClassOf(["a"], "ba") == CLASS_SUBSTRING
  {
    assert "ba"[0] != "a"[0] && "ba"[1..2] == "a";
    assert !("a" <= "ba") && ContainsAt("a", "ba", 1);
    OneTerm("a", "a");
    OneTerm("a", "ba");
  }

  /** A command below the floor, far away, against a frequent one, here and now: the prefix match comes second. */
  lemma BelowFloor(low: int)
    requires low < FREQ_FLOOR
    ensures !ClassDecides(map["a" := low, "ba" := 20])
  {
    var freq := map["a" := low, "ba" := 20];
    var ctx := Context(31 * DAY, "/", "/", "/", Some(freq));
    PrefixAndSubstring();
    ExtremeContexts(freq, ctx);
    assert !BetterWins(["a"], ctx, freq, Ran("a", 0, ""), 3 * CLASS_WEIGHT - 1, Ran("ba", 31 * DAY, "/"), 2 * CLASS_WEIGHT - 1);
  }

  /** A lower bound on frequencies makes every search rank by class if and only if it is at least the floor. */
  lemma FloorIff(m: int)
    ensures (forall freq: map<string, int> :: AtLeast(freq, m) ==> ClassDecides(freq)) <==> m >= FREQ_FLOOR
  {
    if m >= FREQ_FLOOR {
      forall freq: map<string, int> | AtLeast(freq, m) ensures ClassDecides(freq) { AboveFloor(freq); }
    } else {
      BelowFloor(m);
      var freq := map["a" := m, "ba" := 20];
      assert AtLeast(freq, m) && !ClassDecides(freq);
    }
  }
}
