/** The table and the cache together: what a sync leaves behind, as a user sees it. */
module SyncedCache {
  import opened Merge
  import opened Convergence
  import opened CacheSpec
  import opened MergeCache
  import opened PrefixSearch
  import HC = HistoryCache

  /** The commands that have a live row. */
  ghost function LiveCommands(t: Table): set<string> {
    set id | id in t && !t[id].deleted && t[id].command != "" :: t[id].command
  }

  lemma KnownCommands(v: View, t: Table)
    requires Agrees(v, t)
    ensures v.recs.Keys == LiveCommands(t)
  {
    forall c | c in v.recs ensures c in LiveCommands(t) {
      var ids := IdsOf(v.ids, c);
      assert ids != {};
      var id :| id in ids;
      assert t[id].command == c;
    }
    forall c | c in LiveCommands(t) ensures c in v.recs {
      var id :| id in t && !t[id].deleted && t[id].command != "" && t[id].command == c;
      assert v.ids[id] == c;
    }
  }

  /** One transaction of synced events, and the change set it leaves for the cache. */
  method MergeEvents(table: HistoryTable, cache: HC.Cache, evs: seq<Event>, ghost u: set<Event>) returns (ok: bool)
    requires cache.Valid() && WellFormed(u) && Consistent(table.rows, u) && Elements(evs) <= u
    requires cache.dirty || Agrees(cache.view, table.rows)
    modifies table, cache
    ensures ok && cache.Valid() && Consistent(table.rows, u)
    ensures Represents(old(table.rows), Elements(evs), table.rows)
    ensures cache.dirty || Agrees(cache.view, table.rows)
    ensures ApplyAll(old(table.rows), evs).Applied?
    ensures cache.dirty <==> old(cache.dirty) || !Removable(old(table.rows), ApplyAll(old(table.rows), evs).changes)
  {
    DeliveryRepresents(table.rows, u, evs);
    if !cache.dirty {
      MergeKeepsAgreement(cache.view, table.rows, u, evs);
    }
    ghost var v := cache.view;
    var cs;
    cs, ok := table.ApplyEvents(evs);
    cache.ApplyBatch(cs);
    BatchStaysDirty(v, cs);
  }

  lemma BatchStaysDirty(v: View, cs: ChangeSet)
    ensures v.dirty ==> Batch(v, cs).dirty
  {
    CreateAllKeeps(v, cs.created);
    var v1 := CreateAll(v, cs.created);
    CompleteAllKeeps(v1, cs.completed);
    var v2 := CompleteAll(v1, cs.completed);
    CleanIff(v2, cs.tombstoned);
    BuryCommandsKeeps(BuryAll(v2, cs.tombstoned), cs.commands);
  }

  lemma {:induction false} CompleteAllKeeps(v: View, cs: seq<Completion>)
    ensures CompleteAll(v, cs).dirty == v.dirty
    decreases |cs|
  {
    if cs != [] { CompleteAllKeeps(v, cs[..|cs| - 1]); }
  }

  lemma {:induction false} BuryCommandsKeeps(v: View, cmds: seq<string>)
    ensures BuryCommands(v, cmds).dirty == v.dirty
    decreases |cmds|
  {
    if cmds != [] { BuryCommandsKeeps(v, cmds[..|cmds| - 1]); }
  }

  /** A rebuild from a scan of the live rows makes the cache clean and in agreement. */
  method RebuildFrom(table: HistoryTable, cache: HC.Cache, rows: seq<Entry>)
    requires cache.Valid() && FreshIn(map[], rows) && Overlay(map[], rows) == LiveView(table.rows)
    modifies cache
    ensures cache.Valid() && !cache.dirty && Agrees(cache.view, table.rows)
  {
    RebuildAgrees(table.rows, rows);
    cache.Rebuild(rows, false);
  }

  /** What a clean cache suggests: the first commands of live rows that extend the prefix. */
  method SuggestLive(table: HistoryTable, cache: HC.Cache, prefix: string) returns (hits: seq<HC.Hit>)
    requires cache.Valid() && !cache.dirty && Agrees(cache.view, table.rows) && prefix != ""
    ensures Answers(LiveCommands(table.rows), prefix, HC.CommandsOf(hits))
  {
    KnownCommands(cache.view, table.rows);
    hits := cache.Suggest(prefix);
  }
}
