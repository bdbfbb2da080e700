/**
  Garbage collection over time: runs that may stop anywhere, be started again, and
  overlap, while devices add checkpoints, bundles and acknowledgements.
*/
module GcRuns {
  import opened Base
  import opened Frontiers
  import opened CheckpointOrder
  import opened GarbageCollection

  datatype Key = TmpKey(name: string) | DirKey(id: string) | BundleKey(name: string)

  function TmpKeys(names: seq<string>): seq<Key> {
    seq(|names|, i requires 0 <= i < |names| => TmpKey(names[i]))
  }

  function DirKeys(ids: seq<string>): seq<Key> {
    seq(|ids|, i requires 0 <= i < |ids| => DirKey(ids[i]))
  }

  function BundleKeys(names: seq<string>): seq<Key> {
    seq(|names|, i requires 0 <= i < |names| => BundleKey(names[i]))
  }

  /** What a run deletes, in order: orphans, checkpoints, and then the bundles if nobody blocks. */
  function Keys(plan: Plan): seq<Key> {
    TmpKeys(plan.tmpOrphans) + DirKeys(plan.checkpoints) + (if plan.eligible then BundleKeys(plan.bundles) else [])
  }

  lemma KeysOf(plan: Plan, key: Key)
    ensures key in Keys(plan) <==>
            match key
            case TmpKey(name) => name in plan.tmpOrphans
            case DirKey(id) => id in plan.checkpoints
            case BundleKey(name) => plan.eligible && name in plan.bundles
  {
    match key
    case TmpKey(name) =>
      if name in plan.tmpOrphans {
        var i :| 0 <= i < |plan.tmpOrphans| && plan.tmpOrphans[i] == name;
        assert TmpKeys(plan.tmpOrphans)[i] == key;
      }
    case DirKey(id) =>
      if id in plan.checkpoints {
        var i :| 0 <= i < |plan.checkpoints| && plan.checkpoints[i] == id;
        assert DirKeys(plan.checkpoints)[i] == key;
      }
    case BundleKey(name) =>
      if plan.eligible && name in plan.bundles {
        var i :| 0 <= i < |plan.bundles| && plan.bundles[i] == name;
        assert BundleKeys(plan.bundles)[i] == key;
      }
  }

  function Delete(s: Store, key: Key): Store {
    match key
    case TmpKey(name) => s.(tmp := s.tmp - {name})
    case DirKey(id) => s.(dirs := s.dirs - {id})
    case BundleKey(name) => s.(bundles := s.bundles - {name})
  }

  /** A directory that was only partly deleted: the manifest may still be there. */
  function Tear(s: Store, id: string, manifestGone: bool): Store {
    if id !in s.dirs then s
    else s.(dirs := s.dirs[id := Dir(if manifestGone then None else s.dirs[id].manifest, false)])
  }

  // ---- Runs ----

  /** Every run in progress is the list of keys it still has to delete. */
  datatype State = State(store: Store, jobs: seq<seq<Key>>, deleted: set<string>)

  datatype Step =
    | AddCheckpoint(id: string, m: Manifest)
    | AddBundle(name: string)
    | AddTmp(name: string)
    | SetAck(device: string, a: Ack)
    | Start(required: seq<string>, checkpointId: string, ckpt: Option<Manifest>, keep: Option<Manifest>, plan: Plan)
    | DeleteNext(job: nat)
    | TearNext(job: nat, manifestGone: bool)
    | Stop(job: nat)

  /** Manifests are stored under their own id, and any two of them are comparable. */
  ghost predicate Sane(dirs: map<string, Dir>) {
    && (forall id :: id in Readable(dirs) ==> Readable(dirs)[id].id == id && id != "" && Proper(Readable(dirs)[id]))
    && (forall i, j :: i in Readable(dirs) && j in Readable(dirs) ==> Comparable(Readable(dirs)[i], Readable(dirs)[j]))
  }

  ghost predicate Pending(jobs: seq<seq<Key>>, key: Key) {
    exists i :: 0 <= i < |jobs| && key in jobs[i]
  }

  function Without(jobs: seq<seq<Key>>, i: nat): seq<seq<Key>>
    requires i < |jobs|
  {
    jobs[..i] + jobs[i + 1..]
  }

  function Bundled(key: Key): set<string> {
    if key.BundleKey? then {key.name} else {}
  }

  ghost predicate Next(peek: string -> Option<Header>, s: State, step: Step, s': State) {
    match step
    case AddCheckpoint(id, m) =>
      && id !in s.store.dirs && !Pending(s.jobs, DirKey(id)) && m.id == id && id != "" && Proper(m)
      && (forall x :: x in Readable(s.store.dirs) ==> Comparable(m, Readable(s.store.dirs)[x]))
      && s' == s.(store := s.store.(dirs := s.store.dirs[id := Dir(Some(m), true)]))
    case AddBundle(name) => s' == s.(store := s.store.(bundles := s.store.bundles + {name}))
    case AddTmp(name) => s' == s.(store := s.store.(tmp := s.store.tmp + {name}))
    case SetAck(device, a) => s' == s.(store := s.store.(acks := s.store.acks[device := a]))
    case Start(required, checkpointId, ckpt, keep, plan) =>
      && IsPlan(peek, s.store, required, checkpointId, ckpt, keep, plan)
      && s' == s.(jobs := s.jobs + [Keys(plan)])
    case DeleteNext(i) =>
      && i < |s.jobs| && s.jobs[i] != []
      && s' == State(Delete(s.store, s.jobs[i][0]), s.jobs[i := s.jobs[i][1..]], s.deleted + Bundled(s.jobs[i][0]))
    case TearNext(i, manifestGone) =>
      && i < |s.jobs| && s.jobs[i] != [] && s.jobs[i][0].DirKey?
      && s' == s.(store := Tear(s.store, s.jobs[i][0].id, manifestGone), jobs := Without(s.jobs, i))
    case Stop(i) =>
      && i < |s.jobs| && s' == s.(jobs := Without(s.jobs, i))
  }

  ghost predicate Initial(s: State) {
    && Sane(s.store.dirs) && s.jobs == [] && s.deleted == {}
    && forall id :: id in Readable(s.store.dirs) ==> s.store.dirs[id].intact
  }

  ghost predicate Run(peek: string -> Option<Header>, states: seq<State>, steps: seq<Step>) {
    && |states| == |steps| + 1 && Initial(states[0])
    && forall i :: 0 <= i < |steps| ==> Next(peek, states[i], steps[i], states[i + 1])
  }

  // ---- The invariant ----

  ghost predicate CoversBundle(peek: string -> Option<Header>, f: Frontier, name: string) {
    peek(name).Some? && Covers(f, peek(name).value.device, peek(name).value.seqEnd)
  }

  /** The best checkpoint: intact, on no run's list, and covering every bundle that has gone or is about to go. */
  ghost predicate Guards(peek: string -> Option<Header>, s: State, m: Manifest) {
    && m.id in s.store.dirs && s.store.dirs[m.id] == Dir(Some(m), true)
    && IsBest(Readable(s.store.dirs), m)
    && !Pending(s.jobs, DirKey(m.id))
    && (forall name :: name in s.deleted ==> CoversBundle(peek, m.frontier, name))
    && (forall name :: Pending(s.jobs, BundleKey(name)) ==> CoversBundle(peek, m.frontier, name))
  }

  ghost predicate Inv(peek: string -> Option<Header>, s: State) {
    && Sane(s.store.dirs)
    && (if Readable(s.store.dirs) == map[] then s.deleted == {} && forall name :: !Pending(s.jobs, BundleKey(name))
        else exists m :: Guards(peek, s, m))
  }

  /** In a sane store the best checkpoint dominates every other. */
  lemma BestDominates(dirs: map<string, Dir>, m: Manifest, id: string)
    requires Sane(dirs) && IsBest(Readable(dirs), m) && id in Readable(dirs)
    ensures Dominates(m.frontier, Readable(dirs)[id].frontier) && Proper(m)
  {
    var x :| x in Readable(dirs) && Readable(dirs)[x] == m;
    assert Comparable(Readable(dirs)[x], Readable(dirs)[id]);
    assert !Better(Readable(dirs)[id], m);
  }

  lemma BestIsUnique(dirs: map<string, Dir>, m: Manifest, m': Manifest)
    requires Sane(dirs) && IsBest(Readable(dirs), m) && IsBest(Readable(dirs), m')
    ensures m == m'
  {
    var x :| x in Readable(dirs) && Readable(dirs)[x] == m;
    var y :| y in Readable(dirs) && Readable(dirs)[y] == m';
    BetterIsStrictOrder(m, m', m);
  }

  lemma CoversMore(peek: string -> Option<Header>, f: Frontier, g: Frontier, name: string)
    requires NonNegative(f) && Dominates(f, g) && CoversBundle(peek, g, name)
    ensures CoversBundle(peek, f, name)
  {
    DominatesIffAbove(f, g);
  }

  lemma {:induction false} BestExists(meta: map<string, Manifest>) returns (m: Manifest)
    requires meta != map[] && AllProperIn(meta)
    ensures IsBest(meta, m)
    decreases |meta|
  {
    var id :| id in meta;
    var rest := meta - {id};
    BetterIsStrictOrder(meta[id], meta[id], meta[id]);
    if rest == map[] {
      m := meta[id];
      assert meta.Keys == rest.Keys + {id};
    } else {
      m := BestExists(rest);
      var y :| y in rest && rest[y] == m;
      if Better(meta[id], m) {
        forall x | x in meta ensures !Better(meta[x], meta[id]) {
          if x != id {
            assert !Better(rest[x], m);
            BetterIsStrictOrder(meta[x], meta[id], m);
          }
        }
        m := meta[id];
      } else {
        assert meta[y] == m;
        forall x | x in meta ensures !Better(meta[x], m) {
          if x != id { assert !Better(rest[x], m); }
        }
      }
    }
  }

  lemma InitInv(peek: string -> Option<Header>, s: State)
    requires Initial(s)
    ensures Inv(peek, s)
  {
    var meta := Readable(s.store.dirs);
    if meta != map[] {
      var m := BestExists(meta);
      var id :| id in meta && meta[id] == m;
      assert Guards(peek, s, m);
    }
  }

  lemma AddCheckpointInv(peek: string -> Option<Header>, s: State, id: string, m: Manifest, s': State)
    requires Inv(peek, s) && Next(peek, s, AddCheckpoint(id, m), s')
    ensures Inv(peek, s')
  {
    AddSane(s.store.dirs, id, m, s'.store.dirs);
    if Readable(s.store.dirs) == map[] {
      OnlyBest(Readable(s'.store.dirs), id, m);
      assert Guards(peek, s', m);
    } else {
      var best :| Guards(peek, s, best);
      NewBest(peek, s, best, id, m, s');
    }
  }

  lemma OnlyBest(meta: map<string, Manifest>, id: string, m: Manifest)
    requires meta == map[id := m] && Proper(m)
    ensures IsBest(meta, m)
  {
    assert meta[id] == m;
    BetterIsStrictOrder(m, m, m);
  }

  lemma AddSane(dirs: map<string, Dir>, id: string, m: Manifest, dirs': map<string, Dir>)
    requires Sane(dirs) && id !in dirs && m.id == id && id != "" && Proper(m) && dirs' == dirs[id := Dir(Some(m), true)]
    requires forall x :: x in Readable(dirs) ==> Comparable(m, Readable(dirs)[x])
    ensures Sane(dirs') && Readable(dirs') == Readable(dirs)[id := m]
  {
    assert Readable(dirs') == Readable(dirs)[id := m];
  }

  lemma NewBest(peek: string -> Option<Header>, s: State, best: Manifest, id: string, m: Manifest, s': State)
    requires Sane(s.store.dirs) && Guards(peek, s, best) && Next(peek, s, AddCheckpoint(id, m), s')
    requires Readable(s'.store.dirs) == Readable(s.store.dirs)[id := m]
    ensures Guards(peek, s', if Better(m, best) then m else best)
  {
    var meta, meta' := Readable(s.store.dirs), Readable(s'.store.dirs);
    assert meta[best.id] == best;
    BetterIsStrictOrder(m, m, m);
    if Better(m, best) {
      forall x | x in meta' ensures !Better(meta'[x], m) {
        if x != id { BetterIsStrictOrder(meta[x], m, best); }
      }
      assert Comparable(m, meta[best.id]);
      forall name | CoversBundle(peek, best.frontier, name) ensures CoversBundle(peek, m.frontier, name) {
        CoversMore(peek, m.frontier, best.frontier, name);
      }
      assert meta'[id] == m;
    } else {
      assert meta'[best.id] == best;
    }
  }

  lemma StartInv(peek: string -> Option<Header>, s: State, required: seq<string>, checkpointId: string,
                 ckpt: Option<Manifest>, keep: Option<Manifest>, plan: Plan, s': State)
    requires Inv(peek, s) && Next(peek, s, Start(required, checkpointId, ckpt, keep, plan), s')
    ensures Inv(peek, s')
  {
    if Readable(s.store.dirs) == map[] {
      forall name ensures !Pending(s'.jobs, BundleKey(name)) {
        PendingMore(s.jobs, Keys(plan), BundleKey(name));
        KeysOf(plan, BundleKey(name));
      }
    } else {
      var m :| Guards(peek, s, m);
      PlanSparesGuard(peek, s, m, required, checkpointId, ckpt, keep, plan);
      StartGuards(peek, s, Keys(plan), m, s');
    }
  }

  lemma PlanSparesGuard(peek: string -> Option<Header>, s: State, m: Manifest, required: seq<string>, checkpointId: string,
                        ckpt: Option<Manifest>, keep: Option<Manifest>, plan: Plan)
    requires Sane(s.store.dirs) && Guards(peek, s, m) && IsPlan(peek, s.store, required, checkpointId, ckpt, keep, plan)
    ensures DirKey(m.id) !in Keys(plan)
    ensures forall name :: BundleKey(name) in Keys(plan) ==> CoversBundle(peek, m.frontier, name)
  {
    BestIsUnique(s.store.dirs, m, keep.value);
    KeysOf(plan, DirKey(m.id));
    forall name | BundleKey(name) in Keys(plan) ensures CoversBundle(peek, m.frontier, name) {
      KeysOf(plan, BundleKey(name));
      PlannedIsCovered(peek, s.store, required, checkpointId, ckpt, keep, plan, name);
    }
  }

  lemma StartGuards(peek: string -> Option<Header>, s: State, keys: seq<Key>, m: Manifest, s': State)
    requires Guards(peek, s, m) && s' == s.(jobs := s.jobs + [keys]) && DirKey(m.id) !in keys
    requires forall name :: BundleKey(name) in keys ==> CoversBundle(peek, m.frontier, name)
    ensures Guards(peek, s', m)
  {
    forall key { PendingMore(s.jobs, keys, key); }
  }

  lemma PendingMore(jobs: seq<seq<Key>>, keys: seq<Key>, key: Key)
    ensures Pending(jobs + [keys], key) <==> Pending(jobs, key) || key in keys
  {
    var jobs' := jobs + [keys];
    if key in keys { assert key in jobs'[|jobs|]; }
    if Pending(jobs, key) {
      var i :| 0 <= i < |jobs| && key in jobs[i];
      assert key in jobs'[i];
    }
  }

  lemma PlannedIsCovered(peek: string -> Option<Header>, s: Store, required: seq<string>, checkpointId: string,
                         ckpt: Option<Manifest>, keep: Option<Manifest>, plan: Plan, name: string)
    requires Sane(s.dirs) && IsPlan(peek, s, required, checkpointId, ckpt, keep, plan) && keep.Some? && name in plan.bundles
    ensures CoversBundle(peek, keep.value.frontier, name)
  {
    var meta := Readable(s.dirs);
    assert ckpt.value in meta.Values;
    var id :| id in meta && meta[id] == ckpt.value;
    BestDominates(s.dirs, keep.value, id);
    CoversMore(peek, keep.value.frontier, ckpt.value.frontier, name);
  }

  lemma FewerPending(jobs: seq<seq<Key>>, jobs': seq<seq<Key>>, key: Key, i: nat)
    requires i < |jobs| && (jobs' == Without(jobs, i) || (jobs[i] != [] && jobs' == jobs[i := jobs[i][1..]]))
    ensures Pending(jobs', key) ==> Pending(jobs, key)
  {
    if Pending(jobs', key) {
      var j :| 0 <= j < |jobs'| && key in jobs'[j];
      if jobs' == Without(jobs, i) {
        assert jobs'[j] == if j < i then jobs[j] else jobs[j + 1];
      } else {
        assert key in jobs[j];
      }
    }
  }

  /** Taking directories or manifests away keeps a store sane, and the best checkpoint the best while it is there. */
  lemma FewerSane(dirs: map<string, Dir>, dirs': map<string, Dir>, m: Manifest)
    requires Sane(dirs) && dirs'.Keys <= dirs.Keys
    requires forall id :: id in dirs' ==> dirs'[id].manifest == dirs[id].manifest || dirs'[id].manifest.None?
    ensures Sane(dirs')
    ensures IsBest(Readable(dirs), m) && m.id in dirs' && dirs'[m.id].manifest == Some(m) ==> IsBest(Readable(dirs'), m)
  {
    assert forall id :: id in Readable(dirs') ==> id in Readable(dirs) && Readable(dirs')[id] == Readable(dirs)[id];
    if m.id in dirs' && dirs'[m.id].manifest == Some(m) {
      assert Readable(dirs')[m.id] == m;
    }
  }

  lemma FewerInv(peek: string -> Option<Header>, s: State, s': State, i: nat)
    requires Inv(peek, s) && s'.store.dirs.Keys <= s.store.dirs.Keys
    requires forall id :: id in s'.store.dirs ==>
                            s'.store.dirs[id].manifest == s.store.dirs[id].manifest || s'.store.dirs[id].manifest.None?
    requires forall id :: id in s.store.dirs && !Pending(s.jobs, DirKey(id)) ==>
                            id in s'.store.dirs && s'.store.dirs[id] == s.store.dirs[id]
    requires i < |s.jobs| && (s'.jobs == Without(s.jobs, i) || (s.jobs[i] != [] && s'.jobs == s.jobs[i := s.jobs[i][1..]]))
    requires forall name :: name in s'.deleted ==> name in s.deleted || Pending(s.jobs, BundleKey(name))
    ensures Inv(peek, s')
  {
    forall key ensures Pending(s'.jobs, key) ==> Pending(s.jobs, key) {
      FewerPending(s.jobs, s'.jobs, key, i);
    }
    var meta, meta' := Readable(s.store.dirs), Readable(s'.store.dirs);
    assert forall id :: id in meta' ==> id in meta;
    if meta == map[] {
      assert meta' == map[];
      FewerSane(s.store.dirs, s'.store.dirs, Manifest("", 0, map[]));
    } else {
      var m :| Guards(peek, s, m);
      FewerSane(s.store.dirs, s'.store.dirs, m);
      assert Guards(peek, s', m);
    }
  }

  lemma FirstIsPending(jobs: seq<seq<Key>>, i: nat)
    requires i < |jobs| && jobs[i] != []
    ensures Pending(jobs, jobs[i][0])
  {
    assert jobs[i][0] in jobs[i];
  }

  lemma DeleteInv(peek: string -> Option<Header>, s: State, i: nat, s': State)
    requires Inv(peek, s) && Next(peek, s, DeleteNext(i), s')
    ensures Inv(peek, s')
  {
    FirstIsPending(s.jobs, i);
    FewerInv(peek, s, s', i);
  }

  lemma TearInv(peek: string -> Option<Header>, s: State, i: nat, gone: bool, s': State)
    requires Inv(peek, s) && Next(peek, s, TearNext(i, gone), s')
    ensures Inv(peek, s')
  {
    FirstIsPending(s.jobs, i);
    FewerInv(peek, s, s', i);
  }

  lemma NextInv(peek: string -> Option<Header>, s: State, step: Step, s': State)
    requires Inv(peek, s) && Next(peek, s, step, s')
    ensures Inv(peek, s')
  {
    match step
    case AddCheckpoint(id, m) => AddCheckpointInv(peek, s, id, m, s');
    case Start(required, checkpointId, ckpt, keep, plan) =>
      StartInv(peek, s, required, checkpointId, ckpt, keep, plan, s');
    case DeleteNext(i) => DeleteInv(peek, s, i, s');
    case TearNext(i, gone) => TearInv(peek, s, i, gone, s');
    case Stop(i) => FewerInv(peek, s, s', i);
    case AddBundle(_) => UnchangedInv(peek, s, s');
    case AddTmp(_) => UnchangedInv(peek, s, s');
    case SetAck(_, _) => UnchangedInv(peek, s, s');
  }

  lemma UnchangedInv(peek: string -> Option<Header>, s: State, s': State)
    requires Inv(peek, s) && s'.store.dirs == s.store.dirs && s'.jobs == s.jobs && s'.deleted == s.deleted
    ensures Inv(peek, s')
  {
    if Readable(s.store.dirs) != map[] {
      var m :| Guards(peek, s, m);
      assert Guards(peek, s', m);
    }
  }

  lemma {:induction false} RunInv(peek: string -> Option<Header>, states: seq<State>, steps: seq<Step>, n: nat)
    requires Run(peek, states, steps) && n < |states|
    ensures Inv(peek, states[n])
    decreases n
  {
    if n == 0 {
      InitInv(peek, states[0]);
    } else {
      RunInv(peek, states, steps, n - 1);
      NextInv(peek, states[n - 1], steps[n - 1], states[n]);
    }
  }

  /**
    Whatever runs were started, interrupted or overlapped, one intact checkpoint in
    the store covers every bundle deleted so far.
  */
  lemma DeletedBundlesAreCovered(peek: string -> Option<Header>, states: seq<State>, steps: seq<Step>, n: nat)
    requires Run(peek, states, steps) && n < |states| && states[n].deleted != {}
    ensures exists id :: id in Readable(states[n].store.dirs) && states[n].store.dirs[id].intact
                         && forall name :: name in states[n].deleted ==> CoversBundle(peek, Readable(states[n].store.dirs)[id].frontier, name)
  {
    RunInv(peek, states, steps, n);
    var s := states[n];
    var m :| Guards(peek, s, m);
    assert m.id in Readable(s.store.dirs);
  }

  // ---- Execute ----

  function DeleteAll(s: Store, keys: seq<Key>): Store {
    if keys == [] then s else Delete(DeleteAll(s, keys[..|keys| - 1]), keys[|keys| - 1])
  }

  /** A run deletes its keys in order until a deletion fails; a dry run deletes nothing. */
  method Execute(s: Store, plan: Plan, dryRun: bool, works: Key -> bool) returns (s': Store, ok: bool, done: nat)
    ensures done <= |Keys(plan)| && s' == DeleteAll(s, Keys(plan)[..done])
    ensures forall i :: 0 <= i < done ==> works(Keys(plan)[i])
    ensures ok <==> dryRun || done == |Keys(plan)|
    ensures dryRun ==> done == 0
    ensures !ok ==> !works(Keys(plan)[done])
  {
    s', done := s, 0;
    if dryRun {
      return s', true, 0;
    }
    var keys := Keys(plan);
    while done < |keys|
      invariant done <= |keys| && s' == DeleteAll(s, keys[..done])
      invariant forall i :: 0 <= i < done ==> works(keys[i])
    {
      if !works(keys[done]) {
        return s', false, done;
      }
      assert keys[..done + 1] == keys[..done] + [keys[done]];
      s' := Delete(s', keys[done]);
      done := done + 1;
    }
    ok := true;
  }

  lemma {:induction false} DeleteAllMeans(s: Store, keys: seq<Key>)
    ensures var s' := DeleteAll(s, keys);
            && s'.acks == s.acks
            && (forall name :: name in s'.tmp <==> name in s.tmp && TmpKey(name) !in keys)
            && (forall name :: name in s'.bundles <==> name in s.bundles && BundleKey(name) !in keys)
            && (forall id :: id in s'.dirs <==> id in s.dirs && DirKey(id) !in keys)
            && (forall id :: id in s'.dirs ==> s'.dirs[id] == s.dirs[id])
    decreases |keys|
  {
    if keys != [] {
      DeleteAllMeans(s, keys[..|keys| - 1]);
      InitLast(keys);
    }
  }

  /** A complete run removes the orphans, the directories, and if the plan is eligible the bundles of its plan, and nothing else. */
  lemma CompleteRun(s: Store, plan: Plan)
    ensures var s' := DeleteAll(s, Keys(plan));
            && s'.acks == s.acks
            && (forall name :: name in s'.tmp <==> name in s.tmp && name !in plan.tmpOrphans)
            && (forall id :: id in s'.dirs <==> id in s.dirs && id !in plan.checkpoints)
            && (forall id :: id in s'.dirs ==> s'.dirs[id] == s.dirs[id])
            && (forall name :: name in s'.bundles <==> name in s.bundles && !(plan.eligible && name in plan.bundles))
  {
    DeleteAllMeans(s, Keys(plan));
    forall key { KeysOf(plan, key); }
  }

  /** Orphans go first and bundles last, each kind in the order of the plan. */
  lemma DeletionOrder(plan: Plan)
    ensures var t, d, b := |plan.tmpOrphans|, |plan.checkpoints|, if plan.eligible then |plan.bundles| else 0;
            && |Keys(plan)| == t + d + b
            && (forall i :: 0 <= i < t ==> Keys(plan)[i] == TmpKey(plan.tmpOrphans[i]))
            && (forall i :: 0 <= i < d ==> Keys(plan)[t + i] == DirKey(plan.checkpoints[i]))
            && (forall i :: 0 <= i < b ==> Keys(plan)[t + d + i] == BundleKey(plan.bundles[i]))
  {
  }

  /** The state after a run has deleted the first `n` keys of its list. */
  function AfterDeletes(s: State, i: nat, n: nat): State
    requires i < |s.jobs| && n <= |s.jobs[i]|
  {
    if n == 0 then s
    else
      var p := AfterDeletes(s, i, n - 1);
      State(Delete(p.store, s.jobs[i][n - 1]), s.jobs[i := s.jobs[i][n..]], p.deleted + Bundled(s.jobs[i][n - 1]))
  }

  /** What `Execute` does up to any point is a sequence of deletion steps. */
  lemma {:induction false} ExecuteIsSteps(peek: string -> Option<Header>, s: State, i: nat, n: nat)
    requires i < |s.jobs| && n <= |s.jobs[i]|
    ensures AfterDeletes(s, i, n).store == DeleteAll(s.store, s.jobs[i][..n])
    ensures AfterDeletes(s, i, n).jobs == s.jobs[i := s.jobs[i][n..]]
    ensures n > 0 ==> Next(peek, AfterDeletes(s, i, n - 1), DeleteNext(i), AfterDeletes(s, i, n))
    decreases n
  {
    if n > 0 {
      ExecuteIsSteps(peek, s, i, n - 1);
      var keys := s.jobs[i];
      assert keys[..n][..n - 1] == keys[..n - 1];
      assert keys[n - 1..][0] == keys[n - 1] && keys[n - 1..][1..] == keys[n..];
    }
  }

  // ---- Without comparability ----

  /** The checkpoints that are still there after a whole run of a plan. */
  ghost function Survivors(s: Store, plan: Plan): map<string, Manifest> {
    map id | id in Readable(s.dirs) && id !in plan.checkpoints :: Readable(s.dirs)[id]
  }

  ghost predicate SomeCovers(meta: map<string, Manifest>, device: string, seqNo: int) {
    exists id :: id in meta && Covers(meta[id].frontier, device, seqNo)
  }

  ghost predicate KeepsCover(s: Store, plan: Plan, ckpt: Manifest) {
    forall d, n :: Covers(ckpt.frontier, d, n) ==> SomeCovers(Survivors(s, plan), d, n)
  }

  ghost predicate Named(meta: map<string, Manifest>) {
    forall id :: id in meta ==> meta[id].id == id && id != "" && Proper(meta[id])
  }

  /** A caller can tell from the manifests alone that a run leaves checkpoint `id`: it is kept, or newer and not dominated. */
  ghost predicate Spared(meta: map<string, Manifest>, keep: Manifest, id: string)
    requires id in meta
  {
    id == keep.id || (!Dominates(keep.frontier, meta[id].frontier) && meta[id].createdAt > keep.createdAt)
  }

  lemma SparedSurvive(peek: string -> Option<Header>, s: Store, required: seq<string>, checkpointId: string,
                      ckpt: Manifest, keep: Manifest, plan: Plan, id: string)
    requires IsPlan(peek, s, required, checkpointId, Some(ckpt), Some(keep), plan) && plan.eligible
    requires Named(Readable(s.dirs))
    ensures id in Survivors(s, plan) <==> id in Readable(s.dirs) && Spared(Readable(s.dirs), keep, id)
  {
    var meta := Readable(s.dirs);
    if id in meta {
      assert id in s.dirs && !Better(meta[id], keep);
      assert id in plan.checkpoints <==> Doomed(meta, Some(keep), true, id);
    }
  }

  /** Each device's events up to the acknowledged number are covered by some checkpoint that the run leaves. */
  ghost predicate SparedCover(meta: map<string, Manifest>, keep: Manifest, ckpt: Manifest) {
    forall d :: d in ckpt.frontier ==>
                  exists id :: id in meta && Spared(meta, keep, id) && At(meta[id].frontier, d) >= ckpt.frontier[d]
  }

  /**
    Nothing is said about how the frontiers compare: a run leaves everything it may
    delete covered exactly when, device by device, the kept checkpoint or a newer one
    that the kept one does not dominate reaches as far as the acknowledged one.
  */
  lemma RunKeepsCoverIff(peek: string -> Option<Header>, s: Store, required: seq<string>, checkpointId: string,
                         ckpt: Manifest, keep: Manifest, plan: Plan)
    requires IsPlan(peek, s, required, checkpointId, Some(ckpt), Some(keep), plan) && plan.eligible
    requires Named(Readable(s.dirs))
    ensures KeepsCover(s, plan, ckpt) <==> SparedCover(Readable(s.dirs), keep, ckpt)
  {
    var meta, left := Readable(s.dirs), Survivors(s, plan);
    forall id ensures id in left <==> id in meta && Spared(meta, keep, id) {
      SparedSurvive(peek, s, required, checkpointId, ckpt, keep, plan, id);
    }
    if KeepsCover(s, plan, ckpt) {
      forall d | d in ckpt.frontier
        ensures exists id :: id in meta && Spared(meta, keep, id) && At(meta[id].frontier, d) >= ckpt.frontier[d]
      {
        assert Covers(ckpt.frontier, d, ckpt.frontier[d]);
        var id :| id in left && Covers(left[id].frontier, d, ckpt.frontier[d]);
        assert id in meta && Spared(meta, keep, id);
      }
    }
    if SparedCover(meta, keep, ckpt) {
      forall d, n | Covers(ckpt.frontier, d, n) ensures SomeCovers(left, d, n) {
        if d in ckpt.frontier {
          var id :| id in meta && Spared(meta, keep, id) && At(meta[id].frontier, d) >= ckpt.frontier[d];
          assert Covers(left[id].frontier, d, n);
        } else {
          assert meta[keep.id] == keep && keep.id in left;
          assert Covers(left[keep.id].frontier, d, n);
        }
      }
    }
  }

  /** With only the acknowledged and the kept checkpoint: the kept one dominates, or is the older of the two. */
  lemma TwoCheckpointsIff(peek: string -> Option<Header>, s: Store, required: seq<string>, checkpointId: string,
                          ckpt: Manifest, keep: Manifest, plan: Plan)
    requires IsPlan(peek, s, required, checkpointId, Some(ckpt), Some(keep), plan) && plan.eligible
    requires Named(Readable(s.dirs)) && Readable(s.dirs).Keys == {ckpt.id, keep.id}
    ensures KeepsCover(s, plan, ckpt) <==> Dominates(keep.frontier, ckpt.frontier) || ckpt.createdAt > keep.createdAt
  {
    var meta := Readable(s.dirs);
    RunKeepsCoverIff(peek, s, required, checkpointId, ckpt, keep, plan);
    assert meta[ckpt.id] == ckpt && meta[keep.id] == keep;
    if Dominates(keep.frontier, ckpt.frontier) {
      assert Spared(meta, keep, keep.id);
    } else if ckpt.createdAt > keep.createdAt {
      assert Spared(meta, keep, ckpt.id);
    } else {
      var d :| d in ckpt.frontier && At(keep.frontier, d) < ckpt.frontier[d];
      assert !Spared(meta, keep, ckpt.id);
    }
  }

  lemma ScoreOne(d: string, n: int)
    ensures Score(map[d := n]) == n
  {
    var f: Frontier := map[d := n];
    SumRemove(f, {d}, d);
    assert SumAt(f, {d} - {d}) == 0 && f.Keys == {d};
  }

  function AlwaysX(key: string): Option<Header> {
    Some(Header("x", 1))
  }

  const ACKED := Manifest("a", 1, map["x" := 1])
  const NEWER := Manifest("b", 2, map["y" := 5])

  lemma NewerIsBest(meta: map<string, Manifest>, acks: map<string, Ack>)
    requires meta.Keys == {"a", "b"} && meta["a"] == ACKED && meta["b"] == NEWER
    requires acks == map["r" := Ack("", map["x" := 1])]
    ensures IsBest(meta, NEWER) && IsBestAcked(meta, acks, ["r"], ACKED)
  {
    ScoreOne("x", 1);
    ScoreOne("y", 5);
    BetterIsLexicographic(NEWER, ACKED);
    BetterIsStrictOrder(ACKED, NEWER, ACKED);
    BetterIsStrictOrder(NEWER, ACKED, NEWER);
    assert "y" in NEWER.frontier && At(acks["r"].frontier, "y") < 5;
    assert !AllDominate(acks, ["r"], NEWER.frontier) by { assert ["r"][0] == "r"; }
  }

  lemma BothNamed(meta: map<string, Manifest>)
    requires meta.Keys == {"a", "b"} && meta["a"] == ACKED && meta["b"] == NEWER
    ensures Named(meta)
  {
  }

  lemma AckedIsDoomed(meta: map<string, Manifest>)
    requires meta.Keys == {"a", "b"} && meta["a"] == ACKED && meta["b"] == NEWER
    ensures Doomed(meta, Some(NEWER), true, "a") && !Doomed(meta, Some(NEWER), true, "b")
  {
    assert "y" in NEWER.frontier && "x" in ACKED.frontier;
  }

  /** The loss happens: an acknowledged checkpoint goes with its events, the kept one knows nothing of them. */
  lemma IncomparableLosesCover() returns (s: Store, required: seq<string>, plan: Plan)
    ensures IsPlan(AlwaysX, s, required, "", Some(ACKED), Some(NEWER), plan)
    ensures plan.eligible && plan.bundles != [] && Named(Readable(s.dirs))
    ensures !SomeCovers(Survivors(s, plan), "x", 1)
  {
    s := Store(map["a" := Dir(Some(ACKED), true), "b" := Dir(Some(NEWER), true)], {"k"},
               map["r" := Ack("", map["x" := 1])], {});
    required := ["r"];
    plan := Plan([], ["a"], ["k"], [], "a", true);
    var meta := Readable(s.dirs);
    assert meta.Keys == {"a", "b"} && meta["a"] == ACKED && meta["b"] == NEWER;
    NewerIsBest(meta, s.acks);
    AckedIsDoomed(meta);
    BothNamed(meta);
    assert Survivors(s, plan).Keys == {"b"};
  }
}
