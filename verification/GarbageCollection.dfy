/**
  Garbage collection of the sync storage: which event bundles and checkpoints a run
  plans to delete.
*/
module GarbageCollection {
  import opened Base
  import opened ByteOrder
  import opened Frontiers
  import opened CheckpointOrder

  /** A checkpoint directory: its manifest if that can be read, and whether nothing of it is missing. */
  datatype Dir = Dir(manifest: Option<Manifest>, intact: bool)

  datatype Header = Header(device: string, seqEnd: int)

  datatype Ack = Ack(checkpointId: string, frontier: Frontier)

  /** What a transport lists. `peek` gives a bundle's header, or nothing if it cannot be read. */
  datatype Store = Store(dirs: map<string, Dir>, bundles: set<string>, acks: map<string, Ack>, tmp: set<string>)

  datatype Plan = Plan(tmpOrphans: seq<string>, checkpoints: seq<string>, bundles: seq<string>,
                       blockedBy: seq<string>, checkpoint: string, eligible: bool)

  function Readable(dirs: map<string, Dir>): map<string, Manifest> {
    map id | id in dirs && dirs[id].manifest.Some? :: dirs[id].manifest.value
  }

  ghost predicate AllProperIn(meta: map<string, Manifest>) {
    forall id :: id in meta ==> Proper(meta[id])
  }

  // ---- What a plan is ----

  predicate Blocks(acks: map<string, Ack>, checkpointId: string, device: string) {
    device !in acks || (checkpointId != "" && acks[device].checkpointId != checkpointId)
  }

  /** Every required device has acknowledged everything in the frontier. */
  ghost predicate AllDominate(acks: map<string, Ack>, required: seq<string>, f: Frontier) {
    required != [] && forall i :: 0 <= i < |required| ==> required[i] in acks && Dominates(acks[required[i]].frontier, f)
  }

  /** `m` is a checkpoint; if no number is negative, none is better. */
  ghost predicate IsBest(meta: map<string, Manifest>, m: Manifest) {
    m in meta.Values && (AllProperIn(meta) ==> forall id :: id in meta ==> !Better(meta[id], m))
  }

  ghost predicate IsBestAcked(meta: map<string, Manifest>, acks: map<string, Ack>, required: seq<string>, m: Manifest) {
    && m in meta.Values && AllDominate(acks, required, m.frontier)
    && (AllProperIn(meta) ==>
          forall id :: id in meta && AllDominate(acks, required, meta[id].frontier) ==> !Better(meta[id], m))
  }

  ghost predicate NoneAcked(meta: map<string, Manifest>, acks: map<string, Ack>, required: seq<string>) {
    forall id :: id in meta ==> !AllDominate(acks, required, meta[id].frontier)
  }

  /** The checkpoint whose events may be deleted: the named one, or the best that all have acknowledged. */
  ghost predicate IsResolved(s: Store, required: seq<string>, checkpointId: string, r: Option<Manifest>) {
    var meta := Readable(s.dirs);
    if checkpointId != "" then r == if checkpointId in meta then Some(meta[checkpointId]) else None
    else if r.Some? then IsBestAcked(meta, s.acks, required, r.value)
    else NoneAcked(meta, s.acks, required)
  }

  /** A checkpoint directory that goes when `keep` stays. */
  ghost predicate Doomed(meta: map<string, Manifest>, keep: Option<Manifest>, full: bool, id: string) {
    && id != ""
    && (keep.Some? ==> id != keep.value.id)
    && (if id !in meta then true
        else if keep.None? then full
        else if Dominates(keep.value.frontier, meta[id].frontier) then true
        else if Dominates(meta[id].frontier, keep.value.frontier) then false
        else if meta[id].createdAt > keep.value.createdAt then false
        else full)
  }

  ghost predicate PlansBundle(peek: string -> Option<Header>, ckpt: Option<Manifest>, key: string) {
    && ckpt.Some? && ckpt.value.id != ""
    && peek(key).Some? && Covers(ckpt.value.frontier, peek(key).value.device, peek(key).value.seqEnd)
  }

  /** The plan for a store: `ckpt` is the checkpoint whose events go, `keep` the one that stays. */
  ghost predicate IsPlan(peek: string -> Option<Header>, s: Store, required: seq<string>, checkpointId: string,
                         ckpt: Option<Manifest>, keep: Option<Manifest>, plan: Plan) {
    var meta := Readable(s.dirs);
    && (plan.eligible <==> required != [] && forall i :: 0 <= i < |required| ==> !Blocks(s.acks, checkpointId, required[i]))
    && (forall d :: d in plan.blockedBy <==> d in required && Blocks(s.acks, checkpointId, d))
    && (if plan.eligible then IsResolved(s, required, checkpointId, ckpt) else ckpt.None?)
    && plan.checkpoint == (if ckpt.Some? then ckpt.value.id else "")
    && (if keep.Some? then IsBest(meta, keep.value) else meta == map[])
    && (forall k :: k in plan.bundles <==> k in s.bundles && PlansBundle(peek, ckpt, k))
    && (forall id :: id in plan.checkpoints <==> id in s.dirs && Doomed(meta, keep, plan.checkpoint != "", id))
    && Ascending(plan.checkpoints)
    && (forall k :: k in plan.tmpOrphans <==> k in s.tmp)
  }

  ghost predicate Ascending(ids: seq<string>) {
    forall i, j :: 0 <= i < j < |ids| ==> Less(ids[i], ids[j])
  }

  // ---- Evaluate ----

  method FindBlocked(acks: map<string, Ack>, required: seq<string>, checkpointId: string) returns (blocked: seq<string>)
    ensures forall d :: d in blocked <==> d in required && Blocks(acks, checkpointId, d)
    ensures blocked == [] <==> forall i :: 0 <= i < |required| ==> !Blocks(acks, checkpointId, required[i])
  {
    blocked := [];
    for i := 0 to |required|
      invariant forall d :: d in blocked <==> d in required[..i] && Blocks(acks, checkpointId, d)
    {
      assert required[..i + 1] == required[..i] + [required[i]];
      if Blocks(acks, checkpointId, required[i]) {
        blocked := blocked + [required[i]];
      }
    }
    assert required[..|required|] == required;
    if blocked == [] {
      assert forall i :: 0 <= i < |required| ==> required[i] in required;
    } else {
      assert blocked[0] in blocked;
    }
  }

  method AllDominateLoop(acks: map<string, Ack>, required: seq<string>, f: Frontier) returns (r: bool)
    ensures r <==> AllDominate(acks, required, f)
  {
    for i := 0 to |required|
      invariant forall j :: 0 <= j < i ==> required[j] in acks && Dominates(acks[required[j]].frontier, f)
    {
      if required[i] !in acks {
        return false;
      }
      var dom := DominatesLoop(acks[required[i]].frontier, f);
      if !dom {
        return false;
      }
    }
    r := |required| > 0;
  }

  /** A list of all the readable manifests; if no number is negative, best first. */
  method ListCheckpoints(dirs: map<string, Dir>) returns (all: seq<Manifest>)
    ensures forall m :: m in all <==> m in Readable(dirs).Values
    ensures AllProperIn(Readable(dirs)) ==> BestFirst(all)
  {
    var meta := Readable(dirs);
    var found: seq<Manifest>, todo := [], meta.Keys;
    while todo != {}
      invariant todo <= meta.Keys
      invariant forall m :: m in found <==> exists id :: id in meta.Keys - todo && meta[id] == m
    {
      var id :| id in todo;
      var found', todo' := found + [meta[id]], todo - {id};
      forall m ensures m in found' <==> exists x :: x in meta.Keys - todo' && meta[x] == m {
        if m == meta[id] { assert id in meta.Keys - todo'; }
        if m in found {
          var x :| x in meta.Keys - todo && meta[x] == m;
          assert x in meta.Keys - todo';
        }
      }
      found, todo := found', todo';
    }
    assert forall i :: 0 <= i < |found| ==> found[i] in found;
    all := SortCheckpoints(found);
    forall m ensures m in all <==> m in found {
      assert m in multiset(all) <==> m in multiset(found);
    }
  }

  lemma NotAfter(meta: map<string, Manifest>, all: seq<Manifest>, i: nat, id: string)
    requires AllProperIn(meta) && BestFirst(all) && (forall m :: m in all <==> m in meta.Values) && i < |all| && id in meta
    requires forall j :: 0 <= j < i ==> all[j] != meta[id]
    ensures !Better(meta[id], all[i])
  {
    assert meta[id] in meta.Values;
    var j :| 0 <= j < |all| && all[j] == meta[id];
    if j == i { BetterIsStrictOrder(meta[id], meta[id], meta[id]); }
  }

  method PickBest(dirs: map<string, Dir>) returns (r: Option<Manifest>)
    ensures if r.Some? then IsBest(Readable(dirs), r.value) else Readable(dirs) == map[]
  {
    var meta := Readable(dirs);
    var all := ListCheckpoints(dirs);
    assert forall id :: id in meta ==> meta[id] in meta.Values && meta[id] in all;
    if |all| == 0 {
      return None;
    }
    r := Some(all[0]);
    assert all[0] in all;
    forall id | AllProperIn(meta) && id in meta ensures !Better(meta[id], all[0]) {
      NotAfter(meta, all, 0, id);
    }
  }

  method ResolveCheckpoint(s: Store, required: seq<string>, checkpointId: string) returns (r: Option<Manifest>)
    ensures IsResolved(s, required, checkpointId, r)
  {
    var meta := Readable(s.dirs);
    if checkpointId != "" {
      return if checkpointId in meta then Some(meta[checkpointId]) else None;
    }
    var all := ListCheckpoints(s.dirs);
    for i := 0 to |all|
      invariant forall j :: 0 <= j < i ==> !AllDominate(s.acks, required, all[j].frontier)
    {
      var acked := AllDominateLoop(s.acks, required, all[i].frontier);
      if acked {
        assert all[i] in all;
        forall id | AllProperIn(meta) && id in meta && AllDominate(s.acks, required, meta[id].frontier)
          ensures !Better(meta[id], all[i])
        {
          assert forall j :: 0 <= j < i ==> all[j] != meta[id];
          NotAfter(meta, all, i, id);
        }
        return Some(all[i]);
      }
    }
    forall id | id in meta ensures !AllDominate(s.acks, required, meta[id].frontier) {
      assert meta[id] in all;
    }
    r := None;
  }

  method PlanBundles(peek: string -> Option<Header>, keys: set<string>, ckpt: Option<Manifest>) returns (out: seq<string>)
    ensures forall k :: k in out <==> k in keys && PlansBundle(peek, ckpt, k)
  {
    out := [];
    var todo := keys;
    while todo != {}
      invariant todo <= keys
      invariant forall k :: k in out <==> k in keys - todo && PlansBundle(peek, ckpt, k)
    {
      var k :| k in todo;
      if ckpt.Some? && ckpt.value.id != "" {
        var h := peek(k);
        if h.Some? && Covers(ckpt.value.frontier, h.value.device, h.value.seqEnd) {
          out := out + [k];
        }
      }
      todo := todo - {k};
    }
  }

  method IsDoomed(meta: map<string, Manifest>, keep: Option<Manifest>, full: bool, id: string) returns (r: bool)
    ensures r <==> Doomed(meta, keep, full, id)
  {
    if id == "" || (keep.Some? && id == keep.value.id) {
      return false;
    }
    if id in meta && keep.Some? {
      var keepDom := DominatesLoop(keep.value.frontier, meta[id].frontier);
      var candDom := DominatesLoop(meta[id].frontier, keep.value.frontier);
      if candDom && !keepDom {
        return false;
      }
      if keepDom {
        return true;
      }
      if meta[id].createdAt > keep.value.createdAt {
        return false;
      }
    }
    r := !(id in meta && !full);
  }

  lemma InsertAscending(ids: seq<string>, k: nat, id: string)
    requires Ascending(ids) && k <= |ids|
    requires (forall i :: 0 <= i < k ==> Less(ids[i], id)) && (forall i :: k <= i < |ids| ==> Less(id, ids[i]))
    ensures Ascending(ids[..k] + [id] + ids[k..])
  {
    var ids' := ids[..k] + [id] + ids[k..];
    assert forall i :: 0 <= i < |ids'| ==> ids'[i] == if i < k then ids[i] else if i == k then id else ids[i - 1];
  }

  lemma InsertMembers(ids: seq<string>, k: nat, id: string)
    requires k <= |ids|
    ensures forall x :: x in ids[..k] + [id] + ids[k..] <==> x == id || x in ids
  {
    assert ids == ids[..k] + ids[k..];
  }

  /** The place of a new id in the list. */
  method PlaceOf(ids: seq<string>, id: string) returns (k: nat)
    requires Ascending(ids) && id !in ids
    ensures k <= |ids|
    ensures forall i :: 0 <= i < k ==> Less(ids[i], id)
    ensures forall i :: k <= i < |ids| ==> Less(id, ids[i])
  {
    k := |ids|;
    while k > 0 && Less(id, ids[k - 1])
      invariant k <= |ids|
      invariant forall i :: k <= i < |ids| ==> Less(id, ids[i])
    {
      k := k - 1;
    }
    forall i | 0 <= i < k ensures Less(ids[i], id) {
      assert ids[k - 1] in ids;
      Total(id, ids[k - 1]);
      if i < k - 1 { Transitive(ids[i], ids[k - 1], id); }
    }
  }

  /** The doomed directories, sorted. */
  method PlanCheckpoints(dirs: map<string, Dir>, keep: Option<Manifest>, full: bool) returns (out: seq<string>)
    ensures forall id :: id in out <==> id in dirs && Doomed(Readable(dirs), keep, full, id)
    ensures Ascending(out)
  {
    out := [];
    var todo := dirs.Keys;
    while todo != {}
      invariant todo <= dirs.Keys && Ascending(out)
      invariant forall id :: id in out <==> id in dirs.Keys - todo && Doomed(Readable(dirs), keep, full, id)
    {
      var id :| id in todo;
      var doomed := IsDoomed(Readable(dirs), keep, full, id);
      if doomed {
        var k := PlaceOf(out, id);
        InsertAscending(out, k, id);
        InsertMembers(out, k, id);
        out := out[..k] + [id] + out[k..];
      }
      todo := todo - {id};
    }
  }

  method Listed(keys: set<string>) returns (out: seq<string>)
    ensures forall k :: k in out <==> k in keys
  {
    out := [];
    var todo := keys;
    while todo != {}
      invariant todo <= keys && forall k :: k in out <==> k in keys - todo
    {
      var k :| k in todo;
      out := out + [k];
      todo := todo - {k};
    }
  }

  method Evaluate(peek: string -> Option<Header>, s: Store, required: seq<string>, checkpointId: string)
    returns (plan: Plan, ckpt: Option<Manifest>, keep: Option<Manifest>)
    ensures IsPlan(peek, s, required, checkpointId, ckpt, keep, plan)
  {
    var blocked := FindBlocked(s.acks, required, checkpointId);
    var eligible := |blocked| == 0 && |required| > 0;
    var orphans := Listed(s.tmp);
    var resolved: Option<Manifest> := None;
    if eligible {
      resolved := ResolveCheckpoint(s, required, checkpointId);
    }
    var bundles := PlanBundles(peek, s.bundles, resolved);
    var checkpoint := if resolved.Some? then resolved.value.id else "";
    var best := PickBest(s.dirs);
    var checkpoints := PlanCheckpoints(s.dirs, best, checkpoint != "");
    ckpt, keep := resolved, best;
    plan := Plan(orphans, checkpoints, bundles, blocked, checkpoint, eligible);
  }

  // ---- Only acknowledged events go ----

  /**
    Without a checkpoint named by hand, every bundle planned for deletion has been
    acknowledged by every required device.
  */
  lemma PlannedBundlesAreAcked(peek: string -> Option<Header>, s: Store, required: seq<string>,
                               ckpt: Option<Manifest>, keep: Option<Manifest>, plan: Plan, key: string, device: string)
    requires IsPlan(peek, s, required, "", ckpt, keep, plan) && key in plan.bundles && device in required
    requires peek(key).Some? && device in s.acks ==> peek(key).value.seqEnd > 0 || NonNegative(s.acks[device].frontier)
    ensures plan.eligible && peek(key).Some? && device in s.acks
    ensures Covers(s.acks[device].frontier, peek(key).value.device, peek(key).value.seqEnd)
  {
    var i :| 0 <= i < |required| && required[i] == device;
    assert IsBestAcked(Readable(s.dirs), s.acks, required, ckpt.value);
    assert Dominates(s.acks[required[i]].frontier, ckpt.value.frontier);
  }

  /** With a checkpoint named by hand, they have all acknowledged that checkpoint, and it covers the bundle. */
  lemma NamedBundlesAreAcked(peek: string -> Option<Header>, s: Store, required: seq<string>, checkpointId: string,
                             ckpt: Option<Manifest>, keep: Option<Manifest>, plan: Plan, key: string, device: string)
    requires IsPlan(peek, s, required, checkpointId, ckpt, keep, plan) && checkpointId != "" && key in plan.bundles && device in required
    ensures plan.eligible && peek(key).Some? && device in s.acks && s.acks[device].checkpointId == checkpointId
    ensures checkpointId in Readable(s.dirs)
    ensures Covers(Readable(s.dirs)[checkpointId].frontier, peek(key).value.device, peek(key).value.seqEnd)
  {
    var i :| 0 <= i < |required| && required[i] == device;
    assert !Blocks(s.acks, checkpointId, required[i]);
  }

  /** Without required devices nothing is eligible, and no bundle is planned. */
  lemma NobodyRequired(peek: string -> Option<Header>, s: Store, checkpointId: string, ckpt: Option<Manifest>, keep: Option<Manifest>, plan: Plan)
    requires IsPlan(peek, s, [], checkpointId, ckpt, keep, plan)
    ensures !plan.eligible && plan.checkpoint == "" && forall k :: k !in plan.bundles && k !in plan.blockedBy
  {
  }

  /**
    Which directories go. Never the kept one; always one without a readable manifest,
    and one that the kept one covers; one that covers more, or is newer and not
    comparable, never; any other only if events may be deleted too.
  */
  lemma DoomedMeans(meta: map<string, Manifest>, keep: Manifest, full: bool, id: string)
    requires id != "" && id != keep.id
    ensures !Doomed(meta, Some(keep), full, keep.id) && !Doomed(meta, Some(keep), full, "")
    ensures id !in meta ==> Doomed(meta, Some(keep), full, id)
    ensures id in meta ==>
              var m := meta[id];
              var covered := forall d :: d in m.frontier ==> At(keep.frontier, d) >= m.frontier[d];
              var covers := forall d :: d in keep.frontier ==> At(m.frontier, d) >= keep.frontier[d];
              && (covered ==> Doomed(meta, Some(keep), full, id))
              && (covers && !covered ==> !Doomed(meta, Some(keep), full, id))
              && (!covers && !covered && m.createdAt > keep.createdAt ==> !Doomed(meta, Some(keep), full, id))
              && (!covers && !covered && m.createdAt <= keep.createdAt ==> (Doomed(meta, Some(keep), full, id) <==> full))
  {
  }

  /** Events may be deleted if and only if devices are required and each has acknowledged, the named checkpoint if one is named. */
  lemma EligibleMeans(peek: string -> Option<Header>, s: Store, required: seq<string>, checkpointId: string,
                      ckpt: Option<Manifest>, keep: Option<Manifest>, plan: Plan)
    requires IsPlan(peek, s, required, checkpointId, ckpt, keep, plan)
    ensures plan.eligible <==> required != [] && forall d :: d in required ==> d in s.acks && (checkpointId == "" || s.acks[d].checkpointId == checkpointId)
    ensures forall d :: d in plan.blockedBy <==> d in required && !(d in s.acks && (checkpointId == "" || s.acks[d].checkpointId == checkpointId))
  {
    assert forall i :: 0 <= i < |required| ==> required[i] in required;
  }
}
