/** The lossless queue of user bytes on their way to the shell. */
module PtyInput {
  import opened Base

  const MAX_BYTES := 0x10_0000

  datatype PushResult = Accepted | StoppedError | SaturatedError

  /** `Blocked` stands for a consumer that keeps waiting. */
  datatype PopResult = Item(data: seq<byte>) | Finished | Blocked

  lemma ConcatDropFirst(pieces: seq<seq<byte>>)
    requires pieces != []
    ensures Concat(pieces) == pieces[0] + Concat(pieces[1..])
  {
    assert pieces == [pieces[0]] + pieces[1..];
    ConcatAppend([pieces[0]], pieces[1..]);
    ConcatSnoc([], pieces[0]);
    assert [] + [pieces[0]] == [pieces[0]];
  }

  /** The chunks that are not queued any more are forgotten, and do not outnumber the others for long. */
  ghost predicate Stored(chunks: seq<seq<byte>>, head: nat) {
    && head <= |chunks| && (head <= 32 || 2 * head < |chunks|)
    && (forall i :: head <= i < |chunks| ==> chunks[i] != [])
    && (forall i :: 0 <= i < head ==> chunks[i] == [])
  }

  lemma StoredMore(chunks: seq<seq<byte>>, head: nat, p: seq<byte>)
    requires Stored(chunks, head) && p != []
    ensures Stored(chunks + [p], head) && Concat((chunks + [p])[head..]) == Concat(chunks[head..]) + p
  {
    assert (chunks + [p])[head..] == chunks[head..] + [p];
    ConcatSnoc(chunks[head..], p);
  }

  /** Taking the first chunk; the list is cut when more than half of it is gone. */
  lemma StoredLess(chunks: seq<seq<byte>>, head: nat)
    requires Stored(chunks, head) && head < |chunks|
    ensures var c := chunks[head := []];
            && Concat(chunks[head..]) == chunks[head] + Concat(c[head + 1..])
            && (head + 1 <= 32 || 2 * (head + 1) < |c| ==> Stored(c, head + 1))
            && Stored(c[head + 1..], 0) && c[head + 1..][0..] == c[head + 1..]
  {
    ConcatDropFirst(chunks[head..]);
    assert chunks[head..][1..] == chunks[head := []][head + 1..];
  }

  class InputQueue {
    var chunks: seq<seq<byte>>
    var head: nat
    var bytes: int
    var budget: int
    var maxDepth: int
    var stopped: bool
    ghost var accepted: seq<byte>
    ghost var popped: seq<byte>

    ghost function Queued(): seq<byte>
      reads this
      requires head <= |chunks|
    {
      Concat(chunks[head..])
    }

    /** What was popped, and then what is queued, is what was accepted; nothing lost, added or reordered. */
    ghost predicate Valid()
      reads this
    {
      && Stored(chunks, head)
      && accepted == popped + Queued()
      && bytes == |Queued()| && bytes <= budget
    }

    constructor (budget: int)
      ensures Valid() && accepted == [] && popped == [] && !stopped
      ensures this.budget == if budget < 1 then 1_048_576 else budget
    {
      this.budget := if budget < 1 then MAX_BYTES else budget;
      chunks, head, bytes, maxDepth, stopped := [], 0, 0, 0, false;
      accepted, popped := [], [];
    }

    method Push(p: seq<byte>) returns (r: PushResult)
      requires Valid()
      modifies this
      ensures Valid() && popped == old(popped) && stopped == old(stopped) && budget == old(budget)
      ensures r == if p == [] then Accepted else if old(stopped) then StoppedError
                   else if |old(Queued())| + |p| > budget then SaturatedError else Accepted
      ensures accepted == if r.Accepted? then old(accepted) + p else old(accepted)
      ensures Queued() == if r.Accepted? then old(Queued()) + p else old(Queued())
      ensures maxDepth == if r.Accepted? && p != [] && bytes > old(maxDepth) then bytes else old(maxDepth)
    {
      if |p| == 0 {
        return Accepted;
      }
      if stopped {
        return StoppedError;
      }
      if bytes + |p| > budget {
        return SaturatedError;
      }
      StoredMore(chunks, head, p);
      chunks := chunks + [p];
      bytes := bytes + |p|;
      if bytes > maxDepth {
        maxDepth := bytes;
      }
      accepted := accepted + p;
      r := Accepted;
    }

    /** Bytes come out in order; after a stop, what is queued still comes out. */
    method PopWait() returns (r: PopResult)
      requires Valid()
      modifies this
      ensures Valid() && accepted == old(accepted) && stopped == old(stopped) && budget == old(budget)
      ensures r.Blocked? <==> old(Queued()) == [] && !stopped
      ensures r.Finished? <==> old(Queued()) == [] && stopped
      ensures r.Item? ==> r.data != [] && popped == old(popped) + r.data && old(Queued()) == r.data + Queued()
      ensures !r.Item? ==> popped == old(popped) && Queued() == old(Queued())
    {
      if head >= |chunks| {
        return if stopped then Finished else Blocked;
      }
      var item := chunks[head];
      StoredLess(chunks, head);
      chunks := chunks[head := []];
      head := head + 1;
      bytes := if bytes - |item| < 0 then 0 else bytes - |item|;
      popped := popped + item;
      if head > 32 && head * 2 >= |chunks| {
        chunks := chunks[head..];
        head := 0;
      }
      r := Item(item);
    }

    method Stop()
      requires Valid()
      modifies this`stopped
      ensures Valid() && stopped && accepted == old(accepted) && popped == old(popped) && Queued() == old(Queued())
    {
      stopped := true;
    }
  }
}
