/**
 * The launcher's helpers: the argument splitter used by the init stage and
 * the pool of host ids handed out to bridged containers.
 *
 * The pool file holds a JSON array of the ids in use; here it is the field
 * `inUse` of a `Pool` object, and a missing file is the empty sequence.
 */
module Utils {
  import opened Wrappers

  // ---------------------------------------------------------------------
  // Argument splitting
  // ---------------------------------------------------------------------

  /** The argument that separates the launcher's own arguments from the user's command. */
  const Separator := "--"

  /**
   * The arguments after the first `--`, or nothing when there is no `--`.
   * The result is always a suffix of `args`.
   */
  method FindUserArgs(args: seq<string>) returns (userArgs: seq<string>)
    ensures |userArgs| <= |args| && userArgs == args[|args| - |userArgs|..]
    ensures Separator !in args ==> userArgs == []
    ensures forall k :: 0 <= k < |args| && args[k] == Separator && Separator !in args[..k] ==>
              userArgs == args[k + 1..]
  {
    var i := 0;
    while i < |args|
      invariant 0 <= i <= |args|
      invariant Separator !in args[..i]
    {
      var a := args[i];
      i := i + 1;
      if a == Separator {
        break;
      }
    }
    userArgs := args[i..];
  }

  // ---------------------------------------------------------------------
  // The id pool: what the ids are
  // ---------------------------------------------------------------------

  /** The lowest id handed out; .0 and .1 of the subnet are not leased. */
  const FirstId := 2
  /** The number of slots in the presence vector. */
  const SlotCount := 252
  /** The highest id handed out: 253, since the vector has 252 slots. */
  const LastId := FirstId + SlotCount - 1

  predicate InRange(id: int) {
    FirstId <= id <= LastId
  }

  /** Every stored id indexes a slot of the presence vector. */
  predicate AllInRange(ids: seq<int>) {
    forall i :: 0 <= i < |ids| ==> InRange(ids[i])
  }

  /** No id is leased twice. */
  predicate NoDuplicates(ids: seq<int>) {
    forall i, j :: 0 <= i < j < |ids| ==> ids[i] != ids[j]
  }

  /** The lowest id in `k..LastId` that is not in `ids`. */
  function LowestFreeFrom(ids: seq<int>, k: int): (r: Option<int>)
    requires FirstId <= k <= LastId + 1
    ensures r.Some? ==> k <= r.value <= LastId && r.value !in ids
    ensures r.Some? ==> forall j :: k <= j < r.value ==> j in ids
    ensures r.None? <==> forall j :: k <= j <= LastId ==> j in ids
    decreases LastId + 1 - k
  {
    if k > LastId then None
    else if k !in ids then Some(k)
    else LowestFreeFrom(ids, k + 1)
  }

  /**
   * The id an allocation hands out: the lowest id of the pool that is not
   * in use, or None when all of them are.
   */
  function LowestFree(ids: seq<int>): (r: Option<int>)
    ensures r.Some? ==> InRange(r.value) && r.value !in ids
    ensures r.Some? ==> forall j :: FirstId <= j < r.value ==> j in ids
    ensures r.None? <==> forall j :: InRange(j) ==> j in ids
  {
    LowestFreeFrom(ids, FirstId)
  }

  /** The lowest-free policy picks exactly one id: the first free one. */
  lemma LowestFreeIsUnique(ids: seq<int>, id: int)
    requires InRange(id) && id !in ids
    requires forall j :: FirstId <= j < id ==> j in ids
    ensures LowestFree(ids) == Some(id)
  {
    assert LowestFree(ids).Some?;
    var v := LowestFree(ids).value;
    assert v < id ==> v in ids;
    assert id < v ==> id in ids;
  }

  /**
   * The list with the first occurrence of `id` taken out and the others
   * left in order; the list itself when `id` is absent.
   */
  function RemoveFirst(ids: seq<int>, id: int): (r: seq<int>)
    ensures id in ids ==> |r| == |ids| - 1
    ensures id !in ids ==> r == ids
    ensures forall x :: x in r ==> x in ids
  {
    if ids == [] then []
    else if ids[0] == id then ids[1..]
    else [ids[0]] + RemoveFirst(ids[1..], id)
  }

  /** Exactly one copy of `id` goes, when there is one, and nothing else does. */
  lemma {:induction false} RemoveFirstRemovesOneCopy(ids: seq<int>, id: int)
    ensures multiset(RemoveFirst(ids, id)) == multiset(ids) - multiset{id}
  {
    if ids != [] {
      assert ids == [ids[0]] + ids[1..];
      if ids[0] != id {
        RemoveFirstRemovesOneCopy(ids[1..], id);
      }
    }
  }

  /** Removing the first occurrence is splicing the list at its index. */
  lemma {:induction false} RemoveFirstAt(ids: seq<int>, id: int, k: int)
    requires 0 <= k < |ids| && ids[k] == id && id !in ids[..k]
    ensures RemoveFirst(ids, id) == ids[..k] + ids[k + 1..]
  {
    if k > 0 {
      var tail := ids[1..];
      assert ids[0] == ids[..k][0] && ids[0] != id;
      assert tail[..k - 1] == ids[1..k];
      assert id !in tail[..k - 1];
      RemoveFirstAt(tail, id, k - 1);
      assert tail[k - 1 + 1..] == ids[k + 1..];
      calc {
        RemoveFirst(ids, id);
        [ids[0]] + RemoveFirst(tail, id);
        [ids[0]] + (ids[1..k] + ids[k + 1..]);
        ([ids[0]] + ids[1..k]) + ids[k + 1..];
        { assert [ids[0]] + ids[1..k] == ids[..k]; }
        ids[..k] + ids[k + 1..];
      }
    }
  }

  // ---------------------------------------------------------------------
  // The id pool: the allocator and the release
  // ---------------------------------------------------------------------

  /**
   * The scan of the presence vector: the lowest free id, or -1 when every
   * slot is taken.
   */
  method FirstFreeId(ids: seq<int>) returns (id: int)
    requires AllInRange(ids)
    ensures id == -1 <==> LowestFree(ids).None?
    ensures id != -1 ==> LowestFree(ids) == Some(id)
  {
    var bitVector := new bool[SlotCount](_ => false);
    var n := 0;
    while n < |ids|
      invariant 0 <= n <= |ids|
      invariant forall s :: 0 <= s < SlotCount ==> bitVector[s] == (s + FirstId in ids[..n])
    {
      assert ids[..n + 1] == ids[..n] + [ids[n]];
      bitVector[ids[n] - FirstId] := true;
      n := n + 1;
    }
    assert ids[..n] == ids;

    id := -1;
    var i := 0;
    while i < SlotCount
      invariant 0 <= i <= SlotCount
      invariant id == -1
      invariant forall s :: 0 <= s < i ==> bitVector[s]
    {
      if !bitVector[i] {
        id := i + FirstId;
        break;
      }
      i := i + 1;
    }

    if id == -1 {
      forall j | InRange(j) ensures j in ids {
        assert bitVector[j - FirstId];
      }
    } else {
      forall j | FirstId <= j < id ensures j in ids {
        assert bitVector[j - FirstId];
      }
      LowestFreeIsUnique(ids, id);
    }
  }

  /** The error returned when every id of the pool is in use. */
  datatype PoolError = NoMoreIpAddr

  /** The pool file: the ids currently leased, in the order they were added. */
  class Pool {
    var inUse: seq<int>

    /**
     * Every stored id is in range. Allocation needs it: any other id would
     * index past the presence vector, which aborts the program.
     */
    ghost predicate Valid()
      reads this
    {
      AllInRange(inUse)
    }

    /** Opens the pool with what the file holds: the empty sequence when it is missing. */
    constructor (stored: seq<int>)
      ensures inUse == stored
      ensures Valid() <==> AllInRange(stored)
    {
      inUse := stored;
    }

    /**
     * Leases the lowest free id and appends it to the stored list, or fails
     * with NoMoreIpAddr and leaves the list as it was.
     */
    method AvailableIpAddrId() returns (r: Result<int, PoolError>)
      requires Valid()
      modifies this
      ensures Valid()
      ensures LowestFree(old(inUse)).None? ==> r == Failure(NoMoreIpAddr) && inUse == old(inUse)
      ensures LowestFree(old(inUse)).Some? ==>
                r == Success(LowestFree(old(inUse)).value) && inUse == old(inUse) + [r.value]
      ensures NoDuplicates(old(inUse)) ==> NoDuplicates(inUse)
      ensures inUse == Step(old(inUse), Allocate)
    {
      var ids := inUse;
      var id := FirstFreeId(ids);
      if id == -1 {
        return Failure(NoMoreIpAddr);
      }
      AllocatePreservesNoDuplicates(ids, id);
      inUse := ids + [id];
      r := Success(id);
    }

    /**
     * Takes the first occurrence of `id` out of the stored list; an id that
     * is not there leaves the list as it was.
     */
    method ReleaseIpAddr(id: int)
      modifies this
      ensures old(Valid()) ==> Valid()
      ensures inUse == RemoveFirst(old(inUse), id)
      ensures inUse == Step(old(inUse), Release(id))
    {
      var ids := inUse;
      var idx := -1;
      var i := 0;
      while i < |ids|
        invariant 0 <= i <= |ids|
        invariant idx == -1
        invariant id !in ids[..i]
      {
        if ids[i] == id {
          idx := i;
          break;
        }
        i := i + 1;
      }
      if idx == -1 {
        assert ids[..i] == ids;
        return;
      }
      RemoveFirstAt(ids, id, idx);
      inUse := ids[..idx] + ids[idx + 1..];
      assert forall x :: x in inUse ==> x in ids;
    }
  }

  // ---------------------------------------------------------------------
  // Properties of the pool
  // ---------------------------------------------------------------------

  /** An allocation adds an id that was not leased: exclusivity is kept. */
  lemma AllocatePreservesNoDuplicates(ids: seq<int>, id: int)
    requires LowestFree(ids) == Some(id)
    ensures AllInRange(ids) ==> AllInRange(ids + [id])
    ensures NoDuplicates(ids) ==> NoDuplicates(ids + [id])
  {
    assert id !in ids;
  }

  /** A release keeps the list in range and free of duplicates, and the id is gone. */
  lemma {:induction false} ReleasePreservesNoDuplicates(ids: seq<int>, id: int)
    requires NoDuplicates(ids)
    ensures NoDuplicates(RemoveFirst(ids, id))
    ensures id !in RemoveFirst(ids, id)
    ensures AllInRange(ids) ==> AllInRange(RemoveFirst(ids, id))
  {
    if ids != [] && ids[0] != id {
      ReleasePreservesNoDuplicates(ids[1..], id);
      var rest := RemoveFirst(ids[1..], id);
      assert ids[0] !in ids[1..];
      assert ids[0] !in rest;
    } else if ids != [] {
      assert id !in ids[1..];
    }
  }

  /** Releasing the id that was just allocated gives back the list as it was. */
  lemma {:induction false} ReleaseUndoesAllocate(ids: seq<int>, id: int)
    requires id !in ids
    ensures RemoveFirst(ids + [id], id) == ids
  {
    if ids != [] {
      assert (ids + [id])[1..] == ids[1..] + [id];
      ReleaseUndoesAllocate(ids[1..], id);
    }
  }

  /** On a list without duplicates a second release of the same id changes nothing. */
  lemma DoubleReleaseIsHarmless(ids: seq<int>, id: int)
    requires NoDuplicates(ids)
    ensures RemoveFirst(RemoveFirst(ids, id), id) == RemoveFirst(ids, id)
  {
    ReleasePreservesNoDuplicates(ids, id);
  }

  /**
   * A released id is available again: the next allocation succeeds and
   * hands out that id or a lower one.
   */
  lemma ReleasedIdIsReusable(ids: seq<int>, id: int)
    requires NoDuplicates(ids) && InRange(id)
    ensures LowestFree(RemoveFirst(ids, id)).Some?
    ensures LowestFree(RemoveFirst(ids, id)).value <= id
  {
    ReleasePreservesNoDuplicates(ids, id);
  }

  /** Id 254 is never handed out: the vector's 252 slots stop at 253. */
  lemma NeverHandsOut254(ids: seq<int>)
    ensures LowestFree(ids) != Some(254)
  {
  }

  /**
   * With 2..253 all leased, allocation fails although 254 is not in use.
   */
  lemma {:induction false} ExhaustedWith254Free()
    ensures var full := seq(SlotCount, i => i + FirstId);
      && NoDuplicates(full) && 254 !in full && LowestFree(full).None?
  {
    var full := seq(SlotCount, i => i + FirstId);
    forall j | InRange(j) ensures j in full {
      assert full[j - FirstId] == j;
    }
  }

  /**
   * The set of ids a list holds: never larger than the list, and exactly as
   * large when no id is leased twice.
   */
  function IdSet(ids: seq<int>): (s: set<int>)
    ensures forall x :: x in s <==> x in ids
    ensures |s| <= |ids|
    ensures NoDuplicates(ids) ==> |s| == |ids|
  {
    if ids == [] then {}
    else
      assert NoDuplicates(ids) ==> ids[0] !in ids[1..];
      {ids[0]} + IdSet(ids[1..])
  }

  /** The integers `lo..hi-1` as a set. */
  function Range(lo: int, hi: int): (s: set<int>)
    ensures forall x :: x in s <==> lo <= x < hi
    ensures lo <= hi ==> |s| == hi - lo
    decreases hi - lo
  {
    if lo >= hi then {} else {lo} + Range(lo + 1, hi)
  }

  /**
   * Capacity: exhaustion needs at least 252 stored ids; a list without
   * duplicates holds at most 252, and allocation fails on it exactly when
   * it holds 252.
   */
  lemma PoolCapacity(ids: seq<int>)
    requires AllInRange(ids)
    ensures LowestFree(ids).None? ==> |ids| >= SlotCount
    ensures NoDuplicates(ids) ==> |ids| <= SlotCount
    ensures NoDuplicates(ids) ==> (LowestFree(ids).None? <==> |ids| == SlotCount)
  {
    var held, all := IdSet(ids), Range(FirstId, LastId + 1);
    assert held <= all;
    assert all == held + (all - held);
    if LowestFree(ids).None? {
      assert all <= held;
      assert held == all;
    }
    if NoDuplicates(ids) && |ids| == SlotCount {
      assert |all - held| == 0;
      assert all - held == {};
      forall j | InRange(j) ensures j in ids {
        assert j in all;
      }
    }
  }

  // ---------------------------------------------------------------------
  // Sequences of operations
  // ---------------------------------------------------------------------

  /** One call on the pool: an allocation or the release of an id. */
  datatype PoolOp = Allocate | Release(id: int)

  /** The stored list after one call; AvailableIpAddrId and ReleaseIpAddr ensure they leave it so. */
  function Step(ids: seq<int>, op: PoolOp): (after: seq<int>) {
    match op
    case Allocate => (match LowestFree(ids) case Some(id) => ids + [id] case None => ids)
    case Release(id) => RemoveFirst(ids, id)
  }

  /** The stored list after a sequence of calls. */
  function Run(ids: seq<int>, ops: seq<PoolOp>): (after: seq<int>)
    decreases |ops|
  {
    if ops == [] then ids else Run(Step(ids, ops[0]), ops[1..])
  }

  /**
   * Exclusivity: whatever the calls, no id is leased twice and every
   * stored id stays in range.
   */
  lemma {:induction false} RunKeepsLeasesExclusive(ids: seq<int>, ops: seq<PoolOp>)
    requires AllInRange(ids) && NoDuplicates(ids)
    ensures AllInRange(Run(ids, ops)) && NoDuplicates(Run(ids, ops))
    decreases |ops|
  {
    if ops != [] {
      match ops[0] {
        case Allocate =>
          if LowestFree(ids).Some? {
            AllocatePreservesNoDuplicates(ids, LowestFree(ids).value);
          }
        case Release(id) =>
          ReleasePreservesNoDuplicates(ids, id);
      }
      RunKeepsLeasesExclusive(Step(ids, ops[0]), ops[1..]);
    }
  }
}
