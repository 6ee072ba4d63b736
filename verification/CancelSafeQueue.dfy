/** The cancel-safe queue of GET_REQUEST packets: the driver's own callbacks, the library's removal over them, and the
    filtered cleanup. */
module CancelSafeQueue {
  import opened Base
  import opened Packets

  /** A packet passes the peek context: no context, or its own file object. */
  predicate Passes(f: Fetcher, context: Option<nat>) {
    context.None? || f.file == context.value
  }

  /** The fetchers of other file objects, and those of this one, each in queue order. */
  function OthersOf(parked: seq<Fetcher>, file: nat): seq<Fetcher> {
    if parked == [] then [] else (if parked[0].file == file then [] else [parked[0]]) + OthersOf(parked[1..], file)
  }

  function FetchersOf(parked: seq<Fetcher>, file: nat): seq<Fetcher> {
    if parked == [] then [] else (if parked[0].file == file then [parked[0]] else []) + FetchersOf(parked[1..], file)
  }

  /** `k` is the first packet from `start` on that passes. */
  predicate FirstPassing(parked: seq<Fetcher>, start: nat, context: Option<nat>, k: nat) {
    start <= k < |parked| && Passes(parked[k], context) && forall j :: start <= j < k ==> !Passes(parked[j], context)
  }

  lemma WithoutLater(parked: seq<Fetcher>, k: nat)
    requires 0 < k < |parked|
    ensures Without(parked, k) == [parked[0]] + Without(parked[1..], k - 1)
  {
    assert parked[1..][k..] == parked[k + 1..];
  }

  /** Removing the first fetcher of `file` takes the head of its fetchers and keeps everyone else. */
  lemma {:induction false} RemoveFirstOf(parked: seq<Fetcher>, file: nat, k: nat)
    requires FirstPassing(parked, 0, Some(file), k)
    ensures OthersOf(Without(parked, k), file) == OthersOf(parked, file)
    ensures FetchersOf(parked, file) == [parked[k]] + FetchersOf(Without(parked, k), file)
  {
    if k == 0 {
      assert Without(parked, 0) == parked[1..];
    } else {
      var rest := parked[1..];
      var left := Without(rest, k - 1);
      WithoutLater(parked, k);
      assert !Passes(parked[0], Some(file));
      assert forall j :: 0 <= j < k - 1 ==> rest[j] == parked[j + 1];
      RemoveFirstOf(rest, file, k - 1);
      assert ([parked[0]] + left)[1..] == left;
    }
  }

  lemma {:induction false} NoneLeft(parked: seq<Fetcher>, file: nat)
    requires forall j :: 0 <= j < |parked| ==> parked[j].file != file
    ensures OthersOf(parked, file) == parked && FetchersOf(parked, file) == []
  {
    if parked != [] {
      NoneLeft(parked[1..], file);
    }
  }

  /** The two parts make up the queue. */
  lemma {:induction false} CleanupPartitions(parked: seq<Fetcher>, file: nat, f: Fetcher)
    ensures multiset(OthersOf(parked, file))[f] + multiset(FetchersOf(parked, file))[f] == multiset(parked)[f]
  {
    if parked != [] {
      CleanupPartitions(parked[1..], file, f);
      assert parked == [parked[0]] + parked[1..];
    }
  }

  class RequestQueue {
    var items: seq<Fetcher>

    constructor ()
      ensures items == []
    {
      items := [];
    }

    method InsertIrp(f: Fetcher)
      modifies this
      ensures items == Insert(old(items), f)
    {
      items := items + [f];
    }

    /** BusPeekNextIrp: from the packet after `after`, or from the head. */
    method PeekNext(after: Option<nat>, context: Option<nat>) returns (found: Option<nat>)
      requires after.Some? ==> after.value < |items|
      ensures found.Some? ==> FirstPassing(items, if after.Some? then after.value + 1 else 0, context, found.value)
      ensures found.None? ==>
                forall j :: (if after.Some? then after.value + 1 else 0) <= j < |items| ==> !Passes(items[j], context)
    {
      var start := if after.None? then 0 else after.value + 1;
      var next := start;
      while next != |items|
        invariant start <= next <= |items|
        invariant forall j :: start <= j < next ==> !Passes(items[j], context)
        decreases |items| - next
      {
        if context.Some? {
          if items[next].file == context.value {
            return Some(next);
          }
        } else {
          return Some(next);
        }
        next := next + 1;
      }
      return None;
    }

    /** IoCsqRemoveNextIrp over the callbacks. */
    method RemoveNext(context: Option<nat>) returns (removed: Option<Fetcher>)
      modifies this
      ensures removed.None? ==> items == old(items) && forall j :: 0 <= j < |items| ==> !Passes(items[j], context)
      ensures removed.Some? ==> exists k: nat :: FirstPassing(old(items), 0, context, k)
                                            && removed.value == old(items)[k] && items == Without(old(items), k)
      ensures context.None? ==> if old(items) == [] then removed.None? else removed == Some(old(items)[0]) && items == Rest(old(items))
    {
      var found := PeekNext(None, context);
      if found.None? {
        return None;
      }
      var k := found.value;
      removed := Some(items[k]);
      items := Without(items, k);
      assert FirstPassing(old(items), 0, context, k) && items == Without(old(items), k);
    }

    /** The loop of Bus_FDO_Cleanup: every packet of `file` is cancelled once, in queue order; the others keep their
        order. */
    method Cleanup(file: nat) returns (cancelled: seq<Fetcher>)
      modifies this
      ensures items == OthersOf(old(items), file)
      ensures cancelled == FetchersOf(old(items), file)
    {
      cancelled := [];
      while true
        invariant OthersOf(items, file) == OthersOf(old(items), file)
        invariant cancelled + FetchersOf(items, file) == FetchersOf(old(items), file)
        decreases |items|
      {
        ghost var before := items;
        var pending := RemoveNext(Some(file));
        if pending.None? {
          NoneLeft(items, file);
          return;
        }
        ghost var k: nat :| FirstPassing(before, 0, Some(file), k) && pending.value == before[k] && items == Without(before, k);
        RemoveFirstOf(before, file, k);
        cancelled := cancelled + [pending.value];
      }
    }
  }
}
