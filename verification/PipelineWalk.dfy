/** The unlocked walk of GET_REQUEST over ListOfPDOs: which entries it still comes to, while disks are linked and
    unlinked around it. */
module PipelineWalk {
  import opened Base
  import opened Pipeline

  /** The first place after `from`. */
  function Behind(from: Option<nat>): nat {
    if from.Some? then from.value + 1 else 0
  }

  /** The walk comes to entry `i` by links alone. */
  predicate Reaches(disks: seq<Disk>, from: Option<nat>, i: nat)
    decreases |disks| - Behind(from)
  {
    match Flink(disks, from)
    case None => false
    case Some(j) => j == i || (Behind(from) <= j < |disks| && Reaches(disks, Some(j), i))
  }

  /** The walk under way will run BusStartNextPacket on disk `i`. */
  predicate ScanOwes(s: Sys, i: nat) {
    || (s.fetch.Scanning? && Reaches(s.disks, s.fetch.from, i))
    || (s.fetch.AtEntry? && (s.fetch.at == i || Reaches(s.disks, Some(s.fetch.at), i)))
  }

  /** Links lead forward and to entries. */
  predicate WellLinked(disks: seq<Disk>) {
    forall k :: 0 <= k < |disks| && !disks[k].stage.Linked? && disks[k].flink.Some? ==> k < disks[k].flink.value < |disks|
  }

  /** The same list, and the same stale links. */
  predicate SameList(a: seq<Disk>, b: seq<Disk>) {
    |a| == |b|
    && forall k :: 0 <= k < |a| ==>
         a[k].stage.Linked? == b[k].stage.Linked? && (!a[k].stage.Linked? ==> a[k].flink == b[k].flink)
  }

  lemma FlinkIsForward(disks: seq<Disk>, from: Option<nat>)
    requires WellLinked(disks)
    ensures var r := Flink(disks, from); r.Some? ==> Behind(from) <= r.value < |disks|
  {
  }

  lemma {:induction false} NextLinkedSame(a: seq<Disk>, b: seq<Disk>, k: nat)
    requires SameList(a, b)
    ensures NextLinked(a, k) == NextLinked(b, k)
    decreases |a| - k
  {
    if k < |a| && !a[k].stage.Linked? {
      NextLinkedSame(a, b, k + 1);
    }
  }

  lemma {:induction false} ReachesSame(a: seq<Disk>, b: seq<Disk>, from: Option<nat>, i: nat)
    requires SameList(a, b)
    ensures Reaches(a, from, i) == Reaches(b, from, i)
    decreases |a| - Behind(from)
  {
    NextLinkedSame(a, b, Behind(from));
    assert Flink(a, from) == Flink(b, from);
    var r := Flink(a, from);
    if r.Some? && Behind(from) <= r.value < |a| {
      ReachesSame(a, b, r, i);
    }
  }

  /** A walk over the list comes to every entry that is on it, behind where it stands. */
  lemma {:induction false} ReachesLinked(disks: seq<Disk>, from: Option<nat>, i: nat)
    requires i < |disks| && disks[i].stage.Linked? && Behind(from) <= i
    requires from.Some? ==> disks[from.value].stage.Linked?
    ensures Reaches(disks, from, i)
    decreases |disks| - Behind(from)
  {
    var r := NextLinked(disks, Behind(from));
    if r.value != i {
      ReachesLinked(disks, r, i);
    }
  }

  /** A walk that stands on the list comes to no entry that is off it. */
  lemma {:induction false} ListReachesLinked(disks: seq<Disk>, from: Option<nat>, i: nat)
    requires from.Some? ==> from.value < |disks| && disks[from.value].stage.Linked?
    requires Reaches(disks, from, i)
    ensures i < |disks| && disks[i].stage.Linked?
    decreases |disks| - Behind(from)
  {
    var r := Flink(disks, from);
    if r.value != i {
      ListReachesLinked(disks, r, i);
    }
  }

  function TakenOff(disks: seq<Disk>, k: nat): seq<Disk>
    requires k < |disks|
  {
    disks[k := disks[k].(stage := Unlinked, flink := NextLinked(disks, k + 1))]
  }

  lemma {:induction false} NextLinkedTakenOff(disks: seq<Disk>, k: nat, n: nat)
    requires k < |disks| && disks[k].stage.Linked?
    ensures NextLinked(TakenOff(disks, k), n) == if NextLinked(disks, n) == Some(k) then NextLinked(disks, k + 1) else NextLinked(disks, n)
    decreases |disks| - n
  {
    if n < |disks| && (n == k || !disks[n].stage.Linked?) {
      NextLinkedTakenOff(disks, k, n + 1);
    }
  }

  /** Every link stays, except that the neighbour's link to `k` now leads where that of `k` does. */
  lemma FlinkTakenOff(disks: seq<Disk>, k: nat, from: Option<nat>)
    requires k < |disks| && disks[k].stage.Linked?
    ensures var a := Flink(TakenOff(disks, k), from);
            a == Flink(disks, from) || (Flink(disks, from) == Some(k) && a == Flink(disks, Some(k)))
    ensures Flink(TakenOff(disks, k), Some(k)) == Flink(disks, Some(k))
  {
    NextLinkedTakenOff(disks, k, Behind(from));
  }

  lemma ReachesByLink(disks: seq<Disk>, from: Option<nat>, i: nat)
    requires WellLinked(disks)
    ensures var r := Flink(disks, from); Reaches(disks, from, i) <==> r.Some? && (r.value == i || Reaches(disks, r, i))
  {
    FlinkIsForward(disks, from);
  }

  lemma TakenOffIsWellLinked(disks: seq<Disk>, k: nat)
    requires WellLinked(disks) && k < |disks|
    ensures WellLinked(TakenOff(disks, k))
  {
  }

  /** Taking entry `k` off the list changes for no other entry whether the walk comes to it. */
  lemma {:induction false} ReachesTakenOff(disks: seq<Disk>, k: nat, from: Option<nat>, i: nat)
    requires WellLinked(disks) && k < |disks| && disks[k].stage.Linked? && i != k
    ensures Reaches(TakenOff(disks, k), from, i) == Reaches(disks, from, i)
    decreases |disks| - Behind(from)
  {
    var after := TakenOff(disks, k);
    var r := Flink(disks, from);
    FlinkIsForward(disks, from);
    FlinkTakenOff(disks, k, from);
    TakenOffIsWellLinked(disks, k);
    ReachesByLink(disks, from, i);
    ReachesByLink(after, from, i);
    if r.Some? {
      ReachesTakenOff(disks, k, r, i);
      ReachesByLink(after, r, i);
    }
  }

  lemma {:induction false} NextLinkedAppend(disks: seq<Disk>, d: Disk, n: nat)
    requires d.stage.Linked?
    ensures NextLinked(disks + [d], n) ==
            if NextLinked(disks, n).Some? then NextLinked(disks, n) else if n <= |disks| then Some(|disks|) else None
    decreases |disks| - n
  {
    if n < |disks| && !disks[n].stage.Linked? {
      NextLinkedAppend(disks, d, n + 1);
    }
  }

  /** A disk linked at the tail changes for no other entry whether the walk comes to it. */
  lemma {:induction false} ReachesAppend(disks: seq<Disk>, d: Disk, from: Option<nat>, i: nat)
    requires WellLinked(disks) && d.stage.Linked? && i < |disks|
    ensures Reaches(disks + [d], from, i) == Reaches(disks, from, i)
    decreases |disks| - Behind(from)
  {
    var r := Flink(disks, from);
    FlinkIsForward(disks, from);
    NextLinkedAppend(disks, d, Behind(from));
    if r.Some? {
      ReachesAppend(disks, d, r, i);
    } else if Flink(disks + [d], from).Some? {
      assert Flink(disks + [d], from) == Some(|disks|);
      assert Flink(disks + [d], Some(|disks|)).None?;
    }
  }
}
