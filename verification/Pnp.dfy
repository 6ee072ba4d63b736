/** Plug and play: the per-disk state machine, the bus-relations report, and the add, eject and remove requests, on
    the device extensions and as functions on a disk's flags. */
module Pnp {
  import opened Base
  import opened Packets
  import opened CancelSafeQueue
  import opened Driver
  import opened Extensions
  import BusEnum

  /** The flags plug and play keeps in a disk's extension. */
  datatype Flags = Flags(present: bool, reportedMissing: bool, claimed: bool, state: PnpState, previous: PnpState)

  datatype Minor =
    | StartDevice | StopDevice | QueryStop | CancelStop | QueryRemove | CancelRemove
    | SurpriseRemoval | RemoveDevice | Eject | OtherMinor

  const FRESH: Flags := Flags(true, false, false, NotStarted, NotStarted)

  /** SET_NEW_PNP_STATE and RESTORE_PREVIOUS_PNP_STATE. */
  function SetState(f: Flags, state: PnpState): Flags {
    f.(previous := f.state, state := state)
  }

  function RestoreState(f: Flags): Flags {
    f.(state := f.previous)
  }

  /** Bus_PDO_PnP. */
  function OnPnp(f: Flags, minor: Minor): Flags {
    match minor
    case StartDevice => SetState(f, Started)
    case StopDevice => SetState(f, Stopped)
    case QueryStop => SetState(f, StopPending)
    case CancelStop => if f.state == StopPending then RestoreState(f) else f
    case QueryRemove => SetState(f, RemovePending)
    case CancelRemove => if f.state == RemovePending then RestoreState(f) else f
    case SurpriseRemoval => SetState(f, SurpriseRemovePending)
    case RemoveDevice =>
      var g := f.(claimed := false);
      if f.reportedMissing then SetState(g, Deleted) else if f.present then SetState(g, NotStarted) else g
    case Eject => f.(present := false)
    case OtherMinor => f
  }

  /** A query that goes through and is cancelled leaves the state as it was. */
  lemma CancelUndoesQuery(f: Flags)
    ensures OnPnp(OnPnp(f, QueryStop), CancelStop).state == f.state
    ensures OnPnp(OnPnp(f, QueryRemove), CancelRemove).state == f.state
  {
  }

  /** Only an eject clears Present, nothing sets it, and no request to the disk changes ReportedMissing. */
  lemma PnpKeepsPresence(f: Flags, minor: Minor)
    ensures OnPnp(f, minor).reportedMissing == f.reportedMissing
    ensures OnPnp(f, minor).present == (f.present && minor != Eject)
    ensures f.state != Deleted && f.previous != Deleted ==>
              (OnPnp(f, minor).state == Deleted <==> minor == RemoveDevice && f.reportedMissing)
  {
  }

  /** What a bus-relations report does to a disk: an absent one becomes reported missing. */
  function Reported(f: Flags): Flags {
    if f.present then f else f.(reportedMissing := true)
  }

  ghost function FlagsOf(pdo: PdoExtension): Flags
    reads pdo
  {
    Flags(pdo.present, pdo.reportedMissing, pdo.claimed, pdo.pnpState, pdo.previousPnpState)
  }

  /** The elements whose mark is set, in order. */
  function Select<T>(xs: seq<T>, marks: seq<bool>): (r: seq<T>)
    requires |xs| == |marks|
  {
    if xs == [] then []
    else
      var n := |xs| - 1;
      Select(xs[..n], marks[..n]) + if marks[n] then [xs[n]] else []
  }

  lemma {:induction false} SelectIsExact<T>(xs: seq<T>, marks: seq<bool>, x: T)
    requires |xs| == |marks|
    ensures x in Select(xs, marks) <==> exists i :: 0 <= i < |xs| && xs[i] == x && marks[i]
  {
    if xs != [] {
      var n := |xs| - 1;
      SelectIsExact(xs[..n], marks[..n], x);
      if x in Select(xs[..n], marks[..n]) {
        var i :| 0 <= i < n && xs[..n][i] == x && marks[..n][i];
        assert xs[i] == x && marks[i];
      }
      if i :| 0 <= i < |xs| && xs[i] == x && marks[i] {
        if i < n {
          assert xs[..n][i] == x && marks[..n][i];
        }
      }
    }
  }

  lemma {:induction false} SelectGrows<T>(xs: seq<T>, marks: seq<bool>, k: nat)
    requires |xs| == |marks| && k <= |xs|
    ensures |Select(xs[..k], marks[..k])| <= |Select(xs, marks)|
    decreases |xs|
  {
    var n := |xs| - 1;
    if k == |xs| {
      assert xs[..k] == xs && marks[..k] == marks;
    } else {
      assert xs[..n][..k] == xs[..k] && marks[..n][..k] == marks[..k];
      SelectGrows(xs[..n], marks[..n], k);
    }
  }

  lemma SelectStep<T>(xs: seq<T>, marks: seq<bool>, k: nat)
    requires |xs| == |marks| && k < |xs|
    ensures Select(xs[..k + 1], marks[..k + 1]) == Select(xs[..k], marks[..k]) + if marks[k] then [xs[k]] else []
  {
    assert xs[..k + 1][..k] == xs[..k] && marks[..k + 1][..k] == marks[..k];
  }

  /** One more element selected: the selection grows by it, and still fits. */
  lemma SelectNext<T>(xs: seq<T>, marks: seq<bool>, k: nat)
    requires |xs| == |marks| && k < |xs|
    ensures Select(xs[..k + 1], marks[..k + 1]) == Select(xs[..k], marks[..k]) + if marks[k] then [xs[k]] else []
    ensures |Select(xs[..k], marks[..k])| + (if marks[k] then 1 else 0) <= |Select(xs, marks)|
  {
    SelectStep(xs, marks, k);
    SelectGrows(xs, marks, k + 1);
  }

  ghost function Presence(fdo: FdoExtension): (r: seq<bool>)
    reads fdo, fdo.pdos
    ensures |r| == |fdo.pdos| && forall i :: 0 <= i < |r| ==> r[i] == fdo.pdos[i].present
  {
    seq(|fdo.pdos|, i requires 0 <= i < |fdo.pdos| reads fdo, fdo.pdos => fdo.pdos[i].present)
  }

  /** The counting loop of the bus-relations query. */
  method CountPresent(fdo: FdoExtension) returns (n: nat)
    ensures n == |Select(fdo.pdos, Presence(fdo))|
  {
    ghost var marks := Presence(fdo);
    n := 0;
    var k := 0;
    while k < |fdo.pdos|
      invariant k <= |fdo.pdos| && n == |Select(fdo.pdos[..k], marks[..k])|
    {
      SelectStep(fdo.pdos, marks, k);
      if fdo.pdos[k].present {
        n := n + 1;
      }
      k := k + 1;
    }
    assert fdo.pdos[..k] == fdo.pdos && marks[..k] == marks;
  }

  /** One round of the filling loop. */
  method Place(pdo: PdoExtension, relations: array<PdoExtension?>, slot: nat) returns (next: nat)
    requires slot + (if pdo.present then 1 else 0) <= relations.Length
    modifies relations, pdo`reportedMissing
    ensures next == slot + (if pdo.present then 1 else 0)
    ensures relations[..next] == old(relations[..slot]) + if pdo.present then [pdo] else []
    ensures pdo.reportedMissing == (old(pdo.reportedMissing) || !pdo.present)
  {
    next := slot;
    if pdo.present {
      relations[next] := pdo;
      next := next + 1;
    } else {
      pdo.reportedMissing := true;
    }
  }

  /** The filling loop over the listed disks: those with a mark are placed in list order, the others become missing. */
  method PlaceAll(pdos: seq<PdoExtension>, ghost marks: seq<bool>, relations: array<PdoExtension?>, base: nat)
    requires forall i, j :: 0 <= i < j < |pdos| ==> pdos[i] != pdos[j]
    requires |marks| == |pdos| && forall j :: 0 <= j < |pdos| ==> marks[j] == pdos[j].present
    requires base + |Select(pdos, marks)| == relations.Length
    modifies relations, pdos`reportedMissing
    ensures relations[..] == old(relations[..base]) + Select(pdos, marks)
    ensures forall j :: 0 <= j < |pdos| ==> pdos[j].reportedMissing == (old(pdos[j].reportedMissing) || !marks[j])
  {
    ghost var front, chosen: seq<PdoExtension> := relations[..base], [];
    var slot, k := base, 0;
    while k < |pdos|
      invariant k <= |pdos| && slot == base + |chosen| && slot <= relations.Length
      invariant chosen == Select(pdos[..k], marks[..k])
      invariant relations[..slot] == front + chosen
      invariant forall j :: 0 <= j < k ==> pdos[j].reportedMissing == (old(pdos[j].reportedMissing) || !marks[j])
      invariant forall j :: k <= j < |pdos| ==> pdos[j].reportedMissing == old(pdos[j].reportedMissing)
    {
      ghost var one := if marks[k] then [pdos[k]] else [];
      SelectNext(pdos, marks, k);
      slot := Place(pdos[k], relations, slot);
      assert (front + chosen) + one == front + (chosen + one);
      chosen := chosen + one;
      k := k + 1;
    }
    assert pdos[..k] == pdos && marks[..k] == marks;
  }

  /** The filling loop: every slot from `base` on is written, inside the allocation, with the present disks in list
      order, and exactly the omitted disks become ReportedMissing. */
  method FillRelations(fdo: FdoExtension, relations: array<PdoExtension?>, base: nat)
    requires fdo.Counted()
    requires base + |Select(fdo.pdos, Presence(fdo))| == relations.Length
    modifies relations, fdo.pdos`reportedMissing
    ensures relations[..] == old(relations[..base]) + old(Select(fdo.pdos, Presence(fdo)))
    ensures forall j :: 0 <= j < |fdo.pdos| ==> FlagsOf(fdo.pdos[j]) == Reported(old(FlagsOf(fdo.pdos[j])))
  {
    PlaceAll(fdo.pdos, Presence(fdo), relations, base);
  }

  datatype Relations = Unchanged | NoMemory | Report(objects: array<PdoExtension?>)

  /** Room for the prior relations, which are copied, and `n` more. */
  method Allocate(before: seq<PdoExtension>, n: nat) returns (objects: array<PdoExtension?>)
    ensures fresh(objects) && objects.Length == |before| + n && objects[..|before|] == before
  {
    objects := new PdoExtension?[|before| + n](_ => null);
    forall k | 0 <= k < |before| {
      objects[k] := before[k];
    }
  }

  /** IRP_MN_QUERY_DEVICE_RELATIONS for the bus. `prior` are the relations already in the packet, `enoughPool` the
      verdict of the pool allocation. The new report is the prior list followed by the present disks in list order. */
  method QueryBusRelations(fdo: FdoExtension, prior: Option<seq<PdoExtension>>, enoughPool: bool) returns (r: Relations)
    requires fdo.Counted()
    modifies fdo.pdos`reportedMissing
    ensures r.Unchanged? <==> prior.Some? && fdo.numPdos == 0
    ensures r.NoMemory? <==> !(prior.Some? && fdo.numPdos == 0) && !enoughPool
    ensures r.Report? ==>
              fresh(r.objects) && r.objects[..] == (if prior.Some? then prior.value else []) + old(Select(fdo.pdos, Presence(fdo)))
    ensures forall j :: 0 <= j < |fdo.pdos| ==>
              FlagsOf(fdo.pdos[j]) == if r.Report? then Reported(old(FlagsOf(fdo.pdos[j]))) else old(FlagsOf(fdo.pdos[j]))
  {
    if prior.Some? && fdo.numPdos == 0 {
      return Unchanged;
    }
    var before := if prior.Some? then prior.value else [];
    var n := CountPresent(fdo);
    if !enoughPool {
      return NoMemory;
    }
    var objects := Allocate(before, n);
    FillRelations(fdo, objects, |before|);
    return Report(objects);
  }

  /** Bus_RemoveAllDisks: every disk on the list is ejected. */
  method RemoveAllDisks(fdo: FdoExtension)
    requires fdo.Counted()
    modifies fdo.pdos`present
    ensures forall j :: 0 <= j < |fdo.pdos| ==> FlagsOf(fdo.pdos[j]) == OnPnp(old(FlagsOf(fdo.pdos[j])), Eject)
  {
    var k := 0;
    while k < |fdo.pdos|
      invariant k <= |fdo.pdos|
      invariant forall j :: 0 <= j < |fdo.pdos| ==> fdo.pdos[j].present == (old(fdo.pdos[j].present) && j >= k)
    {
      fdo.pdos[k].present := false;
      k := k + 1;
    }
  }

  /** Bus_FDO_Cleanup up to its wait: the parked packets of `file` are cancelled; if any disk is counted, the release
      event is reset, every disk is ejected and the call must wait. */
  method CleanupBus(fdo: FdoExtension, file: nat) returns (cancelled: seq<Fetcher>, mustWait: bool)
    requires fdo.Counted()
    modifies fdo.requestQueue, fdo.cleanupReady, fdo.pdos`present
    ensures cancelled == FetchersOf(old(fdo.requestQueue.items), file)
    ensures fdo.requestQueue.items == OthersOf(old(fdo.requestQueue.items), file)
    ensures mustWait <==> fdo.pdos != []
    ensures fdo.cleanupReady.signaled == (!mustWait && old(fdo.cleanupReady.signaled))
    ensures forall j :: 0 <= j < |fdo.pdos| ==> FlagsOf(fdo.pdos[j]) == OnPnp(old(FlagsOf(fdo.pdos[j])), Eject)
  {
    cancelled := fdo.requestQueue.Cleanup(file);
    mustWait := fdo.numPdos > 0;
    if mustWait {
      fdo.cleanupReady.signaled := false;
      RemoveAllDisks(fdo);
    }
  }

  /** Bus_RemoveDisk: the first disk with this handle gets its removal event reset and is to be ejected. */
  method RemoveDisk(fdo: FdoExtension, handle: nat) returns (verdict: Verdict, eject: Option<nat>)
    requires fdo.Valid()
    modifies set p | p in fdo.pdos :: p.removeEvent
    ensures eject == FindPdo(old(fdo.Pdos()), handle, 0)
    ensures verdict == if fdo.pdos == [] then NoSuchDevice else if eject.Some? then Ok else InvalidParameter
    ensures eject.Some? ==> !fdo.pdos[eject.value].removeEvent.signaled
    ensures forall p :: p in fdo.pdos && (eject.None? || p.removeEvent != fdo.pdos[eject.value].removeEvent) ==>
              p.removeEvent.signaled == old(p.removeEvent.signaled)
  {
    if fdo.numPdos == 0 {
      return NoSuchDevice, None;
    }
    eject := BusEnum.FindDisk(fdo, handle);
    if eject.None? {
      return InvalidParameter, None;
    }
    var pdo := fdo.pdos[eject.value];
    assert pdo in fdo.pdos;
    pdo.removeEvent.signaled := false;
    return Ok, eject;
  }

  /** A disk that stands in the way of registering `handle`. */
  ghost predicate Clashes(pdo: PdoExtension, handle: nat)
    reads pdo
  {
    pdo.serialNo == handle && pdo.pnpState != SurpriseRemovePending
  }

  /** The uniqueness check of Bus_AddDisk. */
  method IsUnique(fdo: FdoExtension, handle: nat) returns (unique: bool)
    ensures unique <==> forall p :: p in fdo.pdos ==> !Clashes(p, handle)
  {
    var k := 0;
    while k < |fdo.pdos|
      invariant k <= |fdo.pdos| && forall j :: 0 <= j < k ==> !Clashes(fdo.pdos[j], handle)
    {
      if handle == fdo.pdos[k].serialNo && fdo.pdos[k].pnpState != SurpriseRemovePending {
        assert fdo.pdos[k] in fdo.pdos && Clashes(fdo.pdos[k], handle);
        return false;
      }
      k := k + 1;
    }
    return true;
  }

  /** The end of Bus_InitializePdo: the disk is appended to the list and counted. */
  method LinkDisk(fdo: FdoExtension, pdo: PdoExtension)
    requires fdo.Valid() && Sound(pdo.Abs())
    requires pdo.removeEvent != fdo.cleanupReady && forall p :: p in fdo.pdos ==> p != pdo && p.buffer != pdo.buffer
    modifies fdo`pdos, fdo`numPdos
    ensures fdo.Valid() && fdo.pdos == old(fdo.pdos) + [pdo]
    ensures fdo.Abs() == old(fdo.Abs()).(pdos := old(fdo.Abs()).pdos + [pdo.Abs()])
  {
    fdo.pdos := fdo.pdos + [pdo];
    fdo.numPdos := fdo.numPdos + 1;
  }

  /** The requests that enter a state of their own: all but the cancels, an eject, the requests without a state, and the
      remove of a disk that is neither reported missing nor present. */
  predicate EntersState(minor: Minor, reportedMissing: bool, present: bool) {
    match minor
    case StartDevice => true
    case StopDevice => true
    case QueryStop => true
    case QueryRemove => true
    case SurpriseRemoval => true
    case RemoveDevice => reportedMissing || present
    case _ => false
  }

  /** The state changes of Bus_PDO_PnP. A request that enters a state remembers the one before; a cancel enters the
      remembered state, if its query is what the disk is waiting on, and forgets nothing. */
  method ChangeState(pdo: PdoExtension, minor: Minor)
    modifies pdo`present, pdo`claimed, pdo`pnpState, pdo`previousPnpState
    ensures FlagsOf(pdo) == OnPnp(old(FlagsOf(pdo)), minor)
    ensures minor.StartDevice? ==> pdo.pnpState == Started
    ensures minor.StopDevice? ==> pdo.pnpState == Stopped
    ensures minor.QueryStop? ==> pdo.pnpState == StopPending
    ensures minor.QueryRemove? ==> pdo.pnpState == RemovePending
    ensures minor.SurpriseRemoval? ==> pdo.pnpState == SurpriseRemovePending
    ensures minor.RemoveDevice? && pdo.reportedMissing ==> pdo.pnpState == Deleted
    ensures minor.RemoveDevice? && !pdo.reportedMissing && pdo.present ==> pdo.pnpState == NotStarted
    ensures pdo.previousPnpState ==
            old(if EntersState(minor, pdo.reportedMissing, pdo.present) then pdo.pnpState else pdo.previousPnpState)
    ensures minor.CancelStop? ==>
              pdo.pnpState == old(if pdo.pnpState == StopPending then pdo.previousPnpState else pdo.pnpState)
    ensures minor.CancelRemove? ==>
              pdo.pnpState == old(if pdo.pnpState == RemovePending then pdo.previousPnpState else pdo.pnpState)
    ensures minor.Eject? || minor.OtherMinor? || (minor.RemoveDevice? && !pdo.reportedMissing && !pdo.present) ==>
              pdo.pnpState == old(pdo.pnpState)
    ensures pdo.claimed == (old(pdo.claimed) && !minor.RemoveDevice?) && pdo.present == (old(pdo.present) && !minor.Eject?)
  {
    match minor {
      case StartDevice =>
        pdo.previousPnpState := pdo.pnpState;
        pdo.pnpState := Started;
      case StopDevice =>
        pdo.previousPnpState := pdo.pnpState;
        pdo.pnpState := Stopped;
      case QueryStop =>
        pdo.previousPnpState := pdo.pnpState;
        pdo.pnpState := StopPending;
      case CancelStop =>
        if pdo.pnpState == StopPending {
          pdo.pnpState := pdo.previousPnpState;
        }
      case QueryRemove =>
        pdo.previousPnpState := pdo.pnpState;
        pdo.pnpState := RemovePending;
      case CancelRemove =>
        if pdo.pnpState == RemovePending {
          pdo.pnpState := pdo.previousPnpState;
        }
      case SurpriseRemoval =>
        pdo.previousPnpState := pdo.pnpState;
        pdo.pnpState := SurpriseRemovePending;
      case RemoveDevice =>
        pdo.claimed := false;
        if pdo.reportedMissing {
          pdo.previousPnpState := pdo.pnpState;
          pdo.pnpState := Deleted;
        } else if pdo.present {
          pdo.previousPnpState := pdo.pnpState;
          pdo.pnpState := NotStarted;
        }
      case Eject =>
        pdo.present := false;
      case OtherMinor =>
    }
  }

  /** The removal branch, under the bus mutex: the disk leaves the list and the count. */
  method UnlinkDisk(fdo: FdoExtension, i: nat)
    requires fdo.Valid() && i < |fdo.pdos|
    modifies fdo`pdos, fdo`numPdos
    ensures fdo.Valid() && fdo.pdos == old(fdo.pdos)[..i] + old(fdo.pdos)[i + 1..]
    ensures old(fdo.pdos[i]) !in fdo.pdos
    ensures fdo.Pdos() == old(fdo.Pdos())[..i] + old(fdo.Pdos())[i + 1..]
  {
    fdo.pdos := fdo.pdos[..i] + fdo.pdos[i + 1..];
    fdo.numPdos := fdo.numPdos - 1;
  }

  /** The removal branch: unlink, destroy, and set the event Bus_FDO_Cleanup waits for if the list is now empty. */
  method RemoveLinked(fdo: FdoExtension, pdo: PdoExtension, i: nat)
    requires fdo.Valid() && i < |fdo.pdos| && fdo.pdos[i] == pdo
    requires pdo.lockCount == if pdo.currentIrp.Some? then 1 else 0
    modifies fdo, pdo`currentIrp, pdo`irpQueue, pdo`lockCount, pdo`mapped, pdo.removeEvent, fdo.cleanupReady
    ensures fdo.Valid() && fdo.pdos == old(fdo.pdos)[..i] + old(fdo.pdos)[i + 1..]
    ensures fdo.Abs() == Destroy(old(fdo.Abs()), i)
    ensures pdo.removeEvent.signaled && !pdo.mapped && pdo.lockCount == 0
    ensures fdo.cleanupReady.signaled == (old(fdo.cleanupReady.signaled) || fdo.pdos == [])
    ensures |fdo.completed| >= |old(fdo.completed)|
    ensures CancelEach(fdo.completed[|old(fdo.completed)|..], PacketsOf(old(pdo.Abs())))
  {
    UnlinkDisk(fdo, i);
    ghost var rest := fdo.Pdos();
    BusEnum.DestroyPdo(fdo, pdo);
    assert fdo.Pdos() == rest;
    if fdo.numPdos == 0 {
      fdo.cleanupReady.signaled := true;
    }
  }

  /** The state changes on a listed disk leave the packets and the list alone. */
  method ChangeListed(fdo: FdoExtension, pdo: PdoExtension, minor: Minor)
    requires fdo.Valid() && pdo in fdo.pdos
    modifies pdo`present, pdo`claimed, pdo`pnpState, pdo`previousPnpState
    ensures fdo.Valid() && FlagsOf(pdo) == OnPnp(old(FlagsOf(pdo)), minor) && fdo.Abs() == old(fdo.Abs())
  {
    ghost var before := fdo.Abs();
    ChangeState(pdo, minor);
    assert fdo.Abs() == before;
  }

  /** Bus_PDO_PnP for the disk at position `i`. A remove request destroys the disk exactly when it was reported
      missing; the removal that empties the list sets the event Bus_FDO_Cleanup waits for. */
  method DispatchPnp(fdo: FdoExtension, i: nat, minor: Minor) returns (destroyed: bool)
    requires fdo.Valid() && i < |fdo.pdos|
    requires fdo.pdos[i].lockCount == if fdo.pdos[i].currentIrp.Some? then 1 else 0
    modifies fdo, fdo.pdos[i], fdo.pdos[i].removeEvent, fdo.cleanupReady
    ensures fdo.Valid() && destroyed == (minor == RemoveDevice && old(fdo.pdos[i].reportedMissing))
    ensures FlagsOf(old(fdo.pdos[i])) == OnPnp(old(FlagsOf(fdo.pdos[i])), minor)
    ensures !destroyed ==> fdo.pdos == old(fdo.pdos) && fdo.Abs() == old(fdo.Abs())
    ensures destroyed ==> fdo.pdos == old(fdo.pdos)[..i] + old(fdo.pdos)[i + 1..] && fdo.Abs() == Destroy(old(fdo.Abs()), i)
    ensures destroyed ==> old(fdo.pdos[i]).removeEvent.signaled && !old(fdo.pdos[i]).mapped && old(fdo.pdos[i]).lockCount == 0
    ensures fdo.cleanupReady.signaled == (old(fdo.cleanupReady.signaled) || (destroyed && fdo.pdos == []))
    ensures destroyed ==>
              |fdo.completed| >= |old(fdo.completed)| && CancelEach(fdo.completed[|old(fdo.completed)|..], PacketsOf(old(fdo.pdos[i].Abs())))
  {
    var pdo := fdo.pdos[i];
    destroyed := minor == RemoveDevice && pdo.reportedMissing;
    ghost var held := pdo.Abs();
    ChangeListed(fdo, pdo, minor);
    assert pdo.Abs() == held;
    if destroyed {
      RemoveLinked(fdo, pdo, i);
    }
  }
}
