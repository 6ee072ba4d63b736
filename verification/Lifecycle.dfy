/** The life of a disk across the two processes, as a step machine: the service's id map and processors, concurrent
    AddDisk calls, the driver's list, the plug-and-play requests in any order, removal, and the cleanup of the bus.
    One section under the service's lock or the bus mutex is one step. Bus surprise removal and bus removal do not
    happen. */
module Lifecycle {
  import opened Base
  import opened Extensions
  import opened Pnp

  /** Where the AddDisk call that created a processor is: Created, in the map, past the driver's uniqueness check,
      linked as a device, refused by the driver, or undone. */
  datatype Adder = Created | Reserved | Unique | Registered(device: nat) | Refused | Undone

  /** A processor of the service. `exiting`: its worker consumed the removal event. `freed`: deleted, and its
      transfer buffer with it. */
  datatype Proc = Proc(id: nat, adder: Adder, removeEvent: bool, exiting: bool, freed: bool)

  /** How far a device's removal is: on the list, off it, unmapped, removal event set, emptiness checked. */
  datatype Stage = Linked | Unlinked | Unmapped | Signaled | Checked

  datatype Device = Device(handle: nat, proc: nat, flags: Flags, stage: Stage)

  /** Bus_FDO_Cleanup: it saw NumPDOs > 0, reset its event, ejected all disks and waits. */
  datatype Cleaner = Away | Counted | Cleared | WaitingForEmpty | Released

  datatype Life = Life(idMap: map<nat, nat>, procs: seq<Proc>, devices: seq<Device>, numPdos: int,
                       cleanupReady: bool, cleaner: Cleaner)

  datatype LifeEvent =
    // AddDisk of the service, one call per processor
    | Create(id: nat)
    | Reserve(p: nat)
    | CheckUnique(p: nat)
    | Register(p: nat)
    | RegisterFails(p: nat)
    | RollBack(p: nat)
    // the driver
    | EjectRequest(handle: nat)
    | PnpRequest(k: nat, minor: Minor)
    | ReportRelations
    | Unlink(k: nat)
    | Unmap(k: nat)
    | Signal(k: nat)
    | CheckEmpty(k: nat)
    // the worker of a processor
    | WorkerWakes(p: nat)
    | WorkerFrees(p: nat)
    // Bus_FDO_Cleanup
    | CleanupCounts
    | CleanupResets
    | CleanupEjects
    | CleanupWakes

  function Init(): Life {
    Life(map[], [], [], 0, false, Away)
  }

  /** The scan of Bus_RemoveDisk. */
  function FindLinked(devices: seq<Device>, handle: nat, k: nat): (r: Option<nat>)
    requires k <= |devices|
    ensures r.Some? ==> k <= r.value < |devices| && devices[r.value].stage.Linked? && devices[r.value].handle == handle
    decreases |devices| - k
  {
    if k == |devices| then None
    else if devices[k].stage.Linked? && devices[k].handle == handle then Some(k)
    else FindLinked(devices, handle, k + 1)
  }

  /** The uniqueness check of Bus_AddDisk. */
  predicate Taken(devices: seq<Device>, handle: nat) {
    exists k :: 0 <= k < |devices| && devices[k].stage.Linked? && devices[k].handle == handle
                && devices[k].flags.state != SurpriseRemovePending
  }

  function WithFlags(devices: seq<Device>, change: Flags -> Flags): (r: seq<Device>)
    ensures |r| == |devices|
    ensures forall k :: 0 <= k < |r| ==>
              r[k] == if devices[k].stage.Linked? then devices[k].(flags := change(devices[k].flags)) else devices[k]
  {
    seq(|devices|, k requires 0 <= k < |devices| =>
      if devices[k].stage.Linked? then devices[k].(flags := change(devices[k].flags)) else devices[k])
  }

  predicate Guard(s: Life, e: LifeEvent) {
    match e
    case Create(_) => true
    case Reserve(p) => p < |s.procs| && s.procs[p].adder.Created?
    case CheckUnique(p) => p < |s.procs| && s.procs[p].adder.Reserved?
    case Register(p) => p < |s.procs| && s.procs[p].adder.Unique?
    case RegisterFails(p) => p < |s.procs| && (s.procs[p].adder.Reserved? || s.procs[p].adder.Unique?)
    case RollBack(p) => p < |s.procs| && s.procs[p].adder.Refused?
    case EjectRequest(handle) => FindLinked(s.devices, handle, 0).Some?
                                 && s.devices[FindLinked(s.devices, handle, 0).value].proc < |s.procs|
    case PnpRequest(k, minor) => k < |s.devices| && s.devices[k].stage.Linked?
                                 && !(minor == RemoveDevice && s.devices[k].flags.reportedMissing)
    case ReportRelations => true
    case Unlink(k) => k < |s.devices| && s.devices[k].stage.Linked? && s.devices[k].flags.reportedMissing
    case Unmap(k) => k < |s.devices| && s.devices[k].stage.Unlinked?
    case Signal(k) => k < |s.devices| && s.devices[k].stage.Unmapped? && s.devices[k].proc < |s.procs|
    case CheckEmpty(k) => k < |s.devices| && s.devices[k].stage.Signaled?
    case WorkerWakes(p) => p < |s.procs| && s.procs[p].removeEvent && !s.procs[p].exiting && !s.procs[p].freed
    case WorkerFrees(p) => p < |s.procs| && s.procs[p].exiting && !s.procs[p].freed
    case CleanupCounts => s.cleaner.Away?
    case CleanupResets => s.cleaner.Counted?
    case CleanupEjects => s.cleaner.Cleared?
    case CleanupWakes => s.cleaner.WaitingForEmpty? && s.cleanupReady
  }

  function SetProc(s: Life, p: nat, proc: Proc): Life
    requires p < |s.procs|
  {
    s.(procs := s.procs[p := proc])
  }

  function SetStage(s: Life, k: nat, stage: Stage): Life
    requires k < |s.devices|
  {
    s.(devices := s.devices[k := s.devices[k].(stage := stage)])
  }

  /** CDiskContainer::RemoveDisk: whatever processor the map holds under this id is deleted. */
  function Freed(s: Life, id: nat): Life {
    if id in s.idMap && s.idMap[id] < |s.procs| then
      SetProc(s, s.idMap[id], s.procs[s.idMap[id]].(freed := true)).(idMap := s.idMap - {id})
    else s.(idMap := s.idMap - {id})
  }

  function Next(s: Life, e: LifeEvent): Life
    requires Guard(s, e)
  {
    match e
    case Create(id) => s.(procs := s.procs + [Proc(id, Created, false, false, false)])
    case Reserve(p) =>
      var proc := s.procs[p];
      if proc.id in s.idMap then SetProc(s, p, proc.(adder := Undone, freed := true))
      else SetProc(s, p, proc.(adder := Reserved)).(idMap := s.idMap[proc.id := p])
    case CheckUnique(p) =>
      SetProc(s, p, s.procs[p].(adder := if Taken(s.devices, s.procs[p].id) then Refused else Unique))
    case Register(p) =>
      SetProc(s, p, s.procs[p].(adder := Registered(|s.devices|))).(
        devices := s.devices + [Device(s.procs[p].id, p, FRESH, Linked)], numPdos := s.numPdos + 1)
    case RegisterFails(p) => SetProc(s, p, s.procs[p].(adder := Refused))
    case RollBack(p) =>
      var t := Freed(s, s.procs[p].id);
      SetProc(t, p, t.procs[p].(adder := Undone))
    case EjectRequest(handle) =>
      var p := s.devices[FindLinked(s.devices, handle, 0).value].proc;
      SetProc(s, p, s.procs[p].(removeEvent := false))
    case PnpRequest(k, minor) =>
      s.(devices := s.devices[k := s.devices[k].(flags := OnPnp(s.devices[k].flags, minor))])
    case ReportRelations => s.(devices := WithFlags(s.devices, f => Reported(f)))
    case Unlink(k) =>
      var d := s.devices[k];
      s.(devices := s.devices[k := d.(flags := OnPnp(d.flags, RemoveDevice), stage := Unlinked)], numPdos := s.numPdos - 1)
    case Unmap(k) => SetStage(s, k, Unmapped)
    case Signal(k) =>
      var p := s.devices[k].proc;
      SetProc(SetStage(s, k, Signaled), p, s.procs[p].(removeEvent := true))
    case CheckEmpty(k) => SetStage(s, k, Checked).(cleanupReady := s.cleanupReady || s.numPdos == 0)
    case WorkerWakes(p) => SetProc(s, p, s.procs[p].(removeEvent := false, exiting := true))
    case WorkerFrees(p) => Freed(s, s.procs[p].id)
    case CleanupCounts => s.(cleaner := if s.numPdos > 0 then Counted else Released)
    case CleanupResets => s.(cleaner := Cleared, cleanupReady := false)
    case CleanupEjects => s.(cleaner := WaitingForEmpty, devices := WithFlags(s.devices, f => OnPnp(f, Eject)))
    case CleanupWakes => s.(cleaner := Released)
  }

  predicate Legal(es: seq<LifeEvent>)
    decreases |es|, 0
  {
    es == [] || (Legal(es[..|es| - 1]) && Guard(Final(es[..|es| - 1]), es[|es| - 1]))
  }

  function Final(es: seq<LifeEvent>): Life
    requires Legal(es)
    decreases |es|, 1
  {
    if es == [] then Init() else Next(Final(es[..|es| - 1]), es[|es| - 1])
  }

  // ---- the invariant ----

  predicate InMap(s: Life, p: nat)
    requires p < |s.procs|
  {
    s.procs[p].id in s.idMap && s.idMap[s.procs[p].id] == p
  }

  predicate Untouched(proc: Proc) {
    !proc.freed && !proc.removeEvent && !proc.exiting
  }

  /** The driver still uses the transfer buffer. */
  predicate Mapped(stage: Stage) {
    stage.Linked? || stage.Unlinked?
  }

  predicate Announced(stage: Stage) {
    stage.Signaled? || stage.Checked?
  }

  predicate ProcInv(s: Life, p: nat)
    requires p < |s.procs|
  {
    var proc := s.procs[p];
    match proc.adder
    case Created => Untouched(proc)
    case Reserved => Untouched(proc) && InMap(s, p)
    case Unique => Untouched(proc) && InMap(s, p)
    case Refused => Untouched(proc) && InMap(s, p)
    case Undone => proc.freed
    case Registered(k) =>
      && k < |s.devices| && s.devices[k].proc == p && s.devices[k].handle == proc.id
      && (!proc.freed ==> InMap(s, p))
      && (!Announced(s.devices[k].stage) ==> Untouched(proc))
      && (Announced(s.devices[k].stage) ==> proc.freed || proc.removeEvent != proc.exiting)
  }

  predicate DeviceInv(s: Life, k: nat)
    requires k < |s.devices|
  {
    var d := s.devices[k];
    && d.proc < |s.procs| && s.procs[d.proc].adder == Registered(k)
    && (d.flags.reportedMissing ==> !d.flags.present)
    && (d.stage.Linked? ==> d.flags.state != Deleted && d.flags.previous != Deleted)
    && (!d.stage.Linked? ==> d.flags.state == Deleted && d.flags.reportedMissing)
  }

  predicate MapInv(s: Life) {
    forall h :: h in s.idMap ==>
      && s.idMap[h] < |s.procs| && s.procs[s.idMap[h]].id == h && !s.procs[s.idMap[h]].freed
      && !s.procs[s.idMap[h]].adder.Created?
  }

  function Links(devices: seq<Device>): nat {
    if devices == [] then 0 else Links(devices[..|devices| - 1]) + if devices[|devices| - 1].stage.Linked? then 1 else 0
  }

  predicate Inv(s: Life) {
    && MapInv(s)
    && (forall p :: 0 <= p < |s.procs| ==> ProcInv(s, p))
    && (forall k :: 0 <= k < |s.devices| ==> DeviceInv(s, k))
    && s.numPdos == Links(s.devices)
  }
}
