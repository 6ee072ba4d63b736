/** What every step of a disk's life keeps, and the orderings over whole runs that follow. */
module LifecycleSafety {
  import opened Extensions
  import opened Pnp
  import opened Lifecycle

  // ---- counting the list ----

  lemma {:induction false} LinksUpdate(devices: seq<Device>, k: nat, d: Device)
    requires k < |devices|
    ensures Links(devices[k := d]) == Links(devices) - (if devices[k].stage.Linked? then 1 else 0) + (if d.stage.Linked? then 1 else 0)
  {
    var n := |devices| - 1;
    var e := devices[k := d];
    if k < n {
      assert e[..n] == devices[..n][k := d];
      LinksUpdate(devices[..n], k, d);
    } else {
      assert e[..n] == devices[..n];
    }
  }

  lemma {:induction false} LinksSame(a: seq<Device>, b: seq<Device>)
    requires |a| == |b| && forall k :: 0 <= k < |a| ==> a[k].stage == b[k].stage
    ensures Links(a) == Links(b)
  {
    if a != [] {
      LinksSame(a[..|a| - 1], b[..|b| - 1]);
    }
  }

  /** A linked device is counted. */
  lemma {:induction false} LinkedIsCounted(devices: seq<Device>, k: nat)
    requires k < |devices| && devices[k].stage.Linked?
    ensures Links(devices) > 0
  {
    if k < |devices| - 1 {
      LinkedIsCounted(devices[..|devices| - 1], k);
    }
  }

  // ---- steps ----

  lemma CreateKeeps(s: Life, id: nat)
    requires Inv(s)
    ensures Inv(Next(s, Create(id)))
  {
    var t := Next(s, Create(id));
    forall p | 0 <= p < |t.procs| ensures ProcInv(t, p) {
      assert p < |s.procs| ==> ProcInv(s, p);
    }
    forall k | 0 <= k < |t.devices| ensures DeviceInv(t, k) {
      assert DeviceInv(s, k);
    }
  }

  /** A change to one processor that keeps its id, and to the map under that id. */
  lemma ProcChanges(s: Life, t: Life, p: nat)
    requires Inv(s) && p < |s.procs| && |t.procs| == |s.procs| && t.devices == s.devices && t.numPdos == s.numPdos
    requires t.procs[p].id == s.procs[p].id
    requires forall q :: 0 <= q < |s.procs| && q != p ==> t.procs[q] == s.procs[q]
    requires forall h :: h != s.procs[p].id ==> (h in t.idMap <==> h in s.idMap) && (h in s.idMap ==> t.idMap[h] == s.idMap[h])
    requires s.procs[p].id in t.idMap ==>
               (s.procs[p].id in s.idMap && t.idMap[s.procs[p].id] == s.idMap[s.procs[p].id]
                && (s.idMap[s.procs[p].id] == p ==> !t.procs[p].freed && !t.procs[p].adder.Created?))
               || (s.procs[p].id !in s.idMap && t.idMap[s.procs[p].id] == p && !t.procs[p].freed && !t.procs[p].adder.Created?)
    requires s.procs[p].id in s.idMap && s.procs[p].id !in t.idMap ==> s.idMap[s.procs[p].id] == p
    requires ProcInv(t, p)
    requires s.procs[p].adder.Registered? ==> t.procs[p].adder == s.procs[p].adder
    ensures Inv(t)
  {
    forall q | 0 <= q < |t.procs| ensures ProcInv(t, q) {
      if q != p {
        assert ProcInv(s, q);
      }
    }
    forall k | 0 <= k < |t.devices| ensures DeviceInv(t, k) {
      assert DeviceInv(s, k);
    }
  }

  lemma AdderKeeps(s: Life, e: LifeEvent)
    requires Inv(s) && Guard(s, e) && (e.Reserve? || e.CheckUnique? || e.RegisterFails?)
    ensures Inv(Next(s, e))
  {
    assert ProcInv(s, e.p);
    ProcChanges(s, Next(s, e), e.p);
  }

  lemma RollBackKeeps(s: Life, p: nat)
    requires Inv(s) && Guard(s, RollBack(p))
    ensures Inv(Next(s, RollBack(p)))
  {
    assert ProcInv(s, p);
    ProcChanges(s, Next(s, RollBack(p)), p);
  }

  lemma RegisterKeeps(s: Life, p: nat)
    requires Inv(s) && Guard(s, Register(p))
    ensures Inv(Next(s, Register(p)))
  {
    var t := Next(s, Register(p));
    assert ProcInv(s, p);
    assert t.devices[..|s.devices|] == s.devices;
    forall q | 0 <= q < |t.procs| ensures ProcInv(t, q) {
      assert ProcInv(s, q);
    }
    forall k | 0 <= k < |t.devices| ensures DeviceInv(t, k) {
      assert k < |s.devices| ==> DeviceInv(s, k);
    }
  }

  lemma WorkerKeeps(s: Life, e: LifeEvent)
    requires Inv(s) && Guard(s, e) && (e.WorkerWakes? || e.WorkerFrees?)
    ensures Inv(Next(s, e))
  {
    assert ProcInv(s, e.p);
    ProcChanges(s, Next(s, e), e.p);
  }

  /** The reset of RemoveEvent never clears a set event: it only happens while the device is linked. */
  lemma EjectRequestIsHarmless(s: Life, handle: nat)
    requires Inv(s) && Guard(s, EjectRequest(handle))
    ensures Next(s, EjectRequest(handle)) == s
  {
    var k := FindLinked(s.devices, handle, 0).value;
    assert DeviceInv(s, k);
    assert ProcInv(s, s.devices[k].proc);
    assert s.procs[s.devices[k].proc := s.procs[s.devices[k].proc]] == s.procs;
  }

  /** Flags change on linked devices; stages, processors and the map do not. */
  lemma FlagsChange(s: Life, t: Life)
    requires Inv(s) && t.idMap == s.idMap && t.procs == s.procs && t.numPdos == s.numPdos && |t.devices| == |s.devices|
    requires forall k :: 0 <= k < |s.devices| ==> t.devices[k] == s.devices[k].(flags := t.devices[k].flags)
    requires forall k :: 0 <= k < |s.devices| ==> DeviceInv(t, k)
    ensures Inv(t)
  {
    LinksSame(s.devices, t.devices);
    forall p | 0 <= p < |t.procs| ensures ProcInv(t, p) {
      assert ProcInv(s, p);
    }
  }

  lemma PnpKeeps(s: Life, k: nat, minor: Minor)
    requires Inv(s) && Guard(s, PnpRequest(k, minor))
    ensures Inv(Next(s, PnpRequest(k, minor)))
  {
    var t := Next(s, PnpRequest(k, minor));
    forall j | 0 <= j < |t.devices| ensures DeviceInv(t, j) {
      assert DeviceInv(s, j);
    }
    FlagsChange(s, t);
  }

  lemma AllFlagsKeep(s: Life, e: LifeEvent)
    requires Inv(s) && Guard(s, e) && (e.ReportRelations? || e.CleanupEjects?)
    ensures Inv(Next(s, e))
  {
    var t := Next(s, e);
    forall j | 0 <= j < |t.devices| ensures DeviceInv(t, j) {
      assert DeviceInv(s, j);
    }
    FlagsChange(s, t);
  }

  /** A device moving one stage on, its processor with it. */
  lemma StageChanges(s: Life, t: Life, k: nat)
    requires Inv(s) && k < |s.devices| && t.idMap == s.idMap && |t.procs| == |s.procs|
    requires |t.devices| == |s.devices| && t.devices == s.devices[k := t.devices[k]]
    requires t.devices[k].handle == s.devices[k].handle && t.devices[k].proc == s.devices[k].proc
    requires t.numPdos - s.numPdos == (if t.devices[k].stage.Linked? then 1 else 0) - (if s.devices[k].stage.Linked? then 1 else 0)
    requires forall q :: 0 <= q < |s.procs| && q != s.devices[k].proc ==> t.procs[q] == s.procs[q]
    requires var p := s.devices[k].proc;
             p < |t.procs| && t.procs[p].id == s.procs[p].id && t.procs[p].adder == s.procs[p].adder
             && t.procs[p].freed == s.procs[p].freed && ProcInv(t, p)
    requires DeviceInv(t, k)
    ensures Inv(t)
  {
    LinksUpdate(s.devices, k, t.devices[k]);
    var p := s.devices[k].proc;
    assert DeviceInv(s, k);
    forall q | 0 <= q < |t.procs| ensures ProcInv(t, q) {
      assert ProcInv(s, q);
    }
    forall j | 0 <= j < |t.devices| ensures DeviceInv(t, j) {
      assert DeviceInv(s, j);
    }
  }

  lemma RemovalKeeps(s: Life, e: LifeEvent)
    requires Inv(s) && Guard(s, e) && (e.Unlink? || e.Unmap? || e.Signal? || e.CheckEmpty?)
    ensures Inv(Next(s, e))
  {
    assert DeviceInv(s, e.k);
    assert ProcInv(s, s.devices[e.k].proc);
    StageChanges(s, Next(s, e), e.k);
  }

  lemma CleanerKeeps(s: Life, e: LifeEvent)
    requires Inv(s) && Guard(s, e) && (e.CleanupCounts? || e.CleanupResets? || e.CleanupWakes?)
    ensures Inv(Next(s, e))
  {
    FlagsChange(s, Next(s, e)) by {
      forall j | 0 <= j < |s.devices| ensures DeviceInv(Next(s, e), j) {
        assert DeviceInv(s, j);
      }
    }
  }

  lemma StepKeeps(s: Life, e: LifeEvent)
    requires Inv(s) && Guard(s, e)
    ensures Inv(Next(s, e))
  {
    match e
    case Create(id) => CreateKeeps(s, id);
    case Reserve(_) => AdderKeeps(s, e);
    case CheckUnique(_) => AdderKeeps(s, e);
    case RegisterFails(_) => AdderKeeps(s, e);
    case Register(p) => RegisterKeeps(s, p);
    case RollBack(p) => RollBackKeeps(s, p);
    case EjectRequest(h) => EjectRequestIsHarmless(s, h);
    case PnpRequest(k, minor) => PnpKeeps(s, k, minor);
    case ReportRelations => AllFlagsKeep(s, e);
    case CleanupEjects => AllFlagsKeep(s, e);
    case Unlink(_) => RemovalKeeps(s, e);
    case Unmap(_) => RemovalKeeps(s, e);
    case Signal(_) => RemovalKeeps(s, e);
    case CheckEmpty(_) => RemovalKeeps(s, e);
    case WorkerWakes(_) => WorkerKeeps(s, e);
    case WorkerFrees(_) => WorkerKeeps(s, e);
    case CleanupCounts => CleanerKeeps(s, e);
    case CleanupResets => CleanerKeeps(s, e);
    case CleanupWakes => CleanerKeeps(s, e);
  }

  lemma {:induction false} Reachable(es: seq<LifeEvent>)
    requires Legal(es)
    ensures Inv(Final(es))
  {
    if es != [] {
      Reachable(es[..|es| - 1]);
      StepKeeps(Final(es[..|es| - 1]), es[|es| - 1]);
    }
  }

  // ---- ids ----

  /** In every run, however the AddDisk calls interleave: linked devices have different handles and each handle is a
      key of the service's map, held by the device's own processor. */
  lemma LinkedHandlesAreUnique(es: seq<LifeEvent>, j: nat, k: nat)
    requires Legal(es) && j < |Final(es).devices| && k < |Final(es).devices| && j != k
    requires Final(es).devices[j].stage.Linked? && Final(es).devices[k].stage.Linked?
    ensures var s := Final(es);
            s.devices[j].handle != s.devices[k].handle
            && s.devices[j].handle in s.idMap && s.idMap[s.devices[j].handle] == s.devices[j].proc
  {
    Reachable(es);
    var s := Final(es);
    assert DeviceInv(s, j) && DeviceInv(s, k);
    assert ProcInv(s, s.devices[j].proc) && ProcInv(s, s.devices[k].proc);
  }

  /** The driver's check, on any state: the call is refused exactly if a listed device has the id and is not waiting for
      its removal after a surprise. A refused call takes its id back and its processor with it. */
  lemma CheckIsExact(s: Life, p: nat)
    requires Inv(s) && Guard(s, CheckUnique(p))
    ensures var t := Next(s, CheckUnique(p)); var clash := exists k ::
              0 <= k < |s.devices| && s.devices[k].stage.Linked? && s.devices[k].handle == s.procs[p].id
              && s.devices[k].flags.state != SurpriseRemovePending;
            && t.procs[p].adder == (if clash then Refused else Unique)
            && (clash ==> Guard(t, RollBack(p)) && Next(t, RollBack(p)).procs[p].freed && s.procs[p].id !in Next(t, RollBack(p)).idMap)
  {
    StepKeeps(s, CheckUnique(p));
    assert ProcInv(Next(s, CheckUnique(p)), p);
  }

  /** The map alone excludes duplicates: the driver's own uniqueness check never refuses a call of the service. */
  lemma UniquenessCheckNeverRefuses(es: seq<LifeEvent>, p: nat)
    requires Legal(es) && Guard(Final(es), CheckUnique(p))
    ensures !Taken(Final(es).devices, Final(es).procs[p].id)
  {
    Reachable(es);
    var s := Final(es);
    assert ProcInv(s, p);
    forall k | 0 <= k < |s.devices| && s.devices[k].stage.Linked? ensures s.devices[k].handle != s.procs[p].id {
      assert DeviceInv(s, k);
      assert ProcInv(s, s.devices[k].proc);
    }
  }

  // ---- the removal signal and the transfer buffer ----

  /** The signal is never lost and never early; the buffer of a registered disk is freed only after the driver has
      unlinked the device, unmapped the buffer and said so. */
  lemma SignalAndBuffer(es: seq<LifeEvent>, k: nat)
    requires Legal(es) && k < |Final(es).devices|
    ensures var s := Final(es); var d := s.devices[k];
            && d.proc < |s.procs|
            && var proc := s.procs[d.proc];
            && (proc.removeEvent || proc.exiting || proc.freed <==> Announced(d.stage))
            && (proc.freed ==> !Mapped(d.stage) && d.flags.state == Deleted)
            && !(proc.removeEvent && proc.exiting && !proc.freed)
  {
    Reachable(es);
    var s := Final(es);
    assert DeviceInv(s, k);
    assert ProcInv(s, s.devices[k].proc);
  }

  /** The last step of a worker deletes its own processor and makes its id free again, and touches no other. */
  lemma FinalRemovalIsExact(s: Life, p: nat)
    requires Inv(s) && Guard(s, WorkerFrees(p))
    ensures var t := Next(s, WorkerFrees(p));
            && |t.procs| == |s.procs| && t.procs[p] == s.procs[p].(freed := true) && t.devices == s.devices
            && (forall q :: 0 <= q < |s.procs| && q != p ==> t.procs[q] == s.procs[q])
            && s.procs[p].id !in t.idMap
            && forall h :: h != s.procs[p].id ==> (h in t.idMap <==> h in s.idMap) && (h in s.idMap ==> t.idMap[h] == s.idMap[h])
  {
    assert ProcInv(s, p);
  }

  /** NumPDOs is the length of the list in every run. */
  lemma PdoAccounting(es: seq<LifeEvent>)
    requires Legal(es)
    ensures Final(es).numPdos == Links(Final(es).devices)
  {
    Reachable(es);
  }

  // ---- removal safety ----

  predicate Present(s: Life, k: nat) {
    k < |s.devices| && s.devices[k].flags.present
  }

  predicate Missing(s: Life, k: nat) {
    k < |s.devices| && s.devices[k].flags.reportedMissing
  }

  /** The step ejects device `k`. */
  predicate Ejects(s: Life, e: LifeEvent, k: nat)
    requires k < |s.devices|
  {
    s.devices[k].stage.Linked? && (e == PnpRequest(k, Eject) || e.CleanupEjects?)
  }

  /** The step reports the relations and omits device `k`. */
  predicate Omits(s: Life, e: LifeEvent, k: nat)
    requires k < |s.devices|
  {
    s.devices[k].stage.Linked? && e.ReportRelations? && !Present(s, k)
  }

  /** Most steps change no flag of a device. */
  lemma FlagsUnchanged(s: Life, e: LifeEvent, k: nat)
    requires Guard(s, e) && k < |s.devices|
    requires !(e.PnpRequest? || e.ReportRelations? || e.Unlink? || e.CleanupEjects?)
    ensures k < |Next(s, e).devices| && Next(s, e).devices[k].flags == s.devices[k].flags
  {
  }

  lemma RequestFlags(s: Life, e: LifeEvent, k: nat)
    requires Guard(s, e) && k < |s.devices| && (e.PnpRequest? || e.Unlink?)
    ensures k < |Next(s, e).devices|
    ensures Present(Next(s, e), k) <==> Present(s, k) && !Ejects(s, e, k)
    ensures Missing(s, k) <==> Missing(Next(s, e), k)
  {
    assert k != e.k ==> Next(s, e).devices[k] == s.devices[k];
  }

  lemma ReportFlags(s: Life, e: LifeEvent, k: nat)
    requires Guard(s, e) && k < |s.devices| && (e.ReportRelations? || e.CleanupEjects?)
    ensures k < |Next(s, e).devices|
    ensures Present(Next(s, e), k) <==> Present(s, k) && !Ejects(s, e, k)
    ensures Missing(Next(s, e), k) <==> Missing(s, k) || Omits(s, e, k)
  {
  }

  /** Present goes away exactly by an eject and never returns; ReportedMissing comes exactly by a report that omits the
      device and never goes away. */
  lemma StepFlags(s: Life, e: LifeEvent, k: nat)
    requires Guard(s, e) && k < |s.devices|
    ensures k < |Next(s, e).devices|
    ensures Present(Next(s, e), k) <==> Present(s, k) && !Ejects(s, e, k)
    ensures Missing(Next(s, e), k) <==> Missing(s, k) || Omits(s, e, k)
  {
    if e.PnpRequest? || e.Unlink? {
      RequestFlags(s, e, k);
    } else if e.ReportRelations? || e.CleanupEjects? {
      ReportFlags(s, e, k);
    } else {
      FlagsUnchanged(s, e, k);
    }
  }

  /** A new device is present and not missing. */
  lemma NewDeviceFlags(s: Life, e: LifeEvent, k: nat)
    requires Guard(s, e) && k < |Next(s, e).devices|
    ensures !Present(Next(s, e), k) || Missing(Next(s, e), k) ==> k < |s.devices|
  {
  }

  predicate Prefix(es: seq<LifeEvent>, n: nat) {
    n <= |es| && Legal(es[..n])
  }

  lemma {:induction false} PrefixesAreLegal(es: seq<LifeEvent>, n: nat)
    requires Legal(es) && n <= |es|
    ensures Prefix(es, n)
    decreases |es|
  {
    if n < |es| {
      var before := es[..|es| - 1];
      PrefixesAreLegal(before, n);
      assert before[..n] == es[..n];
    } else {
      assert es[..n] == es;
    }
  }

  /** At step `a` of the run device `k` stops being present. */
  predicate LeavesAt(es: seq<LifeEvent>, a: nat, k: nat) {
    Prefix(es, a) && Prefix(es, a + 1) && Present(Final(es[..a]), k) && !Present(Final(es[..a + 1]), k)
  }

  /** Step `b` of the run is a report that omits device `k`. */
  predicate OmittedAt(es: seq<LifeEvent>, b: nat, k: nat) {
    b < |es| && es[b].ReportRelations? && Prefix(es, b) && k < |Final(es[..b]).devices| && !Present(Final(es[..b]), k)
  }

  lemma {:induction false} AbsentHasLeft(es: seq<LifeEvent>, k: nat) returns (a: nat)
    requires Legal(es) && k < |Final(es).devices| && !Present(Final(es), k)
    ensures a < |es| && LeavesAt(es, a, k)
  {
    var n := |es| - 1;
    var before := es[..n];
    assert es[..n + 1] == es;
    Reachable(before);
    NewDeviceFlags(Final(before), es[n], k);
    if Present(Final(before), k) {
      a := n;
    } else {
      a := AbsentHasLeft(before, k);
      assert before[..a] == es[..a] && before[..a + 1] == es[..a + 1];
    }
  }

  lemma {:induction false} MissingWasOmitted(es: seq<LifeEvent>, k: nat) returns (b: nat)
    requires Legal(es) && Missing(Final(es), k)
    ensures b < |es| && OmittedAt(es, b, k)
  {
    var n := |es| - 1;
    var before := es[..n];
    var s := Final(before);
    Reachable(before);
    NewDeviceFlags(s, es[n], k);
    StepFlags(s, es[n], k);
    if Missing(s, k) {
      b := MissingWasOmitted(before, k);
      assert before[..b] == es[..b];
    } else {
      b := n;
    }
  }

  /** Removal safety: whenever a device may be unlinked and destroyed, it stopped being present at an earlier step,
      a bus-relations report after that omitted it, and it has not been present since. */
  lemma RemovalIsOrdered(es: seq<LifeEvent>, k: nat) returns (a: nat, b: nat)
    requires Legal(es) && Guard(Final(es), Unlink(k))
    ensures a < b < |es| && LeavesAt(es, a, k) && OmittedAt(es, b, k) && !Present(Final(es), k)
  {
    Reachable(es);
    assert DeviceInv(Final(es), k);
    b := MissingWasOmitted(es, k);
    a := AbsentHasLeft(es[..b], k);
    assert es[..b][..a] == es[..a] && es[..b][..a + 1] == es[..a + 1];
  }

  // ---- the release of Bus_FDO_Cleanup ----

  /** Some removal has still to look at NumPDOs, or some disk is still linked. */
  predicate ReleaseOwed(s: Life) {
    s.numPdos > 0 || exists k :: 0 <= k < |s.devices| && Removing(s.devices[k].stage)
  }

  predicate Removing(stage: Stage) {
    stage.Unlinked? || stage.Unmapped? || stage.Signaled?
  }

  predicate CleanupPending(s: Life) {
    s.cleaner.Cleared? || s.cleaner.WaitingForEmpty?
  }

  /** After the reset, every step keeps the event set or the release owed. */
  lemma ReleaseStaysOwed(s: Life, e: LifeEvent)
    requires Inv(s) && Guard(s, e) && CleanupPending(s) && (s.cleanupReady || ReleaseOwed(s))
    ensures Next(s, e).cleanupReady || ReleaseOwed(Next(s, e))
  {
    var t := Next(s, e);
    if !s.cleanupReady && e.Unlink? {
      assert Removing(t.devices[e.k].stage);
    } else if !s.cleanupReady && s.numPdos <= 0 {
      var k :| 0 <= k < |s.devices| && Removing(s.devices[k].stage);
      assert k < |t.devices|;
      if e.Unmap? || e.Signal? {
        assert e.k == k ==> Removing(t.devices[k].stage);
      }
      assert t.cleanupReady || Removing(t.devices[k].stage);
    }
  }

  /** Without anything owed, the reset has erased the last signal: no step but a new registration helps. */
  lemma LostReleaseStaysLost(s: Life, e: LifeEvent)
    requires Inv(s) && Guard(s, e) && CleanupPending(s) && !s.cleanupReady && !ReleaseOwed(s) && !e.Register?
    ensures var t := Next(s, e); CleanupPending(t) && !t.cleanupReady && !ReleaseOwed(t)
  {
    var t := Next(s, e);
    if e.Unlink? {
      LinkedIsCounted(s.devices, e.k);
    }
    forall k | 0 <= k < |t.devices| ensures !Removing(t.devices[k].stage) {
      assert !Removing(s.devices[k].stage);
    }
  }

  /** A run of steps after the reset, without new registrations. */
  predicate Continues(s: Life, es: seq<LifeEvent>)
    decreases |es|
  {
    es == [] || (Guard(s, es[0]) && !es[0].Register? && !es[0].CleanupWakes? && Continues(Next(s, es[0]), es[1..]))
  }

  function EndOf(s: Life, es: seq<LifeEvent>): Life
    requires Continues(s, es)
    decreases |es|
  {
    if es == [] then s else EndOf(Next(s, es[0]), es[1..])
  }

  lemma {:induction false} ReleaseCarries(s: Life, es: seq<LifeEvent>)
    requires Inv(s) && (s.cleanupReady || ReleaseOwed(s)) && Continues(s, es) && CleanupPending(s)
    ensures EndOf(s, es).cleanupReady || ReleaseOwed(EndOf(s, es))
    decreases |es|
  {
    if es != [] {
      StepKeeps(s, es[0]);
      ReleaseStaysOwed(s, es[0]);
      ReleaseCarries(Next(s, es[0]), es[1..]);
    }
  }

  /** The exact condition for Bus_FDO_Cleanup to be released by removals. The call resets its event after counting
      disks without holding the mutex. If at the reset a disk is linked or a removal has not yet looked at NumPDOs,
      then ever after the event is set or still owed; if not, it is never set again and the call can not return
      until another disk is registered. */
  lemma {:induction false} ReleaseIsExact(s: Life, es: seq<LifeEvent>)
    requires Inv(s) && CleanupPending(s) && !s.cleanupReady && Continues(s, es)
    ensures ReleaseOwed(s) ==> EndOf(s, es).cleanupReady || ReleaseOwed(EndOf(s, es))
    ensures !ReleaseOwed(s) ==> CleanupPending(EndOf(s, es)) && !EndOf(s, es).cleanupReady && !ReleaseOwed(EndOf(s, es))
    decreases |es|
  {
    if es != [] {
      var t := Next(s, es[0]);
      StepKeeps(s, es[0]);
      if ReleaseOwed(s) {
        ReleaseStaysOwed(s, es[0]);
        ReleaseCarries(t, es[1..]);
      } else {
        LostReleaseStaysLost(s, es[0]);
        ReleaseIsExact(t, es[1..]);
      }
    }
  }

  // ---- the release is not early ----

  predicate NoneLinked(s: Life) {
    forall k :: 0 <= k < |s.devices| ==> !s.devices[k].stage.Linked?
  }

  lemma {:induction false} NoLinksMeansNone(devices: seq<Device>)
    ensures Links(devices) == 0 <==> forall k :: 0 <= k < |devices| ==> !devices[k].stage.Linked?
  {
    if devices != [] {
      NoLinksMeansNone(devices[..|devices| - 1]);
    }
  }

  /** The count of Bus_FDO_Cleanup lets the call return at once exactly if no device is linked. */
  lemma CountIsExact(s: Life)
    requires Inv(s) && Guard(s, CleanupCounts)
    ensures Next(s, CleanupCounts).cleaner.Released? <==> NoneLinked(s)
    ensures Next(s, CleanupCounts).cleaner.Counted? <==> !NoneLinked(s)
  {
    NoLinksMeansNone(s.devices);
  }

  /** Only a removal that finds nothing linked sets the event. */
  lemma SetWhenEmpty(s: Life, e: LifeEvent)
    requires Inv(s) && Guard(s, e) && !s.cleanupReady && Next(s, e).cleanupReady
    ensures e.CheckEmpty? && NoneLinked(s)
  {
    NoLinksMeansNone(s.devices);
  }

  /** Every step of Bus_FDO_Cleanup brings it on: a count that found disks is followed by a reset that clears the event, by
      the ejection after which no listed device is present, and, once the event is set, by its return. */
  lemma CleanerAdvances(s: Life, e: LifeEvent)
    requires Guard(s, e)
    ensures var t := Next(s, e);
            && (e.CleanupResets? ==> t.cleaner.Cleared? && !t.cleanupReady)
            && (e.CleanupEjects? ==> t.cleaner.WaitingForEmpty?
                                     && forall k :: 0 <= k < |t.devices| && t.devices[k].stage.Linked? ==> !Present(t, k))
            && (e.CleanupWakes? ==> t.cleaner.Released?)
  {
  }

  /** After `m` steps, later than step `r`, no device is linked. */
  predicate EmptyAfter(es: seq<LifeEvent>, r: nat, m: nat) {
    r < m <= |es| && Prefix(es, m) && NoneLinked(Final(es[..m]))
  }

  /** Step `r` is the last reset of the event. */
  predicate LastReset(es: seq<LifeEvent>, r: nat) {
    r < |es| && es[r].CleanupResets? && forall j :: r < j < |es| ==> !es[j].CleanupResets?
  }

  /** If the event is set after a reset, then at some step since that reset no device was linked. */
  lemma {:induction false} ReleaseIsNotEarly(es: seq<LifeEvent>, r: nat) returns (m: nat)
    requires Legal(es) && LastReset(es, r) && Final(es).cleanupReady
    ensures EmptyAfter(es, r, m)
    decreases |es|
  {
    var n := |es| - 1;
    var before := es[..n];
    Reachable(before);
    CleanerAdvances(Final(before), es[n]);
    assert r < n;
    if Final(before).cleanupReady {
      m := ReleaseIsNotEarly(before, r);
      assert before[..m] == es[..m];
    } else {
      SetWhenEmpty(Final(before), es[n]);
      m := n;
    }
  }

  /** How Bus_FDO_Cleanup comes to wait and to return. */
  lemma CleanerStep(s: Life, e: LifeEvent)
    requires Guard(s, e)
    ensures CleanupPending(Next(s, e)) && !e.CleanupResets? ==> CleanupPending(s)
    ensures Next(s, e).cleaner.Released? && !s.cleaner.Released? ==> e.CleanupCounts? || (CleanupPending(s) && s.cleanupReady)
  {
  }

  lemma {:induction false} ResetBefore(es: seq<LifeEvent>) returns (r: nat)
    requires Legal(es) && CleanupPending(Final(es))
    ensures LastReset(es, r)
    decreases |es|
  {
    var n := |es| - 1;
    CleanerStep(Final(es[..n]), es[n]);
    if es[n].CleanupResets? {
      r := n;
    } else {
      r := ResetBefore(es[..n]);
    }
  }

  /** Whenever Bus_FDO_Cleanup has returned, at some step of the run no device was linked; after its reset, if it waited. */
  lemma {:induction false} CleanupWaitsForEmpty(es: seq<LifeEvent>) returns (m: nat)
    requires Legal(es) && Final(es).cleaner.Released?
    ensures m <= |es| && Prefix(es, m) && NoneLinked(Final(es[..m]))
    decreases |es|
  {
    var n := |es| - 1;
    var before := es[..n];
    Reachable(before);
    CleanerStep(Final(before), es[n]);
    if Final(before).cleaner.Released? {
      m := CleanupWaitsForEmpty(before);
      assert before[..m] == es[..m];
    } else if es[n].CleanupCounts? {
      CountIsExact(Final(before));
      m := n;
    } else {
      var r := ResetBefore(before);
      m := ReleaseIsNotEarly(before, r);
      assert before[..m] == es[..m];
    }
  }

  // ---- a run in which the release is lost ----

  predicate EndsIn(es: seq<LifeEvent>, s: Life) {
    Legal(es) && Final(es) == s
  }

  lemma Extend(es: seq<LifeEvent>, s: Life, e: LifeEvent) returns (more: seq<LifeEvent>)
    requires EndsIn(es, s) && Guard(s, e)
    ensures more == es + [e] && EndsIn(more, Next(s, e))
  {
    more := es + [e];
    assert more[..|more| - 1] == es;
  }

  /** One disk `id` in the system. */
  function OneDisk(id: nat, removeEvent: bool, flags: Flags, stage: Stage, ready: bool, cleaner: Cleaner): Life {
    Life(map[id := 0], [Proc(id, Registered(0), removeEvent, false, false)], [Device(id, 0, flags, stage)],
         if stage.Linked? then 1 else 0, ready, cleaner)
  }

  /** One processor, not registered yet. */
  function OneProc(id: nat, idMap: map<nat, nat>, adder: Adder): Life {
    Life(idMap, [Proc(id, adder, false, false, false)], [], 0, false, Away)
  }

  lemma NewProc(id: nat)
    ensures Next(Init(), Create(id)) == OneProc(id, map[], Created)
  {
    assert Init().procs + [Proc(id, Created, false, false, false)] == [Proc(id, Created, false, false, false)];
  }

  lemma NewId(id: nat)
    ensures Guard(OneProc(id, map[], Created), Reserve(0))
    ensures Next(OneProc(id, map[], Created), Reserve(0)) == OneProc(id, map[id := 0], Reserved)
  {
    var s := OneProc(id, map[], Created);
    assert s.procs[0 := s.procs[0].(adder := Reserved)] == [Proc(id, Reserved, false, false, false)];
  }

  lemma OneDiskReserved(id: nat) returns (es: seq<LifeEvent>)
    ensures EndsIn(es, OneProc(id, map[id := 0], Reserved))
  {
    NewProc(id);
    NewId(id);
    var start: seq<LifeEvent> := [];
    es := Extend(start, Init(), Create(id));
    es := Extend(es, OneProc(id, map[], Created), Reserve(0));
  }

  lemma OneDiskRegistered(id: nat) returns (es: seq<LifeEvent>)
    ensures EndsIn(es, OneDisk(id, false, FRESH, Linked, false, Away))
  {
    es := OneDiskReserved(id);
    var s := OneProc(id, map[id := 0], Reserved);
    assert !Taken(s.devices, id);
    es := Extend(es, s, CheckUnique(0));
    s := OneProc(id, map[id := 0], Unique);
    assert EndsIn(es, s);
    es := Extend(es, s, Register(0));
  }

  const EJECTED: Flags := Flags(false, false, false, NotStarted, NotStarted)
  const OMITTED: Flags := Flags(false, true, false, NotStarted, NotStarted)

  /** The disk is ejected and reported; a cleanup has counted it but not yet reset its event. */
  lemma OneDiskOmitted(id: nat) returns (es: seq<LifeEvent>)
    ensures EndsIn(es, OneDisk(id, false, OMITTED, Linked, false, Counted))
  {
    es := OneDiskRegistered(id);
    var s := OneDisk(id, false, FRESH, Linked, false, Away);
    es := Extend(es, s, PnpRequest(0, Eject));
    s := OneDisk(id, false, EJECTED, Linked, false, Away);
    assert EndsIn(es, s);
    es := Extend(es, s, ReportRelations);
    var t := OneDisk(id, false, OMITTED, Linked, false, Away);
    assert Next(s, ReportRelations).devices == t.devices;
    assert EndsIn(es, t);
    es := Extend(es, t, CleanupCounts);
  }

  lemma OneDiskUnmapped(id: nat) returns (es: seq<LifeEvent>)
    ensures EndsIn(es, OneDisk(id, false, OnPnp(OMITTED, RemoveDevice), Unmapped, false, Counted))
  {
    es := OneDiskOmitted(id);
    var s := OneDisk(id, false, OMITTED, Linked, false, Counted);
    es := Extend(es, s, Unlink(0));
    s := OneDisk(id, false, OnPnp(OMITTED, RemoveDevice), Unlinked, false, Counted);
    assert EndsIn(es, s);
    es := Extend(es, s, Unmap(0));
  }

  lemma OneDiskChecked(id: nat) returns (es: seq<LifeEvent>)
    ensures EndsIn(es, OneDisk(id, true, OnPnp(OMITTED, RemoveDevice), Checked, true, Counted))
  {
    var gone := OnPnp(OMITTED, RemoveDevice);
    es := OneDiskUnmapped(id);
    es := Extend(es, OneDisk(id, false, gone, Unmapped, false, Counted), Signal(0));
    var s := OneDisk(id, true, gone, Signaled, false, Counted);
    assert EndsIn(es, s);
    es := Extend(es, s, CheckEmpty(0));
  }

  /** The last removal sets the event between the count and the reset of Bus_FDO_Cleanup: the call then waits with
      nothing owed to it. */
  lemma ReleaseCanBeLost(id: nat) returns (es: seq<LifeEvent>)
    ensures Legal(es) && CleanupPending(Final(es)) && !Final(es).cleanupReady && !ReleaseOwed(Final(es))
  {
    es := OneDiskChecked(id);
    var s := OneDisk(id, true, OnPnp(OMITTED, RemoveDevice), Checked, true, Counted);
    es := Extend(es, s, CleanupResets);
    es := Extend(es, s.(cleaner := Cleared, cleanupReady := false), CleanupEjects);
  }
}
