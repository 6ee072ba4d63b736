/** The bus driver with each routine run as a whole: its disks in list order, the request queue and what it has
    completed. The routines of module BusEnum are proved against these functions. */
module Driver {
  import opened Base
  import opened Packets

  datatype Bus = Bus(pdos: seq<Pdo>, parked: seq<Fetcher>, answered: seq<Answer>, completed: seq<Completion>)

  datatype Verdict = Ok | NoSuchDevice | InvalidParameter

  predicate AllSound(pdos: seq<Pdo>) {
    forall i :: 0 <= i < |pdos| ==> Sound(pdos[i])
  }

  function Answers(effect: Effect): seq<Answer> {
    if effect.answer.Some? then [effect.answer.value] else []
  }

  function Take(bus: Bus, i: nat, effect: Effect): Bus
    requires i < |bus.pdos|
  {
    bus.(pdos := bus.pdos[i := effect.pdo], parked := effect.parked, answered := bus.answered + Answers(effect))
  }

  /** BusStartPacket. */
  function Start(bus: Bus, i: nat, irp: Irp): Bus
    requires i < |bus.pdos| && Sound(bus.pdos[i]) && Fits(irp)
  {
    Take(bus, i, StartPacket(bus.pdos[i], bus.parked, irp))
  }

  /** BusStartNextPacket. */
  function StartNextOn(bus: Bus, i: nat): Bus
    requires i < |bus.pdos| && Sound(bus.pdos[i])
  {
    Take(bus, i, StartNext(bus.pdos[i], bus.parked))
  }

  lemma StartNextOnIsSound(bus: Bus, i: nat)
    requires AllSound(bus.pdos) && i < |bus.pdos|
    ensures AllSound(StartNextOn(bus, i).pdos)
  {
  }

  /** The loop of GET_REQUEST over the disks from `k` on. */
  function Scan(bus: Bus, k: nat): (r: Bus)
    requires k <= |bus.pdos| && AllSound(bus.pdos)
    ensures |r.pdos| == |bus.pdos| && AllSound(r.pdos)
    decreases |bus.pdos| - k
  {
    if k == |bus.pdos| then bus
    else
      StartNextOnIsSound(bus, k);
      Scan(StartNextOn(bus, k), k + 1)
  }

  /** GET_REQUEST: park the packet, then start the next operation on every disk. */
  function GetRequest(bus: Bus, fetcher: Fetcher): Bus
    requires AllSound(bus.pdos)
  {
    Scan(bus.(parked := Insert(bus.parked, fetcher)), 0)
  }

  /** The first disk with this handle, from `k` on. */
  function FindPdo(pdos: seq<Pdo>, handle: nat, k: nat): (r: Option<nat>)
    requires k <= |pdos|
    ensures r.Some? ==> k <= r.value < |pdos| && pdos[r.value].serialNo == handle
                        && forall j :: k <= j < r.value ==> pdos[j].serialNo != handle
    ensures r.None? ==> forall j :: k <= j < |pdos| ==> pdos[j].serialNo != handle
    decreases |pdos| - k
  {
    if k == |pdos| then None
    else if pdos[k].serialNo == handle then Some(k)
    else FindPdo(pdos, handle, k + 1)
  }

  /** The section of Bus_ProcessReply on disk `i`. */
  function Finish(bus: Bus, i: nat, reply: Reply): Bus
    requires i < |bus.pdos| && Sound(bus.pdos[i]) && ReplyFits(bus.pdos[i], reply)
  {
    var c := Finished(bus.pdos[i], reply);
    bus.(pdos := bus.pdos[i := Released(bus.pdos[i])], completed := bus.completed + if c.Some? then [c.value] else [])
  }

  predicate ReplyInBounds(bus: Bus, reply: Reply) {
    var found := FindPdo(bus.pdos, reply.handle, 0);
    found.Some? ==> ReplyFits(bus.pdos[found.value], reply)
  }

  /** SEND_REPLY: complete the current packet of the named disk, then start its next one. */
  function SendReply(bus: Bus, reply: Reply): (Bus, Verdict)
    requires AllSound(bus.pdos) && ReplyInBounds(bus, reply)
  {
    if bus.pdos == [] then (bus, NoSuchDevice)
    else
      var found := FindPdo(bus.pdos, reply.handle, 0);
      if found.None? then (bus, InvalidParameter)
      else
        var i := found.value;
        var finished := Finish(bus, i, reply);
        (if bus.pdos[i].current.None? then finished else StartNextOn(finished, i), Ok)
  }

  /** Disk `i` is the first with this handle. */
  predicate FirstWith(pdos: seq<Pdo>, handle: nat, i: nat) {
    i < |pdos| && pdos[i].serialNo == handle && forall j :: 0 <= j < i ==> pdos[j].serialNo != handle
  }

  /** A reply to disk `i` led from `bus` to `after`: an idle disk and everything else stays as it was, and of a busy disk
      the current packet, that one only, is completed as the reply says. */
  predicate CompletesCurrent(bus: Bus, after: Bus, i: nat, reply: Reply) {
    && i < |bus.pdos|
    && if bus.pdos[i].current.None? then after == bus
       else
         && |after.completed| == |bus.completed| + 1 && after.completed[..|bus.completed|] == bus.completed
         && Fits(bus.pdos[i].current.value)
         && CompletesBy(after.completed[|bus.completed|], bus.pdos[i].current.value, bus.pdos[i].buffer, reply)
  }

  /** SEND_REPLY in full. The verdict: no such device exactly if the list is empty, an invalid parameter exactly if it is
      not but has no disk with the handle, success otherwise. A refusal changes nothing; a reply to a busy disk completes
      its current packet. */
  lemma ReplyIsExact(bus: Bus, reply: Reply) returns (i: nat)
    requires AllSound(bus.pdos) && ReplyInBounds(bus, reply)
    ensures var r := SendReply(bus, reply);
            && (r.1.NoSuchDevice? <==> bus.pdos == [])
            && (r.1.InvalidParameter? <==> bus.pdos != [] && forall j :: 0 <= j < |bus.pdos| ==> bus.pdos[j].serialNo != reply.handle)
            && (!r.1.Ok? ==> r.0 == bus)
            && (r.1.Ok? ==> FirstWith(bus.pdos, reply.handle, i) && CompletesCurrent(bus, r.0, i, reply))
  {
    i := 0;
    var found := FindPdo(bus.pdos, reply.handle, 0);
    if found.Some? {
      i := found.value;
      if bus.pdos[i].current.None? {
        assert bus.completed + [] == bus.completed;
        assert Finish(bus, i, reply) == bus;
      }
    }
  }

  /** Bus_DestroyPdo on disk `i`, after it left the list. */
  function Destroy(bus: Bus, i: nat): Bus
    requires i < |bus.pdos|
  {
    bus.(pdos := bus.pdos[..i] + bus.pdos[i + 1..], completed := bus.completed + DestroyCancels(bus.pdos[i]))
  }

  // ---- the scan in closed form ----

  /** An idle disk with work: the disk a fetcher could serve. */
  predicate WaitsForFetcher(pdo: Pdo) {
    pdo.current.None? && pdo.irpQueue != []
  }

  /** With routines run as wholes, no such disk coexists with a parked fetcher. */
  predicate NoIdleWork(bus: Bus) {
    bus.parked != [] ==> forall i :: 0 <= i < |bus.pdos| ==> !WaitsForFetcher(bus.pdos[i])
  }

  function FirstWaiting(pdos: seq<Pdo>, k: nat): (r: Option<nat>)
    requires k <= |pdos|
    ensures r.Some? ==> k <= r.value < |pdos| && WaitsForFetcher(pdos[r.value])
                        && forall j :: k <= j < r.value ==> !WaitsForFetcher(pdos[j])
    ensures r.None? ==> forall j :: k <= j < |pdos| ==> !WaitsForFetcher(pdos[j])
    decreases |pdos| - k
  {
    if k == |pdos| then None
    else if WaitsForFetcher(pdos[k]) then Some(k)
    else FirstWaiting(pdos, k + 1)
  }

  lemma PutBackKeepsFetchers(parked: seq<Fetcher>)
    requires parked != []
    ensures multiset(Insert(Rest(parked), parked[0])) == multiset(parked)
    ensures |Insert(Rest(parked), parked[0])| == |parked|
  {
    assert parked == [parked[0]] + Rest(parked);
  }

  /** How many disks from `k` on are idle. */
  function IdleDisks(pdos: seq<Pdo>, k: nat): nat
    requires k <= |pdos|
    decreases |pdos| - k
  {
    if k == |pdos| then 0 else (if pdos[k].current.None? then 1 else 0) + IdleDisks(pdos, k + 1)
  }

  /** The queue with its head moved to the tail `m` times. */
  function Rotated(parked: seq<Fetcher>, m: nat): seq<Fetcher>
    decreases m
  {
    if m == 0 || parked == [] then parked else Rotated(parked[1..] + [parked[0]], m - 1)
  }

  /** BusStartNextPacket on a disk without work puts back what it takes. */
  lemma IdleStep(bus: Bus, k: nat)
    requires k < |bus.pdos| && Sound(bus.pdos[k]) && !WaitsForFetcher(bus.pdos[k])
    ensures var next := StartNextOn(bus, k);
            && next.pdos == bus.pdos && next.answered == bus.answered && next.completed == bus.completed
            && next.parked == Rotated(bus.parked, if bus.pdos[k].current.None? then 1 else 0)
            && multiset(next.parked) == multiset(bus.parked) && |next.parked| == |bus.parked|
  {
    var next := StartNextOn(bus, k);
    assert next.pdos == bus.pdos && next.answered == bus.answered;
    if bus.parked != [] {
      PutBackKeepsFetchers(bus.parked);
      assert Rotated(bus.parked, 1) == bus.parked[1..] + [bus.parked[0]];
    }
  }

  lemma RotatedOnce(parked: seq<Fetcher>, idle: bool, m: nat)
    ensures Rotated(Rotated(parked, if idle then 1 else 0), m) == Rotated(parked, (if idle then 1 else 0) + m)
  {
    if idle && parked != [] {
      assert Rotated(parked, 1) == Rotated(parked[1..] + [parked[0]], 0);
    }
  }

  /** A scan without a waiting disk only rotates the request queue, once for every idle disk. */
  lemma {:induction false} IdleScan(bus: Bus, k: nat)
    requires k <= |bus.pdos| && AllSound(bus.pdos) && FirstWaiting(bus.pdos, k).None?
    ensures var r := Scan(bus, k);
            && r.pdos == bus.pdos && r.answered == bus.answered && r.completed == bus.completed
            && r.parked == Rotated(bus.parked, IdleDisks(bus.pdos, k))
            && multiset(r.parked) == multiset(bus.parked) && |r.parked| == |bus.parked|
    decreases |bus.pdos| - k
  {
    if k < |bus.pdos| {
      IdleStep(bus, k);
      StartNextOnIsSound(bus, k);
      IdleScan(StartNextOn(bus, k), k + 1);
      RotatedOnce(bus.parked, bus.pdos[k].current.None?, IdleDisks(bus.pdos, k + 1));
    }
  }

  /** A scan without fetchers changes nothing. */
  lemma {:induction false} EmptyScan(bus: Bus, k: nat)
    requires k <= |bus.pdos| && AllSound(bus.pdos) && bus.parked == []
    ensures Scan(bus, k) == bus
    decreases |bus.pdos| - k
  {
    if k < |bus.pdos| {
      assert StartNextOn(bus, k) == bus;
      EmptyScan(bus, k + 1);
    }
  }

  /** What serving the head packet of disk `i` with fetcher `f` makes of the bus. */
  function ServeHead(bus: Bus, i: nat, f: Fetcher): Bus
    requires i < |bus.pdos| && Sound(bus.pdos[i]) && WaitsForFetcher(bus.pdos[i])
  {
    var pdo := bus.pdos[i];
    var irp := pdo.irpQueue[0];
    Bus(bus.pdos[i := Dispatch(pdo.(irpQueue := Rest(pdo.irpQueue)), irp)], [],
        bus.answered + [Answer(f, MakeRequest(pdo.serialNo, irp))], bus.completed)
  }

  /** A scan with one fetcher serves the first waiting disk and nothing else. */
  lemma {:induction false} SingleScan(bus: Bus, k: nat, f: Fetcher)
    requires k <= |bus.pdos| && AllSound(bus.pdos) && bus.parked == [f] && FirstWaiting(bus.pdos, k).Some?
    ensures Scan(bus, k) == ServeHead(bus, FirstWaiting(bus.pdos, k).value, f)
    decreases |bus.pdos| - k
  {
    var next := StartNextOn(bus, k);
    StartNextOnIsSound(bus, k);
    if WaitsForFetcher(bus.pdos[k]) {
      assert next == ServeHead(bus, k, f);
      EmptyScan(next, k + 1);
    } else {
      assert Insert(Rest([f]), f) == [f];
      assert next == bus;
      SingleScan(bus, k + 1, f);
    }
  }

  /** GET_REQUEST in closed form. If a disk waits, no fetcher was parked before, exactly one packet becomes current -
      the head of the first waiting disk in list order - and the new fetcher is completed with its request. If none
      waits, only the request queue changes: it holds the old fetchers and the new one, rotated. */
  lemma GetRequestIsExact(bus: Bus, f: Fetcher)
    requires AllSound(bus.pdos) && NoIdleWork(bus)
    ensures var r := GetRequest(bus, f);
            match FirstWaiting(bus.pdos, 0)
            case Some(i) => bus.parked == [] && r == ServeHead(bus, i, f)
            case None => && r.pdos == bus.pdos && r.answered == bus.answered && r.completed == bus.completed
                         && r.parked == Rotated(bus.parked + [f], IdleDisks(bus.pdos, 0))
                         && multiset(r.parked) == multiset(bus.parked) + multiset{f}
    ensures NoIdleWork(GetRequest(bus, f))
  {
    var start := bus.(parked := Insert(bus.parked, f));
    if FirstWaiting(bus.pdos, 0).Some? {
      assert bus.parked == [];
      assert start.parked == [f];
      SingleScan(start, 0, f);
      assert ServeHead(start, FirstWaiting(bus.pdos, 0).value, f) == ServeHead(bus, FirstWaiting(bus.pdos, 0).value, f);
    } else {
      IdleScan(start, 0);
    }
  }
}
