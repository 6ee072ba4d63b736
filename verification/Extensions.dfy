/** The device extensions of the bus and of its disks, as the driver updates them in place. */
module Extensions {
  import opened Base
  import opened Packets
  import opened CancelSafeQueue
  import opened Driver

  datatype PnpState = NotStarted | Started | StopPending | Stopped | RemovePending | SurpriseRemovePending | Deleted

  /** A kernel event. */
  class Event {
    var signaled: bool

    constructor ()
      ensures !signaled
    {
      signaled := false;
    }
  }

  /** The extension of a disk. `buffer` is the memory shared with the service. */
  class PdoExtension {
    const serialNo: nat
    const buffer: array<Byte>
    const removeEvent: Event
    var present: bool
    var reportedMissing: bool
    var claimed: bool
    var pnpState: PnpState
    var previousPnpState: PnpState
    var mapped: bool
    var currentIrp: Option<Irp>
    var irpQueue: seq<Irp>
    var lockCount: int

    /** Bus_InitializePdo, up to the insertion into the list. */
    constructor (serialNo: nat, buffer: array<Byte>, removeEvent: Event)
      ensures this.serialNo == serialNo && this.buffer == buffer && this.removeEvent == removeEvent
      ensures present && !reportedMissing && !claimed && mapped && pnpState == NotStarted && previousPnpState == NotStarted
      ensures Abs() == Pdo(serialNo, None, [], buffer[..], 0)
    {
      this.serialNo, this.buffer, this.removeEvent := serialNo, buffer, removeEvent;
      present, reportedMissing, claimed, mapped := true, false, false, true;
      pnpState, previousPnpState := NotStarted, NotStarted;
      currentIrp, irpQueue, lockCount := None, [], 0;
    }

    ghost function Abs(): Pdo
      reads this, buffer
    {
      Pdo(serialNo, currentIrp, irpQueue, buffer[..], lockCount)
    }
  }

  /** The extension of the bus. `answered` and `completed` record the packets it has completed. */
  class FdoExtension {
    var pdos: seq<PdoExtension>
    var numPdos: nat
    const requestQueue: RequestQueue
    const cleanupReady: Event
    var answered: seq<Answer>
    var completed: seq<Completion>

    constructor ()
      ensures pdos == [] && numPdos == 0 && answered == [] && completed == []
      ensures fresh(requestQueue) && requestQueue.items == [] && !cleanupReady.signaled
    {
      pdos, numPdos, answered, completed := [], 0, [], [];
      requestQueue := new RequestQueue();
      cleanupReady := new Event();
    }

    ghost function Buffers(): set<array<Byte>>
      reads this
    {
      set p | p in pdos :: p.buffer
    }

    /** The list links distinct disks, and NumPDOs counts them. */
    ghost predicate Counted()
      reads this
    {
      numPdos == |pdos| && forall i, j :: 0 <= i < j < |pdos| ==> pdos[i] != pdos[j]
    }

    /** The linked disks are sound, share no transfer buffer, and have removal events other than the bus's own event. */
    ghost predicate Valid()
      reads this, pdos, Buffers()
    {
      && Counted()
      && (forall i, j :: 0 <= i < j < |pdos| ==> pdos[i].buffer != pdos[j].buffer)
      && (forall i :: 0 <= i < |pdos| ==> Sound(pdos[i].Abs()) && pdos[i].removeEvent != cleanupReady)
    }

    ghost function Pdos(): (r: seq<Pdo>)
      reads this, pdos, Buffers()
      ensures |r| == |pdos| && forall i :: 0 <= i < |r| ==> r[i] == pdos[i].Abs()
    {
      seq(|pdos|, i requires 0 <= i < |pdos| reads this, pdos, Buffers() => pdos[i].Abs())
    }

    ghost function Abs(): Bus
      reads this, requestQueue, pdos, Buffers()
    {
      Bus(Pdos(), requestQueue.items, answered, completed)
    }
  }
}
