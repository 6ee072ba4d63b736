/** The packet routines of busenum.c on the device extensions, each proved against its function on values. */
module BusEnum {
  import opened Base
  import opened Blocks
  import opened Packets
  import opened Driver
  import opened Extensions

  /** Copies `n` bytes to the front of `target`. */
  method CopyMemory(target: array<Byte>, source: seq<Byte>, n: nat)
    requires n <= target.Length && n <= |source|
    modifies target
    ensures target[..] == Overlay(old(target[..]), source, n)
  {
    forall k | 0 <= k < n {
      target[k] := source[k];
    }
  }

  /** BusSetupRequest. */
  method SetupRequest(pdo: PdoExtension, irp: Irp) returns (request: Request)
    requires Fits(irp) && pdo.buffer.Length == BUFFER_SIZE
    modifies pdo.buffer
    ensures pdo.buffer[..] == Staged(old(pdo.buffer[..]), irp)
    ensures request == MakeRequest(pdo.serialNo, irp)
  {
    var lba := Ulong(irp.cdb[2], irp.cdb[3], irp.cdb[4], irp.cdb[5]);
    var blocks := Ushort(irp.cdb[7], irp.cdb[8]);
    if irp.cdb[0] == SCSIOP_WRITE {
      CopyMemory(pdo.buffer, irp.data, |irp.data|);
    }
    request := Request(pdo.serialNo, irp.cdb[0], lba, blocks);
  }

  /** BusStartPacket. */
  method StartPacketOn(fdo: FdoExtension, pdo: PdoExtension, irp: Irp)
    requires Sound(pdo.Abs()) && Fits(irp)
    modifies fdo`answered, fdo.requestQueue, pdo`currentIrp, pdo`irpQueue, pdo`lockCount, pdo.buffer
    ensures var e := StartPacket(old(pdo.Abs()), old(fdo.requestQueue.items), irp);
            pdo.Abs() == e.pdo && fdo.requestQueue.items == e.parked && fdo.answered == old(fdo.answered) + Answers(e)
  {
    if pdo.currentIrp.None? {
      var fetcher := fdo.requestQueue.RemoveNext(None);
      if fetcher.None? {
        pdo.irpQueue := pdo.irpQueue + [irp];
      } else {
        pdo.lockCount := pdo.lockCount + 1;
        var request := SetupRequest(pdo, irp);
        pdo.currentIrp := Some(irp);
        fdo.answered := fdo.answered + [Answer(fetcher.value, request)];
      }
    } else {
      pdo.irpQueue := pdo.irpQueue + [irp];
    }
  }

  /** BusStartNextPacket. */
  method StartNextPacketOn(fdo: FdoExtension, pdo: PdoExtension)
    requires Sound(pdo.Abs())
    modifies fdo`answered, fdo.requestQueue, pdo`currentIrp, pdo`irpQueue, pdo`lockCount, pdo.buffer
    ensures var e := StartNext(old(pdo.Abs()), old(fdo.requestQueue.items));
            pdo.Abs() == e.pdo && fdo.requestQueue.items == e.parked && fdo.answered == old(fdo.answered) + Answers(e)
  {
    if pdo.currentIrp.None? {
      var fetcher := fdo.requestQueue.RemoveNext(None);
      if fetcher.Some? {
        if pdo.irpQueue != [] {
          var irp := pdo.irpQueue[0];
          pdo.irpQueue := pdo.irpQueue[1..];
          pdo.lockCount := pdo.lockCount + 1;
          var request := SetupRequest(pdo, irp);
          pdo.currentIrp := Some(irp);
          fdo.answered := fdo.answered + [Answer(fetcher.value, request)];
        } else {
          fdo.requestQueue.InsertIrp(fetcher.value);
        }
      }
    }
  }

  /** One round of the loop: BusStartNextPacket on the disk at position `i`. */
  method StartNextAt(fdo: FdoExtension, i: nat)
    requires fdo.Valid() && i < |fdo.pdos|
    modifies fdo`answered, fdo.requestQueue, fdo.pdos[i], fdo.pdos[i].buffer
    ensures fdo.Valid() && AllSound(old(fdo.Abs()).pdos) && AllSound(fdo.Abs().pdos) && fdo.Abs() == StartNextOn(old(fdo.Abs()), i)
  {
    ghost var before := fdo.Abs();
    StartNextPacketOn(fdo, fdo.pdos[i]);
    StartNextOnIsSound(before, i);
    ghost var after := StartNextOn(before, i);
    assert forall j :: 0 <= j < |fdo.pdos| ==> fdo.pdos[j].Abs() == after.pdos[j];
    assert fdo.Pdos() == after.pdos;
  }

  /** The loop of GET_REQUEST: every disk on the list gets a chance. */
  method StartAll(fdo: FdoExtension)
    requires fdo.Valid()
    modifies fdo`answered, fdo.requestQueue, fdo.pdos, fdo.Buffers()
    ensures fdo.Valid() && AllSound(old(fdo.Abs()).pdos) && fdo.Abs() == Scan(old(fdo.Abs()), 0)
  {
    ghost var start := fdo.Abs();
    ghost var now := start;
    var k := 0;
    while k < |fdo.pdos|
      invariant k <= |fdo.pdos| && fdo.pdos == old(fdo.pdos)
      invariant fdo.Valid() && now == fdo.Abs() && AllSound(now.pdos) && AllSound(start.pdos)
      invariant Scan(now, k) == Scan(start, 0)
    {
      assert fdo.pdos[k] in old(fdo.pdos) && fdo.pdos[k].buffer in old(fdo.Buffers());
      StartNextAt(fdo, k);
      now := StartNextOn(now, k);
      k := k + 1;
    }
  }

  /** GET_REQUEST: the packet is parked and the disks are scanned. */
  method GetRequestOn(fdo: FdoExtension, fetcher: Fetcher)
    requires fdo.Valid()
    modifies fdo`answered, fdo.requestQueue, fdo.pdos, fdo.Buffers()
    ensures fdo.Valid() && AllSound(old(fdo.Abs()).pdos) && fdo.Abs() == GetRequest(old(fdo.Abs()), fetcher)
  {
    ghost var before := fdo.Abs();
    fdo.requestQueue.InsertIrp(fetcher);
    assert fdo.Abs().pdos == before.pdos;
    StartAll(fdo);
  }

  /** A READ or WRITE packet arriving at the disk at position `i`. */
  method StartPacketAt(fdo: FdoExtension, i: nat, irp: Irp)
    requires fdo.Valid() && i < |fdo.pdos| && Fits(irp)
    modifies fdo`answered, fdo.requestQueue, fdo.pdos[i], fdo.pdos[i].buffer
    ensures fdo.Valid() && fdo.pdos == old(fdo.pdos)
    ensures fdo.Abs() == Start(old(fdo.Abs()), i, irp)
  {
    ghost var before := fdo.Abs();
    StartPacketOn(fdo, fdo.pdos[i], irp);
    ghost var after := Start(before, i, irp);
    assert forall j :: 0 <= j < |fdo.pdos| ==> fdo.pdos[j].Abs() == after.pdos[j];
    assert fdo.Pdos() == after.pdos;
  }

  /** The section of Bus_ProcessReply on the disk at position `i`; false if there was no current packet. */
  method FinishAt(fdo: FdoExtension, i: nat, reply: Reply) returns (completed: bool)
    requires fdo.Valid() && i < |fdo.pdos| && ReplyFits(fdo.pdos[i].Abs(), reply)
    modifies fdo`completed, fdo.pdos[i]
    ensures fdo.Valid() && completed == old(fdo.pdos[i].currentIrp).Some?
    ensures fdo.Abs() == Finish(old(fdo.Abs()), i, reply)
  {
    ghost var before := fdo.Abs();
    var pdo := fdo.pdos[i];
    var current := pdo.currentIrp;
    pdo.currentIrp := None;
    completed := current.Some?;
    if completed {
      var irp := current.value;
      var data := irp.data;
      if irp.cdb[0] == SCSIOP_READ {
        data := pdo.buffer[..reply.numBytes] + irp.data[reply.numBytes..];
        assert data == Overlay(irp.data, pdo.buffer[..], reply.numBytes);
      }
      fdo.completed := fdo.completed + [Completion(irp.id, if reply.ok then Success else Unsuccessful, reply.numBytes, data)];
      pdo.lockCount := pdo.lockCount - 1;
    }
    ghost var after := Finish(before, i, reply);
    assert forall j :: 0 <= j < |fdo.pdos| ==> fdo.pdos[j].Abs() == after.pdos[j];
    assert fdo.Pdos() == after.pdos;
  }

  /** The scan of Bus_ProcessReply for the replying disk. */
  method FindDisk(fdo: FdoExtension, handle: nat) returns (found: Option<nat>)
    requires fdo.Valid()
    ensures found == FindPdo(fdo.Pdos(), handle, 0)
  {
    var k := 0;
    while k < |fdo.pdos|
      invariant k <= |fdo.pdos|
      invariant FindPdo(fdo.Pdos(), handle, k) == FindPdo(fdo.Pdos(), handle, 0)
    {
      if fdo.pdos[k].serialNo == handle {
        return Some(k);
      }
      k := k + 1;
    }
    return None;
  }

  /** A listed disk with this handle. */
  ghost predicate Listed(fdo: FdoExtension, handle: nat)
    reads fdo, fdo.pdos
  {
    exists i :: 0 <= i < |fdo.pdos| && fdo.pdos[i].serialNo == handle
  }

  /** Bus_ProcessReply: refused without effect if the list is empty or has no disk with the handle, and otherwise
      carried out. */
  method ProcessReply(fdo: FdoExtension, reply: Reply) returns (verdict: Verdict)
    requires fdo.Valid() && ReplyInBounds(fdo.Abs(), reply)
    modifies fdo`answered, fdo`completed, fdo.requestQueue, fdo.pdos, fdo.Buffers()
    ensures fdo.Valid() && AllSound(old(fdo.Abs()).pdos)
    ensures (fdo.Abs(), verdict) == SendReply(old(fdo.Abs()), reply)
    ensures verdict.NoSuchDevice? <==> old(fdo.pdos) == []
    ensures verdict.InvalidParameter? <==> old(fdo.pdos) != [] && !old(Listed(fdo, reply.handle))
    ensures !verdict.Ok? ==> fdo.Abs() == old(fdo.Abs())
    ensures verdict.Ok? ==>
              exists i: nat :: FirstWith(old(fdo.Pdos()), reply.handle, i) && CompletesCurrent(old(fdo.Abs()), fdo.Abs(), i, reply)
  {
    ghost var at := ReplyIsExact(fdo.Abs(), reply);
    if fdo.numPdos == 0 {
      return NoSuchDevice;
    }
    var found := FindDisk(fdo, reply.handle);
    if found.None? {
      return InvalidParameter;
    }
    var completed := FinishAt(fdo, found.value, reply);
    if completed {
      StartNextAt(fdo, found.value);
    }
    return Ok;
  }

  /** The loop of Bus_DestroyPdo: every queued packet is cancelled once, in queue order. */
  method CancelQueue(fdo: FdoExtension, pdo: PdoExtension)
    modifies fdo`completed, pdo`irpQueue
    ensures pdo.irpQueue == [] && fdo.completed == old(fdo.completed) + CancelAll(old(pdo.irpQueue))
    ensures |fdo.completed| == |old(fdo.completed)| + |old(pdo.irpQueue)|
    ensures CancelEach(fdo.completed[|old(fdo.completed)|..], old(pdo.irpQueue))
  {
    ghost var queue, before := pdo.irpQueue, fdo.completed;
    ghost var cancelled: seq<Completion> := [];
    while pdo.irpQueue != []
      invariant |cancelled| + |pdo.irpQueue| == |queue| && pdo.irpQueue == queue[|cancelled|..]
      invariant forall j :: 0 <= j < |cancelled| ==> cancelled[j] == CancelOf(queue[j])
      invariant fdo.completed == before + cancelled
      decreases |pdo.irpQueue|
    {
      var c := CancelOf(pdo.irpQueue[0]);
      assert (before + cancelled) + [c] == before + (cancelled + [c]);
      fdo.completed := fdo.completed + [c];
      pdo.irpQueue := pdo.irpQueue[1..];
      cancelled := cancelled + [c];
    }
    assert cancelled == CancelAll(queue);
    assert fdo.completed[|before|..] == cancelled;
  }

  /** Bus_DestroyPdo: the current packet, then every queued one, is completed as cancelled; the memory is unmapped
      and only then the removal event set. Nothing but this disk and the record of completions changes. */
  method DestroyPdo(fdo: FdoExtension, pdo: PdoExtension)
    requires pdo.lockCount == if pdo.currentIrp.Some? then 1 else 0
    modifies fdo`completed, pdo`currentIrp, pdo`irpQueue, pdo`lockCount, pdo`mapped, pdo.removeEvent
    ensures fdo.completed == old(fdo.completed) + DestroyCancels(old(pdo.Abs()))
    ensures |fdo.completed| >= |old(fdo.completed)|
    ensures CancelEach(fdo.completed[|old(fdo.completed)|..], PacketsOf(old(pdo.Abs())))
    ensures pdo.currentIrp.None? && pdo.irpQueue == [] && pdo.lockCount == 0
    ensures !pdo.mapped && pdo.removeEvent.signaled
  {
    ghost var before, rest := fdo.completed, CancelAll(pdo.irpQueue);
    var current := pdo.currentIrp;
    if current.Some? {
      ghost var head := [CancelOf(current.value)];
      assert (before + head) + rest == before + (head + rest);
      pdo.currentIrp := None;
      fdo.completed := fdo.completed + [CancelOf(current.value)];
      pdo.lockCount := pdo.lockCount - 1;
    } else {
      assert rest == [] + rest;
    }
    CancelQueue(fdo, pdo);
    RemovalCancelsEach(old(pdo.Abs()));
    assert fdo.completed[|before|..] == DestroyCancels(old(pdo.Abs()));
    pdo.mapped := false;
    pdo.removeEvent.signaled := true;
  }
}
