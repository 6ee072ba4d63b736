/** The service's side of a disk: the mailbox, the storage call of the worker, and the map from ids to processors. The
    methods are tied to the steps of the machines in Pipeline and Lifecycle: what they do to their fields is what the
    steps do to the service's half of the disk. */
module DiskService {
  import opened Base
  import opened Blocks
  import opened Packets
  import opened Extensions
  import P = Pipeline
  import L = Lifecycle

  /** Step `e` of the machine changes disk `i` to one with this buffer and file, and the step Send puts `reply` under way. */
  predicate Round(s: P.Sys, i: nat, e: P.Event, buffer: seq<Byte>, file: seq<Byte>, reply: Reply) {
    && i < |s.disks| && P.Guard(s, e) && P.Defined(s, e)
    && var t := P.Next(s, e);
    && P.Guard(t, P.Send(i)) && P.Next(t, P.Send(i)).disks[i].worker == P.Sent(reply)
    && var d := t.disks[i];
    d.req == s.disks[i].req && d.event == s.disks[i].event && d.pdo.buffer == buffer && d.file == file
  }

  lemma ExecIsRound(s: P.Sys, i: nat)
    requires i < |s.disks| && s.disks[i].worker.Woken?
    requires ValidRequest(s.disks[i].req) && |s.disks[i].pdo.buffer| == BUFFER_SIZE
    ensures var d := s.disks[i]; var r := Serve(d.file, d.pdo.buffer, d.req);
            Round(s, i, P.Exec(i), r.buffer, r.file, Reply(d.req.handle, true, d.req.code, r.numBytes))
  {
  }

  lemma ExecFailIsRound(s: P.Sys, i: nat, buffer: seq<Byte>, file: seq<Byte>, n: nat)
    requires i < |s.disks| && s.disks[i].worker.Woken?
    requires |buffer| == BUFFER_SIZE && n <= Length(s.disks[i].req.blocks, BLOCK_SIZE)
    ensures var d := s.disks[i];
            Round(s, i, P.ExecFail(i, file, buffer, n), buffer, file, Reply(d.req.handle, false, d.req.code, n))
  {
  }

  /** `nBytes` is the worker's local byte count, which it keeps from round to round. `freed`: the object is deleted. */
  class DiskProcessor {
    const diskId: nat
    const buffer: array<Byte>
    const storage: FileStorage
    const removeEvent: Event
    var req: Request
    var event: bool
    var nBytes: nat
    var freed: bool

    constructor (diskId: nat, storage: FileStorage, mailbox: Request)
      ensures this.diskId == diskId && this.storage == storage && req == mailbox && !event && nBytes == 0 && !freed
      ensures fresh(buffer) && buffer[..] == Zeros(BUFFER_SIZE) && fresh(removeEvent) && !removeEvent.signaled
    {
      this.diskId, this.storage, req, event := diskId, storage, mailbox, false;
      nBytes, freed := 0, false;
      buffer := new Byte[BUFFER_SIZE](_ => 0);
      removeEvent := new Event();
    }

    /** The memory is one transfer buffer, and the storage behind it is an initialized file. */
    ghost predicate Valid()
      reads this, storage
    {
      buffer.Length == BUFFER_SIZE && storage.isOpen && storage.blockSize == BLOCK_SIZE
    }

    /** The service's half of disk `d` of the step machine: mailbox, event, shared buffer and file. */
    ghost predicate IsHalfOf(d: P.Disk)
      reads this, buffer, storage
    {
      req == d.req && event == d.event && buffer[..] == d.pdo.buffer && storage.file == d.file
    }

    /** The unlocked hand-over. In state `s` FindDisk has directed the fetch thread with `request` to disk `j`: the
        call is the machine's step Post followed by its step Signal. */
    method ProcessRequest(request: Request, ghost s: P.Sys, ghost j: nat)
      requires s.fetch == P.Directed(request, j) && j < |s.disks| && IsHalfOf(s.disks[j])
      modifies this
      ensures P.Guard(s, P.Post) && P.Guard(P.Next(s, P.Post), P.Signal)
      ensures IsHalfOf(P.Next(P.Next(s, P.Post), P.Signal).disks[j])
      ensures nBytes == old(nBytes) && freed == old(freed)
    {
      req := request;
      event := true;
    }

    /** One round of the worker after its request event: the storage call and the reply. A call that completes is the
        machine's step Exec; one that fails is its step ExecFail with what the call left behind, provided that the
        count it reports, possibly one kept from an earlier round, is within the transfer. The reply is the one that
        its step Send puts under way. */
    method ServeRequest(verdict: Transfer, ghost s: P.Sys, ghost i: nat) returns (reply: Reply)
      requires Valid() && ValidRequest(req)
      requires verdict.TransferFails? ==> |verdict.left| <= Length(req.blocks, BLOCK_SIZE) || req.code == SCSIOP_WRITE
      requires i < |s.disks| && s.disks[i].worker.Woken? && IsHalfOf(s.disks[i])
      modifies storage, buffer, this`nBytes
      ensures Valid() && reply == Reply(req.handle, verdict.Completes?, req.code, nBytes)
      ensures verdict.Completes? ==> Outcome(storage.file, buffer[..], nBytes) == Serve(old(storage.file), old(buffer[..]), req)
      ensures verdict.SeekFails? ==> storage.file == old(storage.file) && buffer[..] == old(buffer[..]) && nBytes == old(nBytes)
      ensures verdict.TransferFails? ==>
                && nBytes == verdict.count
                && if req.code == SCSIOP_READ then
                     storage.file == old(storage.file) && buffer[..] == Overlay(old(buffer[..]), verdict.left, |verdict.left|)
                   else storage.file == verdict.left && buffer[..] == old(buffer[..])
      ensures req == old(req) && event == old(event)
      ensures verdict.Completes? ==> Round(s, i, P.Exec(i), buffer[..], storage.file, reply)
      ensures !verdict.Completes? && nBytes <= Length(req.blocks, BLOCK_SIZE) ==>
                Round(s, i, P.ExecFail(i, storage.file, buffer[..], nBytes), buffer[..], storage.file, reply)
    {
      var ok := false;
      if req.code == SCSIOP_READ {
        ok, nBytes := storage.ReadBlocks(req.lba, req.blocks, buffer, nBytes, verdict);
      } else if req.code == SCSIOP_WRITE {
        ok, nBytes := storage.WriteBlocks(req.lba, req.blocks, buffer, nBytes, verdict);
      }
      reply := Reply(req.handle, ok, req.code, nBytes);
      if ok {
        ExecIsRound(s, i);
      } else if nBytes <= Length(req.blocks, BLOCK_SIZE) {
        ExecFailIsRound(s, i, buffer[..], storage.file, nBytes);
      }
    }
  }

  /** CDiskContainer: one entry per id. */
  class DiskContainer {
    var diskMap: map<nat, DiskProcessor>

    constructor ()
      ensures diskMap == map[]
    {
      diskMap := map[];
    }

    /** The map and the processors `ps` are those of state `s` of the life-cycle machine. */
    ghost predicate Mirrors(s: L.Life, ps: seq<DiskProcessor>)
      reads this, ps
    {
      && |ps| == |s.procs|
      && (forall p, q :: 0 <= p < q < |ps| ==> ps[p] != ps[q])
      && (forall p :: 0 <= p < |ps| ==> ps[p].diskId == s.procs[p].id && ps[p].freed == s.procs[p].freed)
      && (forall h :: h in diskMap <==> h in s.idMap)
      && (forall h :: h in diskMap ==> s.idMap[h] < |ps| && diskMap[h] == ps[s.idMap[h]])
    }

    method AddDisk(diskId: nat, disk: DiskProcessor) returns (inserted: bool)
      modifies this
      ensures inserted <==> diskId !in old(diskMap)
      ensures diskMap == if inserted then old(diskMap)[diskId := disk] else old(diskMap)
    {
      inserted := diskId !in diskMap;
      if inserted {
        diskMap := diskMap[diskId := disk];
      }
    }

    /** Deletes whatever processor the map holds under the id and erases the id. */
    method RemoveDisk(diskId: nat, ghost s: L.Life, ghost ps: seq<DiskProcessor>)
      requires Mirrors(s, ps)
      modifies this, ps
      ensures diskMap == old(diskMap) - {diskId}
      ensures Mirrors(L.Freed(s, diskId), ps)
    {
      var found := FindDisk(diskId);
      if found.Some? {
        found.value.freed := true;
      }
      diskMap := diskMap - {diskId};
    }

    method FindDisk(handle: nat) returns (disk: Option<DiskProcessor>)
      ensures disk == if handle in diskMap then Some(diskMap[handle]) else None
    {
      disk := if handle in diskMap then Some(diskMap[handle]) else None;
    }
  }

  /** The first half of CDiskServer::AddDisk: the id is reserved for the processor, or the processor is deleted. */
  method ReserveId(dc: DiskContainer, disk: DiskProcessor, ghost s: L.Life, ghost p: nat, ghost ps: seq<DiskProcessor>)
    returns (inserted: bool)
    requires dc.Mirrors(s, ps) && L.Guard(s, L.Reserve(p)) && disk == ps[p]
    modifies dc, disk
    ensures inserted <==> L.Next(s, L.Reserve(p)).procs[p].adder.Reserved?
    ensures dc.Mirrors(L.Next(s, L.Reserve(p)), ps)
  {
    inserted := dc.AddDisk(disk.diskId, disk);
    if !inserted {
      disk.freed := true;
    }
  }
}
