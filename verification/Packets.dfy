/** Requests, replies and the per-disk packet handling of the driver, as functions on values.
    Each function is what one section under a disk's PDOLock does. */
module Packets {
  import opened Base
  import opened Blocks

  /** A READ or WRITE packet: its command block and the requester's buffer, DataTransferLength bytes long. */
  datatype Irp = Irp(id: nat, cdb: seq<Byte>, data: seq<Byte>)

  datatype Status = Success | Unsuccessful | Cancelled

  /** A completed packet: its status block and the requester's buffer at completion. */
  datatype Completion = Completion(id: nat, status: Status, information: nat, data: seq<Byte>)

  /** A parked GET_REQUEST packet; `file` is the file object it was sent on. */
  datatype Fetcher = Fetcher(id: nat, file: nat)

  datatype Request = Request(handle: nat, code: Byte, lba: nat, blocks: nat)

  /** A GET_REQUEST packet completed with its output. */
  datatype Answer = Answer(fetcher: Fetcher, request: Request)

  datatype Reply = Reply(handle: nat, ok: bool, code: Byte, numBytes: nat)

  /** The part of a disk's device extension that packet handling uses. */
  datatype Pdo = Pdo(serialNo: nat, current: Option<Irp>, irpQueue: seq<Irp>, buffer: seq<Byte>, lockCount: int)

  /** What a section under PDOLock leaves: the disk, the request queue and the fetcher it completed, if any. */
  datatype Effect = Effect(pdo: Pdo, parked: seq<Fetcher>, answer: Option<Answer>)

  function Code(irp: Irp): Byte
    requires |irp.cdb| == 10
  {
    irp.cdb[0]
  }

  /** What the class driver owes the bus: a READ(10) or WRITE(10) whose buffer is exactly the
      addressed blocks and fits the shared buffer. */
  predicate Fits(irp: Irp) {
    && |irp.cdb| == 10
    && (Code(irp) == SCSIOP_READ || Code(irp) == SCSIOP_WRITE)
    && |irp.data| == DecodeCdb(irp.cdb).blocks * BLOCK_SIZE
    && |irp.data| <= BUFFER_SIZE
  }

  /** IoCsqInsertIrp and IoCsqRemoveNextIrp without a peek context: first in, first out. */
  function Insert<T>(queue: seq<T>, x: T): seq<T> {
    queue + [x]
  }

  function Rest<T>(queue: seq<T>): seq<T>
    requires queue != []
  {
    queue[1..]
  }

  function MakeRequest(serialNo: nat, irp: Irp): Request
    requires |irp.cdb| == 10
  {
    var extent := DecodeCdb(irp.cdb);
    Request(serialNo, Code(irp), extent.lba, extent.blocks)
  }

  /** A WRITE's payload goes to the front of the shared buffer; a READ leaves the buffer alone. */
  function Staged(buffer: seq<Byte>, irp: Irp): seq<Byte>
    requires Fits(irp) && |buffer| == BUFFER_SIZE
  {
    if Code(irp) == SCSIOP_WRITE then Overlay(buffer, irp.data, |irp.data|) else buffer
  }

  predicate Sound(pdo: Pdo) {
    && |pdo.buffer| == BUFFER_SIZE
    && (pdo.current.Some? ==> Fits(pdo.current.value))
    && (forall k :: 0 <= k < |pdo.irpQueue| ==> Fits(pdo.irpQueue[k]))
  }

  /** BusSetupRequest, then the packet becomes current under one more remove-lock reference. */
  function Dispatch(pdo: Pdo, irp: Irp): Pdo
    requires Fits(irp) && |pdo.buffer| == BUFFER_SIZE
  {
    pdo.(current := Some(irp), buffer := Staged(pdo.buffer, irp), lockCount := pdo.lockCount + 1)
  }

  function StartPacket(pdo: Pdo, parked: seq<Fetcher>, irp: Irp): Effect
    requires Sound(pdo) && Fits(irp)
  {
    if pdo.current.None? && parked != [] then
      Effect(Dispatch(pdo, irp), Rest(parked), Some(Answer(parked[0], MakeRequest(pdo.serialNo, irp))))
    else
      Effect(pdo.(irpQueue := Insert(pdo.irpQueue, irp)), parked, None)
  }

  /** A fetcher taken in vain is put back, at the tail. */
  function StartNext(pdo: Pdo, parked: seq<Fetcher>): Effect
    requires Sound(pdo)
  {
    if pdo.current.Some? || parked == [] then
      Effect(pdo, parked, None)
    else if pdo.irpQueue == [] then
      Effect(pdo, Insert(Rest(parked), parked[0]), None)
    else
      var irp := pdo.irpQueue[0];
      Effect(Dispatch(pdo.(irpQueue := Rest(pdo.irpQueue)), irp), Rest(parked),
             Some(Answer(parked[0], MakeRequest(pdo.serialNo, irp))))
  }

  /** The copy-out of a reply, which only a READ has, stays inside both buffers. */
  predicate ReplyFits(pdo: Pdo, reply: Reply) {
    pdo.current.Some? && Fits(pdo.current.value) && Code(pdo.current.value) == SCSIOP_READ ==>
      reply.numBytes <= |pdo.current.value.data| && reply.numBytes <= |pdo.buffer|
  }

  /** The section of Bus_ProcessReply: the current packet leaves the disk, completed. */
  function Finished(pdo: Pdo, reply: Reply): (c: Option<Completion>)
    requires Sound(pdo) && ReplyFits(pdo, reply)
    ensures c.Some? <==> pdo.current.Some?
  {
    if pdo.current.None? then None
    else
      var irp := pdo.current.value;
      var data := if Code(irp) == SCSIOP_READ then Overlay(irp.data, pdo.buffer, reply.numBytes) else irp.data;
      Some(Completion(irp.id, if reply.ok then Success else Unsuccessful, reply.numBytes, data))
  }

  /** `c` completes packet `irp` of a disk with this shared buffer as the reply says: its status and count, and for a READ
      as many bytes of the buffer, whether the storage call succeeded or not. */
  predicate CompletesBy(c: Completion, irp: Irp, buffer: seq<Byte>, reply: Reply)
    requires Fits(irp)
  {
    && c.id == irp.id && c.status == (if reply.ok then Success else Unsuccessful) && c.information == reply.numBytes
    && |c.data| == |irp.data|
    && forall k :: 0 <= k < |c.data| ==>
         c.data[k] == if Code(irp) == SCSIOP_READ && k < reply.numBytes && k < |buffer| then buffer[k] else irp.data[k]
  }

  function Released(pdo: Pdo): Pdo {
    if pdo.current.None? then pdo else pdo.(current := None, lockCount := pdo.lockCount - 1)
  }

  function CancelOf(irp: Irp): Completion {
    Completion(irp.id, Cancelled, 0, irp.data)
  }

  function CancelAll(queue: seq<Irp>): (r: seq<Completion>)
    ensures |r| == |queue| && forall k :: 0 <= k < |r| ==> r[k] == CancelOf(queue[k])
  {
    if queue == [] then [] else [CancelOf(queue[0])] + CancelAll(queue[1..])
  }

  /** Packet `irp` is completed as cancelled: nothing was transferred. */
  predicate IsCancelled(c: Completion, irp: Irp) {
    c.id == irp.id && c.status.Cancelled? && c.information == 0 && c.data == irp.data
  }

  /** The packets a disk holds: the current one first, then the queue in order. */
  function PacketsOf(pdo: Pdo): seq<Irp> {
    (if pdo.current.Some? then [pdo.current.value] else []) + pdo.irpQueue
  }

  /** The completions `cs` cancel the packets `irps`, one by one and in order. */
  predicate CancelEach(cs: seq<Completion>, irps: seq<Irp>) {
    |cs| == |irps| && forall k :: 0 <= k < |cs| ==> IsCancelled(cs[k], irps[k])
  }

  function CurrentCancelled(pdo: Pdo): seq<Completion> {
    if pdo.current.Some? then [CancelOf(pdo.current.value)] else []
  }

  /** What Bus_DestroyPdo completes: the current packet first, then the queue in order. */
  function DestroyCancels(pdo: Pdo): seq<Completion> {
    CurrentCancelled(pdo) + CancelAll(pdo.irpQueue)
  }

  /** What a removal completes is every packet of the disk, each as cancelled with nothing transferred. */
  lemma RemovalCancelsEach(pdo: Pdo)
    ensures CancelEach(DestroyCancels(pdo), PacketsOf(pdo)) && CancelEach(CancelAll(pdo.irpQueue), pdo.irpQueue)
  {
    var cs, irps := DestroyCancels(pdo), PacketsOf(pdo);
    var n := |CurrentCancelled(pdo)|;
    forall k | 0 <= k < |cs| ensures IsCancelled(cs[k], irps[k]) {
      if k >= n {
        assert cs[k] == CancelAll(pdo.irpQueue)[k - n] && irps[k] == pdo.irpQueue[k - n];
      }
    }
  }

  /** A request whose transfer fits the service's buffer. */
  predicate ValidRequest(req: Request) {
    (req.code == SCSIOP_READ || req.code == SCSIOP_WRITE) && Length(req.blocks, BLOCK_SIZE) <= BUFFER_SIZE
  }

  /** File, buffer and byte count after a successful storage call. */
  datatype Outcome = Outcome(file: seq<Byte>, buffer: seq<Byte>, numBytes: nat)

  function Serve(file: seq<Byte>, buffer: seq<Byte>, req: Request): (r: Outcome)
    requires ValidRequest(req) && |buffer| == BUFFER_SIZE
    ensures |r.buffer| == BUFFER_SIZE && r.numBytes <= Length(req.blocks, BLOCK_SIZE)
  {
    var offset := Offset(req.lba, BLOCK_SIZE);
    var length := Length(req.blocks, BLOCK_SIZE);
    if req.code == SCSIOP_READ then
      var bytes := ReadAt(file, offset, length);
      Outcome(file, Overlay(buffer, bytes, |bytes|), |bytes|)
    else
      Outcome(WriteAt(file, offset, buffer[..length]), buffer, length)
  }

  lemma FittingRequestIsValid(serialNo: nat, irp: Irp)
    requires Fits(irp)
    ensures ValidRequest(MakeRequest(serialNo, irp))
  {
  }

  /** On literal operation codes: READ(10) is 0x28 and leaves the shared buffer alone when it becomes current and the file
      when it is served; WRITE(10) is 0x2A, stages its payload, and does not touch the buffer when it is served. */
  lemma LiteralOperations(pdo: Pdo, irp: Irp, file: seq<Byte>)
    requires Fits(irp) && |pdo.buffer| == BUFFER_SIZE
    ensures ValidRequest(MakeRequest(pdo.serialNo, irp))
    ensures var staged := Dispatch(pdo, irp).buffer; var r := Serve(file, pdo.buffer, MakeRequest(pdo.serialNo, irp));
            && (irp.cdb[0] == 0x28 ==> staged == pdo.buffer && r.file == file && r.buffer[r.numBytes..] == pdo.buffer[r.numBytes..])
            && (irp.cdb[0] == 0x2A ==> staged == irp.data + pdo.buffer[|irp.data|..] && r.buffer == pdo.buffer)
            && (irp.cdb[0] == 0x28 || irp.cdb[0] == 0x2A)
  {
    FittingRequestIsValid(pdo.serialNo, irp);
  }

  /** The shared buffer takes 256 KiB, which is 512 blocks: a packet fits exactly up to this. */
  lemma TransferLimit(irp: Irp)
    requires |irp.cdb| == 10 && (irp.cdb[0] == 0x28 || irp.cdb[0] == 0x2A) && |irp.data| == 512 * DecodeCdb(irp.cdb).blocks
    ensures Fits(irp) <==> DecodeCdb(irp.cdb).blocks <= 512
  {
  }
}
