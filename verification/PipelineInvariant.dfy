/** What every step of the pipeline keeps. Each disk is described by its own record and by what the fetch thread
    holds for it, so a step on one disk leaves every other disk's clause alone. */
module PipelineInvariant {
  import opened Base
  import opened Blocks
  import opened Packets
  import opened Pipeline
  import opened PipelineWalk

  /** The removal of the disk has not yet cleared CurrentIrp. */
  predicate Uncleared(stage: Stage) {
    stage.Linked? || stage.Unlinked?
  }

  /** A packet became current after the removal had cleared CurrentIrp, which looks there only once. */
  predicate Stray(d: Disk) {
    d.pdo.current.Some? && !Uncleared(d.stage)
  }

  /** The fetch thread's share of a disk's token. */
  datatype FetchToken = NoToken | Carrying(req: Request) | PostingHere

  function TokenOf(s: Sys, i: nat): FetchToken
    requires i < |s.disks|
  {
    if s.fetch == Posting(i) then PostingHere
    else if !s.disks[i].stage.Gone? && Carried(s).Some? && Carried(s).value.handle == s.disks[i].pdo.serialNo then Carrying(Carried(s).value)
    else NoToken
  }

  /** The worker has taken the request out of the event and not yet completed the packet. */
  predicate Busy(w: Worker) {
    w.Woken? || w.Done? || w.Sent? || w.Found?
  }

  /** The mailbox will still be read. */
  predicate MailboxLive(d: Disk, t: FetchToken) {
    t.PostingHere? || d.event || d.worker.Woken? || d.worker.Done?
  }

  predicate HasToken(d: Disk, t: FetchToken) {
    !t.NoToken? || d.event || Busy(d.worker)
  }

  /** At most one token: never two of {held by the fetch thread, event set, worker busy}. */
  predicate OneToken(d: Disk, t: FetchToken) {
    && !(!t.NoToken? && d.event)
    && !(!t.NoToken? && Busy(d.worker))
    && !(d.event && Busy(d.worker))
  }

  /** The storage call of the current packet is still to come. */
  predicate Unserved(d: Disk, t: FetchToken) {
    !t.NoToken? || d.event || d.worker.Woken?
  }

  /** The bytes a READ of this packet returns from `file`. */
  function Wanted(irp: Irp, file: seq<Byte>): seq<Byte>
    requires Fits(irp)
  {
    ReadAt(file, Offset(DecodeCdb(irp.cdb).lba, BLOCK_SIZE), |irp.data|)
  }

  /** The file after a WRITE of this packet. */
  function Written(irp: Irp, file: seq<Byte>): seq<Byte>
    requires Fits(irp)
  {
    WriteAt(file, Offset(DecodeCdb(irp.cdb).lba, BLOCK_SIZE), irp.data)
  }

  /** A storage outcome `ok`, `n` that belongs to packet `irp`. */
  predicate OutcomeFits(d: Disk, irp: Irp, ok: bool, n: nat)
    requires Fits(irp)
  {
    && n <= |irp.data| && n <= |d.pdo.buffer|
    && (ok && Code(irp) == SCSIOP_READ ==> d.pdo.buffer[..n] == Wanted(irp, d.file))
    && (ok && Code(irp) == SCSIOP_WRITE ==> n == |irp.data|)
  }

  /** The token carries the current packet: its request, its payload, its outcome. */
  predicate Matches(d: Disk, t: FetchToken, irp: Irp)
    requires Fits(irp)
  {
    && (t.Carrying? ==> t.req == MakeRequest(d.pdo.serialNo, irp))
    && (MailboxLive(d, t) ==> d.req == MakeRequest(d.pdo.serialNo, irp))
    && (Unserved(d, t) && Code(irp) == SCSIOP_WRITE ==> |irp.data| <= |d.pdo.buffer| && d.pdo.buffer[..|irp.data|] == irp.data)
    && (d.worker.Done? ==> OutcomeFits(d, irp, d.worker.ok, d.worker.n))
    && (d.worker.Sent? || d.worker.Found? ==> d.worker.reply.code == Code(irp) && OutcomeFits(d, irp, d.worker.reply.ok, d.worker.reply.numBytes))
  }

  /** Requests and replies name their own disk. */
  predicate Addressed(i: nat, d: Disk, t: FetchToken) {
    && (t.Carrying? ==> t.req.handle == d.pdo.serialNo && ValidRequest(t.req))
    && (MailboxLive(d, t) ==> d.req.handle == d.pdo.serialNo && ValidRequest(d.req))
    && (d.worker.Sent? || d.worker.Found? ==> d.worker.reply.handle == d.pdo.serialNo && d.worker.reply.numBytes <= BUFFER_SIZE)
    && (d.worker.Done? ==> d.worker.n <= BUFFER_SIZE)
    && (d.worker.Found? || d.worker.Tail? ==> d.worker.target == i)
  }

  predicate DiskInv(i: nat, d: Disk, t: FetchToken) {
    && Sound(d.pdo)
    && d.pdo.lockCount == (if d.pdo.current.Some? then 1 else 0)
    && Addressed(i, d, t)
    && (!Stray(d) ==> OneToken(d, t))
    && (Stray(d) && d.worker.Found? ==> t.NoToken? || !d.event)
    && (d.stage.Linked? ==> (d.pdo.current.Some? <==> HasToken(d, t)))
    && (d.stage.Unlinked? && HasToken(d, t) ==> d.pdo.current.Some?)
    && (d.stage.Destroyed? || d.stage.Gone? ==> d.pdo.irpQueue == [])
    && (d.stage.Gone? ==> !HasToken(d, t) && d.worker.Idle?)
    && (d.pdo.current.Some? && Uncleared(d.stage) ==> Matches(d, t, d.pdo.current.value))
  }

  /** A GET_REQUEST in flight is parked or answered, never both, and there is at most one. */
  predicate FetchInv(s: Sys) {
    match s.fetch
    case Ready => s.parked == [] && s.delivered.None?
    case Scanning(from) => (from.Some? ==> from.value < |s.disks|) && |s.parked| == (if s.delivered.Some? then 0 else 1)
    case AtEntry(at) => at < |s.disks| && |s.parked| == (if s.delivered.Some? then 0 else 1)
    case Waiting => |s.parked| == (if s.delivered.Some? then 0 else 1)
    case Holding(_) => s.parked == [] && s.delivered.None?
    case Directed(req, j) =>
      && s.parked == [] && s.delivered.None?
      && j < |s.disks| && !s.disks[j].stage.Gone? && s.disks[j].pdo.serialNo == req.handle
    case Posting(j) => s.parked == [] && s.delivered.None? && j < |s.disks| && !s.disks[j].stage.Gone?
  }

  predicate HandlesDistinct(disks: seq<Disk>) {
    forall i, j :: 0 <= i < j < |disks| && !disks[i].stage.Gone? && !disks[j].stage.Gone? ==> disks[i].pdo.serialNo != disks[j].pdo.serialNo
  }

  predicate DisksInv(s: Sys) {
    forall i :: 0 <= i < |s.disks| ==> DiskInv(i, s.disks[i], TokenOf(s, i))
  }

  /** Idle, with work queued, while a fetcher is parked. */
  predicate Starving(s: Sys, i: nat)
    requires i < |s.disks|
  {
    s.disks[i].stage.Linked? && s.disks[i].pdo.current.None? && s.disks[i].pdo.irpQueue != [] && s.parked != []
  }

  /** Some call still owes disk `i` a BusStartNextPacket. */
  predicate Owed(s: Sys, i: nat)
    requires i < |s.disks|
  {
    ScanOwes(s, i) || s.disks[i].worker == Tail(i)
  }

  predicate NoLostWakeUp(s: Sys) {
    forall i :: 0 <= i < |s.disks| && Starving(s, i) ==> Owed(s, i)
  }

  predicate Inv(s: Sys) {
    FetchInv(s) && HandlesDistinct(s.disks) && DisksInv(s) && WellLinked(s.disks) && NoLostWakeUp(s)
  }

  // ---- one disk at a time ----

  /** A packet becoming current on an idle disk hands the disk a token. After the removal cleared CurrentIrp this
      may be a second one. */
  lemma DispatchKeeps(i: nat, d: Disk, irp: Irp, queue: seq<Irp>)
    requires DiskInv(i, d, NoToken) && d.pdo.current.None? && Fits(irp)
    requires Uncleared(d.stage) || d.stage.Draining?
    requires Sound(d.pdo.(irpQueue := queue))
    ensures DiskInv(i, d.(pdo := Dispatch(d.pdo.(irpQueue := queue), irp)), Carrying(MakeRequest(d.pdo.serialNo, irp)))
  {
    FittingRequestIsValid(d.pdo.serialNo, irp);
  }

  lemma QueueKeeps(i: nat, d: Disk, t: FetchToken, queue: seq<Irp>)
    requires DiskInv(i, d, t) && Sound(d.pdo.(irpQueue := queue))
    requires d.stage.Destroyed? || d.stage.Gone? ==> queue == []
    ensures DiskInv(i, d.(pdo := d.pdo.(irpQueue := queue)), t)
  {
  }

  lemma ExecKeeps(i: nat, d: Disk, t: FetchToken)
    requires DiskInv(i, d, t) && d.worker.Woken?
    ensures ValidRequest(d.req)
    ensures var r := Serve(d.file, d.pdo.buffer, d.req);
            DiskInv(i, d.(pdo := d.pdo.(buffer := r.buffer), file := r.file, worker := Done(true, r.numBytes)), t)
  {
    var r := Serve(d.file, d.pdo.buffer, d.req);
    if d.pdo.current.Some? && d.req.code == SCSIOP_READ {
      assert r.buffer[..r.numBytes] == ReadAt(d.file, Offset(d.req.lba, BLOCK_SIZE), Length(d.req.blocks, BLOCK_SIZE));
    }
  }

  lemma ExecFailKeeps(i: nat, d: Disk, t: FetchToken, torn: seq<Byte>, scribble: seq<Byte>, n: nat)
    requires DiskInv(i, d, t) && d.worker.Woken? && |scribble| == BUFFER_SIZE && n <= Length(d.req.blocks, BLOCK_SIZE)
    ensures DiskInv(i, d.(pdo := d.pdo.(buffer := scribble), file := torn, worker := Done(false, n)), t)
  {
  }

  /** Before the removal clears CurrentIrp, a reply finds its packet and the copy-out is in bounds; afterwards it may
      find none, or a stray one. Whatever it finds leaves the disk. */
  lemma ReplyKeeps(i: nat, d: Disk, t: FetchToken)
    requires DiskInv(i, d, t) && d.worker.Found?
    ensures Uncleared(d.stage) ==> d.pdo.current.Some? && ReplyFits(d.pdo, d.worker.reply)
    ensures d.pdo.current.Some? ==> DiskInv(i, d.(pdo := Released(d.pdo), worker := Tail(i)), t)
    ensures d.pdo.current.None? ==> DiskInv(i, d.(worker := Idle), t)
  {
  }

  /** The four steps of a removal, on the disk. */
  lemma RemovalKeeps(i: nat, d: Disk, t: FetchToken)
    requires DiskInv(i, d, t)
    ensures d.stage.Linked? ==> forall flink :: DiskInv(i, d.(stage := Unlinked, flink := flink), t)
    ensures d.stage.Unlinked? ==> DiskInv(i, d.(pdo := Released(d.pdo), stage := Draining), t)
    ensures d.stage.Draining? && d.pdo.irpQueue == [] ==> DiskInv(i, d.(stage := Destroyed), t)
  {
  }

  /** The mailbox is written, then its event set: the token stays with the disk. */
  lemma HandOverKeeps(i: nat, d: Disk, req: Request)
    ensures DiskInv(i, d, Carrying(req)) ==> DiskInv(i, d.(req := req), PostingHere)
    ensures DiskInv(i, d, PostingHere) ==> DiskInv(i, d.(event := true), NoToken)
  {
  }

  lemma GoneKeeps(i: nat, d: Disk, t: FetchToken)
    requires DiskInv(i, d, t) && d.stage.Destroyed? && d.worker.Idle? && !d.event
    ensures DiskInv(i, d.(stage := Gone), NoToken)
  {
  }
}
