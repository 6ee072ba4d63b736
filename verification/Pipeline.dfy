/** The I/O pipeline as a step machine: the driver's sections, the service's fetch thread and one worker thread
    per disk, interleaved in any order. One section under a PDOLock is one step; in particular a fetcher taken
    from the request queue and put back inside BusStartNextPacket is one step. */
module Pipeline {
  import opened Base
  import opened Blocks
  import opened Packets

  /** A worker thread of the service.
      Idle: waiting for its events.  Woken: the request event is consumed.  Done: the storage call returned.
      Sent: in the driver, before the PDO look-up.  Found: the look-up succeeded, PDOLock not yet taken.
      Tail: the packet is completed, BusStartNextPacket is still owed to `target`. */
  datatype Worker =
    | Idle
    | Woken
    | Done(ok: bool, n: nat)
    | Sent(reply: Reply)
    | Found(reply: Reply, target: nat)
    | Tail(target: nat)

  /** The fetch thread of the service. Scanning(from): in the walk of GET_REQUEST over ListOfPDOs, about to follow
      the link of the list head (None) or of entry `from`.  AtEntry(at): BusStartNextPacket on disk `at` is next.
      Directed(req, j): FindDisk returned the processor of `j`.  Posting(j): the mailbox of `j` is written, its event
      not yet set. */
  datatype Fetch =
    | Ready
    | Scanning(from: Option<nat>)
    | AtEntry(at: nat)
    | Waiting
    | Holding(req: Request)
    | Directed(req: Request, target: nat)
    | Posting(target: nat)

  /** How far a disk's removal is.
      Linked: on ListOfPDOs.  Unlinked: off it.  Draining: CurrentIrp is cleared, the queue is being cancelled.
      Destroyed: the drain ended and RemoveEvent is set.  Gone: the service has deleted its processor. */
  datatype Stage = Linked | Unlinked | Draining | Destroyed | Gone

  /** Both halves of a disk. `pdo` is the driver's device extension; its buffer is the memory shared with the
      service. `req` and `event` are the mailbox and its auto-reset event, `file` the backing file. `flink` is where
      the list entry led when it was taken off the list, and still leads. `served` records the packet that was
      current when the worker last took a request. */
  datatype Disk = Disk(pdo: Pdo, stage: Stage, flink: Option<nat>, req: Request, event: bool, worker: Worker,
                       served: Option<Irp>, file: seq<Byte>)

  /** Disks are kept in registration order and never reused, so ListOfPDOs is the linked ones in index order.
      `delivered` is the output of a completed GET_REQUEST that the fetch thread has not picked up yet.
      `accepted` and `completed` record the READ and WRITE packets the bus took in and completed. */
  datatype Sys = Sys(disks: seq<Disk>, parked: seq<Fetcher>, delivered: Option<Request>, fetch: Fetch,
                     nextFetcher: nat, accepted: seq<nat>, completed: seq<Completion>)

  datatype Event =
    // the environment
    | Arrive(i: nat, irp: Irp)
    | CancelQueued(i: nat, k: nat)
    | AddDisk(handle: nat, backing: seq<Byte>, mailbox: Request)
    // the removal of disk i
    | Unlink(i: nat)
    | Clear(i: nat)
    | Drain(i: nat)
    | Finish(i: nat)
    // the fetch thread
    | Issue
    | Step
    | Visit
    | Receive
    | Find
    | Post
    | Signal
    // the worker of disk i
    | Wake(i: nat)
    | Exec(i: nat)
    | ExecFail(i: nat, torn: seq<Byte>, scribble: seq<Byte>, n: nat)
    | Send(i: nat)
    | Lookup(i: nat)
    | Section(i: nat)
    | StartOwed(i: nat)
    | RemoveFinal(i: nat)

  const SERVICE_FILE: nat := 0

  function Init(): Sys {
    Sys([], [], None, Ready, 0, [], [])
  }

  /** The request on its way from a completed GET_REQUEST to a mailbox. */
  function Carried(s: Sys): Option<Request> {
    if s.delivered.Some? then s.delivered
    else if s.fetch.Holding? || s.fetch.Directed? then Some(s.fetch.req)
    else None
  }

  // ---- the list of disks ----

  /** The first linked disk from `k` on. */
  function NextLinked(disks: seq<Disk>, k: nat): (r: Option<nat>)
    ensures r.Some? ==> k <= r.value < |disks| && disks[r.value].stage.Linked?
                        && forall j :: k <= j < r.value ==> !disks[j].stage.Linked?
    ensures r.None? ==> forall j :: k <= j < |disks| ==> !disks[j].stage.Linked?
    decreases |disks| - k
  {
    if k >= |disks| then None else if disks[k].stage.Linked? then Some(k) else NextLinked(disks, k + 1)
  }

  /** Where the link of the list head or of an entry leads. Taking an entry off the list redirects its neighbours but
      not the entry itself, so a walk that stands on it goes on from there. */
  function Flink(disks: seq<Disk>, from: Option<nat>): Option<nat> {
    match from
    case None => NextLinked(disks, 0)
    case Some(k) =>
      if k >= |disks| then None
      else if disks[k].stage.Linked? then NextLinked(disks, k + 1)
      else disks[k].flink
  }

  /** The first linked disk from `k` on with this handle: the scan of Bus_ProcessReply. */
  function FindLinked(disks: seq<Disk>, handle: nat, k: nat): (r: Option<nat>)
    requires k <= |disks|
    ensures r.Some? ==> k <= r.value < |disks| && disks[r.value].stage.Linked? && disks[r.value].pdo.serialNo == handle
    ensures r.None? ==> forall j :: k <= j < |disks| && disks[j].stage.Linked? ==> disks[j].pdo.serialNo != handle
    decreases |disks| - k
  {
    if k == |disks| then None
    else if disks[k].stage.Linked? && disks[k].pdo.serialNo == handle then Some(k)
    else FindLinked(disks, handle, k + 1)
  }

  /** The service's map from ids to processors. */
  function FindProcessor(disks: seq<Disk>, handle: nat, k: nat): (r: Option<nat>)
    requires k <= |disks|
    ensures r.Some? ==> k <= r.value < |disks| && !disks[r.value].stage.Gone? && disks[r.value].pdo.serialNo == handle
    ensures r.None? ==> forall j :: k <= j < |disks| && !disks[j].stage.Gone? ==> disks[j].pdo.serialNo != handle
    decreases |disks| - k
  {
    if k == |disks| then None
    else if !disks[k].stage.Gone? && disks[k].pdo.serialNo == handle then Some(k)
    else FindProcessor(disks, handle, k + 1)
  }

  /** When the code can take a step. AddDisk demands that its id is free in the service's map. */
  predicate Enabled(s: Sys, e: Event) {
    match e
    case Arrive(i, irp) => i < |s.disks| && s.disks[i].stage.Linked? && Fits(irp) && irp.id !in s.accepted
    case CancelQueued(i, k) => i < |s.disks| && k < |s.disks[i].pdo.irpQueue|
    case AddDisk(handle, _, _) =>
      forall j :: 0 <= j < |s.disks| && !s.disks[j].stage.Gone? ==> s.disks[j].pdo.serialNo != handle
    case Unlink(i) => i < |s.disks| && s.disks[i].stage.Linked?
    case Clear(i) => i < |s.disks| && s.disks[i].stage.Unlinked?
    case Drain(i) => i < |s.disks| && s.disks[i].stage.Draining? && s.disks[i].pdo.irpQueue != []
    case Finish(i) => i < |s.disks| && s.disks[i].stage.Draining? && s.disks[i].pdo.irpQueue == []
    case Issue => s.fetch.Ready?
    case Step => s.fetch.Scanning?
    case Visit => s.fetch.AtEntry? && s.fetch.at < |s.disks|
    case Receive => s.fetch.Waiting? && s.delivered.Some?
    case Find => s.fetch.Holding?
    case Post => s.fetch.Directed? && s.fetch.target < |s.disks|
    case Signal => s.fetch.Posting? && s.fetch.target < |s.disks|
    case Wake(i) => i < |s.disks| && s.disks[i].worker.Idle? && s.disks[i].event
    case Exec(i) => i < |s.disks| && s.disks[i].worker.Woken?
    case ExecFail(i, _, scribble, n) =>
      && i < |s.disks| && s.disks[i].worker.Woken?
      && |scribble| == BUFFER_SIZE && n <= Length(s.disks[i].req.blocks, BLOCK_SIZE)
    case Send(i) => i < |s.disks| && s.disks[i].worker.Done?
    case Lookup(i) => i < |s.disks| && s.disks[i].worker.Sent?
    case Section(i) => i < |s.disks| && s.disks[i].worker.Found? && s.disks[i].worker.target < |s.disks|
    case StartOwed(i) => i < |s.disks| && s.disks[i].worker.Tail? && s.disks[i].worker.target < |s.disks|
    case RemoveFinal(i) =>
      i < |s.disks| && s.disks[i].stage.Destroyed? && s.disks[i].worker.Idle? && !s.disks[i].event
  }

  /** What the theorems ask beyond that: an id is not registered while the fetch thread carries a request for a
      removed disk of that id, and a processor is not deleted between the fetch thread's FindDisk and SetEvent. */
  predicate Premise(s: Sys, e: Event) {
    match e
    case AddDisk(handle, _, _) => Carried(s).Some? ==> Carried(s).value.handle != handle
    case RemoveFinal(i) => !((s.fetch.Directed? || s.fetch.Posting?) && s.fetch.target == i)
    case _ => true
  }

  predicate Guard(s: Sys, e: Event) {
    Enabled(s, e) && Premise(s, e)
  }

  /** Every copy the event makes stays inside its buffers. */
  predicate Defined(s: Sys, e: Event)
    requires Enabled(s, e)
  {
    match e
    case Arrive(i, _) => Sound(s.disks[i].pdo)
    case Visit => Sound(s.disks[s.fetch.at].pdo)
    case Exec(i) => ValidRequest(s.disks[i].req) && |s.disks[i].pdo.buffer| == BUFFER_SIZE
    case Section(i) => var w := s.disks[i].worker; Sound(s.disks[w.target].pdo) && ReplyFits(s.disks[w.target].pdo, w.reply)
    case StartOwed(i) => Sound(s.disks[s.disks[i].worker.target].pdo)
    case _ => true
  }

  function SetPdo(s: Sys, i: nat, pdo: Pdo): Sys
    requires i < |s.disks|
  {
    s.(disks := s.disks[i := s.disks[i].(pdo := pdo)])
  }

  function SetStage(s: Sys, i: nat, stage: Stage): Sys
    requires i < |s.disks|
  {
    s.(disks := s.disks[i := s.disks[i].(stage := stage)])
  }

  function SetWorker(s: Sys, i: nat, w: Worker): Sys
    requires i < |s.disks|
  {
    s.(disks := s.disks[i := s.disks[i].(worker := w)])
  }

  /** The outcome of a section of disk `i`; a completed fetcher's output becomes deliverable. */
  function Absorb(s: Sys, i: nat, effect: Effect): Sys
    requires i < |s.disks|
  {
    SetPdo(s, i, effect.pdo).(parked := effect.parked,
                              delivered := if effect.answer.Some? then Some(effect.answer.value.request) else s.delivered)
  }

  /** The walk follows a link: to the next entry, or back to the list head, where it ends. */
  function Walked(s: Sys): Sys
    requires s.fetch.Scanning?
  {
    match Flink(s.disks, s.fetch.from)
    case None => s.(fetch := Waiting)
    case Some(j) => s.(fetch := AtEntry(j))
  }

  function Cancel(s: Sys, i: nat, k: nat): Sys
    requires i < |s.disks| && k < |s.disks[i].pdo.irpQueue|
  {
    var pdo := s.disks[i].pdo;
    SetPdo(s, i, pdo.(irpQueue := Without(pdo.irpQueue, k))).(completed := s.completed + [CancelOf(pdo.irpQueue[k])])
  }

  /** RemoveEntryList: the neighbours of the entry are linked to each other, its own link stays. */
  function Unlisted(s: Sys, i: nat): Sys
    requires i < |s.disks|
  {
    s.(disks := s.disks[i := s.disks[i].(stage := Unlinked, flink := NextLinked(s.disks, i + 1))])
  }

  /** The first section of Bus_DestroyPdo: the current packet is cancelled. */
  function Cleared(s: Sys, i: nat): Sys
    requires i < |s.disks|
  {
    var d := s.disks[i];
    s.(disks := s.disks[i := d.(pdo := Released(d.pdo), stage := Draining)],
       completed := s.completed + CurrentCancelled(d.pdo))
  }

  /** One turn of its loop: the head of the queue is cancelled. */
  function Drained(s: Sys, i: nat): Sys
    requires i < |s.disks| && s.disks[i].pdo.irpQueue != []
  {
    var pdo := s.disks[i].pdo;
    SetPdo(s, i, pdo.(irpQueue := Rest(pdo.irpQueue))).(completed := s.completed + [CancelOf(pdo.irpQueue[0])])
  }

  function FreshDisk(handle: nat, backing: seq<Byte>, mailbox: Request): Disk {
    Disk(Pdo(handle, None, [], Zeros(BUFFER_SIZE), 0), Linked, None, mailbox, false, Idle, None, backing)
  }

  /** FindDisk; a request for an unknown id is dropped. */
  function Aimed(s: Sys): Sys
    requires s.fetch.Holding?
  {
    match FindProcessor(s.disks, s.fetch.req.handle, 0)
    case None => s.(fetch := Ready)
    case Some(j) => s.(fetch := Directed(s.fetch.req, j))
  }

  /** The mailbox is overwritten without a lock. */
  function Posted(s: Sys): Sys
    requires s.fetch.Directed? && s.fetch.target < |s.disks|
  {
    var j := s.fetch.target;
    s.(disks := s.disks[j := s.disks[j].(req := s.fetch.req)], fetch := Posting(j))
  }

  function Executed(s: Sys, i: nat): Sys
    requires i < |s.disks| && ValidRequest(s.disks[i].req) && |s.disks[i].pdo.buffer| == BUFFER_SIZE
  {
    var d := s.disks[i];
    var r := Serve(d.file, d.pdo.buffer, d.req);
    s.(disks := s.disks[i := d.(pdo := d.pdo.(buffer := r.buffer), file := r.file, worker := Done(true, r.numBytes))])
  }

  function LookedUp(s: Sys, i: nat): Sys
    requires i < |s.disks| && s.disks[i].worker.Sent?
  {
    var reply := s.disks[i].worker.reply;
    match FindLinked(s.disks, reply.handle, 0)
    case None => SetWorker(s, i, Idle)
    case Some(j) => SetWorker(s, i, Found(reply, j))
  }

  /** A missing current packet fails the driver's assertion and ends the call. */
  function Replied(s: Sys, i: nat): Sys
    requires i < |s.disks| && s.disks[i].worker.Found? && s.disks[i].worker.target < |s.disks|
    requires Sound(s.disks[s.disks[i].worker.target].pdo)
    requires ReplyFits(s.disks[s.disks[i].worker.target].pdo, s.disks[i].worker.reply)
  {
    var j := s.disks[i].worker.target;
    var pdo := s.disks[j].pdo;
    match Finished(pdo, s.disks[i].worker.reply)
    case None => SetWorker(s, i, Idle)
    case Some(c) => SetWorker(SetPdo(s, j, Released(pdo)), i, Tail(j)).(completed := s.completed + [c])
  }

  function Next(s: Sys, e: Event): Sys
    requires Enabled(s, e) && Defined(s, e)
  {
    match e
    case Arrive(i, irp) => Absorb(s, i, StartPacket(s.disks[i].pdo, s.parked, irp)).(accepted := s.accepted + [irp.id])
    case CancelQueued(i, k) => Cancel(s, i, k)
    case AddDisk(handle, backing, mailbox) => s.(disks := s.disks + [FreshDisk(handle, backing, mailbox)])
    case Unlink(i) => Unlisted(s, i)
    case Clear(i) => Cleared(s, i)
    case Drain(i) => Drained(s, i)
    case Finish(i) => SetStage(s, i, Destroyed)
    case Issue =>
      s.(parked := Insert(s.parked, Fetcher(s.nextFetcher, SERVICE_FILE)), nextFetcher := s.nextFetcher + 1, fetch := Scanning(None))
    case Step => Walked(s)
    case Visit => Absorb(s, s.fetch.at, StartNext(s.disks[s.fetch.at].pdo, s.parked)).(fetch := Scanning(Some(s.fetch.at)))
    case Receive => s.(fetch := Holding(s.delivered.value), delivered := None)
    case Find => Aimed(s)
    case Post => Posted(s)
    case Signal => s.(disks := s.disks[s.fetch.target := s.disks[s.fetch.target].(event := true)], fetch := Ready)
    case Wake(i) => s.(disks := s.disks[i := s.disks[i].(event := false, worker := Woken, served := s.disks[i].pdo.current)])
    case Exec(i) => Executed(s, i)
    case ExecFail(i, torn, scribble, n) =>
      var d := s.disks[i];
      s.(disks := s.disks[i := d.(pdo := d.pdo.(buffer := scribble), file := torn, worker := Done(false, n))])
    case Send(i) =>
      var d := s.disks[i];
      SetWorker(s, i, Sent(Reply(d.req.handle, d.worker.ok, d.req.code, d.worker.n)))
    case Lookup(i) => LookedUp(s, i)
    case Section(i) => Replied(s, i)
    case StartOwed(i) =>
      var j := s.disks[i].worker.target;
      SetWorker(Absorb(s, j, StartNext(s.disks[j].pdo, s.parked)), i, Idle)
    case RemoveFinal(i) => SetStage(s, i, Gone)
  }

  /** `es` is a run of the machine from `s`. */
  predicate Steps(s: Sys, es: seq<Event>)
    decreases |es|, 0
  {
    es == [] ||
    (var before := es[..|es| - 1]; var e := es[|es| - 1];
     Steps(s, before) && Guard(EndOf(s, before), e) && Defined(EndOf(s, before), e))
  }

  /** The state a run ends in. */
  function EndOf(s: Sys, es: seq<Event>): Sys
    requires Steps(s, es)
    decreases |es|, 1
  {
    if es == [] then s else Next(EndOf(s, es[..|es| - 1]), es[|es| - 1])
  }

  /** Steps the system takes by itself: its fetch thread, its workers with their calls into the driver, and removals
      once begun. */
  predicate Service(e: Event) {
    !(e.Arrive? || e.CancelQueued? || e.AddDisk? || e.Unlink? || e.RemoveFinal?)
  }

  /** Besides these, packets that wait may be cancelled. */
  predicate Closing(e: Event) {
    Service(e) || e.CancelQueued?
  }

  predicate ServiceRun(s: Sys, es: seq<Event>) {
    Steps(s, es) && forall k :: 0 <= k < |es| ==> Service(es[k])
  }

  predicate ClosingRun(s: Sys, es: seq<Event>) {
    Steps(s, es) && forall k :: 0 <= k < |es| ==> Closing(es[k])
  }

  /** The runs from the initial state. */
  predicate Legal(es: seq<Event>) {
    Steps(Init(), es)
  }

  function Final(es: seq<Event>): Sys
    requires Legal(es)
  {
    EndOf(Init(), es)
  }
}
