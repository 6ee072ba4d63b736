/** Every step keeps the pipeline's invariant, hence every reachable state has it; and runs put together from steps. */
module PipelineSafety {
  import opened Base
  import opened Blocks
  import opened Packets
  import opened Pipeline
  import opened PipelineWalk
  import opened PipelineInvariant

  predicate CoreInv(s: Sys) {
    FetchInv(s) && HandlesDistinct(s.disks) && DisksInv(s) && WellLinked(s.disks)
  }

  /** What BusStartPacket and BusStartNextPacket may do to a disk and the request queue. */
  predicate Starts(pdo: Pdo, parked: seq<Fetcher>, effect: Effect)
    requires Sound(pdo)
  {
    && Sound(effect.pdo)
    && if effect.answer.None? then
         |effect.parked| == |parked| && effect.pdo == pdo.(irpQueue := effect.pdo.irpQueue)
       else
         && parked != [] && pdo.current.None? && effect.pdo.current.Some?
         && effect.parked == parked[1..]
         && effect.pdo == Dispatch(pdo.(irpQueue := effect.pdo.irpQueue), effect.pdo.current.value)
         && effect.answer.value == Answer(parked[0], MakeRequest(pdo.serialNo, effect.pdo.current.value))
  }

  lemma StartPacketStarts(pdo: Pdo, parked: seq<Fetcher>, irp: Irp)
    requires Sound(pdo) && Fits(irp)
    ensures Starts(pdo, parked, StartPacket(pdo, parked, irp))
  {
  }

  lemma StartNextStarts(pdo: Pdo, parked: seq<Fetcher>)
    requires Sound(pdo)
    ensures Starts(pdo, parked, StartNext(pdo, parked))
  {
  }

  lemma AbsorbKeeps(s: Sys, i: nat, effect: Effect)
    requires CoreInv(s) && i < |s.disks| && Starts(s.disks[i].pdo, s.parked, effect)
    requires s.disks[i].stage.Destroyed? || s.disks[i].stage.Gone? ==> effect.pdo == s.disks[i].pdo
    ensures CoreInv(Absorb(s, i, effect))
  {
    var t := Absorb(s, i, effect);
    forall j | 0 <= j < |t.disks| ensures DiskInv(j, t.disks[j], TokenOf(t, j)) {
      if j == i {
        var d := s.disks[i];
        if effect.answer.None? {
          QueueKeeps(i, d, TokenOf(s, i), effect.pdo.irpQueue);
        } else {
          DispatchKeeps(i, d, effect.pdo.current.value, effect.pdo.irpQueue);
        }
      }
    }
  }

  /** BusStartNextPacket may start a packet wherever the removal of the disk stands, until its queue is drained. */
  lemma AbsorbOwed(s: Sys, i: nat)
    requires CoreInv(s) && i < |s.disks|
    ensures Sound(s.disks[i].pdo) && CoreInv(Absorb(s, i, StartNext(s.disks[i].pdo, s.parked)))
  {
    assert DiskInv(i, s.disks[i], TokenOf(s, i));
    StartNextStarts(s.disks[i].pdo, s.parked);
    AbsorbKeeps(s, i, StartNext(s.disks[i].pdo, s.parked));
  }

  /** A start owed stays owed while the list, the walk and the worker stand where they are. */
  lemma OwedStays(s: Sys, t: Sys, j: nat)
    requires SameList(s.disks, t.disks) && t.fetch == s.fetch && j < |s.disks| && Owed(s, j)
    requires t.disks[j].worker == s.disks[j].worker
    ensures Owed(t, j)
  {
    if s.fetch.Scanning? {
      ReachesSame(s.disks, t.disks, s.fetch.from, j);
    } else if s.fetch.AtEntry? {
      ReachesSame(s.disks, t.disks, Some(s.fetch.at), j);
    }
  }

  /** A step on one disk leaves the wake-ups of the others owed. */
  lemma WakeUpsKept(s: Sys, t: Sys, i: nat)
    requires NoLostWakeUp(s) && SameList(s.disks, t.disks) && t.fetch == s.fetch && i < |s.disks|
    requires forall j :: 0 <= j < |s.disks| && j != i ==> t.disks[j].pdo == s.disks[j].pdo && t.disks[j].worker == s.disks[j].worker
    requires t.parked != [] ==> s.parked != []
    requires Starving(t, i) ==> Owed(t, i)
    ensures NoLostWakeUp(t)
  {
    forall j | 0 <= j < |t.disks| && Starving(t, j) ensures Owed(t, j) {
      if j != i {
        assert Starving(s, j);
        OwedStays(s, t, j);
      }
    }
  }

  lemma ArriveKeeps(s: Sys, i: nat, irp: Irp)
    requires Inv(s) && Guard(s, Arrive(i, irp))
    ensures Sound(s.disks[i].pdo) && Inv(Next(s, Arrive(i, irp)))
  {
    var effect := StartPacket(s.disks[i].pdo, s.parked, irp);
    StartPacketStarts(s.disks[i].pdo, s.parked, irp);
    AbsorbKeeps(s, i, effect);
    var t := Next(s, Arrive(i, irp));
    assert CoreInv(t) by {
      SameHalves(Absorb(s, i, effect), t);
    }
    WakeUpsKept(s, t, i);
  }

  /** The core invariant does not read the histories or the fetcher counter. */
  lemma SameHalves(s: Sys, t: Sys)
    requires CoreInv(s) && t.disks == s.disks && t.parked == s.parked && t.delivered == s.delivered && t.fetch == s.fetch
    ensures CoreInv(t)
  {
    forall j | 0 <= j < |t.disks| ensures DiskInv(j, t.disks[j], TokenOf(t, j)) {
      assert TokenOf(t, j) == TokenOf(s, j);
    }
  }

  /** The walk moving on does not move any token. */
  lemma SameTokens(s: Sys, t: Sys)
    requires CoreInv(s) && t.disks == s.disks && t.delivered == s.delivered && FetchInv(t)
    requires !s.fetch.Holding? && !s.fetch.Directed? && !s.fetch.Posting?
    requires !t.fetch.Holding? && !t.fetch.Directed? && !t.fetch.Posting?
    ensures CoreInv(t)
  {
    forall j | 0 <= j < |t.disks| ensures DiskInv(j, t.disks[j], TokenOf(t, j)) {
      assert TokenOf(t, j) == TokenOf(s, j);
    }
  }

  /** A disk whose record changes under the same token and the same name. */
  lemma OneDiskKeeps(s: Sys, t: Sys, i: nat, d: Disk)
    requires CoreInv(s) && i < |s.disks| && t.disks == s.disks[i := d]
    requires t.parked == s.parked && t.delivered == s.delivered && t.fetch == s.fetch
    requires d.pdo.serialNo == s.disks[i].pdo.serialNo && d.stage.Gone? == s.disks[i].stage.Gone?
    requires DiskInv(i, d, TokenOf(s, i))
    requires d.stage.Linked? || d.flink.None? || i < d.flink.value < |s.disks|
    ensures CoreInv(t)
  {
    forall j | 0 <= j < |t.disks| ensures DiskInv(j, t.disks[j], TokenOf(t, j)) {
      assert TokenOf(t, j) == TokenOf(s, j);
    }
  }

  /** Steps that touch only one disk and leave the list alone. */
  lemma DiskStepKeeps(s: Sys, t: Sys, i: nat, d: Disk)
    requires Inv(s) && i < |s.disks| && t.disks == s.disks[i := d] && SameList(s.disks, t.disks)
    requires t.parked == s.parked && t.delivered == s.delivered && t.fetch == s.fetch
    requires d.pdo.serialNo == s.disks[i].pdo.serialNo && d.stage.Gone? == s.disks[i].stage.Gone?
    requires DiskInv(i, d, TokenOf(s, i))
    requires Starving(t, i) ==> d.worker == Tail(i) || (Starving(s, i) && d.worker == s.disks[i].worker)
    ensures Inv(t)
  {
    OneDiskKeeps(s, t, i, d);
    if Starving(t, i) && d.worker != Tail(i) {
      OwedStays(s, t, i);
    }
    WakeUpsKept(s, t, i);
  }

  lemma CancelKeeps(s: Sys, i: nat, k: nat)
    requires Inv(s) && Guard(s, CancelQueued(i, k))
    ensures Inv(Cancel(s, i, k))
  {
    var d := s.disks[i];
    var queue := Without(d.pdo.irpQueue, k);
    QueueKeeps(i, d, TokenOf(s, i), queue);
    DiskStepKeeps(s, Cancel(s, i, k), i, d.(pdo := d.pdo.(irpQueue := queue)));
  }

  lemma AddDiskKeeps(s: Sys, handle: nat, backing: seq<Byte>, mailbox: Request)
    requires Inv(s) && Guard(s, AddDisk(handle, backing, mailbox))
    ensures Inv(Next(s, AddDisk(handle, backing, mailbox)))
  {
    var t := Next(s, AddDisk(handle, backing, mailbox));
    forall j | 0 <= j < |t.disks| ensures DiskInv(j, t.disks[j], TokenOf(t, j)) {
      if j < |s.disks| {
        assert TokenOf(t, j) == TokenOf(s, j);
      }
    }
    forall j | 0 <= j < |t.disks| && Starving(t, j) ensures Owed(t, j) {
      assert j < |s.disks| && Starving(s, j);
      if s.fetch.Scanning? {
        ReachesAppend(s.disks, FreshDisk(handle, backing, mailbox), s.fetch.from, j);
      } else if s.fetch.AtEntry? {
        ReachesAppend(s.disks, FreshDisk(handle, backing, mailbox), Some(s.fetch.at), j);
      }
    }
  }

  lemma IssueKeeps(s: Sys)
    requires Inv(s) && Guard(s, Issue)
    ensures Inv(Next(s, Issue))
  {
    var t := Next(s, Issue);
    SameTokens(s, t);
    forall j | 0 <= j < |t.disks| && Starving(t, j) ensures Owed(t, j) {
      ReachesLinked(t.disks, None, j);
    }
  }

  lemma WalkKeeps(s: Sys)
    requires Inv(s) && Guard(s, Step)
    ensures Inv(Walked(s))
  {
    var t := Walked(s);
    FlinkIsForward(s.disks, s.fetch.from);
    SameTokens(s, t);
    forall j | 0 <= j < |t.disks| && Starving(t, j) ensures Owed(t, j) {
      assert Starving(s, j) && Owed(s, j);
    }
  }

  lemma VisitKeeps(s: Sys)
    requires Inv(s) && Guard(s, Visit)
    ensures Defined(s, Visit) && Inv(Next(s, Visit))
  {
    var i := s.fetch.at;
    AbsorbOwed(s, i);
    var u := Absorb(s, i, StartNext(s.disks[i].pdo, s.parked));
    var t := Next(s, Visit);
    SameTokens(u, t);
    forall j | 0 <= j < |t.disks| && Starving(t, j) ensures Owed(t, j) {
      assert j != i && Starving(s, j) && Owed(s, j);
      ReachesSame(s.disks, t.disks, Some(i), j);
    }
  }

  lemma ReceiveKeeps(s: Sys)
    requires Inv(s) && Guard(s, Receive)
    ensures Inv(Next(s, Receive))
  {
    var t := Next(s, Receive);
    forall j | 0 <= j < |t.disks| ensures DiskInv(j, t.disks[j], TokenOf(t, j)) {
      assert TokenOf(t, j) == TokenOf(s, j);
    }
  }

  lemma FindKeeps(s: Sys)
    requires Inv(s) && Guard(s, Find)
    ensures Inv(Aimed(s))
  {
    var t := Aimed(s);
    forall j | 0 <= j < |t.disks| ensures DiskInv(j, t.disks[j], TokenOf(t, j)) {
      assert DiskInv(j, s.disks[j], TokenOf(s, j));
      assert TokenOf(t, j) == TokenOf(s, j);
    }
  }

  /** The processor that FindDisk returned is the one disk whose handle the request carries. */
  lemma TargetIsCarried(s: Sys)
    requires CoreInv(s) && s.fetch.Directed?
    ensures TokenOf(s, s.fetch.target) == Carrying(s.fetch.req)
    ensures forall k :: 0 <= k < |s.disks| && k != s.fetch.target ==> TokenOf(s, k) == NoToken
  {
    forall k | 0 <= k < |s.disks| && k != s.fetch.target ensures TokenOf(s, k) == NoToken {
      assert s.disks[k].stage.Gone? || s.disks[k].pdo.serialNo != s.disks[s.fetch.target].pdo.serialNo;
    }
  }

  lemma PostKeeps(s: Sys)
    requires Inv(s) && Guard(s, Post)
    ensures Inv(Posted(s))
  {
    var t := Posted(s);
    TargetIsCarried(s);
    HandOverKeeps(s.fetch.target, s.disks[s.fetch.target], s.fetch.req);
    forall j | 0 <= j < |t.disks| ensures DiskInv(j, t.disks[j], TokenOf(t, j)) {
      assert j != s.fetch.target ==> t.disks[j] == s.disks[j] && TokenOf(t, j) == TokenOf(s, j);
    }
  }

  lemma SignalKeeps(s: Sys)
    requires Inv(s) && Guard(s, Signal)
    ensures Inv(Next(s, Signal))
  {
    var t := Next(s, Signal);
    HandOverKeeps(s.fetch.target, s.disks[s.fetch.target], s.disks[s.fetch.target].req);
    forall j | 0 <= j < |t.disks| ensures DiskInv(j, t.disks[j], TokenOf(t, j)) {
      assert DiskInv(j, s.disks[j], TokenOf(s, j));
      assert j != s.fetch.target ==> t.disks[j] == s.disks[j] && TokenOf(t, j) == TokenOf(s, j);
    }
  }

  lemma RemovalStepKeeps(s: Sys, e: Event)
    requires Inv(s) && Guard(s, e) && (e.Clear? || e.Finish?)
    ensures Inv(Next(s, e))
  {
    RemovalKeeps(e.i, s.disks[e.i], TokenOf(s, e.i));
    DiskStepKeeps(s, Next(s, e), e.i, Next(s, e).disks[e.i]);
  }

  lemma UnlinkKeeps(s: Sys, i: nat)
    requires Inv(s) && Guard(s, Unlink(i))
    ensures Inv(Unlisted(s, i))
  {
    var t := Unlisted(s, i);
    RemovalKeeps(i, s.disks[i], TokenOf(s, i));
    OneDiskKeeps(s, t, i, t.disks[i]);
    forall j | 0 <= j < |t.disks| && Starving(t, j) ensures Owed(t, j) {
      assert j != i && Starving(s, j);
      if s.fetch.Scanning? {
        ReachesTakenOff(s.disks, i, s.fetch.from, j);
      } else if s.fetch.AtEntry? {
        ReachesTakenOff(s.disks, i, Some(s.fetch.at), j);
      }
    }
  }

  lemma DrainKeeps(s: Sys, i: nat)
    requires Inv(s) && Guard(s, Drain(i))
    ensures Inv(Next(s, Drain(i)))
  {
    QueueKeeps(i, s.disks[i], TokenOf(s, i), Rest(s.disks[i].pdo.irpQueue));
    DiskStepKeeps(s, Drained(s, i), i, Drained(s, i).disks[i]);
  }

  lemma ExecStepKeeps(s: Sys, i: nat)
    requires Inv(s) && Guard(s, Exec(i))
    ensures Defined(s, Exec(i)) && Inv(Next(s, Exec(i)))
  {
    ExecKeeps(i, s.disks[i], TokenOf(s, i));
    var t := Executed(s, i);
    assert !Starving(t, i);
    DiskStepKeeps(s, t, i, t.disks[i]);
  }

  lemma ExecFailStepKeeps(s: Sys, e: Event)
    requires Inv(s) && e.ExecFail? && Guard(s, e)
    ensures Inv(Next(s, e))
  {
    ExecFailKeeps(e.i, s.disks[e.i], TokenOf(s, e.i), e.torn, e.scribble, e.n);
    var t := Next(s, e);
    assert !Starving(t, e.i);
    DiskStepKeeps(s, t, e.i, t.disks[e.i]);
  }

  lemma WakeKeeps(s: Sys, i: nat)
    requires Inv(s) && Guard(s, Wake(i))
    ensures Inv(Next(s, Wake(i)))
  {
    var t := Next(s, Wake(i));
    assert !Starving(t, i);
    DiskStepKeeps(s, t, i, t.disks[i]);
  }

  lemma SendKeeps(s: Sys, i: nat)
    requires Inv(s) && Guard(s, Send(i))
    ensures Inv(Next(s, Send(i)))
  {
    var t := Next(s, Send(i));
    assert !Starving(t, i);
    DiskStepKeeps(s, t, i, t.disks[i]);
  }

  /** The look-up finds the sender's own disk, exactly while it is linked. */
  lemma LookupFindsOwn(s: Sys, i: nat)
    requires CoreInv(s) && i < |s.disks| && s.disks[i].worker.Sent?
    ensures FindLinked(s.disks, s.disks[i].worker.reply.handle, 0) == if s.disks[i].stage.Linked? then Some(i) else None
  {
    assert DiskInv(i, s.disks[i], TokenOf(s, i));
    var found := FindLinked(s.disks, s.disks[i].worker.reply.handle, 0);
    if found.Some? {
      assert DiskInv(found.value, s.disks[found.value], TokenOf(s, found.value));
    }
  }

  lemma LookupKeeps(s: Sys, i: nat)
    requires Inv(s) && Guard(s, Lookup(i))
    ensures Inv(LookedUp(s, i))
  {
    LookupFindsOwn(s, i);
    var t := LookedUp(s, i);
    assert !Starving(t, i);
    DiskStepKeeps(s, t, i, t.disks[i]);
  }

  lemma SectionKeeps(s: Sys, i: nat)
    requires Inv(s) && Guard(s, Section(i)) && Defined(s, Section(i))
    ensures Inv(Next(s, Section(i)))
  {
    ReplyKeeps(i, s.disks[i], TokenOf(s, i));
    var t := Replied(s, i);
    var d := t.disks[i];
    assert t.disks == s.disks[i := d];
    DiskStepKeeps(s, t, i, d);
  }

  /** A worker past its section returns to its events. */
  lemma TailEnds(u: Sys, t: Sys, i: nat)
    requires CoreInv(u) && i < |u.disks| && u.disks[i].worker.Tail?
    requires t == SetWorker(u, i, Idle)
    ensures CoreInv(t)
  {
    assert DiskInv(i, u.disks[i], TokenOf(u, i));
    OneDiskKeeps(u, t, i, u.disks[i].(worker := Idle));
  }

  lemma StartOwedCore(s: Sys, i: nat)
    requires Inv(s) && Guard(s, StartOwed(i))
    ensures Defined(s, StartOwed(i)) && s.disks[i].worker.target == i && CoreInv(Next(s, StartOwed(i)))
  {
    assert s.disks[i].worker.target == i by {
      assert DiskInv(i, s.disks[i], TokenOf(s, i));
    }
    AbsorbOwed(s, i);
    var u := Absorb(s, i, StartNext(s.disks[i].pdo, s.parked));
    TailEnds(u, SetWorker(u, i, Idle), i);
  }

  lemma StartOwedKeeps(s: Sys, i: nat)
    requires Inv(s) && Guard(s, StartOwed(i))
    ensures Defined(s, StartOwed(i)) && Inv(Next(s, StartOwed(i)))
  {
    StartOwedCore(s, i);
    WakeUpsKept(s, Next(s, StartOwed(i)), i);
  }

  lemma RemoveFinalCore(s: Sys, i: nat)
    requires Inv(s) && Guard(s, RemoveFinal(i))
    ensures CoreInv(Next(s, RemoveFinal(i)))
  {
    var t := Next(s, RemoveFinal(i));
    GoneKeeps(i, s.disks[i], TokenOf(s, i));
    assert TokenOf(t, i) == NoToken;
    forall j | 0 <= j < |t.disks| ensures DiskInv(j, t.disks[j], TokenOf(t, j)) {
      assert j != i ==> t.disks[j] == s.disks[j] && TokenOf(t, j) == TokenOf(s, j);
    }
  }

  lemma RemoveFinalKeeps(s: Sys, i: nat)
    requires Inv(s) && Guard(s, RemoveFinal(i))
    ensures Inv(Next(s, RemoveFinal(i)))
  {
    RemoveFinalCore(s, i);
    WakeUpsKept(s, Next(s, RemoveFinal(i)), i);
  }

  /** Every step keeps the invariant. */
  lemma StepKeeps(s: Sys, e: Event)
    requires Inv(s) && Guard(s, e) && Defined(s, e)
    ensures Inv(Next(s, e))
  {
    if e.Clear? || e.Finish? {
      RemovalStepKeeps(s, e);
    } else {
      match e
      case Arrive(i, irp) => ArriveKeeps(s, i, irp);
      case CancelQueued(i, k) => CancelKeeps(s, i, k);
      case AddDisk(handle, backing, mailbox) => AddDiskKeeps(s, handle, backing, mailbox);
      case Unlink(i) => UnlinkKeeps(s, i);
      case Drain(i) => DrainKeeps(s, i);
      case Issue => IssueKeeps(s);
      case Step => WalkKeeps(s);
      case Visit => VisitKeeps(s);
      case Receive => ReceiveKeeps(s);
      case Find => FindKeeps(s);
      case Post => PostKeeps(s);
      case Signal => SignalKeeps(s);
      case Wake(i) => WakeKeeps(s, i);
      case Exec(i) => ExecStepKeeps(s, i);
      case ExecFail(_, _, _, _) => ExecFailStepKeeps(s, e);
      case Send(i) => SendKeeps(s, i);
      case Lookup(i) => LookupKeeps(s, i);
      case Section(i) => SectionKeeps(s, i);
      case StartOwed(i) => StartOwedKeeps(s, i);
      case RemoveFinal(i) => RemoveFinalKeeps(s, i);
    }
  }

  /** The copy-out of this step would overrun the requester's buffer: a late reply finds a stray READ that is shorter
      than what the reply's own packet read. */
  predicate Overruns(s: Sys, e: Event)
    requires Guard(s, e)
  {
    && e.Section?
    && var d := s.disks[s.disks[e.i].worker.target];
    Stray(d) && Fits(d.pdo.current.value) && Code(d.pdo.current.value) == SCSIOP_READ
    && s.disks[e.i].worker.reply.numBytes > |d.pdo.current.value.data|
  }

  /** Every copy of every step stays inside its buffers, with exactly this exception. */
  lemma BoundsAreExact(s: Sys, e: Event)
    requires Inv(s) && Guard(s, e)
    ensures Defined(s, e) <==> !Overruns(s, e)
  {
    if e.Arrive? || e.Exec? || e.Section? || e.StartOwed? {
      assert DiskInv(e.i, s.disks[e.i], TokenOf(s, e.i));
    }
    if e.Section? {
      ReplyKeeps(e.i, s.disks[e.i], TokenOf(s, e.i));
    } else if e.Exec? {
      ExecKeeps(e.i, s.disks[e.i], TokenOf(s, e.i));
    }
  }

  /** Only a registration adds a disk. */
  lemma NoNewDisk(s: Sys, e: Event)
    requires Guard(s, e) && Defined(s, e)
    ensures |Next(s, e).disks| == |s.disks| + if e.AddDisk? then 1 else 0
  {
  }

  /** The steps that start packets pass a busy disk by. */
  lemma StartsPassBusyDisks(s: Sys, e: Event, i: nat)
    requires Guard(s, e) && Defined(s, e) && i < |s.disks| && s.disks[i].pdo.current.Some?
    requires e.Arrive? || e.Visit? || e.StartOwed?
    ensures i < |Next(s, e).disks| && Next(s, e).disks[i].pdo.buffer == s.disks[i].pdo.buffer
    ensures Next(s, e).disks[i].pdo.current == s.disks[i].pdo.current
  {
  }

  /** CurrentIrp never goes from one packet to another in one step. */
  lemma CurrentIsKept(s: Sys, e: Event, i: nat)
    requires Guard(s, e) && Defined(s, e) && i < |s.disks| && s.disks[i].pdo.current.Some?
    ensures i < |Next(s, e).disks|
    ensures Next(s, e).disks[i].pdo.current == s.disks[i].pdo.current || Next(s, e).disks[i].pdo.current.None?
  {
    if e.Arrive? || e.Visit? || e.StartOwed? {
      StartsPassBusyDisks(s, e, i);
    }
  }

  lemma {:induction false} StepsKeep(s: Sys, es: seq<Event>)
    requires Inv(s) && Steps(s, es)
    ensures Inv(EndOf(s, es))
  {
    if es != [] {
      StepsKeep(s, es[..|es| - 1]);
      StepKeeps(EndOf(s, es[..|es| - 1]), es[|es| - 1]);
    }
  }

  /** Every reachable state has the invariant. */
  lemma Reachable(es: seq<Event>)
    requires Legal(es)
    ensures Inv(Final(es))
  {
    StepsKeep(Init(), es);
  }

  lemma Grow(s: Sys, es: seq<Event>, t: Sys, e: Event) returns (more: seq<Event>)
    requires Steps(s, es) && EndOf(s, es) == t && Guard(t, e) && Defined(t, e)
    ensures more == es + [e] && Steps(s, more) && EndOf(s, more) == Next(t, e)
  {
    more := es + [e];
    assert more[..|more| - 1] == es;
  }

  /** A run grows by a step. */
  lemma Extend(s: Sys, es: seq<Event>, t: Sys, e: Event) returns (more: seq<Event>)
    requires Inv(s) && Steps(s, es) && EndOf(s, es) == t && Guard(t, e) && !e.Section?
    ensures Inv(t) && Defined(t, e) && more == es + [e] && Steps(s, more) && EndOf(s, more) == Next(t, e)
  {
    StepsKeep(s, es);
    BoundsAreExact(t, e);
    more := Grow(s, es, t, e);
  }

  /** One run after another. */
  lemma {:induction false} Concat(s: Sys, es: seq<Event>, fs: seq<Event>)
    requires Steps(s, es) && Steps(EndOf(s, es), fs)
    ensures Steps(s, es + fs) && EndOf(s, es + fs) == EndOf(EndOf(s, es), fs)
  {
    if fs == [] {
      assert es + fs == es;
    } else {
      var n := |fs| - 1;
      Concat(s, es, fs[..n]);
      assert (es + fs)[..|es + fs| - 1] == es + fs[..n] && (es + fs)[|es + fs| - 1] == fs[n];
    }
  }
}
