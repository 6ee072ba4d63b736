/** End to end: the queue, the shared buffer, the mailbox and the file together behave as one array of bytes per
    disk, written atomically in the order in which WRITE packets become current. */
module PipelineRefinement {
  import opened Base
  import opened Blocks
  import opened Packets
  import opened Pipeline
  import opened PipelineInvariant
  import opened PipelineSafety

  /** What an outside observer records of a run: registrations, WRITE packets becoming current, and what a failed
      storage call left in a file. */
  datatype Action = Added(backing: seq<Byte>) | Wrote(i: nat, irp: Irp) | Torn(i: nat, left: seq<Byte>)

  /** The atomic array of bytes per disk, and one action on it. */
  function Apply(arrays: seq<seq<Byte>>, a: Action): seq<seq<Byte>> {
    match a
    case Added(backing) => arrays + [backing]
    case Wrote(i, irp) => if i < |arrays| && Fits(irp) then arrays[i := Written(irp, arrays[i])] else arrays
    case Torn(i, left) => if i < |arrays| then arrays[i := left] else arrays
  }

  function Replay(actions: seq<Action>): seq<seq<Byte>> {
    if actions == [] then [] else Apply(Replay(actions[..|actions| - 1]), actions[|actions| - 1])
  }

  /** The disk and the packet that become current, if any. */
  function DispatchOf(s: Sys, e: Event): Option<(nat, Irp)>
    requires Guard(s, e)
  {
    match e
    case Arrive(i, irp) => if s.disks[i].pdo.current.None? && s.parked != [] then Some((i, irp)) else None
    case Visit => NextPacket(s, s.fetch.at)
    case StartOwed(i) => NextPacket(s, s.disks[i].worker.target)
    case _ => None
  }

  function NextPacket(s: Sys, i: nat): Option<(nat, Irp)>
    requires i < |s.disks|
  {
    var pdo := s.disks[i].pdo;
    if pdo.current.None? && s.parked != [] && pdo.irpQueue != [] then Some((i, pdo.irpQueue[0])) else None
  }

  predicate BecameCurrent(s: Sys, t: Sys, i: nat, irp: Irp)
  {
    i < |s.disks| && i < |t.disks| && s.disks[i].pdo.current.None? && t.disks[i].pdo.current == Some(irp)
  }

  lemma StartIsBecomingCurrent(s: Sys, e: Event, i: nat, irp: Irp)
    requires Inv(s) && Guard(s, e) && Defined(s, e)
    requires e.Arrive? || e.Visit? || e.StartOwed?
    ensures BecameCurrent(s, Next(s, e), i, irp) <==> DispatchOf(s, e) == Some((i, irp))
  {
    if e.StartOwed? {
      assert DiskInv(e.i, s.disks[e.i], TokenOf(s, e.i));
    }
  }

  lemma OthersStartNothing(s: Sys, e: Event, i: nat, irp: Irp)
    requires Guard(s, e) && Defined(s, e)
    requires !e.Arrive? && !e.Visit? && !e.StartOwed?
    ensures !BecameCurrent(s, Next(s, e), i, irp)
  {
  }

  /** An observer that only compares CurrentIrp before and after a step sees the same. */
  lemma DispatchIsBecomingCurrent(s: Sys, e: Event, i: nat, irp: Irp)
    requires Inv(s) && Guard(s, e) && Defined(s, e)
    ensures BecameCurrent(s, Next(s, e), i, irp) <==> DispatchOf(s, e) == Some((i, irp))
  {
    if e.Arrive? || e.Visit? || e.StartOwed? {
      StartIsBecomingCurrent(s, e, i, irp);
    } else {
      OthersStartNothing(s, e, i, irp);
    }
  }

  function Observed(s: Sys, e: Event): seq<Action>
    requires Guard(s, e)
  {
    match e
    case AddDisk(_, backing, _) => [Added(backing)]
    case ExecFail(i, torn, _, _) => [Torn(i, torn)]
    case _ =>
      var d := DispatchOf(s, e);
      if d.Some? && Fits(d.value.1) && Code(d.value.1) == SCSIOP_WRITE then [Wrote(d.value.0, d.value.1)] else []
  }

  function Trace(es: seq<Event>): seq<Action>
    requires Legal(es)
  {
    if es == [] then [] else Trace(es[..|es| - 1]) + Observed(Final(es[..|es| - 1]), es[|es| - 1])
  }

  /** The array a disk stands for: its file, with a dispatched but unserved WRITE already in it. */
  function Contents(d: Disk, t: FetchToken): seq<Byte>
    requires Sound(d.pdo)
  {
    if d.pdo.current.Some? && Code(d.pdo.current.value) == SCSIOP_WRITE && Unserved(d, t)
    then Written(d.pdo.current.value, d.file) else d.file
  }

  predicate Refines(s: Sys, arrays: seq<seq<Byte>>) {
    && |arrays| == |s.disks|
    && forall i :: 0 <= i < |s.disks| && Uncleared(s.disks[i].stage) ==>
         Sound(s.disks[i].pdo) && arrays[i] == Contents(s.disks[i], TokenOf(s, i))
  }

  function After(arrays: seq<seq<Byte>>, observed: seq<Action>): seq<seq<Byte>> {
    if observed == [] then arrays else Apply(arrays, observed[0])
  }

  // ---- one disk ----

  /** Serving a WRITE writes exactly the staged payload. */
  lemma ServeRefines(i: nat, d: Disk, t: FetchToken)
    requires DiskInv(i, d, t) && Uncleared(d.stage) && d.worker.Woken?
    ensures ValidRequest(d.req) && |d.pdo.buffer| == BUFFER_SIZE
    ensures Serve(d.file, d.pdo.buffer, d.req).file == Contents(d, t)
  {
  }

  /** A READ about to be completed carries the bytes of the array. */
  lemma ReplyCarriesContents(i: nat, d: Disk, t: FetchToken)
    requires DiskInv(i, d, t) && Uncleared(d.stage) && d.worker.Found? && d.worker.reply.ok
    ensures d.pdo.current.Some?
    ensures var irp := d.pdo.current.value; var n := d.worker.reply.numBytes;
            Code(irp) == SCSIOP_READ ==>
              && n <= |irp.data| && n <= |d.pdo.buffer| && d.pdo.buffer[..n] == Wanted(irp, Contents(d, t))
  {
  }

  /** A packet becoming current changes the array at once if it is a WRITE, and not at all if it is a READ. */
  lemma DispatchRefines(i: nat, d: Disk, irp: Irp, queue: seq<Irp>)
    requires DiskInv(i, d, NoToken) && Uncleared(d.stage) && d.pdo.current.None? && Fits(irp) && Sound(d.pdo.(irpQueue := queue))
    ensures var after := d.(pdo := Dispatch(d.pdo.(irpQueue := queue), irp));
            Sound(after.pdo) && Contents(after, Carrying(MakeRequest(d.pdo.serialNo, irp)))
              == if Code(irp) == SCSIOP_WRITE then Written(irp, Contents(d, NoToken)) else Contents(d, NoToken)
  {
  }

  // ---- one step ----

  function WriteOf(i: nat, effect: Effect): seq<Action> {
    if effect.answer.Some? && effect.pdo.current.Some? && Fits(effect.pdo.current.value)
       && Code(effect.pdo.current.value) == SCSIOP_WRITE
    then [Wrote(i, effect.pdo.current.value)] else []
  }

  lemma AbsorbedDisk(s: Sys, i: nat, effect: Effect)
    requires CoreInv(s) && i < |s.disks| && Starts(s.disks[i].pdo, s.parked, effect) && Uncleared(s.disks[i].stage)
    ensures Sound(effect.pdo)
    ensures var t := Absorb(s, i, effect); var was := Contents(s.disks[i], TokenOf(s, i));
            Contents(t.disks[i], TokenOf(t, i)) ==
              if WriteOf(i, effect) == [] then was else Written(effect.pdo.current.value, was)
  {
    assert DiskInv(i, s.disks[i], TokenOf(s, i));
    if effect.answer.Some? {
      DispatchRefines(i, s.disks[i], effect.pdo.current.value, effect.pdo.irpQueue);
    }
  }

  lemma AbsorbedElsewhere(s: Sys, i: nat, effect: Effect, j: nat)
    requires CoreInv(s) && i < |s.disks| && Starts(s.disks[i].pdo, s.parked, effect) && j < |s.disks| && j != i
    requires s.disks[i].stage.Destroyed? || s.disks[i].stage.Gone? ==> effect.pdo == s.disks[i].pdo
    ensures TokenOf(Absorb(s, i, effect), j) == TokenOf(s, j)
  {
  }

  lemma AbsorbRefines(s: Sys, i: nat, effect: Effect, arrays: seq<seq<Byte>>)
    requires CoreInv(s) && i < |s.disks| && Starts(s.disks[i].pdo, s.parked, effect)
    requires s.disks[i].stage.Destroyed? || s.disks[i].stage.Gone? ==> effect.pdo == s.disks[i].pdo
    requires Refines(s, arrays)
    ensures Refines(Absorb(s, i, effect), After(arrays, WriteOf(i, effect)))
  {
    var t := Absorb(s, i, effect);
    var next := After(arrays, WriteOf(i, effect));
    forall j | 0 <= j < |t.disks| && Uncleared(t.disks[j].stage)
      ensures Sound(t.disks[j].pdo) && next[j] == Contents(t.disks[j], TokenOf(t, j))
    {
      if j == i {
        AbsorbedDisk(s, i, effect);
      } else {
        AbsorbedElsewhere(s, i, effect, j);
      }
    }
  }

  /** The fetch thread moving on under the same tokens. */
  lemma FetchMovesQuietly(u: Sys, t: Sys, arrays: seq<seq<Byte>>)
    requires Refines(u, arrays) && t.disks == u.disks && Carried(t) == Carried(u)
    requires t.fetch == u.fetch || (!t.fetch.Posting? && !u.fetch.Posting?)
    ensures Refines(t, arrays)
  {
    assert forall j :: 0 <= j < |t.disks| ==> TokenOf(t, j) == TokenOf(u, j);
  }

  /** One disk's record changing without an effect on its array. */
  lemma OneDiskQuietly(s: Sys, t: Sys, i: nat, d: Disk, arrays: seq<seq<Byte>>)
    requires Refines(s, arrays) && i < |s.disks| && t.disks == s.disks[i := d]
    requires t.delivered == s.delivered && t.fetch == s.fetch && d.pdo.serialNo == s.disks[i].pdo.serialNo
    requires Uncleared(d.stage) ==>
               Uncleared(s.disks[i].stage) && Sound(d.pdo)
               && Contents(d, TokenOf(s, i)) == Contents(s.disks[i], TokenOf(s, i))
    ensures Refines(t, arrays)
  {
    assert forall j :: 0 <= j < |t.disks| && (j != i || Uncleared(d.stage)) ==> TokenOf(t, j) == TokenOf(s, j);
  }

  lemma ArriveRefines(s: Sys, i: nat, irp: Irp, arrays: seq<seq<Byte>>)
    requires Inv(s) && Guard(s, Arrive(i, irp)) && Refines(s, arrays)
    ensures Defined(s, Arrive(i, irp)) && Refines(Next(s, Arrive(i, irp)), After(arrays, Observed(s, Arrive(i, irp))))
  {
    assert DiskInv(i, s.disks[i], TokenOf(s, i));
    var effect := StartPacket(s.disks[i].pdo, s.parked, irp);
    StartPacketStarts(s.disks[i].pdo, s.parked, irp);
    AbsorbRefines(s, i, effect, arrays);
    assert Observed(s, Arrive(i, irp)) == WriteOf(i, effect);
    FetchMovesQuietly(Absorb(s, i, effect), Next(s, Arrive(i, irp)), After(arrays, WriteOf(i, effect)));
  }

  lemma StartNextRefines(s: Sys, i: nat, arrays: seq<seq<Byte>>)
    requires CoreInv(s) && i < |s.disks| && Refines(s, arrays)
    ensures Sound(s.disks[i].pdo)
    ensures var effect := StartNext(s.disks[i].pdo, s.parked);
            Refines(Absorb(s, i, effect), After(arrays, WriteOf(i, effect)))
  {
    assert DiskInv(i, s.disks[i], TokenOf(s, i));
    StartNextStarts(s.disks[i].pdo, s.parked);
    AbsorbRefines(s, i, StartNext(s.disks[i].pdo, s.parked), arrays);
  }

  lemma VisitRefines(s: Sys, arrays: seq<seq<Byte>>)
    requires Inv(s) && Guard(s, Visit) && Refines(s, arrays)
    ensures Defined(s, Visit) && Refines(Next(s, Visit), After(arrays, Observed(s, Visit)))
  {
    var i := s.fetch.at;
    StartNextRefines(s, i, arrays);
    var effect := StartNext(s.disks[i].pdo, s.parked);
    assert Observed(s, Visit) == WriteOf(i, effect);
    FetchMovesQuietly(Absorb(s, i, effect), Next(s, Visit), After(arrays, WriteOf(i, effect)));
  }

  lemma StartOwedRefines(s: Sys, i: nat, arrays: seq<seq<Byte>>)
    requires Inv(s) && Guard(s, StartOwed(i)) && Refines(s, arrays)
    ensures Defined(s, StartOwed(i)) && Refines(Next(s, StartOwed(i)), After(arrays, Observed(s, StartOwed(i))))
  {
    assert s.disks[i].worker.target == i by {
      assert DiskInv(i, s.disks[i], TokenOf(s, i));
    }
    StartNextRefines(s, i, arrays);
    AbsorbOwed(s, i);
    var effect := StartNext(s.disks[i].pdo, s.parked);
    var u := Absorb(s, i, effect);
    assert Observed(s, StartOwed(i)) == WriteOf(i, effect);
    TailEndsQuietly(u, i, After(arrays, WriteOf(i, effect)));
  }

  lemma TailEndsQuietly(u: Sys, i: nat, arrays: seq<seq<Byte>>)
    requires CoreInv(u) && i < |u.disks| && u.disks[i].worker.Tail? && Refines(u, arrays)
    ensures Refines(SetWorker(u, i, Idle), arrays)
  {
    assert DiskInv(i, u.disks[i], TokenOf(u, i));
    OneDiskQuietly(u, SetWorker(u, i, Idle), i, u.disks[i].(worker := Idle), arrays);
  }

  lemma ExecRefines(s: Sys, i: nat, arrays: seq<seq<Byte>>)
    requires Inv(s) && Guard(s, Exec(i)) && Refines(s, arrays)
    ensures Defined(s, Exec(i)) && Refines(Next(s, Exec(i)), arrays)
  {
    var d := s.disks[i];
    ExecKeeps(i, d, TokenOf(s, i));
    var t := Executed(s, i);
    if Uncleared(d.stage) {
      ServeRefines(i, d, TokenOf(s, i));
    }
    OneDiskQuietly(s, t, i, t.disks[i], arrays);
  }

  lemma ExecFailRefines(s: Sys, e: Event, arrays: seq<seq<Byte>>)
    requires Inv(s) && e.ExecFail? && Guard(s, e) && Refines(s, arrays)
    ensures Refines(Next(s, e), After(arrays, Observed(s, e)))
  {
    var t := Next(s, e);
    assert DiskInv(e.i, s.disks[e.i], TokenOf(s, e.i));
    assert forall j :: 0 <= j < |t.disks| ==> TokenOf(t, j) == TokenOf(s, j);
  }

  lemma AddDiskRefines(s: Sys, e: Event, arrays: seq<seq<Byte>>)
    requires Inv(s) && e.AddDisk? && Guard(s, e) && Refines(s, arrays)
    ensures Refines(Next(s, e), After(arrays, Observed(s, e)))
  {
    var t := Next(s, e);
    assert forall j :: 0 <= j < |s.disks| ==> TokenOf(t, j) == TokenOf(s, j);
  }

  /** The fetch thread's steps outside the scan touch neither packets nor files. */
  lemma FetchRefines(s: Sys, e: Event, arrays: seq<seq<Byte>>)
    requires Guard(s, e) && Refines(s, arrays) && FetchInv(s)
    requires e.Issue? || e.Step? || e.Receive?
    ensures Refines(Next(s, e), arrays)
  {
    FetchMovesQuietly(s, Next(s, e), arrays);
  }

  lemma FindRefines(s: Sys, arrays: seq<seq<Byte>>)
    requires Guard(s, Find) && Refines(s, arrays) && FetchInv(s)
    ensures Refines(Aimed(s), arrays)
  {
    var t := Aimed(s);
    assert forall j :: 0 <= j < |t.disks| ==> TokenOf(t, j) == TokenOf(s, j);
  }

  /** Handing a request over moves the token from the fetch thread to the mailbox. */
  lemma PostRefines(s: Sys, arrays: seq<seq<Byte>>)
    requires Inv(s) && Guard(s, Post) && Refines(s, arrays)
    ensures Refines(Posted(s), arrays)
  {
    var t := Posted(s);
    TargetIsCarried(s);
    forall j | 0 <= j < |t.disks| && Uncleared(t.disks[j].stage)
      ensures Sound(t.disks[j].pdo) && arrays[j] == Contents(t.disks[j], TokenOf(t, j))
    {
      assert j != s.fetch.target ==> t.disks[j] == s.disks[j] && TokenOf(t, j) == TokenOf(s, j);
    }
  }

  lemma SignalRefines(s: Sys, arrays: seq<seq<Byte>>)
    requires Inv(s) && Guard(s, Signal) && Refines(s, arrays)
    ensures Refines(Next(s, Signal), arrays)
  {
    var t := Next(s, Signal);
    forall j | 0 <= j < |t.disks| && Uncleared(t.disks[j].stage)
      ensures Sound(t.disks[j].pdo) && arrays[j] == Contents(t.disks[j], TokenOf(t, j))
    {
      assert j != s.fetch.target ==> t.disks[j] == s.disks[j] && TokenOf(t, j) == TokenOf(s, j);
    }
  }

  /** Steps that touch one disk's record and no array. */
  lemma QuietStep(s: Sys, e: Event, i: nat, arrays: seq<seq<Byte>>)
    requires Inv(s) && Guard(s, e) && Refines(s, arrays) && i < |s.disks|
    requires e == Wake(i) || e == Send(i) || (e.CancelQueued? && e.i == i)
    ensures Refines(Next(s, e), arrays)
  {
    var t := Next(s, e);
    assert DiskInv(i, s.disks[i], TokenOf(s, i));
    OneDiskQuietly(s, t, i, t.disks[i], arrays);
  }

  lemma LookupRefines(s: Sys, i: nat, arrays: seq<seq<Byte>>)
    requires Inv(s) && Guard(s, Lookup(i)) && Refines(s, arrays)
    ensures Refines(LookedUp(s, i), arrays)
  {
    var t := LookedUp(s, i);
    assert DiskInv(i, s.disks[i], TokenOf(s, i));
    OneDiskQuietly(s, t, i, t.disks[i], arrays);
  }

  /** A removal moving on leaves the array alone until CurrentIrp is cleared. */
  lemma RemovalRefines(s: Sys, e: Event, arrays: seq<seq<Byte>>)
    requires Inv(s) && Guard(s, e) && Refines(s, arrays)
    requires e.Unlink? || e.Clear? || e.Drain? || e.Finish? || e.RemoveFinal?
    ensures Refines(Next(s, e), arrays)
  {
    var t := Next(s, e);
    OneDiskQuietly(s, t, e.i, t.disks[e.i], arrays);
  }

  lemma SectionRefines(s: Sys, i: nat, arrays: seq<seq<Byte>>)
    requires Inv(s) && Guard(s, Section(i)) && Defined(s, Section(i)) && Refines(s, arrays)
    ensures Refines(Replied(s, i), arrays)
  {
    var t := Replied(s, i);
    assert DiskInv(i, s.disks[i], TokenOf(s, i));
    assert t.disks == s.disks[i := t.disks[i]];
    OneDiskQuietly(s, t, i, t.disks[i], arrays);
  }

  /** The steps an observer does not see. */
  lemma UnseenRefines(s: Sys, e: Event, arrays: seq<seq<Byte>>)
    requires Inv(s) && Guard(s, e) && Defined(s, e) && Refines(s, arrays)
    requires !e.Arrive? && !e.Visit? && !e.StartOwed? && !e.ExecFail? && !e.AddDisk?
    ensures Refines(Next(s, e), arrays)
  {
    if e.Unlink? || e.Clear? || e.Drain? || e.Finish? || e.RemoveFinal? {
      RemovalRefines(s, e, arrays);
    } else if e.Wake? || e.Send? || e.CancelQueued? {
      QuietStep(s, e, e.i, arrays);
    } else if e.Issue? || e.Step? || e.Receive? {
      FetchRefines(s, e, arrays);
    } else {
      match e
      case Exec(i) => ExecRefines(s, i, arrays);
      case Find => FindRefines(s, arrays);
      case Post => PostRefines(s, arrays);
      case Signal => SignalRefines(s, arrays);
      case Lookup(i) => LookupRefines(s, i, arrays);
      case Section(i) => SectionRefines(s, i, arrays);
    }
  }

  lemma StepRefines(s: Sys, e: Event, arrays: seq<seq<Byte>>)
    requires Inv(s) && Guard(s, e) && Defined(s, e) && Refines(s, arrays)
    ensures Refines(Next(s, e), After(arrays, Observed(s, e)))
  {
    if e.Arrive? {
      ArriveRefines(s, e.i, e.irp, arrays);
    } else if e.Visit? {
      VisitRefines(s, arrays);
    } else if e.StartOwed? {
      StartOwedRefines(s, e.i, arrays);
    } else if e.ExecFail? {
      ExecFailRefines(s, e, arrays);
    } else if e.AddDisk? {
      AddDiskRefines(s, e, arrays);
    } else {
      UnseenRefines(s, e, arrays);
    }
  }

  // ---- whole runs ----

  /** The replayed array follows the run step by step. */
  lemma ReplayStep(es: seq<Event>)
    requires Legal(es) && es != []
    ensures var before := es[..|es| - 1];
            Replay(Trace(es)) == After(Replay(Trace(before)), Observed(Final(before), es[|es| - 1]))
  {
    var before := es[..|es| - 1];
    var observed := Observed(Final(before), es[|es| - 1]);
    if observed == [] {
      assert Trace(es) == Trace(before);
    } else {
      assert Trace(es)[..|Trace(es)| - 1] == Trace(before) && Trace(es)[|Trace(es)| - 1] == observed[0];
    }
  }

  lemma {:induction false} RunRefines(es: seq<Event>)
    requires Legal(es)
    ensures Inv(Final(es)) && Refines(Final(es), Replay(Trace(es)))
  {
    Reachable(es);
    if es != [] {
      var before := es[..|es| - 1];
      RunRefines(before);
      StepRefines(Final(before), es[|es| - 1], Replay(Trace(before)));
      ReplayStep(es);
    }
  }

  /** The copy-out of a READ is the bytes of the array followed by the untouched rest of the requester's buffer. */
  lemma ReadReturns(i: nat, d: Disk, t: FetchToken)
    requires DiskInv(i, d, t) && Uncleared(d.stage) && d.worker.Found? && d.worker.reply.ok
    requires d.pdo.current.Some? && Code(d.pdo.current.value) == SCSIOP_READ
    ensures var irp := d.pdo.current.value; var bytes := Wanted(irp, Contents(d, t));
            ReplyFits(d.pdo, d.worker.reply) && Finished(d.pdo, d.worker.reply)
              == Some(Completion(irp.id, Success, |bytes|, bytes + irp.data[|bytes|..]))
  {
    var irp := d.pdo.current.value;
    var n := d.worker.reply.numBytes;
    assert d.pdo.buffer[..n] == Wanted(irp, d.file);
    assert |d.pdo.buffer[..n]| == n;
  }

  /** Durability: whenever a linked disk has no packet in flight, its file is the array. */
  lemma IdleFileIsArray(es: seq<Event>, i: nat)
    requires Legal(es) && i < |Final(es).disks|
    requires Uncleared(Final(es).disks[i].stage) && Final(es).disks[i].pdo.current.None?
    ensures i < |Replay(Trace(es))| && Final(es).disks[i].file == Replay(Trace(es))[i]
  {
    RunRefines(es);
  }

  // ---- in terms of block addresses ----

  /** The addressed blocks lie within the block count that `Init` stored for a file of this size. */
  predicate InRange(irp: Irp, size: nat)
    requires Fits(irp)
  {
    SizeAccepted(size) && DecodeCdb(irp.cdb).lba + DecodeCdb(irp.cdb).blocks <= StoredBlocks(size)
  }

  /** Every extent within the block count has its packets, for example one block of a file of one block. */
  lemma InRangePacket(op: Byte, id: nat, extent: Extent, data: seq<Byte>, size: nat) returns (irp: Irp)
    requires (op == SCSIOP_READ || op == SCSIOP_WRITE) && extent.lba < ULONG_SIZE && extent.blocks < 0x1_0000
    requires |data| == extent.blocks * BLOCK_SIZE <= BUFFER_SIZE
    requires SizeAccepted(size) && extent.lba + extent.blocks <= StoredBlocks(size)
    ensures Fits(irp) && Code(irp) == op && irp.data == data && InRange(irp, size)
  {
    DecodeInvertsEncode(op, extent);
    irp := Irp(id, EncodeCdb(op, extent), data);
  }

  /** A READ within the stored block count returns exactly those blocks. */
  lemma InRangeRead(irp: Irp, bytes: seq<Byte>)
    requires Fits(irp) && Code(irp) == SCSIOP_READ && InRange(irp, |bytes|)
    ensures var low := DecodeCdb(irp.cdb).lba * BLOCK_SIZE; var high := low + DecodeCdb(irp.cdb).blocks * BLOCK_SIZE;
            high <= |bytes| && Wanted(irp, bytes) == bytes[low..high] && |Wanted(irp, bytes)| == |irp.data|
  {
    EncodeInvertsDecode(irp.cdb);
    InRangeStaysInFile(|bytes|, DecodeCdb(irp.cdb).lba, DecodeCdb(irp.cdb).blocks);
  }

  /** A WRITE within the stored block count changes exactly those blocks and not the size. */
  lemma InRangeWrite(irp: Irp, bytes: seq<Byte>)
    requires Fits(irp) && Code(irp) == SCSIOP_WRITE && InRange(irp, |bytes|)
    ensures var low := DecodeCdb(irp.cdb).lba * BLOCK_SIZE; var high := low + DecodeCdb(irp.cdb).blocks * BLOCK_SIZE;
            high <= |bytes| && |irp.data| == high - low
            && Written(irp, bytes) == bytes[..low] + irp.data + bytes[high..]
  {
    EncodeInvertsDecode(irp.cdb);
    InRangeStaysInFile(|bytes|, DecodeCdb(irp.cdb).lba, DecodeCdb(irp.cdb).blocks);
  }
}
