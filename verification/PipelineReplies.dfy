/** Whose packet a reply completes. Replies carry no packet; a reply completes whatever is current on its disk. It is
    the packet that the worker took the request of as long as the removal of the disk has not cleared CurrentIrp, and
    never afterwards. */
module PipelineReplies {
  import opened Base
  import opened Blocks
  import opened Packets
  import opened Pipeline
  import opened PipelineInvariant
  import opened PipelineSafety

  /** No packet with this id waits on the disk. */
  predicate NotQueued(pdo: Pdo, id: nat) {
    forall k :: 0 <= k < |pdo.irpQueue| ==> pdo.irpQueue[k].id != id
  }

  predicate QueueDistinct(queue: seq<Irp>) {
    forall j, k :: 0 <= j < k < |queue| ==> queue[j].id != queue[k].id
  }

  /** The packets of a disk are accepted and different, and the record of what the worker serves is of use: it names
      the current packet while the worker is busy with it, and no packet of the queue. */
  predicate Identified(accepted: seq<nat>, d: Disk) {
    && QueueDistinct(d.pdo.irpQueue)
    && (forall k :: 0 <= k < |d.pdo.irpQueue| ==> d.pdo.irpQueue[k].id in accepted)
    && (d.pdo.current.Some? ==> d.pdo.current.value.id in accepted && NotQueued(d.pdo, d.pdo.current.value.id))
    && (d.served.Some? ==> d.served.value.id in accepted && NotQueued(d.pdo, d.served.value.id))
    && (Uncleared(d.stage) && Busy(d.worker) ==> d.served.Some? && (d.pdo.current.Some? ==> d.pdo.current == d.served))
    && (!Uncleared(d.stage) && d.worker.Found? ==> d.served.Some? && d.pdo.current != d.served)
  }

  predicate AllIdentified(s: Sys) {
    forall i :: 0 <= i < |s.disks| ==> Identified(s.accepted, s.disks[i])
  }

  // ---- one disk ----

  lemma StartNextIdentified(accepted: seq<nat>, i: nat, d: Disk, t: FetchToken, parked: seq<Fetcher>)
    requires Identified(accepted, d) && DiskInv(i, d, t)
    ensures Identified(accepted, d.(pdo := StartNext(d.pdo, parked).pdo))
  {
  }

  lemma StartPacketIdentified(accepted: seq<nat>, i: nat, d: Disk, t: FetchToken, parked: seq<Fetcher>, irp: Irp)
    requires Identified(accepted, d) && DiskInv(i, d, t) && Fits(irp) && irp.id !in accepted
    ensures Identified(accepted + [irp.id], d.(pdo := StartPacket(d.pdo, parked, irp).pdo))
  {
  }

  lemma DropIdentified(accepted: seq<nat>, d: Disk, k: nat)
    requires Identified(accepted, d) && k < |d.pdo.irpQueue|
    ensures Identified(accepted, d.(pdo := d.pdo.(irpQueue := Without(d.pdo.irpQueue, k))))
  {
  }

  lemma MoreAccepted(accepted: seq<nat>, id: nat, d: Disk)
    requires Identified(accepted, d)
    ensures Identified(accepted + [id], d)
  {
  }

  // ---- one step ----

  lemma ArriveIdentifies(s: Sys, e: Event, i: nat)
    requires Inv(s) && Guard(s, e) && Defined(s, e) && AllIdentified(s) && i < |s.disks| && e.Arrive?
    ensures i < |Next(s, e).disks| && Identified(Next(s, e).accepted, Next(s, e).disks[i])
  {
    var d := s.disks[i];
    StartPacketIdentified(s.accepted, i, d, TokenOf(s, i), s.parked, e.irp);
    MoreAccepted(s.accepted, e.irp.id, d);
  }

  lemma StartsIdentify(s: Sys, e: Event, i: nat)
    requires Inv(s) && Guard(s, e) && Defined(s, e) && AllIdentified(s) && i < |s.disks| && (e.Visit? || e.StartOwed?)
    ensures i < |Next(s, e).disks| && Identified(Next(s, e).accepted, Next(s, e).disks[i])
  {
    StartNextIdentified(s.accepted, i, s.disks[i], TokenOf(s, i), s.parked);
    if e.StartOwed? {
      assert DiskInv(e.i, s.disks[e.i], TokenOf(s, e.i));
    }
  }

  lemma WorkerIdentifies(s: Sys, e: Event, i: nat)
    requires Inv(s) && Guard(s, e) && Defined(s, e) && AllIdentified(s) && i < |s.disks|
    requires e.Wake? || e.Exec? || e.ExecFail? || e.Send?
    ensures i < |Next(s, e).disks| && Identified(Next(s, e).accepted, Next(s, e).disks[i])
  {
    assert DiskInv(i, s.disks[i], TokenOf(s, i));
  }

  lemma CallsIdentify(s: Sys, e: Event, i: nat)
    requires Inv(s) && Guard(s, e) && Defined(s, e) && AllIdentified(s) && i < |s.disks|
    requires e.Lookup? || e.Section?
    ensures i < |Next(s, e).disks| && Identified(Next(s, e).accepted, Next(s, e).disks[i])
  {
    assert DiskInv(e.i, s.disks[e.i], TokenOf(s, e.i));
    if e.Lookup? {
      LookupFindsOwn(s, e.i);
    }
  }

  lemma DropsIdentify(s: Sys, e: Event, i: nat)
    requires Guard(s, e) && AllIdentified(s) && i < |s.disks| && (e.CancelQueued? || e.Drain?)
    ensures i < |Next(s, e).disks| && Identified(Next(s, e).accepted, Next(s, e).disks[i])
  {
    if e.CancelQueued? {
      DropIdentified(s.accepted, s.disks[e.i], e.k);
    } else {
      DropIdentified(s.accepted, s.disks[e.i], 0);
      assert Without(s.disks[e.i].pdo.irpQueue, 0) == Rest(s.disks[e.i].pdo.irpQueue);
    }
  }

  lemma RemovalIdentifies(s: Sys, e: Event, i: nat)
    requires Inv(s) && Guard(s, e) && AllIdentified(s) && i < |s.disks|
    requires e.Unlink? || e.Clear? || e.Finish? || e.RemoveFinal?
    ensures i < |Next(s, e).disks| && Identified(Next(s, e).accepted, Next(s, e).disks[i])
  {
    assert DiskInv(i, s.disks[i], TokenOf(s, i));
  }

  lemma FetchIdentifies(s: Sys, e: Event, i: nat)
    requires Guard(s, e) && AllIdentified(s)
    requires e.Issue? || e.Step? || e.Receive? || e.Find? || e.Post? || e.Signal? || e.AddDisk?
    requires i < |Next(s, e).disks|
    ensures Identified(Next(s, e).accepted, Next(s, e).disks[i])
  {
    if i < |s.disks| {
      assert Identified(s.accepted, s.disks[i]);
    }
  }

  lemma DiskIdentified(s: Sys, e: Event, i: nat)
    requires Inv(s) && Guard(s, e) && Defined(s, e) && AllIdentified(s) && i < |s.disks|
    ensures i < |Next(s, e).disks| && Identified(Next(s, e).accepted, Next(s, e).disks[i])
  {
    if e.Arrive? {
      ArriveIdentifies(s, e, i);
    } else if e.Visit? || e.StartOwed? {
      StartsIdentify(s, e, i);
    } else if e.Wake? || e.Exec? || e.ExecFail? || e.Send? {
      WorkerIdentifies(s, e, i);
    } else if e.Lookup? || e.Section? {
      CallsIdentify(s, e, i);
    } else if e.CancelQueued? || e.Drain? {
      DropsIdentify(s, e, i);
    } else if e.Unlink? || e.Clear? || e.Finish? || e.RemoveFinal? {
      RemovalIdentifies(s, e, i);
    } else {
      FetchIdentifies(s, e, i);
    }
  }

  lemma StepIdentifies(s: Sys, e: Event)
    requires Inv(s) && Guard(s, e) && Defined(s, e) && AllIdentified(s)
    ensures AllIdentified(Next(s, e))
  {
    var t := Next(s, e);
    NoNewDisk(s, e);
    forall i | 0 <= i < |s.disks| ensures Identified(t.accepted, t.disks[i]) {
      DiskIdentified(s, e, i);
    }
    if e.AddDisk? {
      FetchIdentifies(s, e, |s.disks|);
    }
  }

  // ---- whole runs ----

  lemma {:induction false} RunIdentifies(es: seq<Event>)
    requires Legal(es)
    ensures AllIdentified(Final(es))
  {
    if es != [] {
      var before := es[..|es| - 1];
      RunIdentifies(before);
      Reachable(before);
      StepIdentifies(Final(before), es[|es| - 1]);
    }
  }

  /** When a reply completes its own packet: the packet current at its section is the one that was current when the
      worker took the request if and only if the removal of the disk has not cleared CurrentIrp. */
  lemma OwnReplyIsExact(es: seq<Event>, i: nat)
    requires Legal(es) && i < |Final(es).disks| && Final(es).disks[i].worker.Found?
    ensures var d := Final(es).disks[i];
            d.served.Some? && d.worker.target == i && (d.pdo.current == d.served <==> Uncleared(d.stage))
  {
    Reachable(es);
    RunIdentifies(es);
    var s := Final(es);
    assert DiskInv(i, s.disks[i], TokenOf(s, i));
    assert Identified(s.accepted, s.disks[i]);
  }

  /** A reply to its own packet is faithful: a WRITE whose storage call succeeded is completed with success and its
      full length, a packet whose storage call failed as unsuccessful. Whatever reply it is, it completes the packet
      that is current, with the status and the count of the reply, and nothing else. */
  lemma RepliesAreFaithful(es: seq<Event>, i: nat) returns (c: Completion)
    requires Legal(es) && Guard(Final(es), Section(i)) && Final(es).disks[i].pdo.current.Some?
    ensures var s := Final(es); var d := s.disks[i]; var irp := d.pdo.current.value; var reply := d.worker.reply;
            && Fits(irp)
            && (d.pdo.current == d.served ==> Defined(s, Section(i)))
            && (Defined(s, Section(i)) ==> Next(s, Section(i)).completed == s.completed + [c])
            && CompletesBy(c, irp, d.pdo.buffer, reply)
            && (d.pdo.current == d.served && reply.ok && Code(irp) == SCSIOP_WRITE ==> c.information == |irp.data|)
  {
    OwnReplyIsExact(es, i);
    Reachable(es);
    var s := Final(es);
    var d := s.disks[i];
    assert DiskInv(i, d, TokenOf(s, i));
    ReplyKeeps(i, d, TokenOf(s, i));
    var irp := d.pdo.current.value;
    if Defined(s, Section(i)) {
      c := Finished(d.pdo, d.worker.reply).value;
    } else {
      c := Completion(irp.id, if d.worker.reply.ok then Success else Unsuccessful, d.worker.reply.numBytes,
                      d.pdo.buffer[..|irp.data|]);
    }
  }
}
