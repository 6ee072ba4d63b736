/** Packet conservation: an accepted READ or WRITE packet is at every moment in exactly one place - one disk's
    queue, one disk's CurrentIrp, or the record of completions - whatever the interleaving of arrivals, replies,
    cancellations of queued packets and disk destructions. */
module PipelineConservation {
  import opened Base
  import opened Packets
  import opened Pipeline
  import opened PipelineInvariant
  import opened PipelineSafety

  /** How often packet `id` waits in a queue. */
  function Queued(queue: seq<Irp>, id: nat): nat {
    if queue == [] then 0 else (if queue[0].id == id then 1 else 0) + Queued(queue[1..], id)
  }

  function OnDisk(pdo: Pdo, id: nat): nat {
    Queued(pdo.irpQueue, id) + if pdo.current.Some? && pdo.current.value.id == id then 1 else 0
  }

  /** How often packet `id` is queued or current, over all disks. */
  function Pending(disks: seq<Disk>, id: nat): nat {
    if disks == [] then 0 else Pending(disks[..|disks| - 1], id) + OnDisk(disks[|disks| - 1].pdo, id)
  }

  function Completions(cs: seq<Completion>, id: nat): nat {
    if cs == [] then 0 else Completions(cs[..|cs| - 1], id) + if cs[|cs| - 1].id == id then 1 else 0
  }

  predicate Conserved(s: Sys, id: nat) {
    Pending(s.disks, id) + Completions(s.completed, id) == if id in s.accepted then 1 else 0
  }

  lemma {:induction false} QueuedConcat(p: seq<Irp>, q: seq<Irp>, id: nat)
    ensures Queued(p + q, id) == Queued(p, id) + Queued(q, id)
  {
    if p == [] {
      assert p + q == q;
    } else {
      assert (p + q)[1..] == p[1..] + q;
      QueuedConcat(p[1..], q, id);
    }
  }

  lemma QueuedDrop(queue: seq<Irp>, k: nat, id: nat)
    requires k < |queue|
    ensures Queued(queue, id) == Queued(Without(queue, k), id) + if queue[k].id == id then 1 else 0
  {
    var rest := queue[k + 1..];
    assert queue == queue[..k] + queue[k..] && queue[k..][1..] == rest;
    QueuedConcat(queue[..k], queue[k..], id);
    QueuedConcat(queue[..k], rest, id);
  }

  lemma {:induction false} PendingUpdate(disks: seq<Disk>, i: nat, d: Disk, id: nat)
    requires i < |disks|
    ensures Pending(disks[i := d], id) == Pending(disks, id) - OnDisk(disks[i].pdo, id) + OnDisk(d.pdo, id)
  {
    var n := |disks| - 1;
    var e := disks[i := d];
    if i < n {
      assert e[..n] == disks[..n][i := d];
      PendingUpdate(disks[..n], i, d, id);
    } else {
      assert e[..n] == disks[..n];
    }
  }

  lemma {:induction false} CompletionsConcat(p: seq<Completion>, q: seq<Completion>, id: nat)
    ensures Completions(p + q, id) == Completions(p, id) + Completions(q, id)
  {
    if q == [] {
      assert p + q == p;
    } else {
      assert (p + q)[..|p + q| - 1] == p + q[..|q| - 1];
      CompletionsConcat(p, q[..|q| - 1], id);
    }
  }

  lemma {:induction false} CancelAllCount(queue: seq<Irp>, id: nat)
    ensures Completions(CancelAll(queue), id) == Queued(queue, id)
  {
    if queue != [] {
      var c := CancelOf(queue[0]);
      assert [c][..0] == [];
      CompletionsConcat([c], CancelAll(queue[1..]), id);
      CancelAllCount(queue[1..], id);
    }
  }

  /** Destroying a disk in one go completes exactly the packets it had. */
  lemma DestroyCancelsCount(pdo: Pdo, id: nat)
    ensures Completions(DestroyCancels(pdo), id) == OnDisk(pdo, id)
  {
    CancelAllCount(pdo.irpQueue, id);
    if pdo.current.Some? {
      var c := CancelOf(pdo.current.value);
      assert [c][..0] == [];
      CompletionsConcat([c], CancelAll(pdo.irpQueue), id);
    } else {
      assert DestroyCancels(pdo) == CancelAll(pdo.irpQueue);
    }
  }

  /** Starting the next packet moves a packet within the disk. */
  lemma StartNextCount(pdo: Pdo, parked: seq<Fetcher>, id: nat)
    requires Sound(pdo)
    ensures OnDisk(StartNext(pdo, parked).pdo, id) == OnDisk(pdo, id)
  {
  }

  lemma StartPacketCount(pdo: Pdo, parked: seq<Fetcher>, irp: Irp, id: nat)
    requires Sound(pdo) && Fits(irp)
    ensures OnDisk(StartPacket(pdo, parked, irp).pdo, id) == OnDisk(pdo, id) + if irp.id == id then 1 else 0
  {
    QueuedConcat(pdo.irpQueue, [irp], id);
    assert [irp][1..] == [];
  }

  /** One disk's record changes and `cs` is completed. */
  lemma MoveConserves(s: Sys, t: Sys, i: nat, d: Disk, cs: seq<Completion>, id: nat)
    requires Conserved(s, id) && i < |s.disks| && t.disks == s.disks[i := d]
    requires t.accepted == s.accepted && t.completed == s.completed + cs
    requires OnDisk(s.disks[i].pdo, id) == OnDisk(d.pdo, id) + Completions(cs, id)
    ensures Conserved(t, id)
  {
    PendingUpdate(s.disks, i, d, id);
    CompletionsConcat(s.completed, cs, id);
  }

  lemma RecordOnlyConserves(s: Sys, t: Sys, i: nat, id: nat)
    requires Conserved(s, id) && i < |s.disks| && |t.disks| == |s.disks| && t.disks == s.disks[i := t.disks[i]]
    requires t.accepted == s.accepted && t.completed == s.completed
    requires OnDisk(t.disks[i].pdo, id) == OnDisk(s.disks[i].pdo, id)
    ensures Conserved(t, id)
  {
    assert t.completed == s.completed + [];
    MoveConserves(s, t, i, t.disks[i], [], id);
  }

  lemma ArriveConserves(s: Sys, i: nat, irp: Irp, id: nat)
    requires Conserved(s, id) && Guard(s, Arrive(i, irp)) && Defined(s, Arrive(i, irp))
    ensures Conserved(Next(s, Arrive(i, irp)), id)
  {
    var t := Next(s, Arrive(i, irp));
    StartPacketCount(s.disks[i].pdo, s.parked, irp, id);
    PendingUpdate(s.disks, i, t.disks[i], id);
    assert id in t.accepted <==> id in s.accepted || id == irp.id;
  }

  lemma CancelConserves(s: Sys, i: nat, k: nat, id: nat)
    requires Conserved(s, id) && Guard(s, CancelQueued(i, k))
    ensures Conserved(Cancel(s, i, k), id)
  {
    var pdo := s.disks[i].pdo;
    var t := Cancel(s, i, k);
    var cs := [CancelOf(pdo.irpQueue[k])];
    assert cs[..0] == [];
    QueuedDrop(pdo.irpQueue, k, id);
    MoveConserves(s, t, i, t.disks[i], cs, id);
  }

  lemma ClearConserves(s: Sys, i: nat, id: nat)
    requires Conserved(s, id) && Guard(s, Clear(i))
    ensures Conserved(Cleared(s, i), id)
  {
    var t := Cleared(s, i);
    var cs := CurrentCancelled(s.disks[i].pdo);
    assert cs != [] ==> cs[..0] == [];
    MoveConserves(s, t, i, t.disks[i], cs, id);
  }

  lemma DrainConserves(s: Sys, i: nat, id: nat)
    requires Conserved(s, id) && Guard(s, Drain(i))
    ensures Conserved(Drained(s, i), id)
  {
    var t := Drained(s, i);
    var cs := [CancelOf(s.disks[i].pdo.irpQueue[0])];
    assert cs[..0] == [];
    MoveConserves(s, t, i, t.disks[i], cs, id);
  }

  lemma VisitConserves(s: Sys, id: nat)
    requires Conserved(s, id) && Guard(s, Visit) && Defined(s, Visit)
    ensures Conserved(Next(s, Visit), id)
  {
    var i := s.fetch.at;
    StartNextCount(s.disks[i].pdo, s.parked, id);
    RecordOnlyConserves(s, Next(s, Visit), i, id);
  }

  lemma SectionConserves(s: Sys, i: nat, id: nat)
    requires Inv(s) && Conserved(s, id) && Guard(s, Section(i)) && Defined(s, Section(i))
    ensures Conserved(Next(s, Section(i)), id)
  {
    assert DiskInv(i, s.disks[i], TokenOf(s, i));
    var t := Replied(s, i);
    var pdo := s.disks[i].pdo;
    var c := Finished(pdo, s.disks[i].worker.reply);
    assert t.disks == s.disks[i := t.disks[i]];
    if c.Some? {
      assert [c.value][..0] == [];
      MoveConserves(s, t, i, t.disks[i], [c.value], id);
    } else {
      RecordOnlyConserves(s, t, i, id);
    }
  }

  lemma StartOwedConserves(s: Sys, i: nat, id: nat)
    requires Inv(s) && Conserved(s, id) && Guard(s, StartOwed(i)) && Defined(s, StartOwed(i))
    ensures Conserved(Next(s, StartOwed(i)), id)
  {
    assert DiskInv(i, s.disks[i], TokenOf(s, i));
    var t := Next(s, StartOwed(i));
    StartNextCount(s.disks[i].pdo, s.parked, id);
    assert t.disks == s.disks[i := t.disks[i]];
    RecordOnlyConserves(s, t, i, id);
  }

  /** Steps of a worker before and after its section move no packet. */
  lemma WorkerConserves(s: Sys, e: Event, id: nat)
    requires Conserved(s, id) && Guard(s, e) && Defined(s, e)
    requires e.Wake? || e.Exec? || e.ExecFail? || e.Send? || e.Lookup?
    ensures Conserved(Next(s, e), id)
  {
    RecordOnlyConserves(s, Next(s, e), e.i, id);
  }

  /** So do the fetch thread's steps outside the scan. */
  lemma FetchConserves(s: Sys, e: Event, id: nat)
    requires Conserved(s, id) && Guard(s, e)
    requires e.Issue? || e.Step? || e.Receive? || e.Find? || e.Post? || e.Signal?
    ensures Conserved(Next(s, e), id)
  {
    if e.Post? || e.Signal? {
      RecordOnlyConserves(s, Next(s, e), s.fetch.target, id);
    }
  }

  lemma AddDiskConserves(s: Sys, e: Event, id: nat)
    requires Conserved(s, id) && Guard(s, e) && e.AddDisk?
    ensures Conserved(Next(s, e), id)
  {
    assert Next(s, e).disks[..|s.disks|] == s.disks;
  }

  lemma RemovalConserves(s: Sys, e: Event, id: nat)
    requires Conserved(s, id) && Guard(s, e) && Defined(s, e)
    requires e.Unlink? || e.Clear? || e.Drain? || e.Finish? || e.RemoveFinal?
    ensures Conserved(Next(s, e), id)
  {
    if e.Clear? {
      ClearConserves(s, e.i, id);
    } else if e.Drain? {
      DrainConserves(s, e.i, id);
    } else {
      RecordOnlyConserves(s, Next(s, e), e.i, id);
    }
  }

  lemma StepConserves(s: Sys, e: Event, id: nat)
    requires Inv(s) && Conserved(s, id) && Guard(s, e) && Defined(s, e)
    ensures Conserved(Next(s, e), id)
  {
    if e.Unlink? || e.Clear? || e.Drain? || e.Finish? || e.RemoveFinal? {
      RemovalConserves(s, e, id);
    } else if e.Wake? || e.Exec? || e.ExecFail? || e.Send? || e.Lookup? {
      WorkerConserves(s, e, id);
    } else if e.Issue? || e.Step? || e.Receive? || e.Find? || e.Post? || e.Signal? {
      FetchConserves(s, e, id);
    } else {
      match e
      case Arrive(i, irp) => ArriveConserves(s, i, irp, id);
      case CancelQueued(i, k) => CancelConserves(s, i, k, id);
      case AddDisk(_, _, _) => AddDiskConserves(s, e, id);
      case Visit => VisitConserves(s, id);
      case Section(i) => SectionConserves(s, i, id);
      case StartOwed(i) => StartOwedConserves(s, i, id);
    }
  }

  /** In every run: exactly one place for an accepted packet, so never two completions and never a packet lost;
      none for a packet that was never accepted. */
  lemma {:induction false} ExactlyOnce(es: seq<Event>, id: nat)
    requires Legal(es)
    ensures Conserved(Final(es), id)
  {
    if es != [] {
      var before := es[..|es| - 1];
      ExactlyOnce(before, id);
      Reachable(before);
      StepConserves(Final(before), es[|es| - 1], id);
    }
  }
}
