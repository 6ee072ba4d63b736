/** What a READ returns: the contents of its disk's array at the step at which the READ became current, whatever
    happens before its completion. */
module PipelineReads {
  import opened Base
  import opened Blocks
  import opened Packets
  import opened Pipeline
  import opened PipelineInvariant
  import opened PipelineSafety
  import opened PipelineRefinement
  import opened PipelineReplies

  // ---- one step of a packet in flight ----

  /** The packet in flight still has its token, and no storage call for it has failed. */
  predicate InService(s: Sys, i: nat)
    requires i < |s.disks|
  {
    var w := s.disks[i].worker;
    && HasToken(s.disks[i], TokenOf(s, i))
    && !(w.Done? && !w.ok) && !((w.Sent? || w.Found?) && !w.reply.ok)
  }

  /** Disk `i` carries packet `irp`, its removal not past CurrentIrp. */
  predicate Carries(s: Sys, i: nat, irp: Irp) {
    i < |s.disks| && Uncleared(s.disks[i].stage) && s.disks[i].pdo.current == Some(irp)
  }

  /** An observed action that changes the array of disk `i`. */
  predicate Changes(a: Action, i: nat) {
    (a.Wrote? || a.Torn?) && a.i == i
  }

  /** While a packet is current on a disk no WRITE becomes current there. */
  lemma NothingStartsInFlight(s: Sys, e: Event, i: nat)
    requires Guard(s, e) && i < |s.disks| && s.disks[i].pdo.current.Some?
    ensures forall irp :: Wrote(i, irp) !in Observed(s, e)
  {
  }

  /** No step takes a removal back. */
  lemma StageOnlyAdvances(s: Sys, e: Event, i: nat)
    requires Guard(s, e) && Defined(s, e) && i < |s.disks| && i < |Next(s, e).disks|
    ensures Uncleared(Next(s, e).disks[i].stage) ==> Uncleared(s.disks[i].stage)
  {
  }

  lemma FlightStarts(s: Sys, e: Event, i: nat, irp: Irp)
    requires Inv(s) && Guard(s, e) && Defined(s, e) && Carries(s, i, irp)
    requires e.Arrive? || e.Visit? || e.StartOwed?
    requires Carries(Next(s, e), i, irp) && InService(Next(s, e), i)
    ensures InService(s, i)
  {
    assert DiskInv(i, s.disks[i], TokenOf(s, i));
    if e.StartOwed? {
      assert DiskInv(e.i, s.disks[e.i], TokenOf(s, e.i));
    }
  }

  lemma FlightFetch(s: Sys, e: Event, i: nat, irp: Irp)
    requires Inv(s) && Guard(s, e) && Carries(s, i, irp)
    requires e.Issue? || e.Step? || e.Receive? || e.Find? || e.Post? || e.Signal? || e.AddDisk?
    requires Carries(Next(s, e), i, irp) && InService(Next(s, e), i)
    ensures InService(s, i)
  {
    assert DiskInv(i, s.disks[i], TokenOf(s, i));
    if e.Post? {
      TargetIsCarried(s);
    }
  }

  lemma FlightWorker(s: Sys, e: Event, i: nat, irp: Irp)
    requires Guard(s, e) && Defined(s, e) && Carries(s, i, irp)
    requires e.Wake? || e.Exec? || e.ExecFail? || e.Send?
    requires Carries(Next(s, e), i, irp) && InService(Next(s, e), i)
    ensures InService(s, i) && (e.ExecFail? ==> e.i != i)
  {
    assert TokenOf(Next(s, e), i) == TokenOf(s, i);
  }

  lemma FlightLookup(s: Sys, e: Event, i: nat, irp: Irp)
    requires i < |s.disks| && DiskInv(i, s.disks[i], TokenOf(s, i)) && Guard(s, e) && e.Lookup? && Carries(s, i, irp)
    requires Carries(Next(s, e), i, irp) && InService(Next(s, e), i)
    ensures InService(s, i)
  {
    assert TokenOf(Next(s, e), i) == TokenOf(s, i);
  }

  lemma FlightSection(s: Sys, e: Event, i: nat, irp: Irp)
    requires Inv(s) && Guard(s, e) && Defined(s, e) && e.Section? && Carries(s, i, irp)
    requires Carries(Next(s, e), i, irp) && InService(Next(s, e), i)
    ensures InService(s, i)
  {
    assert DiskInv(e.i, s.disks[e.i], TokenOf(s, e.i));
    assert TokenOf(Next(s, e), i) == TokenOf(s, i);
  }

  lemma FlightRemoval(s: Sys, e: Event, i: nat, irp: Irp)
    requires Guard(s, e) && Carries(s, i, irp)
    requires e.CancelQueued? || e.Unlink? || e.Clear? || e.Drain? || e.Finish? || e.RemoveFinal?
    requires Carries(Next(s, e), i, irp) && InService(Next(s, e), i)
    ensures InService(s, i)
  {
    assert TokenOf(Next(s, e), i) == TokenOf(s, i);
  }

  lemma ServiceBack(s: Sys, e: Event, i: nat, irp: Irp)
    requires Inv(s) && Guard(s, e) && Defined(s, e) && Carries(s, i, irp)
    requires Carries(Next(s, e), i, irp) && InService(Next(s, e), i)
    ensures InService(s, i) && (e.ExecFail? ==> e.i != i)
  {
    if e.Arrive? || e.Visit? || e.StartOwed? {
      FlightStarts(s, e, i, irp);
    } else if e.Issue? || e.Step? || e.Receive? || e.Find? || e.Post? || e.Signal? || e.AddDisk? {
      FlightFetch(s, e, i, irp);
    } else if e.Lookup? {
      FlightLookup(s, e, i, irp);
    } else if e.Section? {
      FlightSection(s, e, i, irp);
    } else if e.Wake? || e.Exec? || e.ExecFail? || e.Send? {
      FlightWorker(s, e, i, irp);
    } else {
      FlightRemoval(s, e, i, irp);
    }
  }

  /** Looking back from a packet in service: it was in service before the step, too, and the step did not change the
      array of its disk. */
  lemma FlightStep(s: Sys, e: Event, i: nat, irp: Irp)
    requires Inv(s) && Guard(s, e) && Defined(s, e) && Carries(s, i, irp)
    requires Carries(Next(s, e), i, irp) && InService(Next(s, e), i)
    ensures InService(s, i)
    ensures forall a :: a in Observed(s, e) ==> !Changes(a, i)
  {
    ServiceBack(s, e, i, irp);
    NothingStartsInFlight(s, e, i);
  }

  // ---- whole runs ----

  /** Step `k - 1` of the run is the one at which packet `irp` becomes current on disk `i`. */
  predicate BecameCurrentAt(es: seq<Event>, k: nat, i: nat, irp: Irp) {
    0 < k <= |es| && Legal(es[..k - 1]) && Legal(es[..k]) && BecameCurrent(Final(es[..k - 1]), Final(es[..k]), i, irp)
  }

  lemma AfterLeaves(arrays: seq<seq<Byte>>, observed: seq<Action>, i: nat)
    requires i < |arrays| && forall a :: a in observed ==> !Changes(a, i)
    ensures i < |After(arrays, observed)| && After(arrays, observed)[i] == arrays[i]
  {
    if observed != [] {
      assert observed[0] in observed;
    }
  }

  lemma FlightBack(es: seq<Event>, i: nat, irp: Irp)
    requires Legal(es) && es != [] && Carries(Final(es), i, irp) && InService(Final(es), i)
    requires Carries(Final(es[..|es| - 1]), i, irp)
    ensures InService(Final(es[..|es| - 1]), i)
    ensures i < |Replay(Trace(es))| && i < |Replay(Trace(es[..|es| - 1]))|
    ensures Replay(Trace(es))[i] == Replay(Trace(es[..|es| - 1]))[i]
  {
    var before := es[..|es| - 1];
    RunRefines(before);
    FlightStep(Final(before), es[|es| - 1], i, irp);
    ReplayStep(es);
    AfterLeaves(Replay(Trace(before)), Observed(Final(before), es[|es| - 1]), i);
  }

  lemma FirstStep(s: Sys, e: Event, i: nat, irp: Irp)
    requires Guard(s, e) && Defined(s, e) && Carries(Next(s, e), i, irp) && !Carries(s, i, irp)
    ensures BecameCurrent(s, Next(s, e), i, irp)
  {
    if i < |s.disks| && s.disks[i].pdo.current.Some? {
      CurrentIsKept(s, e, i);
      StageOnlyAdvances(s, e, i);
    }
  }

  lemma FlightFirst(es: seq<Event>, i: nat, irp: Irp)
    requires Legal(es) && es != [] && Carries(Final(es), i, irp) && !Carries(Final(es[..|es| - 1]), i, irp)
    ensures BecameCurrentAt(es, |es|, i, irp)
  {
    FirstStep(Final(es[..|es| - 1]), es[|es| - 1], i, irp);
    assert es[..|es|] == es;
  }

  /** Packet `irp` became current at step `k - 1`, and disk `i` held the array `held` then. */
  predicate HeldSince(es: seq<Event>, k: nat, i: nat, irp: Irp, held: seq<Byte>) {
    BecameCurrentAt(es, k, i, irp) && i < |Replay(Trace(es[..k]))| && Replay(Trace(es[..k]))[i] == held
  }

  lemma PrefixHolds(es: seq<Event>, n: nat, k: nat, i: nat, irp: Irp, held: seq<Byte>)
    requires n <= |es| && HeldSince(es[..n], k, i, irp, held)
    ensures HeldSince(es, k, i, irp, held)
  {
    assert es[..n][..k] == es[..k] && es[..n][..k - 1] == es[..k - 1];
  }

  /** A packet in service became current at some step, and the array of its disk has not changed since. */
  lemma {:induction false} FlightBegan(es: seq<Event>, i: nat, irp: Irp) returns (k: nat)
    requires Legal(es) && Carries(Final(es), i, irp) && InService(Final(es), i)
    ensures i < |Replay(Trace(es))| && HeldSince(es, k, i, irp, Replay(Trace(es))[i])
    decreases |es|
  {
    var n := |es| - 1;
    RunRefines(es);
    if Carries(Final(es[..n]), i, irp) {
      FlightBack(es, i, irp);
      k := FlightBegan(es[..n], i, irp);
      PrefixHolds(es, n, k, i, irp, Replay(Trace(es))[i]);
    } else {
      FlightFirst(es, i, irp);
      k := |es|;
      assert es[..k] == es;
    }
  }

  /** Reads: in every run, a READ completed successfully by its own reply returns exactly what its disk's array held
      at the step at which the READ became current - the WRITEs that became current before it, replayed atomically.
      The rest of the requester's buffer is untouched, and nothing else is completed by the step. OwnReplyIsExact says
      when a reply is the packet's own. */
  lemma ReadsReturnWrites(es: seq<Event>, i: nat) returns (k: nat)
    requires Legal(es) && Guard(Final(es), Section(i)) && Final(es).disks[i].pdo.current.Some?
    ensures var s := Final(es); var d := s.disks[i]; var irp := d.pdo.current.value;
            && Fits(irp)
            && (d.pdo.current == d.served && Code(irp) == SCSIOP_READ && d.worker.reply.ok ==>
                  && Defined(s, Section(i)) && BecameCurrentAt(es, k, i, irp) && i < |Replay(Trace(es[..k]))|
                  && var bytes := Wanted(irp, Replay(Trace(es[..k]))[i]);
                  Next(s, Section(i)).completed ==
                    s.completed + [Completion(irp.id, Success, |bytes|, bytes + irp.data[|bytes|..])])
  {
    RunRefines(es);
    OwnReplyIsExact(es, i);
    var s := Final(es);
    var d := s.disks[i];
    var irp := d.pdo.current.value;
    assert DiskInv(i, d, TokenOf(s, i));
    k := 0;
    if Uncleared(d.stage) && d.worker.reply.ok && Code(irp) == SCSIOP_READ {
      k := FlightBegan(es, i, irp);
      ReplyCarriesContents(i, d, TokenOf(s, i));
      ReadReturns(i, d, TokenOf(s, i));
    }
  }
}
