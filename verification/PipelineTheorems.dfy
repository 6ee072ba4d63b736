/** What the invariant means: the lock-free hand-over between the fetch thread and the workers, the assertion in
    Bus_ProcessReply, ownership of the shared buffer, the wake-ups, and the exact conditions of the promises that do
    not always hold. Module PipelineRuns has the runs that break them. */
module PipelineTheorems {
  import opened Base
  import opened Blocks
  import opened Packets
  import opened Pipeline
  import opened PipelineInvariant
  import opened PipelineSafety
  import opened PipelineConservation
  import opened PipelineDestroy
  import opened PipelineReplies

  function One(b: bool): nat {
    if b then 1 else 0
  }

  /** How many of the four forms a disk's token takes are present: a request held by the fetch thread, a mailbox
      being posted or with its event set, a worker executing, a reply under way. */
  function Tokens(s: Sys, i: nat): nat
    requires i < |s.disks|
  {
    var h := s.disks[i].pdo.serialNo;
    var w := s.disks[i].worker;
    One(s.delivered.Some? && s.delivered.value.handle == h)
    + One((s.fetch.Holding? || s.fetch.Directed?) && s.fetch.req.handle == h)
    + One(s.fetch == Posting(i)) + One(s.disks[i].event)
    + One(w.Woken? || w.Done?) + One(w.Sent? || w.Found?)
  }

  /** A linked disk has a current packet exactly when it has one token, and it never has two. */
  lemma TokenInvariant(es: seq<Event>, i: nat)
    requires Legal(es) && i < |Final(es).disks| && Final(es).disks[i].stage.Linked?
    ensures Tokens(Final(es), i) == if Final(es).disks[i].pdo.current.Some? then 1 else 0
  {
    Reachable(es);
    assert DiskInv(i, Final(es).disks[i], TokenOf(Final(es), i));
  }

  /** The lock-free mailbox: it is overwritten only after its last read, and no event signal is merged, as long as no
      packet of the disk is stray. Module PipelineMailbox says what happens when one is. */
  lemma MailboxIsSafe(es: seq<Event>)
    requires Legal(es)
    ensures var s := Final(es);
            s.fetch.Directed? ==>
              && s.fetch.target < |s.disks|
              && var d := s.disks[s.fetch.target];
              Stray(d) || (!d.event && (d.worker.Idle? || d.worker.Tail?))
    ensures var s := Final(es);
            s.fetch.Posting? ==>
              s.fetch.target < |s.disks| && (Stray(s.disks[s.fetch.target]) || !s.disks[s.fetch.target].event)
  {
    Reachable(es);
    var s := Final(es);
    if s.fetch.Directed? {
      TargetIsCarried(s);
      assert DiskInv(s.fetch.target, s.disks[s.fetch.target], TokenOf(s, s.fetch.target));
    }
    if s.fetch.Posting? {
      assert DiskInv(s.fetch.target, s.disks[s.fetch.target], TokenOf(s, s.fetch.target));
    }
  }

  /** The assertion that a reply finds a current packet: it finds its own packet exactly until the removal of the disk
      clears CurrentIrp, and none exactly if that has happened and no packet has become stray since. */
  lemma AssertionIsExact(es: seq<Event>, i: nat)
    requires Legal(es) && i < |Final(es).disks| && Final(es).disks[i].worker.Found?
    ensures var d := Final(es).disks[i];
            && d.worker.target == i && d.served.Some?
            && (d.pdo.current == d.served <==> Uncleared(d.stage))
            && (d.pdo.current.None? <==> !Uncleared(d.stage) && !Stray(d))
  {
    OwnReplyIsExact(es, i);
  }

  /** Between a packet becoming current and its completion, only the disk's own storage call writes the shared
      buffer. */
  lemma BufferIsOwned(s: Sys, e: Event, i: nat)
    requires Guard(s, e) && Defined(s, e) && i < |s.disks| && s.disks[i].pdo.current.Some?
    requires e.Exec? || e.ExecFail? ==> e.i != i
    ensures i < |Next(s, e).disks| && Next(s, e).disks[i].pdo.buffer == s.disks[i].pdo.buffer
    ensures Next(s, e).disks[i].pdo.current == s.disks[i].pdo.current || Next(s, e).disks[i].pdo.current.None?
  {
    CurrentIsKept(s, e, i);
    if e.Arrive? || e.Visit? || e.StartOwed? {
      StartsPassBusyDisks(s, e, i);
    }
  }

  /** What a worker is about to store is the payload of its disk's current WRITE, at the packet's own address. */
  lemma WorkerStoresPayload(es: seq<Event>, i: nat)
    requires Legal(es) && i < |Final(es).disks|
    requires Uncleared(Final(es).disks[i].stage) && Final(es).disks[i].worker.Woken?
    ensures var d := Final(es).disks[i];
            && d.pdo.current.Some? && Fits(d.pdo.current.value) && |d.pdo.buffer| == BUFFER_SIZE
            && var irp := d.pdo.current.value;
            && d.req == MakeRequest(d.pdo.serialNo, irp)
            && (Code(irp) == SCSIOP_WRITE ==> d.pdo.buffer[..Length(d.req.blocks, BLOCK_SIZE)] == irp.data)
  {
    Reachable(es);
    assert DiskInv(i, Final(es).disks[i], TokenOf(Final(es), i));
  }

  /** The wake-up obligation in every run. */
  lemma WakeUpsAreOwed(es: seq<Event>, i: nat)
    requires Legal(es) && i < |Final(es).disks| && Starving(Final(es), i)
    ensures Owed(Final(es), i)
  {
    Reachable(es);
  }

  /** An arriving packet overtakes queued ones exactly on a starving disk, hence only while a reply is between its
      section and its BusStartNextPacket or a GET_REQUEST scan has not reached the disk. */
  lemma OvertakingIsExact(es: seq<Event>, i: nat, irp: Irp)
    requires Legal(es) && i < |Final(es).disks|
    ensures var s := Final(es);
            Guard(s, Arrive(i, irp)) ==>
              && Defined(s, Arrive(i, irp))
              && var t := Next(s, Arrive(i, irp));
              (s.disks[i].pdo.irpQueue != [] && s.disks[i].pdo.current.None? && t.disks[i].pdo.current == Some(irp)) <==> Starving(s, i)
    ensures Starving(Final(es), i) ==> Owed(Final(es), i)
  {
    Reachable(es);
    if Guard(Final(es), Arrive(i, irp)) {
      ArriveKeeps(Final(es), i, irp);
    }
  }

  // ---- a packet left behind ----

  lemma PendingCounts(disks: seq<Disk>, i: nat, id: nat)
    requires i < |disks|
    ensures Pending(disks, id) >= OnDisk(disks[i].pdo, id)
  {
    var pdo := disks[i].pdo.(current := None, irpQueue := []);
    PendingUpdate(disks, i, disks[i].(pdo := pdo), id);
  }

  /** A pinned packet stays current on its dead disk and is not completed, however the run goes on. */
  lemma PinnedIsNeverCompleted(es: seq<Event>, fs: seq<Event>, i: nat)
    requires Legal(es) && i < |Final(es).disks| && Pinned(Final(es).disks[i]) && Steps(Final(es), fs)
    ensures var irp := Final(es).disks[i].pdo.current.value; var t := EndOf(Final(es), fs);
            && i < |t.disks| && t.disks[i].pdo.current == Some(irp)
            && Completions(t.completed, irp.id) == 0
  {
    var irp := Final(es).disks[i].pdo.current.value;
    Reachable(es);
    PinnedForever(Final(es), fs, i);
    Concat(Init(), es, fs);
    ExactlyOnce(es + fs, irp.id);
    PendingCounts(EndOf(Final(es), fs).disks, i, irp.id);
  }

  // ---- an id used again ----

  /** The token invariant, on every linked disk. */
  predicate TokensAgree(s: Sys) {
    forall i :: 0 <= i < |s.disks| && s.disks[i].stage.Linked? ==>
      Tokens(s, i) == if s.disks[i].pdo.current.Some? then 1 else 0
  }

  lemma RegisteredTokens(s: Sys, e: Event, i: nat)
    requires Inv(s) && e.AddDisk? && Enabled(s, e) && i < |s.disks| && s.disks[i].stage.Linked?
    ensures var t := Next(s, e);
            t.disks[i] == s.disks[i] && Tokens(t, i) == if s.disks[i].pdo.current.Some? then 1 else 0
  {
    assert DiskInv(i, s.disks[i], TokenOf(s, i));
  }

  /** Registering a free id leaves every linked disk with one token per current packet and none otherwise if and only
      if the fetch thread carries no request for that id. */
  lemma ReuseIsExact(s: Sys, e: Event)
    requires Inv(s) && e.AddDisk? && Enabled(s, e)
    ensures TokensAgree(Next(s, e)) <==> !(Carried(s).Some? && Carried(s).value.handle == e.handle)
  {
    var t := Next(s, e);
    var n := |s.disks|;
    assert Tokens(t, n) == if Carried(s).Some? && Carried(s).value.handle == e.handle then 1 else 0;
    forall i | 0 <= i < |s.disks| && t.disks[i].stage.Linked?
      ensures Tokens(t, i) == if t.disks[i].pdo.current.Some? then 1 else 0
    {
      RegisteredTokens(s, e, i);
    }
  }
}
