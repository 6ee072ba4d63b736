/** Taking a fetcher from the request queue and putting it back, as two steps. BusStartNextPacket does both under the
    PDOLock of its own disk, and the locks are per disk: everything that other threads do to other disks can come in
    between. */
module PipelineSplit {
  import opened Base
  import opened Packets
  import opened Pipeline
  import opened PipelineWalk
  import opened PipelineInvariant
  import opened PipelineSafety

  /** The disk on which step `e` runs BusStartNextPacket. */
  function CallerOf(s: Sys, e: Event): nat
    requires Enabled(s, e) && (e.Visit? || e.StartOwed?)
  {
    if e.Visit? then s.fetch.at else s.disks[e.i].worker.target
  }

  /** The call finds its disk idle and takes a fetcher, but no packet waits: it will put the fetcher back. */
  predicate TakesInVain(s: Sys, e: Event) {
    && (e.Visit? || e.StartOwed?) && Enabled(s, e) && s.parked != []
    && var d := s.disks[CallerOf(s, e)];
       d.pdo.current.None? && d.pdo.irpQueue == []
  }

  function Taken(s: Sys): Sys
    requires s.parked != []
  {
    s.(parked := Rest(s.parked))
  }

  /** The fetcher is put back into `u` and the call returns. */
  function PutBack(u: Sys, f: Fetcher, e: Event): Sys
    requires Enabled(u, e) && (e.Visit? || e.StartOwed?)
  {
    var v := u.(parked := Insert(u.parked, f));
    if e.Visit? then v.(fetch := Scanning(Some(u.fetch.at))) else SetWorker(v, e.i, Idle)
  }

  /** Without anything in between, the two halves are the step of the machine. */
  lemma HalvesMakeTheStep(s: Sys, e: Event)
    requires Inv(s) && TakesInVain(s, e)
    ensures Enabled(Taken(s), e) && Defined(s, e) && PutBack(Taken(s), s.parked[0], e) == Next(s, e)
  {
    var i := CallerOf(s, e);
    assert DiskInv(i, s.disks[i], TokenOf(s, i));
    assert s.disks[i := s.disks[i].(pdo := s.disks[i].pdo)] == s.disks;
  }

  // ---- what can come in between ----

  /** A step of another thread than the caller's that does not take the PDOLock of the caller's disk `o`. */
  predicate Between(u: Sys, e: Event, o: nat, b: Event) {
    match b
    case Arrive(i, _) => i != o
    case Clear(i) => i != o
    case Visit => e.StartOwed? && u.fetch != AtEntry(o)
    case Issue => e.StartOwed?
    case Step => e.StartOwed?
    case Receive => e.StartOwed?
    case Find => e.StartOwed?
    case Post => e.StartOwed?
    case Signal => e.StartOwed?
    case Wake(i) => e != StartOwed(i)
    case Exec(i) => e != StartOwed(i)
    case ExecFail(i, _, _, _) => e != StartOwed(i)
    case Send(i) => e != StartOwed(i)
    case Lookup(i) => e != StartOwed(i)
    case Section(i) => i < |u.disks| && u.disks[i].worker.Found? && u.disks[i].worker.target != o && e != StartOwed(i)
    case StartOwed(i) => i < |u.disks| && u.disks[i].worker.Tail? && u.disks[i].worker.target != o && e != StartOwed(i)
    case _ => true
  }

  /** `es` runs between the halves of call `e` on disk `o`, from `u` on. */
  predicate Window(u: Sys, e: Event, o: nat, es: seq<Event>)
    decreases |es|
  {
    es == [] ||
    (var n := |es| - 1;
     Window(u, e, o, es[..n]) && Steps(u, es) && Between(EndOf(u, es[..n]), e, o, es[n]))
  }

  /** Requests and replies name their own disks, and a deleted processor has none. */
  predicate Named(disks: seq<Disk>) {
    && HandlesDistinct(disks)
    && forall i :: 0 <= i < |disks| ==>
         Addressed(i, disks[i], NoToken) && (disks[i].stage.Gone? ==> disks[i].worker.Idle? && !disks[i].event)
  }

  /** What holds while the fetcher is out: there is none, no request is delivered, and the call is where it was. */
  predicate Out(u: Sys, e: Event, o: nat) {
    && u.parked == [] && u.delivered.None? && (u.fetch.Scanning? || u.fetch.AtEntry? || u.fetch.Waiting?)
    && Named(u.disks) && WellLinked(u.disks)
    && o < |u.disks| && u.disks[o].pdo.irpQueue == []
    && (if e.Visit? then u.fetch == AtEntry(o) else e == StartOwed(o) && u.disks[o].worker == Tail(o))
  }

  lemma OutAtFirst(s: Sys, e: Event)
    requires Inv(s) && TakesInVain(s, e)
    ensures Out(Taken(s), e, CallerOf(s, e))
  {
    if e.StartOwed? {
      assert DiskInv(e.i, s.disks[e.i], TokenOf(s, e.i));
    }
    forall i | 0 <= i < |s.disks| ensures Addressed(i, s.disks[i], NoToken) {
      assert DiskInv(i, s.disks[i], TokenOf(s, i));
    }
  }

  /** One disk's record changes, and keeps its name and its place on the list. */
  lemma OutOneDisk(u: Sys, t: Sys, e: Event, o: nat, i: nat, d: Disk)
    requires Out(u, e, o) && i < |u.disks| && t.disks == u.disks[i := d]
    requires t.parked == u.parked && t.delivered == u.delivered && t.fetch == u.fetch
    requires d.pdo.serialNo == u.disks[i].pdo.serialNo && (u.disks[i].stage.Gone? ==> d.stage.Gone?)
    requires Addressed(i, d, NoToken) && (d.stage.Gone? ==> d.worker.Idle? && !d.event)
    requires d.stage.Linked? || d.flink.None? || i < d.flink.value < |u.disks|
    requires i == o ==> d.pdo.irpQueue == [] && (e.StartOwed? ==> d.worker == Tail(o))
    ensures Out(t, e, o)
  {
  }

  lemma OutArrive(u: Sys, e: Event, o: nat, b: Event)
    requires Out(u, e, o) && Guard(u, b) && Defined(u, b) && Between(u, e, o, b) && (b.Arrive? || b.CancelQueued? || b.AddDisk?)
    ensures Out(Next(u, b), e, o)
  {
  }

  lemma OutRemoval(u: Sys, e: Event, o: nat, b: Event)
    requires Out(u, e, o) && Guard(u, b) && (b.Unlink? || b.Clear? || b.Drain? || b.Finish? || b.RemoveFinal?)
    ensures Out(Next(u, b), e, o)
  {
    OutOneDisk(u, Next(u, b), e, o, b.i, Next(u, b).disks[b.i]);
  }

  lemma OutWalk(u: Sys, e: Event, o: nat, b: Event)
    requires Out(u, e, o) && Guard(u, b) && Defined(u, b) && Between(u, e, o, b)
    requires b.Step? || b.Visit? || b.StartOwed?
    ensures Out(Next(u, b), e, o)
  {
  }

  lemma OutWorker(u: Sys, e: Event, o: nat, b: Event)
    requires Out(u, e, o) && Guard(u, b) && Defined(u, b) && Between(u, e, o, b)
    requires b.Wake? || b.Exec? || b.ExecFail? || b.Send?
    ensures Out(Next(u, b), e, o)
  {
    assert Addressed(b.i, u.disks[b.i], NoToken);
    OutOneDisk(u, Next(u, b), e, o, b.i, Next(u, b).disks[b.i]);
  }

  lemma LookupNamesOwn(u: Sys, i: nat)
    requires Named(u.disks) && i < |u.disks| && u.disks[i].worker.Sent?
    ensures var found := FindLinked(u.disks, u.disks[i].worker.reply.handle, 0); found.Some? ==> found.value == i
  {
    assert Addressed(i, u.disks[i], NoToken);
  }

  lemma OutLookup(u: Sys, e: Event, o: nat, b: Event)
    requires Out(u, e, o) && Guard(u, b) && Between(u, e, o, b) && b.Lookup?
    ensures Out(Next(u, b), e, o)
  {
    LookupNamesOwn(u, b.i);
    assert Addressed(b.i, u.disks[b.i], NoToken);
    OutOneDisk(u, Next(u, b), e, o, b.i, Next(u, b).disks[b.i]);
  }

  lemma OutSection(u: Sys, e: Event, o: nat, b: Event)
    requires Out(u, e, o) && Guard(u, b) && Defined(u, b) && Between(u, e, o, b) && b.Section?
    ensures Out(Next(u, b), e, o)
  {
    assert Addressed(b.i, u.disks[b.i], NoToken);
    var t := Next(u, b);
    assert t.disks == u.disks[b.i := t.disks[b.i]];
    OutOneDisk(u, t, e, o, b.i, t.disks[b.i]);
  }

  lemma OutStays(u: Sys, e: Event, o: nat, b: Event)
    requires Out(u, e, o) && Guard(u, b) && Defined(u, b) && Between(u, e, o, b)
    ensures Out(Next(u, b), e, o)
  {
    if b.Arrive? || b.CancelQueued? || b.AddDisk? {
      OutArrive(u, e, o, b);
    } else if b.Unlink? || b.Clear? || b.Drain? || b.Finish? || b.RemoveFinal? {
      OutRemoval(u, e, o, b);
    } else if b.Step? || b.Visit? || b.StartOwed? {
      OutWalk(u, e, o, b);
    } else if b.Wake? || b.Exec? || b.ExecFail? || b.Send? {
      OutWorker(u, e, o, b);
    } else if b.Lookup? {
      OutLookup(u, e, o, b);
    } else if b.Section? {
      OutSection(u, e, o, b);
    }
  }

  // ---- how a disk comes to wait without a wake-up ----

  /** Idle, with work queued: with a fetcher parked the disk would starve. */
  predicate Waits(u: Sys, j: nat) {
    j < |u.disks| && u.disks[j].stage.Linked? && u.disks[j].pdo.current.None? && u.disks[j].pdo.irpQueue != []
  }

  predicate Unowed(u: Sys, j: nat) {
    Waits(u, j) && !Owed(u, j)
  }

  /** Step `b` is the last BusStartNextPacket owed to disk `j`. */
  predicate SpendsLast(u: Sys, b: Event, j: nat)
    requires j < |u.disks|
  {
    (b.Visit? && u.fetch == AtEntry(j) && u.disks[j].worker != Tail(j)) || (b == StartOwed(j) && !ScanOwes(u, j))
  }

  /** While the fetcher is out, step `b` leaves disk `j` waiting without a wake-up owed to it: a packet arrives on the
      idle disk and none was owed, or the disk waits and the last call owed to it finds no fetcher. */
  predicate Strands(u: Sys, b: Event, j: nat) {
    || (b.Arrive? && b.i == j && j < |u.disks| && u.disks[j].pdo.current.None? && !Owed(u, j))
    || (Waits(u, j) && SpendsLast(u, b, j))
  }

  /** The walk comes to disk `j` after the step as before. */
  predicate SameDebt(u: Sys, t: Sys, j: nat)
    requires j < |u.disks| && j < |t.disks|
  {
    ScanOwes(t, j) == ScanOwes(u, j)
  }

  lemma DebtOnSameList(u: Sys, t: Sys, j: nat)
    requires SameList(u.disks, t.disks) && t.fetch == u.fetch && j < |u.disks|
    ensures SameDebt(u, t, j)
  {
    if u.fetch.Scanning? {
      ReachesSame(u.disks, t.disks, u.fetch.from, j);
    } else if u.fetch.AtEntry? {
      ReachesSame(u.disks, t.disks, Some(u.fetch.at), j);
    }
  }

  lemma StepArrive(u: Sys, e: Event, o: nat, b: Event, j: nat)
    requires Out(u, e, o) && Guard(u, b) && Defined(u, b) && (b.Arrive? || b.CancelQueued?) && j < |u.disks|
    ensures Unowed(Next(u, b), j) <==> (Unowed(u, j) && Waits(Next(u, b), j)) || Strands(u, b, j)
  {
    DebtOnSameList(u, Next(u, b), j);
  }

  lemma StepRemoval(u: Sys, b: Event, j: nat)
    requires Guard(u, b) && (b.Clear? || b.Drain? || b.Finish? || b.RemoveFinal?) && j < |u.disks|
    ensures Unowed(Next(u, b), j) <==> (Unowed(u, j) && Waits(Next(u, b), j)) || Strands(u, b, j)
  {
    DebtOnSameList(u, Next(u, b), j);
  }

  lemma StepList(u: Sys, e: Event, o: nat, b: Event, j: nat)
    requires Out(u, e, o) && Guard(u, b) && (b.Unlink? || b.AddDisk?) && j < |u.disks|
    ensures Unowed(Next(u, b), j) <==> (Unowed(u, j) && Waits(Next(u, b), j)) || Strands(u, b, j)
  {
    if Waits(Next(u, b), j) {
      if u.fetch.Scanning? || u.fetch.AtEntry? {
        var from := if u.fetch.Scanning? then u.fetch.from else Some(u.fetch.at);
        if b.Unlink? {
          ReachesTakenOff(u.disks, b.i, from, j);
        } else {
          ReachesAppend(u.disks, FreshDisk(b.handle, b.backing, b.mailbox), from, j);
        }
      }
    }
  }

  /** Links lead forward, so a walk does not come back. */
  lemma {:induction false} ReachedIsBehind(disks: seq<Disk>, from: Option<nat>, i: nat)
    requires WellLinked(disks) && Reaches(disks, from, i)
    ensures Behind(from) <= i
    decreases |disks| - Behind(from)
  {
    FlinkIsForward(disks, from);
    var r := Flink(disks, from);
    if r.value != i {
      ReachedIsBehind(disks, r, i);
    }
  }

  lemma NotReachedFromItself(disks: seq<Disk>, i: nat)
    requires WellLinked(disks)
    ensures !Reaches(disks, Some(i), i)
  {
    if Reaches(disks, Some(i), i) {
      ReachedIsBehind(disks, Some(i), i);
    }
  }

  /** The walk moves on, or its call finds no fetcher. */
  lemma StepWalk(u: Sys, e: Event, o: nat, b: Event, j: nat)
    requires Out(u, e, o) && Guard(u, b) && Defined(u, b) && (b.Step? || b.Visit?) && j < |u.disks|
    ensures Unowed(Next(u, b), j) <==> (Unowed(u, j) && Waits(Next(u, b), j)) || Strands(u, b, j)
  {
    if b.Visit? {
      ReachesSame(u.disks, Next(u, b).disks, Some(u.fetch.at), j);
      NotReachedFromItself(u.disks, u.fetch.at);
    }
  }

  lemma StepWorker(u: Sys, b: Event, j: nat)
    requires Guard(u, b) && Defined(u, b) && j < |u.disks|
    requires b.Wake? || b.Exec? || b.ExecFail? || b.Send? || b.Lookup?
    ensures Unowed(Next(u, b), j) <==> (Unowed(u, j) && Waits(Next(u, b), j)) || Strands(u, b, j)
  {
    DebtOnSameList(u, Next(u, b), j);
  }

  lemma StepSection(u: Sys, e: Event, o: nat, b: Event, j: nat)
    requires Out(u, e, o) && Guard(u, b) && Defined(u, b) && j < |u.disks| && b.Section?
    ensures Unowed(Next(u, b), j) <==> (Unowed(u, j) && Waits(Next(u, b), j)) || Strands(u, b, j)
  {
    assert Addressed(b.i, u.disks[b.i], NoToken);
    DebtOnSameList(u, Next(u, b), j);
  }

  lemma StepOwed(u: Sys, e: Event, o: nat, b: Event, j: nat)
    requires Out(u, e, o) && Guard(u, b) && Defined(u, b) && j < |u.disks| && b.StartOwed?
    ensures Unowed(Next(u, b), j) <==> (Unowed(u, j) && Waits(Next(u, b), j)) || Strands(u, b, j)
  {
    assert Addressed(b.i, u.disks[b.i], NoToken);
    DebtOnSameList(u, Next(u, b), j);
  }

  /** One step while the fetcher is out, exactly. */
  lemma StepStrands(u: Sys, e: Event, o: nat, b: Event, j: nat)
    requires Out(u, e, o) && Guard(u, b) && Defined(u, b) && Between(u, e, o, b)
    ensures Unowed(Next(u, b), j) <==> (Unowed(u, j) && Waits(Next(u, b), j)) || Strands(u, b, j)
  {
    NoNewDisk(u, b);
    if j < |u.disks| {
      if b.Arrive? || b.CancelQueued? {
        StepArrive(u, e, o, b, j);
      } else if b.Clear? || b.Drain? || b.Finish? || b.RemoveFinal? {
        StepRemoval(u, b, j);
      } else if b.Unlink? || b.AddDisk? {
        StepList(u, e, o, b, j);
      } else if b.Step? || b.Visit? {
        StepWalk(u, e, o, b, j);
      } else if b.Wake? || b.Exec? || b.ExecFail? || b.Send? || b.Lookup? {
        StepWorker(u, b, j);
      } else if b.Section? {
        StepSection(u, e, o, b, j);
      } else if b.StartOwed? {
        StepOwed(u, e, o, b, j);
      }
    }
  }

  // ---- a run of steps in between ----

  lemma {:induction false} OutThroughout(u: Sys, e: Event, o: nat, es: seq<Event>)
    requires Out(u, e, o) && Window(u, e, o, es)
    ensures Steps(u, es) && Out(EndOf(u, es), e, o)
  {
    if es != [] {
      var n := |es| - 1;
      OutThroughout(u, e, o, es[..n]);
      OutStays(EndOf(u, es[..n]), e, o, es[n]);
    }
  }

  /** At some step of the run disk `j` was stranded, and it has waited since. */
  predicate StrandedSince(u: Sys, es: seq<Event>, j: nat)
    requires Steps(u, es)
    decreases |es|
  {
    es != []
    && (var before := es[..|es| - 1];
        Strands(EndOf(u, before), es[|es| - 1], j) || (StrandedSince(u, before, j) && Waits(EndOf(u, es), j)))
  }

  lemma {:induction false} UnowedIsStranded(u: Sys, e: Event, o: nat, es: seq<Event>, j: nat)
    requires Out(u, e, o) && Window(u, e, o, es) && !Unowed(u, j)
    ensures Steps(u, es) && (Unowed(EndOf(u, es), j) <==> StrandedSince(u, es, j))
  {
    if es != [] {
      var n := |es| - 1;
      OutThroughout(u, e, o, es[..n]);
      UnowedIsStranded(u, e, o, es[..n], j);
      StepStrands(EndOf(u, es[..n]), e, o, es[n], j);
    }
  }

  lemma OwedAfterPutBack(u: Sys, e: Event, o: nat, f: Fetcher, j: nat)
    requires Out(u, e, o)
    ensures Enabled(u, e) && (e.Visit? || e.StartOwed?)
    ensures var t := PutBack(u, f, e); |t.disks| == |u.disks| && (j < |t.disks| ==> (Starving(t, j) && !Owed(t, j) <==> Unowed(u, j)))
  {
    if j < |u.disks| && u.fetch.Scanning? {
      ReachesSame(u.disks, PutBack(u, f, e).disks, u.fetch.from, j);
    } else if j < |u.disks| && u.fetch.AtEntry? {
      ReachesSame(u.disks, PutBack(u, f, e).disks, Some(u.fetch.at), j);
    }
  }

  lemma OwedAtFirst(s: Sys, j: nat)
    requires Inv(s) && s.parked != []
    ensures !Unowed(Taken(s), j)
  {
    if Waits(s, j) {
      assert Starving(s, j);
    }
  }

  /** What the system looks like after the two halves of `e` with the run `es` in between. */
  function SplitBy(s: Sys, e: Event, es: seq<Event>): Sys
    requires TakesInVain(s, e) && Steps(Taken(s), es) && Enabled(EndOf(Taken(s), es), e)
  {
    PutBack(EndOf(Taken(s), es), s.parked[0], e)
  }

  /** The exact condition for the split to lose a wake-up. Let other threads take any steps between the halves. Disk `j`
      ends up waiting beside a parked fetcher with no BusStartNextPacket owed to it if and only if at one of these
      steps a packet arrived on it while it was idle and none was owed, or the last one owed to it found no fetcher,
      and it has waited since. */
  lemma SplitPutBackIsExact(s: Sys, e: Event, es: seq<Event>, j: nat)
    requires Inv(s) && TakesInVain(s, e) && Window(Taken(s), e, CallerOf(s, e), es)
    ensures Steps(Taken(s), es) && Enabled(EndOf(Taken(s), es), e)
    ensures var t := SplitBy(s, e, es);
            j < |t.disks| ==> (Starving(t, j) && !Owed(t, j) <==> StrandedSince(Taken(s), es, j))
  {
    var o := CallerOf(s, e);
    var u := Taken(s);
    OutAtFirst(s, e);
    OutThroughout(u, e, o, es);
    OwedAfterPutBack(EndOf(u, es), e, o, s.parked[0], j);
    OwedAtFirst(s, j);
    UnowedIsStranded(u, e, o, es, j);
  }
}
