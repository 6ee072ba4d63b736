/** The removal of a disk against everything else. Bus_DestroyPdo clears CurrentIrp once and then drains the queue, while
    a reply past its section, or a GET_REQUEST walk that came to the disk before it was unlinked, still owes the disk a
    BusStartNextPacket. When that call takes a packet out of the queue in between, the packet is stray: it becomes
    current after the last look at CurrentIrp. */
module PipelineDestroy {
  import opened Base
  import opened Packets
  import opened Pipeline
  import opened PipelineWalk
  import opened PipelineInvariant
  import opened PipelineSafety

  /** A walk under way brings the parked fetcher to disk `i`. */
  predicate FetcherComes(s: Sys, i: nat) {
    s.parked != [] && ScanOwes(s, i)
  }

  /** A packet waits that a BusStartNextPacket may still start behind the back of the removal: one owed by a reply, or
      about to be owed by a reply past its look-up that finds CurrentIrp uncleared, or one of the walk if `comes`. */
  predicate CanStray(d: Disk, comes: bool) {
    && d.pdo.irpQueue != []
    && if d.stage.Unlinked? then d.worker.Found? || d.worker.Tail? || comes else d.stage.Draining? && (d.worker.Tail? || comes)
  }

  predicate AtRisk(s: Sys, i: nat)
    requires i < |s.disks|
  {
    CanStray(s.disks[i], FetcherComes(s, i))
  }

  /** The removal is under way or over, no packet is stray, and none can become so. */
  predicate Safe(s: Sys, i: nat)
    requires i < |s.disks|
  {
    !s.disks[i].stage.Linked? && !Stray(s.disks[i]) && !AtRisk(s, i)
  }

  // ---- what a step does to one disk ----

  /** The fetch thread outside BusStartNextPacket, and registrations, touch no more than a disk's mailbox. */
  lemma FetchFrame(s: Sys, e: Event, i: nat)
    requires Guard(s, e) && i < |s.disks|
    requires e.AddDisk? || e.Issue? || e.Step? || e.Receive? || e.Find? || e.Post? || e.Signal?
    ensures var t := Next(s, e);
            i < |t.disks| && t.disks[i] == s.disks[i].(req := t.disks[i].req, event := t.disks[i].event)
  {
  }

  /** A worker outside the driver leaves the removal, CurrentIrp and the queue alone. */
  lemma WorkerFrame(s: Sys, e: Event, i: nat)
    requires Guard(s, e) && Defined(s, e) && i < |s.disks| && (e.Wake? || e.Exec? || e.ExecFail? || e.Send?)
    ensures i < |Next(s, e).disks|
    ensures var d := s.disks[i]; var after := Next(s, e).disks[i];
            && after.stage == d.stage && after.pdo.current == d.pdo.current && after.pdo.irpQueue == d.pdo.irpQueue
            && (after.worker == d.worker || !(after.worker.Found? || after.worker.Tail?))
  {
  }

  // ---- the walk ----

  lemma ComesAsBefore(s: Sys, t: Sys, i: nat)
    requires FetcherComes(t, i) && SameList(s.disks, t.disks) && t.fetch == s.fetch && s.parked != []
    ensures FetcherComes(s, i)
  {
    if s.fetch.Scanning? {
      ReachesSame(s.disks, t.disks, s.fetch.from, i);
    } else {
      ReachesSame(s.disks, t.disks, Some(s.fetch.at), i);
    }
  }

  lemma WalkBringsNoMore(s: Sys, e: Event, i: nat)
    requires Inv(s) && Guard(s, e) && Defined(s, e) && (e.Issue? || e.Step? || e.Visit?)
    requires i < |s.disks| && !s.disks[i].stage.Linked? && FetcherComes(Next(s, e), i)
    ensures FetcherComes(s, i)
  {
    var t := Next(s, e);
    if e.Issue? {
      ListReachesLinked(t.disks, None, i);
    } else if e.Visit? {
      ReachesSame(s.disks, t.disks, Some(s.fetch.at), i);
    }
  }

  lemma ListBringsNoMore(s: Sys, e: Event, i: nat)
    requires Inv(s) && Guard(s, e) && (e.Unlink? || e.AddDisk?)
    requires i < |s.disks| && !s.disks[i].stage.Linked? && FetcherComes(Next(s, e), i)
    ensures FetcherComes(s, i)
  {
    var from := if s.fetch.Scanning? then s.fetch.from else Some(s.fetch.at);
    if e.Unlink? {
      ReachesTakenOff(s.disks, e.i, from, i);
    } else {
      ReachesAppend(s.disks, FreshDisk(e.handle, e.backing, e.mailbox), from, i);
    }
  }

  lemma WorkersKeepTheList(s: Sys, e: Event)
    requires Guard(s, e) && Defined(s, e) && (e.Wake? || e.Exec? || e.ExecFail? || e.Send?)
    ensures var t := Next(s, e); SameList(s.disks, t.disks) && (t.parked != [] ==> s.parked != []) && t.fetch == s.fetch
  {
  }

  lemma CallsKeepTheList(s: Sys, e: Event)
    requires Guard(s, e) && Defined(s, e) && (e.Lookup? || e.Section? || e.StartOwed?)
    ensures var t := Next(s, e); SameList(s.disks, t.disks) && (t.parked != [] ==> s.parked != []) && t.fetch == s.fetch
  {
  }

  lemma RemovalsKeepTheList(s: Sys, e: Event)
    requires Guard(s, e) && Defined(s, e)
    requires e.Arrive? || e.CancelQueued? || e.Clear? || e.Drain? || e.Finish? || e.RemoveFinal?
    ensures var t := Next(s, e); SameList(s.disks, t.disks) && (t.parked != [] ==> s.parked != []) && t.fetch == s.fetch
  {
  }

  /** Once a disk is off the list, no step makes a walk come to it that would not have come before. */
  lemma NoMoreComes(s: Sys, e: Event, i: nat)
    requires Inv(s) && Guard(s, e) && Defined(s, e) && i < |s.disks| && !s.disks[i].stage.Linked?
    requires FetcherComes(Next(s, e), i)
    ensures FetcherComes(s, i)
  {
    if e.Issue? || e.Step? || e.Visit? {
      WalkBringsNoMore(s, e, i);
    } else if e.Unlink? || e.AddDisk? {
      ListBringsNoMore(s, e, i);
    } else if e.Wake? || e.Exec? || e.ExecFail? || e.Send? {
      WorkersKeepTheList(s, e);
      ComesAsBefore(s, Next(s, e), i);
    } else if e.Lookup? || e.Section? || e.StartOwed? {
      CallsKeepTheList(s, e);
      ComesAsBefore(s, Next(s, e), i);
    } else if e.Arrive? || e.CancelQueued? || e.Clear? || e.Drain? || e.Finish? || e.RemoveFinal? {
      RemovalsKeepTheList(s, e);
      ComesAsBefore(s, Next(s, e), i);
    }
  }

  // ---- a safe disk stays safe ----

  lemma SafeCalls(s: Sys, e: Event, i: nat)
    requires Inv(s) && Guard(s, e) && Defined(s, e) && i < |s.disks| && Safe(s, i)
    requires e.StartOwed? || e.Section? || e.Lookup?
    ensures var d := Next(s, e).disks[i]; !d.stage.Linked? && !Stray(d) && !CanStray(d, FetcherComes(s, i))
  {
    assert DiskInv(e.i, s.disks[e.i], TokenOf(s, e.i));
    if e.Lookup? {
      LookupFindsOwn(s, e.i);
    }
  }

  lemma SafeStarts(s: Sys, e: Event, i: nat)
    requires Inv(s) && Guard(s, e) && Defined(s, e) && i < |s.disks| && Safe(s, i) && (e.Arrive? || e.Visit?)
    ensures var d := Next(s, e).disks[i]; !d.stage.Linked? && !Stray(d) && !CanStray(d, FetcherComes(s, i))
  {
    var d := Next(s, e).disks[i];
    assert d == s.disks[i].(pdo := d.pdo);
    if e.Visit? && s.fetch.at == i && s.parked != [] {
      assert FetcherComes(s, i);
      assert DiskInv(i, s.disks[i], TokenOf(s, i));
    } else {
      assert d.pdo == s.disks[i].pdo;
    }
  }

  lemma SafeRemoval(s: Sys, e: Event, i: nat)
    requires Guard(s, e) && i < |s.disks| && Safe(s, i)
    requires e.CancelQueued? || e.Unlink? || e.Clear? || e.Drain? || e.Finish? || e.RemoveFinal?
    ensures var d := Next(s, e).disks[i]; !d.stage.Linked? && !Stray(d) && !CanStray(d, FetcherComes(s, i))
  {
  }

  lemma SafeStays(s: Sys, e: Event, i: nat)
    requires Inv(s) && Guard(s, e) && Defined(s, e) && i < |s.disks| && Safe(s, i)
    ensures i < |Next(s, e).disks| && Safe(Next(s, e), i)
  {
    NoNewDisk(s, e);
    if e.StartOwed? || e.Section? || e.Lookup? {
      SafeCalls(s, e, i);
    } else if e.Arrive? || e.Visit? {
      SafeStarts(s, e, i);
    } else if e.CancelQueued? || e.Unlink? || e.Clear? || e.Drain? || e.Finish? || e.RemoveFinal? {
      SafeRemoval(s, e, i);
    } else if e.AddDisk? || e.Issue? || e.Step? || e.Receive? || e.Find? || e.Post? || e.Signal? {
      FetchFrame(s, e, i);
    } else {
      WorkerFrame(s, e, i);
    }
    if FetcherComes(Next(s, e), i) {
      NoMoreComes(s, e, i);
    }
  }

  lemma {:induction false} SafeForever(s: Sys, es: seq<Event>, i: nat)
    requires Inv(s) && Steps(s, es) && i < |s.disks| && Safe(s, i)
    ensures i < |EndOf(s, es).disks| && Safe(EndOf(s, es), i)
  {
    if es != [] {
      var before := es[..|es| - 1];
      SafeForever(s, before, i);
      StepsKeep(s, before);
      SafeStays(EndOf(s, before), es[|es| - 1], i);
    }
  }

  // ---- what becomes of a stray packet ----

  /** No reply will take the stray packet: the worker is not past its look-up, and a later look-up does not find the
      disk; or its reply does not fit into the packet's buffer. */
  predicate Pinned(d: Disk) {
    Stray(d) && (d.worker.Found? ==> !ReplyFits(d.pdo, d.worker.reply))
  }

  lemma PinnedStarts(s: Sys, e: Event, i: nat)
    requires Inv(s) && Guard(s, e) && Defined(s, e) && i < |s.disks| && Pinned(s.disks[i])
    requires e.Arrive? || e.Visit? || e.StartOwed?
    ensures Pinned(Next(s, e).disks[i]) && Next(s, e).disks[i].pdo.current == s.disks[i].pdo.current
  {
    if e.StartOwed? {
      assert DiskInv(e.i, s.disks[e.i], TokenOf(s, e.i));
    }
  }

  lemma PinnedCalls(s: Sys, e: Event, i: nat)
    requires Inv(s) && Guard(s, e) && Defined(s, e) && i < |s.disks| && Pinned(s.disks[i]) && (e.Section? || e.Lookup?)
    ensures Pinned(Next(s, e).disks[i]) && Next(s, e).disks[i].pdo.current == s.disks[i].pdo.current
  {
    assert DiskInv(e.i, s.disks[e.i], TokenOf(s, e.i));
    if e.Lookup? {
      LookupFindsOwn(s, e.i);
    }
  }

  lemma PinnedRemoval(s: Sys, e: Event, i: nat)
    requires Guard(s, e) && i < |s.disks| && Pinned(s.disks[i])
    requires e.CancelQueued? || e.Unlink? || e.Clear? || e.Drain? || e.Finish? || e.RemoveFinal?
    ensures Pinned(Next(s, e).disks[i]) && Next(s, e).disks[i].pdo.current == s.disks[i].pdo.current
  {
  }

  lemma PinnedWorker(s: Sys, e: Event, i: nat)
    requires Guard(s, e) && Defined(s, e) && i < |s.disks| && Pinned(s.disks[i]) && (e.Wake? || e.Exec? || e.ExecFail? || e.Send?)
    ensures Pinned(Next(s, e).disks[i]) && Next(s, e).disks[i].pdo.current == s.disks[i].pdo.current
  {
  }

  lemma PinnedStays(s: Sys, e: Event, i: nat)
    requires Inv(s) && Guard(s, e) && Defined(s, e) && i < |s.disks| && Pinned(s.disks[i])
    ensures i < |Next(s, e).disks|
    ensures Pinned(Next(s, e).disks[i]) && Next(s, e).disks[i].pdo.current == s.disks[i].pdo.current
  {
    NoNewDisk(s, e);
    if e.Arrive? || e.Visit? || e.StartOwed? {
      PinnedStarts(s, e, i);
    } else if e.Section? || e.Lookup? {
      PinnedCalls(s, e, i);
    } else if e.AddDisk? || e.Issue? || e.Step? || e.Receive? || e.Find? || e.Post? || e.Signal? {
      FetchFrame(s, e, i);
    } else if e.Wake? || e.Exec? || e.ExecFail? || e.Send? {
      PinnedWorker(s, e, i);
    } else {
      PinnedRemoval(s, e, i);
    }
  }

  /** A pinned packet stays current on its dead disk in every continuation. */
  lemma {:induction false} PinnedForever(s: Sys, es: seq<Event>, i: nat)
    requires Inv(s) && Steps(s, es) && i < |s.disks| && Pinned(s.disks[i])
    ensures i < |EndOf(s, es).disks|
    ensures Pinned(EndOf(s, es).disks[i]) && EndOf(s, es).disks[i].pdo.current == s.disks[i].pdo.current
  {
    if es != [] {
      var before := es[..|es| - 1];
      PinnedForever(s, before, i);
      StepsKeep(s, before);
      PinnedStays(EndOf(s, before), es[|es| - 1], i);
    }
  }

  /** A run after which disk `i` no longer has the packet that is current in `s`. */
  predicate TakesCurrent(s: Sys, es: seq<Event>, i: nat)
    requires i < |s.disks|
  {
    Steps(s, es) && i < |EndOf(s, es).disks| && EndOf(s, es).disks[i].pdo.current != s.disks[i].pdo.current
  }

  /** When a stray packet is ever completed: some continuation completes it if and only if the late reply of an earlier
      packet is past its look-up and fits. */
  lemma StrayIsExact(s: Sys, i: nat)
    requires Inv(s) && i < |s.disks| && Stray(s.disks[i])
    ensures (exists es :: TakesCurrent(s, es, i)) <==> !Pinned(s.disks[i])
  {
    if Pinned(s.disks[i]) {
      forall es | Steps(s, es) ensures !TakesCurrent(s, es, i) {
        PinnedForever(s, es, i);
      }
    } else {
      assert DiskInv(i, s.disks[i], TokenOf(s, i));
      var start: seq<Event> := [];
      var es := Grow(s, start, s, Section(i));
      assert TakesCurrent(s, es, i);
    }
  }

  // ---- a disk at risk can lose a packet ----

  /** The driver's halves of the disks, their removals and the workers are the same; mailboxes may differ. */
  predicate SameButMailboxes(s: Sys, t: Sys) {
    |t.disks| == |s.disks|
    && forall j :: 0 <= j < |s.disks| ==>
         t.disks[j].pdo == s.disks[j].pdo && t.disks[j].stage == s.disks[j].stage && t.disks[j].worker == s.disks[j].worker
  }

  /** How far the fetch thread is from a parked request. */
  function Distance(f: Fetch, n: nat): nat {
    match f
    case Scanning(from) => 7 + if Behind(from) <= n then 2 * (n - Behind(from)) + 1 else 0
    case AtEntry(at) => 7 + if at <= n then 2 * (n - at) else 0
    case Waiting => 6
    case Holding(_) => 5
    case Directed(_, _) => 4
    case Posting(_) => 3
    case Ready => 2
  }

  /** The fetch thread's next step. */
  function FetchStep(s: Sys): Event {
    match s.fetch
    case Ready => Issue
    case Scanning(_) => Step
    case AtEntry(_) => Visit
    case Waiting => Receive
    case Holding(_) => Find
    case Directed(_, _) => Post
    case Posting(_) => Signal
  }

  lemma VisitInVain(s: Sys)
    requires Inv(s) && s.parked == [] && s.fetch.AtEntry?
    ensures Guard(s, Visit) && Defined(s, Visit) && SameButMailboxes(s, Next(s, Visit))
    ensures Next(s, Visit).fetch == Scanning(Some(s.fetch.at)) && s.fetch.at < |s.disks|
  {
    assert DiskInv(s.fetch.at, s.disks[s.fetch.at], TokenOf(s, s.fetch.at));
  }

  lemma TowardsParkStep(s: Sys)
    requires Inv(s) && s.parked == []
    ensures Guard(s, FetchStep(s)) && Defined(s, FetchStep(s))
    ensures SameButMailboxes(s, Next(s, FetchStep(s)))
    ensures var t := Next(s, FetchStep(s)); t.parked != [] || Distance(t.fetch, |t.disks|) < Distance(s.fetch, |s.disks|)
  {
    if s.fetch.AtEntry? {
      VisitInVain(s);
    } else if s.fetch.Scanning? {
      FlinkIsForward(s.disks, s.fetch.from);
    }
  }

  /** Whatever else stands still, the fetch thread parks a request. */
  lemma {:induction false} Park(s: Sys, es: seq<Event>) returns (more: seq<Event>)
    requires Inv(s) && ClosingRun(s, es)
    ensures ClosingRun(s, more) && EndOf(s, more).parked != [] && SameButMailboxes(EndOf(s, es), EndOf(s, more))
    decreases Distance(EndOf(s, es).fetch, |EndOf(s, es).disks|)
  {
    var t := EndOf(s, es);
    StepsKeep(s, es);
    if t.parked != [] {
      more := es;
    } else {
      TowardsParkStep(t);
      more := Extend(s, es, t, FetchStep(t));
      if EndOf(s, more).parked == [] {
        more := Park(s, more);
      }
    }
  }

  lemma OwedCallStrands(s: Sys, i: nat)
    requires Inv(s) && i < |s.disks| && s.parked != []
    requires var d := s.disks[i]; d.stage.Draining? && d.worker.Tail? && d.pdo.irpQueue != [] && !Stray(d)
    ensures Guard(s, StartOwed(i)) && Defined(s, StartOwed(i)) && Pinned(Next(s, StartOwed(i)).disks[i])
  {
    assert DiskInv(i, s.disks[i], TokenOf(s, i));
  }

  lemma StrandParked(s: Sys, es: seq<Event>, i: nat) returns (more: seq<Event>)
    requires ClosingRun(s, es) && Inv(EndOf(s, es)) && i < |EndOf(s, es).disks| && EndOf(s, es).parked != []
    requires var d := EndOf(s, es).disks[i]; d.stage.Draining? && d.worker.Tail? && d.pdo.irpQueue != []
    ensures ClosingRun(s, more) && i < |EndOf(s, more).disks| && Pinned(EndOf(s, more).disks[i])
  {
    var t := EndOf(s, es);
    if Stray(t.disks[i]) {
      more := es;
    } else {
      OwedCallStrands(t, i);
      more := Grow(s, es, t, StartOwed(i));
    }
  }

  /** The call owed by a reply takes the head of the queue while it is being drained. */
  lemma StrandByReply(s: Sys, es: seq<Event>, i: nat) returns (more: seq<Event>)
    requires Inv(s) && ClosingRun(s, es) && i < |EndOf(s, es).disks|
    requires var d := EndOf(s, es).disks[i]; d.stage.Draining? && d.worker.Tail? && d.pdo.irpQueue != []
    ensures ClosingRun(s, more) && i < |EndOf(s, more).disks| && Pinned(EndOf(s, more).disks[i])
  {
    more := Park(s, es);
    StepsKeep(s, more);
    more := StrandParked(s, more, i);
  }

  /** A walk with a parked fetcher comes to disk `i`, whose queue is being drained and whose worker is not past its
      look-up. */
  predicate Coming(s: Sys, i: nat) {
    && i < |s.disks| && s.disks[i].stage.Draining? && s.disks[i].pdo.current.None? && s.disks[i].pdo.irpQueue != []
    && !s.disks[i].worker.Found? && FetcherComes(s, i)
  }

  /** The walk goes on, or the entry it stands on before disk `i` has its queue emptied, so that it keeps the fetcher. */
  function TowardsDisk(s: Sys): Event {
    if s.fetch.AtEntry? && s.fetch.at < |s.disks| && s.disks[s.fetch.at].pdo.irpQueue != []
    then CancelQueued(s.fetch.at, 0) else FetchStep(s)
  }

  function QueueAt(s: Sys): nat {
    if s.fetch.AtEntry? && s.fetch.at < |s.disks| then |s.disks[s.fetch.at].pdo.irpQueue| else 0
  }

  lemma PassBy(s: Sys, i: nat)
    requires Inv(s) && Coming(s, i) && s.fetch.AtEntry? && s.fetch.at != i && s.disks[s.fetch.at].pdo.irpQueue == []
    ensures Guard(s, Visit) && Defined(s, Visit) && Coming(Next(s, Visit), i)
    ensures var t := Next(s, Visit); Distance(t.fetch, |t.disks|) < Distance(s.fetch, |s.disks|)
  {
    var at := s.fetch.at;
    assert DiskInv(at, s.disks[at], TokenOf(s, at));
    ReachesSame(s.disks, Next(s, Visit).disks, Some(at), i);
  }

  lemma ClearTheWay(s: Sys, i: nat)
    requires Inv(s) && Coming(s, i) && s.fetch.AtEntry? && s.fetch.at != i && s.disks[s.fetch.at].pdo.irpQueue != []
    ensures var e := CancelQueued(s.fetch.at, 0);
            Guard(s, e) && Coming(Next(s, e), i) && Next(s, e).fetch == s.fetch && |Next(s, e).disks| == |s.disks|
            && QueueAt(Next(s, e)) < QueueAt(s)
  {
    var t := Next(s, CancelQueued(s.fetch.at, 0));
    ReachesSame(s.disks, t.disks, Some(s.fetch.at), i);
  }

  lemma WalkOn(s: Sys, i: nat)
    requires Inv(s) && Coming(s, i) && s.fetch.Scanning?
    ensures Guard(s, Step) && Coming(Next(s, Step), i)
    ensures var t := Next(s, Step); Distance(t.fetch, |t.disks|) < Distance(s.fetch, |s.disks|)
  {
    FlinkIsForward(s.disks, s.fetch.from);
  }

  lemma WalkStep(s: Sys, i: nat)
    requires Inv(s) && Coming(s, i) && s.fetch != AtEntry(i)
    ensures var e := TowardsDisk(s);
            && Closing(e) && Guard(s, e) && Defined(s, e) && !e.Section? && Coming(Next(s, e), i)
            && var t := Next(s, e);
            Distance(t.fetch, |t.disks|) < Distance(s.fetch, |s.disks|)
            || (Distance(t.fetch, |t.disks|) == Distance(s.fetch, |s.disks|) && QueueAt(t) < QueueAt(s))
  {
    if s.fetch.Scanning? {
      WalkOn(s, i);
    } else if s.disks[s.fetch.at].pdo.irpQueue == [] {
      PassBy(s, i);
    } else {
      ClearTheWay(s, i);
    }
  }

  lemma Arrives(s: Sys, i: nat)
    requires Inv(s) && Coming(s, i) && s.fetch == AtEntry(i)
    ensures Guard(s, Visit) && Defined(s, Visit) && Pinned(Next(s, Visit).disks[i])
  {
    assert DiskInv(i, s.disks[i], TokenOf(s, i));
  }

  lemma {:induction false} StrandByWalk(s: Sys, es: seq<Event>, i: nat) returns (more: seq<Event>)
    requires Inv(s) && ClosingRun(s, es) && Coming(EndOf(s, es), i)
    ensures ClosingRun(s, more) && i < |EndOf(s, more).disks| && Pinned(EndOf(s, more).disks[i])
    decreases Distance(EndOf(s, es).fetch, |EndOf(s, es).disks|), QueueAt(EndOf(s, es))
  {
    var t := EndOf(s, es);
    StepsKeep(s, es);
    if t.fetch == AtEntry(i) {
      Arrives(t, i);
      more := Grow(s, es, t, Visit);
    } else {
      WalkStep(t, i);
      more := Grow(s, es, t, TowardsDisk(t));
      more := StrandByWalk(s, more, i);
    }
  }

  lemma ComesAfterClear(s: Sys, i: nat)
    requires Inv(s) && Guard(s, Clear(i))
    ensures FetcherComes(Next(s, Clear(i)), i) <==> FetcherComes(s, i)
  {
    if s.fetch.Scanning? {
      ReachesSame(s.disks, Next(s, Clear(i)).disks, s.fetch.from, i);
    } else if s.fetch.AtEntry? {
      ReachesSame(s.disks, Next(s, Clear(i)).disks, Some(s.fetch.at), i);
    }
  }

  /** Clearing CurrentIrp leaves the risk as it is. */
  lemma RiskAfterClear(s: Sys, i: nat)
    requires Inv(s) && Guard(s, Clear(i)) && s.disks[i].pdo.irpQueue != []
    requires FetcherComes(s, i) && !s.disks[i].worker.Found?
    ensures Coming(Next(s, Clear(i)), i)
  {
    ComesAfterClear(s, i);
  }

  /** A reply past its look-up takes its packet and owes a start. */
  lemma OwesAfterSection(s: Sys, i: nat) returns (es: seq<Event>)
    requires Inv(s) && i < |s.disks| && s.disks[i].stage.Unlinked? && s.disks[i].worker.Found?
    ensures ClosingRun(s, es) && |EndOf(s, es).disks| == |s.disks|
    ensures var d := EndOf(s, es).disks[i]; d.stage.Unlinked? && d.worker.Tail? && d.pdo.irpQueue == s.disks[i].pdo.irpQueue
  {
    ReplyKeeps(i, s.disks[i], TokenOf(s, i));
    var start: seq<Event> := [];
    es := Grow(s, start, s, Section(i));
  }

  /** Unlinked, with a reply that owes its start: clear CurrentIrp, then run the owed call. */
  lemma StrandOwing(s: Sys, es: seq<Event>, i: nat) returns (more: seq<Event>)
    requires Inv(s) && ClosingRun(s, es) && i < |EndOf(s, es).disks|
    requires var d := EndOf(s, es).disks[i]; d.stage.Unlinked? && d.worker.Tail? && d.pdo.irpQueue != []
    ensures ClosingRun(s, more) && i < |EndOf(s, more).disks| && Pinned(EndOf(s, more).disks[i])
  {
    more := Extend(s, es, EndOf(s, es), Clear(i));
    more := StrandByReply(s, more, i);
  }

  lemma StrandUnlinked(s: Sys, i: nat) returns (es: seq<Event>)
    requires Inv(s) && i < |s.disks| && s.disks[i].stage.Unlinked? && AtRisk(s, i)
    ensures ClosingRun(s, es) && i < |EndOf(s, es).disks| && Pinned(EndOf(s, es).disks[i])
  {
    es := [];
    if s.disks[i].worker.Found? {
      es := OwesAfterSection(s, i);
      es := StrandOwing(s, es, i);
    } else if s.disks[i].worker.Tail? {
      es := StrandOwing(s, es, i);
    } else {
      RiskAfterClear(s, i);
      es := Extend(s, es, s, Clear(i));
      es := StrandByWalk(s, es, i);
    }
  }

  /** A late reply that finds no packet ends. */
  lemma LateReplyEnds(s: Sys, i: nat) returns (es: seq<Event>)
    requires Inv(s) && i < |s.disks| && s.disks[i].stage.Draining? && AtRisk(s, i) && !Stray(s.disks[i]) && FetcherComes(s, i)
    ensures ClosingRun(s, es) && Coming(EndOf(s, es), i)
  {
    es := [];
    if s.disks[i].worker.Found? {
      assert DiskInv(i, s.disks[i], TokenOf(s, i));
      es := Grow(s, es, s, Section(i));
      var t := EndOf(s, es);
      if s.fetch.Scanning? {
        ReachesSame(s.disks, t.disks, s.fetch.from, i);
      } else {
        ReachesSame(s.disks, t.disks, Some(s.fetch.at), i);
      }
    }
  }

  /** From every state at risk, without arrivals and new removals, a packet can be left behind for good. */
  lemma Strand(s: Sys, i: nat) returns (es: seq<Event>)
    requires Inv(s) && i < |s.disks| && AtRisk(s, i) && !Stray(s.disks[i])
    ensures ClosingRun(s, es) && i < |EndOf(s, es).disks| && Pinned(EndOf(s, es).disks[i])
  {
    es := [];
    if s.disks[i].stage.Unlinked? {
      es := StrandUnlinked(s, i);
    } else if s.disks[i].worker.Tail? {
      es := StrandByReply(s, es, i);
    } else {
      es := LateReplyEnds(s, i);
      es := StrandByWalk(s, es, i);
    }
  }

  /** So can the packets behind a stray one that a late reply completes. */
  lemma StrandNext(s: Sys, i: nat) returns (es: seq<Event>)
    requires Inv(s) && i < |s.disks| && Stray(s.disks[i]) && !Pinned(s.disks[i])
    requires s.disks[i].stage.Draining? && s.disks[i].pdo.irpQueue != []
    ensures ClosingRun(s, es) && i < |EndOf(s, es).disks| && Pinned(EndOf(s, es).disks[i])
  {
    assert DiskInv(i, s.disks[i], TokenOf(s, i));
    es := [];
    es := Grow(s, es, s, Section(i));
    es := StrandByReply(s, es, i);
  }

  /** A run after which a packet is stray on disk `i`. */
  predicate LeadsToStray(s: Sys, es: seq<Event>, i: nat) {
    Steps(s, es) && i < |EndOf(s, es).disks| && Stray(EndOf(s, es).disks[i])
  }

  /** The exact condition for a removal to complete everything. From the moment the disk is unlinked: some continuation
      makes a packet stray if and only if one is stray already or the disk is at risk. */
  lemma RemovalIsExact(s: Sys, i: nat)
    requires Inv(s) && i < |s.disks| && !s.disks[i].stage.Linked?
    ensures (exists es :: LeadsToStray(s, es, i)) <==> Stray(s.disks[i]) || AtRisk(s, i)
  {
    if Stray(s.disks[i]) {
      var none: seq<Event> := [];
      assert LeadsToStray(s, none, i);
    } else if AtRisk(s, i) {
      var es := Strand(s, i);
      assert LeadsToStray(s, es, i);
    } else {
      forall es | Steps(s, es) ensures !LeadsToStray(s, es, i) {
        SafeForever(s, es, i);
      }
    }
  }

  /** Read off at the step that clears CurrentIrp: the removal can leave a packet behind if and only if a packet waits
      and BusStartNextPacket is owed to the disk - by its reply, or by a walk that still has its fetcher. */
  lemma ClearIsExact(s: Sys, i: nat)
    requires Inv(s) && Guard(s, Clear(i))
    ensures var t := Next(s, Clear(i));
            (exists es :: LeadsToStray(t, es, i))
            <==> s.disks[i].pdo.irpQueue != [] && (s.disks[i].worker.Tail? || FetcherComes(s, i))
  {
    var t := Next(s, Clear(i));
    StepKeeps(s, Clear(i));
    RemovalIsExact(t, i);
    ComesAfterClear(s, i);
  }

  // ---- a removal without interference ----

  /** The system after disk `i` alone was removed as far as `stage`, with `queue` left and `cancelled` completed. */
  function Removed(s: Sys, i: nat, stage: Stage, queue: seq<Irp>, cancelled: seq<Completion>): Sys
    requires i < |s.disks|
  {
    var d := s.disks[i];
    s.(disks := s.disks[i := d.(pdo := Released(d.pdo).(irpQueue := queue), stage := stage, flink := NextLinked(s.disks, i + 1))],
       completed := s.completed + cancelled)
  }

  lemma DrainStep(s: Sys, i: nat, queue: seq<Irp>, done: seq<Completion>)
    requires i < |s.disks| && queue != []
    ensures var t := Removed(s, i, Draining, queue, done);
            Guard(t, Drain(i)) && Next(t, Drain(i)) == Removed(s, i, Draining, Rest(queue), done + [CancelOf(queue[0])])
  {
    assert (s.completed + done) + [CancelOf(queue[0])] == s.completed + (done + [CancelOf(queue[0])]);
  }

  lemma CancelNext(queue: seq<Irp>, done: seq<Completion>)
    requires queue != []
    ensures (done + [CancelOf(queue[0])]) + CancelAll(Rest(queue)) == done + CancelAll(queue)
  {
  }

  /** `es` leads from `s` to `t`. */
  predicate Leads(s: Sys, es: seq<Event>, t: Sys) {
    Steps(s, es) && EndOf(s, es) == t
  }

  lemma {:induction false} DrainAlone(s: Sys, es: seq<Event>, i: nat, queue: seq<Irp>, done: seq<Completion>) returns (more: seq<Event>)
    requires Inv(s) && i < |s.disks| && Leads(s, es, Removed(s, i, Draining, queue, done))
    ensures Leads(s, more, Removed(s, i, Draining, [], done + CancelAll(queue)))
    decreases |queue|
  {
    if queue == [] {
      assert done + CancelAll(queue) == done;
      more := es;
    } else {
      DrainStep(s, i, queue, done);
      more := Extend(s, es, Removed(s, i, Draining, queue, done), Drain(i));
      more := DrainAlone(s, more, i, Rest(queue), done + [CancelOf(queue[0])]);
      CancelNext(queue, done);
    }
  }

  lemma ClearStep(s: Sys, i: nat)
    requires i < |s.disks| && s.disks[i].stage.Linked?
    ensures var pdo := s.disks[i].pdo; var t := Unlisted(s, i);
            Guard(t, Clear(i)) && Next(t, Clear(i)) == Removed(s, i, Draining, pdo.irpQueue, CurrentCancelled(pdo))
  {
  }

  lemma FinishStep(s: Sys, i: nat, cancelled: seq<Completion>)
    requires i < |s.disks|
    ensures var t := Removed(s, i, Draining, [], cancelled);
            Guard(t, Finish(i)) && Next(t, Finish(i)) == Removed(s, i, Destroyed, [], cancelled)
  {
  }

  lemma ClearAlone(s: Sys, i: nat) returns (es: seq<Event>)
    requires Inv(s) && i < |s.disks| && s.disks[i].stage.Linked?
    ensures Leads(s, es, Removed(s, i, Draining, s.disks[i].pdo.irpQueue, CurrentCancelled(s.disks[i].pdo)))
  {
    ClearStep(s, i);
    es := [];
    es := Extend(s, es, s, Unlink(i));
    es := Extend(s, es, Unlisted(s, i), Clear(i));
  }

  /** Left alone, the removal of a disk is what the whole routine does in module Driver: it completes the current
      packet and then the queue in order, and touches nothing else. */
  lemma RemovalAlone(s: Sys, i: nat) returns (es: seq<Event>)
    requires Inv(s) && i < |s.disks| && s.disks[i].stage.Linked?
    ensures Leads(s, es, Removed(s, i, Destroyed, [], DestroyCancels(s.disks[i].pdo)))
    ensures |EndOf(s, es).completed| >= |s.completed|
    ensures CancelEach(EndOf(s, es).completed[|s.completed|..], PacketsOf(s.disks[i].pdo))
  {
    var pdo := s.disks[i].pdo;
    es := ClearAlone(s, i);
    es := DrainAlone(s, es, i, pdo.irpQueue, CurrentCancelled(pdo));
    FinishStep(s, i, DestroyCancels(pdo));
    es := Extend(s, es, Removed(s, i, Draining, [], DestroyCancels(pdo)), Finish(i));
    RemovalCancelsEach(pdo);
    assert (s.completed + DestroyCancels(pdo))[|s.completed|..] == DestroyCancels(pdo);
  }
}
