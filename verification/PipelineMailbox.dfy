/** The mailbox of a disk on which a packet has become stray, and the window between FindDisk and SetEvent: what can
    happen to them in the continuations of a state, with the exact conditions. */
module PipelineMailbox {
  import opened Base
  import opened Packets
  import opened Pipeline
  import opened PipelineWalk
  import opened PipelineInvariant
  import opened PipelineSafety
  import opened PipelineDestroy

  /** The mailbox still holds a request that the worker has to read. */
  predicate Unread(d: Disk) {
    d.event || d.worker.Woken? || d.worker.Done?
  }

  /** The fetch thread is about to write the mailbox of disk `i`, or to set its event. */
  predicate HandsOver(f: Fetch, i: nat) {
    (f.Directed? || f.Posting?) && f.target == i
  }

  /** Two requests meet in the mailbox of disk `i`. */
  predicate Clash(s: Sys, i: nat) {
    i < |s.disks| && HandsOver(s.fetch, i) && Unread(s.disks[i])
  }

  predicate LeadsToClash(s: Sys, es: seq<Event>, i: nat) {
    Steps(s, es) && Clash(EndOf(s, es), i)
  }

  // ---- no clash ----

  /** The fetch thread and the mailbox do not both have a request for the disk, and no packet of it will start again. */
  predicate Quiet(s: Sys, i: nat)
    requires i < |s.disks|
  {
    var d := s.disks[i];
    && !d.stage.Linked? && (Pinned(d) || d.pdo.irpQueue == [])
    && (TokenOf(s, i).NoToken? || !Unread(d))
  }

  /** No request for the disk is newly on its way. */
  lemma NoNewTokenByArrival(s: Sys, e: Event, i: nat)
    requires Inv(s) && Guard(s, e) && Defined(s, e) && i < |s.disks| && Quiet(s, i) && e.Arrive?
    ensures i < |Next(s, e).disks| && TokenOf(Next(s, e), i) == TokenOf(s, i)
    ensures Unread(Next(s, e).disks[i]) ==> Unread(s.disks[i])
  {
  }

  lemma NoNewTokenByStart(s: Sys, e: Event, i: nat)
    requires Inv(s) && Guard(s, e) && Defined(s, e) && i < |s.disks| && Quiet(s, i) && e.Visit?
    ensures i < |Next(s, e).disks| && TokenOf(Next(s, e), i) == TokenOf(s, i)
    ensures Unread(Next(s, e).disks[i]) ==> Unread(s.disks[i])
  {
  }

  lemma NoNewTokenByReply(s: Sys, e: Event, i: nat)
    requires Inv(s) && Guard(s, e) && Defined(s, e) && i < |s.disks| && Quiet(s, i) && e.StartOwed?
    ensures i < |Next(s, e).disks| && TokenOf(Next(s, e), i) == TokenOf(s, i)
    ensures Unread(Next(s, e).disks[i]) ==> Unread(s.disks[i])
  {
    assert DiskInv(e.i, s.disks[e.i], TokenOf(s, e.i));
  }

  lemma QuietHandOver(s: Sys, e: Event, i: nat)
    requires Inv(s) && Guard(s, e) && i < |s.disks| && Quiet(s, i) && (e.Post? || e.Signal?)
    ensures var t := Next(s, e); i < |t.disks| && (TokenOf(t, i).NoToken? || !Unread(t.disks[i]))
  {
    assert DiskInv(i, s.disks[i], TokenOf(s, i));
    if e.Post? {
      TargetIsCarried(s);
    }
  }

  lemma QuietFetch(s: Sys, e: Event, i: nat)
    requires FetchInv(s) && Guard(s, e) && i < |s.disks| && Quiet(s, i)
    requires e.AddDisk? || e.Issue? || e.Step? || e.Receive? || e.Find?
    ensures var t := Next(s, e); i < |t.disks| && (TokenOf(t, i).NoToken? || !Unread(t.disks[i]))
  {
  }

  lemma QuietWorker(s: Sys, e: Event, i: nat)
    requires Guard(s, e) && Defined(s, e) && i < |s.disks| && Quiet(s, i)
    requires e.Wake? || e.Exec? || e.ExecFail? || e.Send? || e.Lookup?
    ensures var t := Next(s, e); i < |t.disks| && (TokenOf(t, i).NoToken? || !Unread(t.disks[i]))
  {
    assert TokenOf(Next(s, e), i) == TokenOf(s, i);
  }

  lemma QuietOthers(s: Sys, e: Event, i: nat)
    requires Guard(s, e) && Defined(s, e) && i < |s.disks| && Quiet(s, i)
    requires e.CancelQueued? || e.Unlink? || e.Clear? || e.Drain? || e.Finish? || e.RemoveFinal? || e.Section?
    ensures var t := Next(s, e); i < |t.disks| && (TokenOf(t, i).NoToken? || !Unread(t.disks[i]))
  {
  }

  lemma MailboxStaysQuiet(s: Sys, e: Event, i: nat)
    requires Inv(s) && Guard(s, e) && Defined(s, e) && i < |s.disks| && Quiet(s, i)
    ensures var t := Next(s, e); i < |t.disks| && (TokenOf(t, i).NoToken? || !Unread(t.disks[i]))
  {
    if e.Arrive? {
      NoNewTokenByArrival(s, e, i);
    } else if e.Visit? {
      NoNewTokenByStart(s, e, i);
    } else if e.StartOwed? {
      NoNewTokenByReply(s, e, i);
    } else if e.Post? || e.Signal? {
      QuietHandOver(s, e, i);
    } else if e.AddDisk? || e.Issue? || e.Step? || e.Receive? || e.Find? {
      QuietFetch(s, e, i);
    } else if e.Wake? || e.Exec? || e.ExecFail? || e.Send? || e.Lookup? {
      QuietWorker(s, e, i);
    } else {
      QuietOthers(s, e, i);
    }
  }

  /** A disk off the list gets no new packets. */
  lemma QueueStaysEmpty(s: Sys, e: Event, i: nat)
    requires Guard(s, e) && Defined(s, e) && i < |s.disks| && !s.disks[i].stage.Linked? && s.disks[i].pdo.irpQueue == []
    ensures i < |Next(s, e).disks| && !Next(s, e).disks[i].stage.Linked? && Next(s, e).disks[i].pdo.irpQueue == []
  {
    NoNewDisk(s, e);
    if e.AddDisk? || e.Issue? || e.Step? || e.Receive? || e.Find? || e.Post? || e.Signal? {
      FetchFrame(s, e, i);
    } else if e.Wake? || e.Exec? || e.ExecFail? || e.Send? {
      WorkerFrame(s, e, i);
    }
  }

  lemma QuietStays(s: Sys, e: Event, i: nat)
    requires Inv(s) && Guard(s, e) && Defined(s, e) && i < |s.disks| && Quiet(s, i)
    ensures i < |Next(s, e).disks| && Quiet(Next(s, e), i)
  {
    MailboxStaysQuiet(s, e, i);
    if Pinned(s.disks[i]) {
      PinnedStays(s, e, i);
    } else {
      QueueStaysEmpty(s, e, i);
    }
  }

  lemma {:induction false} QuietForever(s: Sys, es: seq<Event>, i: nat)
    requires Inv(s) && Steps(s, es) && i < |s.disks| && Quiet(s, i)
    ensures i < |EndOf(s, es).disks| && Quiet(EndOf(s, es), i)
  {
    if es != [] {
      var before := es[..|es| - 1];
      QuietForever(s, before, i);
      StepsKeep(s, before);
      QuietStays(EndOf(s, before), es[|es| - 1], i);
    }
  }

  lemma QuietMeansNoClash(s: Sys, i: nat)
    requires Inv(s) && i < |s.disks| && Quiet(s, i)
    ensures !Clash(s, i)
  {
    if s.fetch.Directed? {
      TargetIsCarried(s);
    }
  }

  // ---- a clash ----

  /** A request for disk `i` is on its way to the fetch thread. */
  predicate Underway(s: Sys, i: nat) {
    i < |s.disks| && s.delivered.Some? && s.delivered.value.handle == s.disks[i].pdo.serialNo && !s.disks[i].stage.Gone?
  }

  /** As above, or the fetch thread holds it. */
  predicate Approaching(s: Sys, i: nat) {
    Underway(s, i) || (i < |s.disks| && s.fetch.Holding? && s.fetch.req.handle == s.disks[i].pdo.serialNo && !s.disks[i].stage.Gone?)
  }

  lemma ProcessorIsFound(s: Sys, i: nat)
    requires Inv(s) && s.fetch.Holding? && i < |s.disks| && !s.disks[i].stage.Gone? && s.fetch.req.handle == s.disks[i].pdo.serialNo
    ensures FindProcessor(s.disks, s.fetch.req.handle, 0) == Some(i)
  {
    assert HandlesDistinct(s.disks);
  }

  lemma ApproachStep(s: Sys, i: nat)
    requires Inv(s) && Approaching(s, i)
    ensures var e := FetchStep(s);
            && Guard(s, e) && Defined(s, e)
            && var t := Next(s, e);
            && t.disks == s.disks && (Approaching(t, i) || t.fetch == Directed(t.fetch.req, i))
            && Distance(t.fetch, |t.disks|) < Distance(s.fetch, |s.disks|)
  {
    if s.fetch.AtEntry? {
      VisitInVain(s);
      assert s.disks[s.fetch.at := s.disks[s.fetch.at].(pdo := s.disks[s.fetch.at].pdo)] == s.disks;
    } else if s.fetch.Scanning? {
      FlinkIsForward(s.disks, s.fetch.from);
    } else if s.fetch.Holding? {
      ProcessorIsFound(s, i);
    }
  }

  /** While everything else stands still, the fetch thread comes to the mailbox of disk `i`. */
  lemma {:induction false} Approach(s: Sys, es: seq<Event>, i: nat) returns (more: seq<Event>)
    requires Inv(s) && Steps(s, es) && Approaching(EndOf(s, es), i)
    ensures Steps(s, more) && EndOf(s, more).disks == EndOf(s, es).disks
    ensures EndOf(s, more).fetch.Directed? && EndOf(s, more).fetch.target == i
    decreases Distance(EndOf(s, es).fetch, |EndOf(s, es).disks|)
  {
    var t := EndOf(s, es);
    StepsKeep(s, es);
    ApproachStep(t, i);
    more := Grow(s, es, t, FetchStep(t));
    if Approaching(EndOf(s, more), i) {
      more := Approach(s, more, i);
    }
  }

  /** The state in which a packet of disk `i` has just become stray: its request is delivered, CurrentIrp has been
      cleared, and the queue is being drained. */
  predicate JustStray(s: Sys, i: nat) {
    Underway(s, i) && s.disks[i].stage.Draining? && Stray(s.disks[i])
  }

  /** A late reply completes the stray packet and owes a start. */
  lemma ReplyOwesAgain(s: Sys, i: nat)
    requires Inv(s) && JustStray(s, i) && !Pinned(s.disks[i])
    ensures Guard(s, Section(i)) && Defined(s, Section(i))
    ensures var t := Next(s, Section(i));
            && Underway(t, i) && t.disks[i].stage.Draining? && t.disks[i].worker == Tail(i) && t.disks[i].pdo.current.None?
            && t.disks[i].pdo.irpQueue == s.disks[i].pdo.irpQueue
  {
    assert DiskInv(i, s.disks[i], TokenOf(s, i));
  }

  /** The fetch thread hands the request over and parks a new one. */
  lemma PostSignalIssue(s: Sys, es: seq<Event>, i: nat) returns (more: seq<Event>)
    requires Inv(s) && Steps(s, es) && EndOf(s, es).fetch.Directed? && EndOf(s, es).fetch.target == i && i < |EndOf(s, es).disks|
    ensures Steps(s, more) && |EndOf(s, more).disks| == |EndOf(s, es).disks| && EndOf(s, more).parked != []
    ensures EndOf(s, more).disks[i] == EndOf(s, es).disks[i].(req := EndOf(s, es).fetch.req, event := true)
  {
    more := Extend(s, es, EndOf(s, es), Post);
    more := Extend(s, more, EndOf(s, more), Signal);
    more := Extend(s, more, EndOf(s, more), Issue);
  }

  lemma OwedStartStrays(s: Sys, i: nat)
    requires Inv(s) && i < |s.disks| && s.disks[i].stage.Draining? && s.disks[i].worker == Tail(i) && s.disks[i].pdo.current.None?
    requires s.disks[i].pdo.irpQueue != [] && s.parked != [] && s.disks[i].event
    ensures Guard(s, StartOwed(i)) && Defined(s, StartOwed(i))
    ensures var t := Next(s, StartOwed(i)); JustStray(t, i) && t.disks[i].event
  {
    assert DiskInv(i, s.disks[i], TokenOf(s, i));
  }

  lemma ClashAgain(s: Sys, i: nat) returns (es: seq<Event>)
    requires Inv(s) && JustStray(s, i) && !Pinned(s.disks[i]) && s.disks[i].pdo.irpQueue != []
    ensures LeadsToClash(s, es, i)
  {
    ReplyOwesAgain(s, i);
    var none: seq<Event> := [];
    es := Grow(s, none, s, Section(i));
    es := Approach(s, es, i);
    es := PostSignalIssue(s, es, i);
    StepsKeep(s, es);
    OwedStartStrays(EndOf(s, es), i);
    es := Grow(s, es, EndOf(s, es), StartOwed(i));
    es := Approach(s, es, i);
  }

  /** The exact condition for two requests to meet in the mailbox of a disk on which a packet has just become stray:
      the mailbox holds an earlier request that is still to be read, or a late reply can complete the stray packet and
      start the next one. */
  lemma ClashIsExact(s: Sys, i: nat)
    requires Inv(s) && JustStray(s, i)
    ensures (exists es :: LeadsToClash(s, es, i))
            <==> Unread(s.disks[i]) || (!Pinned(s.disks[i]) && s.disks[i].pdo.irpQueue != [])
  {
    if Unread(s.disks[i]) {
      var none: seq<Event> := [];
      var es := Approach(s, none, i);
      assert LeadsToClash(s, es, i);
    } else if !Pinned(s.disks[i]) && s.disks[i].pdo.irpQueue != [] {
      var es := ClashAgain(s, i);
    } else {
      forall es | Steps(s, es) ensures !LeadsToClash(s, es, i) {
        QuietForever(s, es, i);
        StepsKeep(s, es);
        QuietMeansNoClash(EndOf(s, es), i);
      }
    }
  }

  lemma OwedStartJustStray(s: Sys, i: nat)
    requires Inv(s) && Guard(s, StartOwed(i)) && s.disks[i].stage.Draining? && s.disks[i].pdo.current.None?
    requires s.disks[i].pdo.irpQueue != [] && s.parked != []
    ensures Defined(s, StartOwed(i))
    ensures var t := Next(s, StartOwed(i));
            JustStray(t, i) && Pinned(t.disks[i]) && (Unread(t.disks[i]) <==> s.disks[i].event)
  {
    assert DiskInv(i, s.disks[i], TokenOf(s, i));
  }

  /** Read off before the owed start of a reply that makes a packet stray: exactly if the event of an earlier request
      is set. */
  lemma OwedStartClashIsExact(s: Sys, i: nat)
    requires Inv(s) && Guard(s, StartOwed(i)) && s.disks[i].stage.Draining? && s.disks[i].pdo.current.None?
    requires s.disks[i].pdo.irpQueue != [] && s.parked != []
    ensures Defined(s, StartOwed(i))
    ensures (exists es :: LeadsToClash(Next(s, StartOwed(i)), es, i)) <==> s.disks[i].event
  {
    OwedStartJustStray(s, i);
    StepKeeps(s, StartOwed(i));
    ClashIsExact(Next(s, StartOwed(i)), i);
  }

  /** Read off before the visit of a late walk that makes a packet stray: exactly if the mailbox holds an earlier
      request still to be read, or a late reply is past its look-up, fits the packet, and another packet waits. */
  lemma LateVisitClashIsExact(s: Sys, i: nat)
    requires Inv(s) && s.fetch == AtEntry(i) && s.disks[i].stage.Draining? && s.disks[i].pdo.current.None?
    requires s.disks[i].pdo.irpQueue != [] && s.parked != []
    ensures Guard(s, Visit) && Defined(s, Visit)
    ensures var d := s.disks[i]; var t := Next(s, Visit);
            (exists es :: LeadsToClash(t, es, i))
            <==> Unread(d) || (d.worker.Found? && ReplyFits(t.disks[i].pdo, d.worker.reply) && |d.pdo.irpQueue| > 1)
  {
    assert DiskInv(i, s.disks[i], TokenOf(s, i));
    StepKeeps(s, Visit);
    ClashIsExact(Next(s, Visit), i);
  }

  // ---- the processor deleted between FindDisk and SetEvent ----

  /** The fetch thread is between FindDisk and SetEvent for disk `i`, and the worker may delete the processor. */
  predicate InWindow(s: Sys, i: nat) {
    HandsOver(s.fetch, i) && Enabled(s, RemoveFinal(i))
  }

  /** The removal of disk `i` goes on to its end, then its worker to its events; the fetch thread stands still. */
  function TowardsWindow(s: Sys, i: nat): Event
    requires i < |s.disks|
  {
    match s.disks[i].stage
    case Linked => Unlink(i)
    case Unlinked => Clear(i)
    case Draining => if s.disks[i].pdo.irpQueue != [] then Drain(i) else Finish(i)
    case _ =>
      match s.disks[i].worker
      case Idle => Wake(i)
      case Woken => Exec(i)
      case Done(_, _) => Send(i)
      case Sent(_) => Lookup(i)
      case Found(_, _) => Section(i)
      case Tail(_) => StartOwed(i)
  }

  function StagesLeft(stage: Stage): nat {
    match stage
    case Linked => 3
    case Unlinked => 2
    case Draining => 1
    case _ => 0
  }

  function RoundsLeft(d: Disk): nat {
    (if d.event then 7 else 0)
    + match d.worker
      case Idle => 0
      case Woken => 6
      case Done(_, _) => 5
      case Sent(_) => 4
      case Found(_, _) => 3
      case Tail(_) => 2
  }

  /** No late reply of the disk overruns a stray packet. */
  predicate CanFinish(s: Sys, i: nat) {
    i < |s.disks| && HandsOver(s.fetch, i) && !(s.disks[i].worker.Found? && Pinned(s.disks[i]))
  }

  lemma RemovalTowards(s: Sys, i: nat)
    requires Inv(s) && CanFinish(s, i) && StagesLeft(s.disks[i].stage) > 0
    ensures var e := TowardsWindow(s, i);
            && Guard(s, e) && Defined(s, e)
            && var t := Next(s, e);
            && CanFinish(t, i) && RoundsLeft(t.disks[i]) == RoundsLeft(s.disks[i])
            && (StagesLeft(t.disks[i].stage) < StagesLeft(s.disks[i].stage)
                || (t.disks[i].stage == s.disks[i].stage && |t.disks[i].pdo.irpQueue| < |s.disks[i].pdo.irpQueue|))
  {
    assert DiskInv(i, s.disks[i], TokenOf(s, i));
  }

  /** One step nearer to the window, the removal being over. */
  predicate Nearer(s: Sys, t: Sys, i: nat)
    requires i < |s.disks|
  {
    && CanFinish(t, i) && StagesLeft(t.disks[i].stage) == 0 && |t.disks[i].pdo.irpQueue| == |s.disks[i].pdo.irpQueue|
    && RoundsLeft(t.disks[i]) < RoundsLeft(s.disks[i])
  }

  lemma ServiceTowards(s: Sys, i: nat)
    requires Inv(s) && CanFinish(s, i) && StagesLeft(s.disks[i].stage) == 0 && !InWindow(s, i)
    requires var w := s.disks[i].worker; w.Idle? || w.Woken? || w.Done?
    ensures var e := TowardsWindow(s, i); Guard(s, e) && Defined(s, e) && Nearer(s, Next(s, e), i)
  {
    assert DiskInv(i, s.disks[i], TokenOf(s, i));
    if s.disks[i].worker.Woken? {
      ExecKeeps(i, s.disks[i], TokenOf(s, i));
    }
  }

  lemma CallsTowards(s: Sys, i: nat)
    requires Inv(s) && CanFinish(s, i) && StagesLeft(s.disks[i].stage) == 0
    requires var w := s.disks[i].worker; w.Sent? || w.Found? || w.Tail?
    ensures var e := TowardsWindow(s, i); Guard(s, e) && Defined(s, e) && Nearer(s, Next(s, e), i)
  {
    assert DiskInv(i, s.disks[i], TokenOf(s, i));
    if s.disks[i].worker.Sent? {
      LookupFindsOwn(s, i);
    }
  }

  lemma WorkerTowards(s: Sys, i: nat)
    requires Inv(s) && CanFinish(s, i) && StagesLeft(s.disks[i].stage) == 0 && !InWindow(s, i)
    ensures var e := TowardsWindow(s, i); Guard(s, e) && Defined(s, e) && Nearer(s, Next(s, e), i)
  {
    var w := s.disks[i].worker;
    if w.Idle? || w.Woken? || w.Done? {
      ServiceTowards(s, i);
    } else {
      CallsTowards(s, i);
    }
  }

  predicate LeadsToWindow(s: Sys, es: seq<Event>, i: nat) {
    Steps(s, es) && InWindow(EndOf(s, es), i)
  }

  lemma {:induction false} OpenWindow(s: Sys, es: seq<Event>, i: nat) returns (more: seq<Event>)
    requires Inv(s) && Steps(s, es) && CanFinish(EndOf(s, es), i)
    ensures LeadsToWindow(s, more, i)
    decreases StagesLeft(EndOf(s, es).disks[i].stage), |EndOf(s, es).disks[i].pdo.irpQueue|, RoundsLeft(EndOf(s, es).disks[i])
  {
    var t := EndOf(s, es);
    StepsKeep(s, es);
    if InWindow(t, i) {
      more := es;
    } else {
      if StagesLeft(t.disks[i].stage) > 0 {
        RemovalTowards(t, i);
      } else {
        WorkerTowards(t, i);
      }
      more := Grow(s, es, t, TowardsWindow(t, i));
      more := OpenWindow(s, more, i);
    }
  }

  lemma WorkersStayAway(s: Sys, e: Event, i: nat)
    requires Guard(s, e) && Defined(s, e) && i < |s.disks| && s.disks[i].worker.Found? && (e.Wake? || e.Exec? || e.ExecFail? || e.Send?)
    ensures Next(s, e).disks[i] == s.disks[i]
  {
  }

  lemma FoundStays(s: Sys, e: Event, i: nat)
    requires Guard(s, e) && Defined(s, e) && i < |s.disks| && s.disks[i].worker.Found? && Pinned(s.disks[i])
    requires e.Section? ==> e.i < |s.disks| && DiskInv(e.i, s.disks[e.i], TokenOf(s, e.i))
    ensures i < |Next(s, e).disks| && Next(s, e).disks[i].worker.Found?
  {
    NoNewDisk(s, e);
    if e.AddDisk? || e.Issue? || e.Step? || e.Receive? || e.Find? || e.Post? || e.Signal? {
      FetchFrame(s, e, i);
    } else if e.Wake? || e.Exec? || e.ExecFail? || e.Send? {
      WorkersStayAway(s, e, i);
    }
  }

  /** A worker that would overrun a stray packet never gets back to its events. */
  lemma {:induction false} OverrunStays(s: Sys, es: seq<Event>, i: nat)
    requires Inv(s) && Steps(s, es) && i < |s.disks| && s.disks[i].worker.Found? && Pinned(s.disks[i])
    ensures i < |EndOf(s, es).disks| && EndOf(s, es).disks[i].worker.Found? && Pinned(EndOf(s, es).disks[i])
  {
    if es != [] {
      var before := es[..|es| - 1];
      OverrunStays(s, before, i);
      StepsKeep(s, before);
      PinnedStays(EndOf(s, before), es[|es| - 1], i);
      FoundStays(EndOf(s, before), es[|es| - 1], i);
    }
  }

  lemma FoundIsNotInWindow(s: Sys, i: nat)
    requires i < |s.disks| && s.disks[i].worker.Found?
    ensures !InWindow(s, i)
  {
  }

  lemma OverrunNeverOpens(s: Sys, es: seq<Event>, i: nat)
    requires Inv(s) && Steps(s, es) && i < |s.disks| && s.disks[i].worker.Found? && Pinned(s.disks[i])
    ensures !LeadsToWindow(s, es, i)
  {
    OverrunStays(s, es, i);
    FoundIsNotInWindow(EndOf(s, es), i);
  }

  /** When the premise about the deletion of processors is needed: between FindDisk and SetEvent for disk `i`, some
      continuation has the worker free to delete the processor - unless a late reply of it would overrun a stray
      packet. */
  lemma WindowIsExact(s: Sys, i: nat)
    requires Inv(s) && i < |s.disks| && HandsOver(s.fetch, i)
    ensures (exists es :: LeadsToWindow(s, es, i)) <==> !(s.disks[i].worker.Found? && Pinned(s.disks[i]))
  {
    if s.disks[i].worker.Found? && Pinned(s.disks[i]) {
      forall es | Steps(s, es) ensures !LeadsToWindow(s, es, i) {
        OverrunNeverOpens(s, es, i);
      }
    } else {
      var none: seq<Event> := [];
      var es := OpenWindow(s, none, i);
    }
  }
}
