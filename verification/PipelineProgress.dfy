/** No stuck state, and drain: while a packet is pending some step of the fetch thread, of a worker or of a removal
    under way can happen; without new arrivals such steps can only happen finitely often; and when none can happen any
    more every packet is completed, exactly if no removal leaves one behind. */
module PipelineProgress {
  import opened Base
  import opened Packets
  import opened Pipeline
  import opened PipelineWalk
  import opened PipelineInvariant
  import opened PipelineSafety
  import opened PipelineDestroy

  predicate HasPackets(pdo: Pdo) {
    pdo.current.Some? || pdo.irpQueue != []
  }

  predicate Ended(stage: Stage) {
    stage.Destroyed? || stage.Gone?
  }

  /** A packet waits or is current on a disk whose removal has not ended. */
  predicate WorkPending(s: Sys) {
    exists i :: 0 <= i < |s.disks| && HasPackets(s.disks[i].pdo) && !Ended(s.disks[i].stage)
  }

  ghost predicate Quiescent(s: Sys) {
    forall e :: Service(e) && Guard(s, e) ==> !Defined(s, e)
  }

  predicate AllCompleted(s: Sys) {
    forall i :: 0 <= i < |s.disks| ==> !HasPackets(s.disks[i].pdo)
  }

  // ---- some step is enabled ----

  /** A worker of a linked disk that is not waiting, or whose event is set, can step. */
  lemma WorkerSteps(s: Sys, i: nat) returns (e: Event)
    requires Inv(s) && i < |s.disks| && s.disks[i].stage.Linked? && (s.disks[i].event || !s.disks[i].worker.Idle?)
    ensures Service(e) && Guard(s, e) && Defined(s, e)
  {
    assert DiskInv(i, s.disks[i], TokenOf(s, i));
    match s.disks[i].worker
    case Idle => e := Wake(i);
    case Woken => e := Exec(i);
    case Done(_, _) => e := Send(i);
    case Sent(_) => e := Lookup(i);
    case Found(_, _) => e := Section(i);
    case Tail(_) => e := StartOwed(i);
    BoundsAreExact(s, e);
  }

  /** A removal once begun can go on. */
  lemma RemovalSteps(s: Sys, i: nat) returns (e: Event)
    requires i < |s.disks| && (s.disks[i].stage.Unlinked? || s.disks[i].stage.Draining?)
    ensures Service(e) && Guard(s, e) && Defined(s, e)
  {
    e := if s.disks[i].stage.Unlinked? then Clear(i) else if s.disks[i].pdo.irpQueue != [] then Drain(i) else Finish(i);
  }

  /** The fetch thread can step unless it waits for its parked request. */
  lemma FetchSteps(s: Sys) returns (e: Event)
    requires Inv(s) && !(s.fetch.Waiting? && s.delivered.None?)
    ensures e == FetchStep(s) && Service(e) && Guard(s, e) && Defined(s, e)
  {
    e := FetchStep(s);
    BoundsAreExact(s, e);
  }

  /** With a packet pending, the system is never stuck. */
  lemma NeverStuck(s: Sys) returns (e: Event)
    requires Inv(s) && WorkPending(s)
    ensures Service(e) && Guard(s, e) && Defined(s, e)
  {
    var i :| 0 <= i < |s.disks| && HasPackets(s.disks[i].pdo) && !Ended(s.disks[i].stage);
    if !s.disks[i].stage.Linked? {
      e := RemovalSteps(s, i);
    } else if s.fetch.Waiting? && s.delivered.None? {
      assert DiskInv(i, s.disks[i], TokenOf(s, i));
      if s.disks[i].pdo.current.None? {
        assert Starving(s, i) && Owed(s, i);
      }
      e := WorkerSteps(s, i);
    } else {
      e := FetchSteps(s);
    }
  }

  // ---- a measure that every service step lowers ----

  function QueueWeight(queue: seq<Irp>, w: nat): nat {
    if queue == [] then 0 else w + QueueWeight(queue[1..], w)
  }

  function WorkerWeight(w: Worker): nat {
    match w
    case Idle => 0
    case Woken => 6
    case Done(_, _) => 5
    case Sent(_) => 4
    case Found(_, _) => 3
    case Tail(_) => 2
  }

  function StageWeight(stage: Stage): nat {
    match stage
    case Unlinked => 2
    case Draining => 1
    case _ => 0
  }

  /** `w` is the weight of one packet. */
  function DiskWeight(d: Disk, w: nat): nat {
    QueueWeight(d.pdo.irpQueue, w) + (if d.event then 7 else 0) + WorkerWeight(d.worker) + StageWeight(d.stage)
  }

  function DisksWeight(disks: seq<Disk>, w: nat): nat {
    if disks == [] then 0 else DisksWeight(disks[..|disks| - 1], w) + DiskWeight(disks[|disks| - 1], w)
  }

  /** `n` disks: a full round of the fetch thread costs 2n + 4. */
  function FetchWeight(f: Fetch, n: nat): nat {
    match f
    case Ready => 2 * n + 4
    case Scanning(from) => if Behind(from) <= n then 2 * (n - Behind(from)) + 3 else 0
    case AtEntry(at) => if at <= n then 2 * (n - at) + 2 else 0
    case Waiting => 1
    case Holding(_) => 2 * n + 14
    case Directed(_, _) => 2 * n + 13
    case Posting(_) => 2 * n + 12
  }

  /** The weight of a packet that is queued, or whose request is delivered. */
  function PacketWeight(n: nat): nat {
    2 * n + 14
  }

  function Measure(s: Sys): nat {
    var n := |s.disks|;
    DisksWeight(s.disks, PacketWeight(n)) + FetchWeight(s.fetch, n) + if s.delivered.Some? then PacketWeight(n) else 0
  }

  lemma {:induction false} WeightUpdate(disks: seq<Disk>, i: nat, d: Disk, w: nat)
    requires i < |disks|
    ensures DisksWeight(disks[i := d], w) == DisksWeight(disks, w) - DiskWeight(disks[i], w) + DiskWeight(d, w)
  {
    var n := |disks| - 1;
    var e := disks[i := d];
    if i < n {
      assert e[..n] == disks[..n][i := d];
      WeightUpdate(disks[..n], i, d, w);
    } else {
      assert e[..n] == disks[..n];
    }
  }

  lemma FetchLowers(s: Sys, e: Event)
    requires Guard(s, e) && (e.Issue? || e.Receive? || e.Find?)
    ensures Measure(Next(s, e)) < Measure(s)
  {
  }

  lemma WalkLowers(s: Sys)
    requires Inv(s) && Guard(s, Step)
    ensures Measure(Walked(s)) < Measure(s)
  {
    FlinkIsForward(s.disks, s.fetch.from);
  }

  lemma PostLowers(s: Sys)
    requires Guard(s, Post)
    ensures Measure(Posted(s)) < Measure(s)
  {
    var j := s.fetch.target;
    WeightUpdate(s.disks, j, s.disks[j].(req := s.fetch.req), PacketWeight(|s.disks|));
  }

  lemma SignalLowers(s: Sys)
    requires Guard(s, Signal)
    ensures Measure(Next(s, Signal)) < Measure(s)
  {
    WeightUpdate(s.disks, s.fetch.target, s.disks[s.fetch.target].(event := true), PacketWeight(|s.disks|));
  }

  /** One disk's record getting lighter. */
  lemma LighterDiskLowers(s: Sys, t: Sys, i: nat, d: Disk)
    requires i < |s.disks| && t.disks == s.disks[i := d] && t.fetch == s.fetch && t.delivered == s.delivered
    requires DiskWeight(d, PacketWeight(|s.disks|)) < DiskWeight(s.disks[i], PacketWeight(|s.disks|))
    ensures Measure(t) < Measure(s)
  {
    WeightUpdate(s.disks, i, d, PacketWeight(|s.disks|));
  }

  lemma WorkerLowers(s: Sys, e: Event)
    requires Guard(s, e) && Defined(s, e) && (e.Wake? || e.Exec? || e.ExecFail? || e.Send? || e.Lookup?)
    ensures Measure(Next(s, e)) < Measure(s)
  {
    LighterDiskLowers(s, Next(s, e), e.i, Next(s, e).disks[e.i]);
  }

  lemma RemovalLowers(s: Sys, e: Event)
    requires Guard(s, e) && (e.Clear? || e.Drain? || e.Finish?)
    ensures Measure(Next(s, e)) < Measure(s)
  {
    LighterDiskLowers(s, Next(s, e), e.i, Next(s, e).disks[e.i]);
  }

  lemma {:induction false} QueueWeightWithout(queue: seq<Irp>, k: nat, w: nat)
    requires k < |queue|
    ensures QueueWeight(queue, w) == QueueWeight(Without(queue, k), w) + w
  {
    if k == 0 {
      assert Without(queue, 0) == queue[1..];
    } else {
      QueueWeightWithout(queue[1..], k - 1, w);
      assert Without(queue, k) == [queue[0]] + Without(queue[1..], k - 1);
      assert Without(queue, k)[1..] == Without(queue[1..], k - 1);
    }
  }

  lemma CancelLowers(s: Sys, i: nat, k: nat)
    requires Guard(s, CancelQueued(i, k))
    ensures Measure(Cancel(s, i, k)) < Measure(s)
  {
    QueueWeightWithout(s.disks[i].pdo.irpQueue, k, PacketWeight(|s.disks|));
    LighterDiskLowers(s, Cancel(s, i, k), i, Cancel(s, i, k).disks[i]);
  }

  lemma SectionLowers(s: Sys, i: nat)
    requires Inv(s) && Guard(s, Section(i)) && Defined(s, Section(i))
    ensures Measure(Replied(s, i)) < Measure(s)
  {
    assert s.disks[i].worker.target == i by {
      assert DiskInv(i, s.disks[i], TokenOf(s, i));
    }
    var t := Replied(s, i);
    assert t.disks == s.disks[i := t.disks[i]];
    LighterDiskLowers(s, t, i, t.disks[i]);
  }

  /** Starting a packet turns its queue weight into the weight of a delivered request. */
  lemma StartNextKeepsWeight(s: Sys, i: nat)
    requires CoreInv(s) && i < |s.disks| && Sound(s.disks[i].pdo)
    ensures Measure(Absorb(s, i, StartNext(s.disks[i].pdo, s.parked))) <= Measure(s)
  {
    var t := Absorb(s, i, StartNext(s.disks[i].pdo, s.parked));
    WeightUpdate(s.disks, i, t.disks[i], PacketWeight(|s.disks|));
  }

  lemma VisitLowers(s: Sys)
    requires Inv(s) && Guard(s, Visit) && Defined(s, Visit)
    ensures Measure(Next(s, Visit)) < Measure(s)
  {
    StartNextKeepsWeight(s, s.fetch.at);
  }

  lemma StartOwedLowers(s: Sys, i: nat)
    requires Inv(s) && Guard(s, StartOwed(i)) && Defined(s, StartOwed(i))
    ensures Measure(Next(s, StartOwed(i))) < Measure(s)
  {
    assert s.disks[i].worker.target == i by {
      assert DiskInv(i, s.disks[i], TokenOf(s, i));
    }
    var u := Absorb(s, i, StartNext(s.disks[i].pdo, s.parked));
    StartNextKeepsWeight(s, i);
    LighterDiskLowers(u, SetWorker(u, i, Idle), i, u.disks[i].(worker := Idle));
  }

  lemma ServiceLowers(s: Sys, e: Event)
    requires Inv(s) && Closing(e) && Guard(s, e) && Defined(s, e)
    ensures Measure(Next(s, e)) < Measure(s)
  {
    if e.Issue? || e.Receive? || e.Find? {
      FetchLowers(s, e);
    } else if e.Wake? || e.Exec? || e.ExecFail? || e.Send? || e.Lookup? {
      WorkerLowers(s, e);
    } else if e.Clear? || e.Drain? || e.Finish? {
      RemovalLowers(s, e);
    } else {
      match e
      case Step => WalkLowers(s);
      case Post => PostLowers(s);
      case Signal => SignalLowers(s);
      case Visit => VisitLowers(s);
      case Section(i) => SectionLowers(s, i);
      case StartOwed(i) => StartOwedLowers(s, i);
      case CancelQueued(i, k) => CancelLowers(s, i, k);
    }
  }

  // ---- runs without arrivals ----

  /** Without arrivals the system takes at most `Measure` steps, whichever it takes. */
  lemma {:induction false} ServiceRunsAreBounded(s: Sys, es: seq<Event>)
    requires Inv(s) && ClosingRun(s, es)
    ensures Inv(EndOf(s, es)) && |es| + Measure(EndOf(s, es)) <= Measure(s)
  {
    if es != [] {
      var before := es[..|es| - 1];
      ServiceRunsAreBounded(s, before);
      StepKeeps(EndOf(s, before), es[|es| - 1]);
      ServiceLowers(EndOf(s, before), es[|es| - 1]);
    }
  }

  /** Every run can go on until the system can do nothing by itself. */
  lemma {:induction false} Settle(s: Sys, es: seq<Event>) returns (all: seq<Event>)
    requires Inv(s) && ClosingRun(s, es)
    ensures ClosingRun(s, all) && Quiescent(EndOf(s, all))
    decreases Measure(s) - |es|
  {
    ServiceRunsAreBounded(s, es);
    var t := EndOf(s, es);
    if Quiescent(t) {
      all := es;
    } else {
      var e :| Service(e) && Guard(t, e) && Defined(t, e);
      var more := Grow(s, es, t, e);
      ServiceRunsAreBounded(s, more);
      all := Settle(s, more);
    }
  }

  /** What is left when nothing is enabled is stray. */
  lemma QuiescentKeepsOnlyStray(s: Sys, i: nat)
    requires Inv(s) && Quiescent(s) && i < |s.disks| && HasPackets(s.disks[i].pdo)
    ensures Stray(s.disks[i])
  {
    assert DiskInv(i, s.disks[i], TokenOf(s, i));
    if !Ended(s.disks[i].stage) {
      var e := NeverStuck(s);
    }
  }

  // ---- disks whose packets will all be completed ----

  /** A stray packet that a late reply will complete, with nothing behind it. */
  predicate LateReplyPending(d: Disk) {
    Stray(d) && !Pinned(d) && (d.stage.Draining? ==> d.pdo.irpQueue == [])
  }

  /** No packet of the disk can be left uncompleted. */
  predicate Sheltered(s: Sys, i: nat)
    requires i < |s.disks|
  {
    s.disks[i].stage.Linked? || Safe(s, i) || LateReplyPending(s.disks[i])
  }

  lemma LinkedStays(s: Sys, e: Event, i: nat)
    requires Closing(e) && Guard(s, e) && Defined(s, e) && i < |s.disks| && s.disks[i].stage.Linked?
    ensures i < |Next(s, e).disks| && Next(s, e).disks[i].stage.Linked?
  {
    if e.Issue? || e.Step? || e.Receive? || e.Find? || e.Post? || e.Signal? {
      FetchFrame(s, e, i);
    } else if e.Wake? || e.Exec? || e.ExecFail? || e.Send? {
      WorkerFrame(s, e, i);
    }
  }

  /** A late reply waits until its section, which completes the packet. */
  lemma LateReplyCalls(s: Sys, e: Event, i: nat)
    requires Inv(s) && Guard(s, e) && Defined(s, e) && i < |s.disks| && LateReplyPending(s.disks[i])
    requires e.Section? || e.StartOwed? || e.Lookup? || e.Visit?
    ensures var d := Next(s, e).disks[i];
            LateReplyPending(d) || (!d.stage.Linked? && !Stray(d) && forall comes :: !CanStray(d, comes))
  {
    assert DiskInv(i, s.disks[i], TokenOf(s, i));
    if !e.Visit? {
      assert DiskInv(e.i, s.disks[e.i], TokenOf(s, e.i));
    }
  }

  lemma LateReplyWaits(s: Sys, e: Event, i: nat)
    requires Inv(s) && Closing(e) && Guard(s, e) && Defined(s, e) && i < |s.disks| && LateReplyPending(s.disks[i])
    requires !(e.Section? || e.StartOwed? || e.Lookup? || e.Visit?)
    ensures i < |Next(s, e).disks| && LateReplyPending(Next(s, e).disks[i])
  {
    assert DiskInv(i, s.disks[i], TokenOf(s, i));
    if e.Issue? || e.Step? || e.Receive? || e.Find? || e.Post? || e.Signal? {
      FetchFrame(s, e, i);
    }
  }

  lemma ShelteredStays(s: Sys, e: Event, i: nat)
    requires Inv(s) && Closing(e) && Guard(s, e) && Defined(s, e) && i < |s.disks| && Sheltered(s, i)
    ensures i < |Next(s, e).disks| && Sheltered(Next(s, e), i)
  {
    NoNewDisk(s, e);
    if Safe(s, i) {
      SafeStays(s, e, i);
    } else if s.disks[i].stage.Linked? {
      LinkedStays(s, e, i);
    } else if e.Section? || e.StartOwed? || e.Lookup? || e.Visit? {
      LateReplyCalls(s, e, i);
    } else {
      LateReplyWaits(s, e, i);
    }
  }

  lemma {:induction false} ShelteredForever(s: Sys, es: seq<Event>, i: nat)
    requires Inv(s) && ClosingRun(s, es) && i < |s.disks| && Sheltered(s, i)
    ensures i < |EndOf(s, es).disks| && Sheltered(EndOf(s, es), i)
  {
    if es != [] {
      var before := es[..|es| - 1];
      ShelteredForever(s, before, i);
      StepsKeep(s, before);
      ShelteredStays(EndOf(s, before), es[|es| - 1], i);
    }
  }

  lemma {:induction false} NoNewDisks(s: Sys, es: seq<Event>)
    requires ClosingRun(s, es)
    ensures |EndOf(s, es).disks| == |s.disks|
  {
    if es != [] {
      NoNewDisks(s, es[..|es| - 1]);
      NoNewDisk(EndOf(s, es[..|es| - 1]), es[|es| - 1]);
    }
  }

  /** Without arrivals and new removals, a state in which the system can do nothing more. */
  ghost predicate Exhausts(s: Sys, es: seq<Event>) {
    ClosingRun(s, es) && Quiescent(EndOf(s, es))
  }

  /** A disk that is not sheltered comes, on some run, to hold a pinned packet. */
  lemma UnshelteredPins(s: Sys, i: nat) returns (es: seq<Event>)
    requires Inv(s) && i < |s.disks| && !Sheltered(s, i)
    ensures ClosingRun(s, es) && i < |EndOf(s, es).disks| && Pinned(EndOf(s, es).disks[i])
  {
    es := [];
    if !Stray(s.disks[i]) {
      es := Strand(s, i);
    } else if !Pinned(s.disks[i]) {
      es := StrandNext(s, i);
    }
  }

  lemma UnshelteredCanFail(s: Sys, i: nat) returns (all: seq<Event>)
    requires Inv(s) && i < |s.disks| && !Sheltered(s, i)
    ensures Exhausts(s, all) && !AllCompleted(EndOf(s, all))
  {
    var es := UnshelteredPins(s, i);
    var t := EndOf(s, es);
    StepsKeep(s, es);
    var none: seq<Event> := [];
    var rest := Settle(t, none);
    PinnedForever(t, rest, i);
    Concat(s, es, rest);
    all := es + rest;
    assert HasPackets(EndOf(s, all).disks[i].pdo);
  }

  lemma LateReplyCanGo(s: Sys, i: nat)
    requires Inv(s) && i < |s.disks| && Stray(s.disks[i]) && Sheltered(s, i)
    ensures !Quiescent(s)
  {
    assert DiskInv(i, s.disks[i], TokenOf(s, i));
    assert Service(Section(i)) && Guard(s, Section(i)) && Defined(s, Section(i));
  }

  /** If every disk is sheltered, a run that exhausts the system has completed every packet. */
  lemma QuiescentMeansDrained(s: Sys, es: seq<Event>)
    requires Inv(s) && Exhausts(s, es)
    requires forall i :: 0 <= i < |s.disks| ==> Sheltered(s, i)
    ensures AllCompleted(EndOf(s, es))
  {
    var t := EndOf(s, es);
    StepsKeep(s, es);
    NoNewDisks(s, es);
    forall i | 0 <= i < |t.disks| ensures !HasPackets(t.disks[i].pdo) {
      ShelteredForever(s, es, i);
      if HasPackets(t.disks[i].pdo) {
        QuiescentKeepsOnlyStray(t, i);
        LateReplyCanGo(t, i);
      }
    }
  }

  /** The exact condition to drain: every run without arrivals and new removals that exhausts the system has completed
      every packet if and only if every disk is sheltered. */
  lemma DrainIsExact(s: Sys)
    requires Inv(s)
    ensures (forall es :: Exhausts(s, es) ==> AllCompleted(EndOf(s, es)))
            <==> (forall i :: 0 <= i < |s.disks| ==> Sheltered(s, i))
  {
    if i: nat :| i < |s.disks| && !Sheltered(s, i) {
      var es := UnshelteredCanFail(s, i);
    } else {
      forall es | Exhausts(s, es) ensures AllCompleted(EndOf(s, es)) {
        QuiescentMeansDrained(s, es);
      }
    }
  }

  // ---- no loss is forced ----

  /** The step runs BusStartNextPacket on a queue that is being drained. */
  predicate Careless(s: Sys, e: Event)
    requires Guard(s, e)
  {
    (e.StartOwed? || e.Visit?)
    && var d := s.disks[if e.Visit? then s.fetch.at else s.disks[e.i].worker.target]; d.stage.Draining? && d.pdo.irpQueue != []
  }

  lemma StrayInCalls(s: Sys, e: Event, i: nat)
    requires Inv(s) && Guard(s, e) && Defined(s, e) && i < |s.disks| && !Stray(s.disks[i])
    requires (e.StartOwed? || e.Section? || e.Visit?) && Stray(Next(s, e).disks[i])
    ensures Careless(s, e)
  {
    assert DiskInv(i, s.disks[i], TokenOf(s, i));
    if !e.Visit? {
      assert DiskInv(e.i, s.disks[e.i], TokenOf(s, e.i));
    }
  }

  /** Only such a step makes a packet stray. */
  lemma StrayNeedsCareless(s: Sys, e: Event, i: nat)
    requires Inv(s) && Service(e) && Guard(s, e) && Defined(s, e) && i < |s.disks| && !Stray(s.disks[i])
    requires |Next(s, e).disks| == |s.disks| && Stray(Next(s, e).disks[i])
    ensures Careless(s, e)
  {
    if e.StartOwed? || e.Section? || e.Visit? {
      StrayInCalls(s, e, i);
    } else if e.Issue? || e.Step? || e.Receive? || e.Find? || e.Post? || e.Signal? {
      FetchFrame(s, e, i);
    } else if e.Wake? || e.Exec? || e.ExecFail? || e.Send? {
      WorkerFrame(s, e, i);
    }
  }

  /** With a packet pending, some step is not careless. */
  lemma CarefulStep(s: Sys) returns (e: Event)
    requires Inv(s) && WorkPending(s)
    ensures Service(e) && Guard(s, e) && Defined(s, e) && !Careless(s, e)
  {
    e := NeverStuck(s);
    if Careless(s, e) {
      e := Drain(if e.Visit? then s.fetch.at else s.disks[e.i].worker.target);
    }
  }

  /** What is stray at the end of the run was so at its beginning. */
  predicate LosesNothing(s: Sys, t: Sys) {
    |t.disks| == |s.disks| && forall i :: 0 <= i < |s.disks| && Stray(t.disks[i]) ==> Stray(s.disks[i])
  }

  lemma CarefulStepLosesNothing(s: Sys, e: Event)
    requires Inv(s) && Service(e) && Guard(s, e) && Defined(s, e) && !Careless(s, e)
    ensures LosesNothing(s, Next(s, e))
  {
    NoNewDisk(s, e);
    forall i | 0 <= i < |s.disks| && Stray(Next(s, e).disks[i]) ensures Stray(s.disks[i]) {
      if !Stray(s.disks[i]) {
        StrayNeedsCareless(s, e, i);
      }
    }
  }

  lemma NothingPendingMeansStray(t: Sys, i: nat)
    requires Inv(t) && !WorkPending(t) && i < |t.disks| && HasPackets(t.disks[i].pdo)
    ensures Stray(t.disks[i])
  {
    assert DiskInv(i, t.disks[i], TokenOf(t, i));
  }

  lemma CarefulRun(s: Sys, es: seq<Event>) returns (more: seq<Event>)
    requires Inv(s) && ServiceRun(s, es) && LosesNothing(s, EndOf(s, es)) && WorkPending(EndOf(s, es))
    ensures ServiceRun(s, more) && |more| == |es| + 1 && LosesNothing(s, EndOf(s, more))
  {
    var t := EndOf(s, es);
    StepsKeep(s, es);
    var e := CarefulStep(t);
    more := Grow(s, es, t, e);
    CarefulStepLosesNothing(t, e);
  }

  /** From every reachable state the system alone can complete every packet that is not stray already. */
  lemma {:induction false} Drains(s: Sys, es: seq<Event>) returns (all: seq<Event>)
    requires Inv(s) && ServiceRun(s, es) && LosesNothing(s, EndOf(s, es))
    ensures ServiceRun(s, all) && LosesNothing(s, EndOf(s, all))
    ensures forall i :: 0 <= i < |s.disks| && HasPackets(EndOf(s, all).disks[i].pdo) ==> Stray(s.disks[i])
    decreases Measure(s) - |es|
  {
    ServiceRunsAreBounded(s, es);
    if WorkPending(EndOf(s, es)) {
      var more := CarefulRun(s, es);
      ServiceRunsAreBounded(s, more);
      all := Drains(s, more);
    } else {
      all := es;
      forall i | 0 <= i < |s.disks| && HasPackets(EndOf(s, all).disks[i].pdo) ensures Stray(s.disks[i]) {
        NothingPendingMeansStray(EndOf(s, all), i);
      }
    }
  }
}
