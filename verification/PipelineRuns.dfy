/** Runs from the initial state on which a promise of the code is broken, one for each. */
module PipelineRuns {
  import opened Base
  import opened Blocks
  import opened Packets
  import opened Pipeline
  import opened PipelineInvariant
  import opened PipelineSafety
  import opened PipelineConservation
  import opened PipelineDestroy
  import opened PipelineProgress
  import opened PipelineTheorems
  import opened PipelineMailbox
  import opened PipelineSplit

  /** `es` is a run that ends in `s`. */
  predicate EndsIn(es: seq<Event>, s: Sys) {
    Legal(es) && Final(es) == s
  }

  lemma InitHolds()
    ensures Inv(Init())
  {
  }

  lemma Then(es: seq<Event>, s: Sys, e: Event) returns (more: seq<Event>)
    requires EndsIn(es, s) && Guard(s, e) && !e.Section?
    ensures Defined(s, e) && EndsIn(more, Next(s, e))
  {
    InitHolds();
    more := Extend(Init(), es, s, e);
  }

  lemma ThenSection(es: seq<Event>, s: Sys, i: nat) returns (more: seq<Event>)
    requires EndsIn(es, s) && Guard(s, Section(i)) && Defined(s, Section(i))
    ensures EndsIn(more, Replied(s, i))
  {
    more := Grow(Init(), es, s, Section(i));
  }

  /** The first disk of the runs, its file holding `f`. */
  function TheDisk(h: nat, f: seq<Byte>, current: Option<Irp>, queue: seq<Irp>, buffer: seq<Byte>, req: Request, event: bool,
                   worker: Worker, served: Option<Irp>): Disk
  {
    Disk(Pdo(h, current, queue, buffer, if current.Some? then 1 else 0), Linked, None, req, event, worker, served, f)
  }

  /** Different packets. */
  predicate Distinct(a: Irp, b: Irp, c: Irp) {
    Fits(a) && Fits(b) && Fits(c) && a.id != b.id && a.id != c.id && b.id != c.id
  }

  predicate ReadThen(a: Irp, b: Irp) {
    Fits(a) && Fits(b) && a.id != b.id && Code(a) == SCSIOP_READ
  }

  // ---- a common beginning ----

  lemma FreshDiskAdded(h: nat, f: seq<Byte>, req: Request) returns (es: seq<Event>)
    ensures EndsIn(es, Sys([FreshDisk(h, f, req)], [], None, Ready, 0, [], []))
  {
    es := [];
    es := Then(es, Init(), AddDisk(h, f, req));
    assert [] + [FreshDisk(h, f, req)] == [FreshDisk(h, f, req)];
  }

  /** Packet `a` waits on a fresh disk; a GET_REQUEST is parked. */
  function AllWaiting(h: nat, f: seq<Byte>, a: Irp, req: Request, fetch: Fetch): Sys {
    Sys([TheDisk(h, f, None, [a], Zeros(BUFFER_SIZE), req, false, Idle, None)], [Fetcher(0, SERVICE_FILE)], None, fetch, 1, [a.id], [])
  }

  lemma FirstPacketQueued(h: nat, f: seq<Byte>, a: Irp, req: Request) returns (es: seq<Event>)
    requires Fits(a)
    ensures EndsIn(es, AllWaiting(h, f, a, req, AtEntry(0)))
  {
    es := FreshDiskAdded(h, f, req);
    var s := Final(es);
    es := Then(es, s, Arrive(0, a));
    assert Insert([], a) == [a] && [] + [a.id] == [a.id];
    s := s.(disks := [TheDisk(h, f, None, [a], Zeros(BUFFER_SIZE), req, false, Idle, None)], accepted := [a.id]);
    assert EndsIn(es, s);
    es := Then(es, s, Issue);
    es := Then(es, AllWaiting(h, f, a, req, Scanning(None)), Step);
  }

  /** The system after packet `a` became current; packet `b` waits. */
  function Started(h: nat, f: seq<Byte>, a: Irp, b: Irp, req: Request, event: bool, delivered: Option<Request>, fetch: Fetch): Sys
    requires Fits(a)
  {
    Sys([TheDisk(h, f, Some(a), [b], Staged(Zeros(BUFFER_SIZE), a), req, event, Idle, None)], [], delivered, fetch, 1, [a.id, b.id], [])
  }

  lemma FirstPacketDelivered(h: nat, f: seq<Byte>, a: Irp, b: Irp, req: Request) returns (es: seq<Event>)
    requires Fits(a) && Fits(b) && a.id != b.id
    ensures EndsIn(es, Started(h, f, a, b, req, false, Some(MakeRequest(h, a)), Scanning(Some(0))))
  {
    es := FirstPacketQueued(h, f, a, req);
    var s := AllWaiting(h, f, a, req, AtEntry(0));
    es := Then(es, s, Visit);
    assert Rest([a]) == [] && Rest([Fetcher(0, SERVICE_FILE)]) == [];
    s := Sys([TheDisk(h, f, Some(a), [], Staged(Zeros(BUFFER_SIZE), a), req, false, Idle, None)], [], Some(MakeRequest(h, a)),
             Scanning(Some(0)), 1, [a.id], []);
    assert EndsIn(es, s);
    es := Then(es, s, Arrive(0, b));
    assert Insert([], b) == [b] && [a.id] + [b.id] == [a.id, b.id];
  }

  lemma FirstPacketHeld(h: nat, f: seq<Byte>, a: Irp, b: Irp, req: Request) returns (es: seq<Event>)
    requires Fits(a) && Fits(b) && a.id != b.id
    ensures EndsIn(es, Started(h, f, a, b, req, false, None, Holding(MakeRequest(h, a))))
  {
    es := FirstPacketDelivered(h, f, a, b, req);
    var s := Started(h, f, a, b, req, false, Some(MakeRequest(h, a)), Scanning(Some(0)));
    assert NextLinked(s.disks, 1) == None;
    es := Then(es, s, Step);
    es := Then(es, Started(h, f, a, b, req, false, Some(MakeRequest(h, a)), Waiting), Receive);
  }

  lemma FirstPacketInMailbox(h: nat, f: seq<Byte>, a: Irp, b: Irp) returns (es: seq<Event>)
    requires Fits(a) && Fits(b) && a.id != b.id
    ensures EndsIn(es, Started(h, f, a, b, MakeRequest(h, a), false, None, Posting(0)))
  {
    var req := MakeRequest(h, a);
    es := FirstPacketHeld(h, f, a, b, req);
    var s := Started(h, f, a, b, req, false, None, Holding(req));
    assert FindProcessor(s.disks, h, 0) == Some(0);
    es := Then(es, s, Find);
    es := Then(es, s.(fetch := Directed(req, 0)), Post);
    assert s.disks[0 := s.disks[0].(req := req)] == s.disks;
  }

  // ---- the first packet, a READ, is served ----

  /** The reply of READ `a` of file `f`. */
  function ServedReply(h: nat, f: seq<Byte>, a: Irp): Reply
    requires Fits(a)
  {
    Reply(h, true, SCSIOP_READ, |Wanted(a, f)|)
  }

  /** The shared buffer after READ `a` of file `f` was served. */
  function Loaded(f: seq<Byte>, a: Irp): seq<Byte>
    requires Fits(a)
  {
    Overlay(Zeros(BUFFER_SIZE), Wanted(a, f), |Wanted(a, f)|)
  }

  /** The system while the worker is busy with the served packet `a`. */
  function Serving(h: nat, f: seq<Byte>, a: Irp, b: Irp, worker: Worker): Sys
    requires Fits(a)
  {
    Sys([TheDisk(h, f, Some(a), [b], Loaded(f, a), MakeRequest(h, a), false, worker, Some(a))], [], None, Ready, 1, [a.id, b.id], [])
  }

  lemma ReadServed(h: nat, f: seq<Byte>, a: Irp)
    requires Fits(a) && Code(a) == SCSIOP_READ
    ensures ValidRequest(MakeRequest(h, a))
    ensures Serve(f, Zeros(BUFFER_SIZE), MakeRequest(h, a)) == Outcome(f, Loaded(f, a), |Wanted(a, f)|)
  {
    FittingRequestIsValid(h, a);
  }

  lemma FirstPacketSignaled(h: nat, f: seq<Byte>, a: Irp, b: Irp) returns (es: seq<Event>)
    requires Fits(a) && Fits(b) && a.id != b.id
    ensures EndsIn(es, Started(h, f, a, b, MakeRequest(h, a), true, None, Ready))
  {
    es := FirstPacketInMailbox(h, f, a, b);
    es := Then(es, Started(h, f, a, b, MakeRequest(h, a), false, None, Posting(0)), Signal);
  }

  lemma FirstPacketServed(h: nat, f: seq<Byte>, a: Irp, b: Irp) returns (es: seq<Event>)
    requires ReadThen(a, b)
    ensures EndsIn(es, Serving(h, f, a, b, Done(true, |Wanted(a, f)|)))
  {
    es := FirstPacketSignaled(h, f, a, b);
    var s := Started(h, f, a, b, MakeRequest(h, a), true, None, Ready);
    es := Then(es, s, Wake(0));
    ReadServed(h, f, a);
    es := Then(es, s.(disks := [s.disks[0].(event := false, worker := Woken, served := Some(a))]), Exec(0));
  }

  lemma FirstReplyFound(h: nat, f: seq<Byte>, a: Irp, b: Irp) returns (es: seq<Event>)
    requires ReadThen(a, b)
    ensures EndsIn(es, Serving(h, f, a, b, Found(ServedReply(h, f, a), 0)))
  {
    es := FirstPacketServed(h, f, a, b);
    es := Then(es, Serving(h, f, a, b, Done(true, |Wanted(a, f)|)), Send(0));
    var s := Serving(h, f, a, b, Sent(ServedReply(h, f, a)));
    assert FindLinked(s.disks, h, 0) == Some(0);
    es := Then(es, s, Lookup(0));
  }

  // ---- the assertion in Bus_ProcessReply ----

  /** A run after which the assertion fails: the removal clears CurrentIrp between the look-up and the section. */
  lemma LateReplyFailsAssertion(h: nat, f: seq<Byte>, a: Irp, b: Irp) returns (es: seq<Event>)
    requires ReadThen(a, b)
    ensures Legal(es)
    ensures |Final(es).disks| == 1 && Final(es).disks[0].worker == Found(ServedReply(h, f, a), 0)
    ensures Final(es).disks[0].pdo.current.None?
  {
    es := FirstReplyFound(h, f, a, b);
    es := Then(es, Final(es), Unlink(0));
    es := Then(es, Final(es), Clear(0));
  }

  // ---- a reply that completes another packet ----

  /** Packet `a` is cancelled by the removal while its reply is past its look-up, and a walk that came to the disk
      before stands on it with its fetcher. */
  function LateBoth(h: nat, f: seq<Byte>, a: Irp, b: Irp, stage: Stage): Sys
    requires Fits(a)
  {
    var d := TheDisk(h, f, if stage.Draining? then None else Some(a), [b], Loaded(f, a), MakeRequest(h, a), false,
                     Found(ServedReply(h, f, a), 0), Some(a));
    Sys([d.(stage := stage)], [Fetcher(1, SERVICE_FILE)], None, AtEntry(0), 2, [a.id, b.id],
        if stage.Draining? then [CancelOf(a)] else [])
  }

  lemma WalkStandsThere(h: nat, f: seq<Byte>, a: Irp, b: Irp) returns (es: seq<Event>)
    requires ReadThen(a, b)
    ensures EndsIn(es, LateBoth(h, f, a, b, Linked))
  {
    es := FirstReplyFound(h, f, a, b);
    var s := Serving(h, f, a, b, Found(ServedReply(h, f, a), 0));
    es := Then(es, s, Issue);
    assert Insert([], Fetcher(1, SERVICE_FILE)) == [Fetcher(1, SERVICE_FILE)];
    es := Then(es, LateBoth(h, f, a, b, Linked).(fetch := Scanning(None)), Step);
  }

  lemma BothComeLate(h: nat, f: seq<Byte>, a: Irp, b: Irp) returns (es: seq<Event>)
    requires ReadThen(a, b)
    ensures EndsIn(es, LateBoth(h, f, a, b, Draining))
  {
    es := WalkStandsThere(h, f, a, b);
    var s := LateBoth(h, f, a, b, Linked);
    es := Then(es, s, Unlink(0));
    assert NextLinked(s.disks, 1) == None;
    es := Then(es, LateBoth(h, f, a, b, Unlinked), Clear(0));
    assert [] + [CancelOf(a)] == [CancelOf(a)];
  }

  /** Packet `b` is stray, and the reply of `a` about to take it. */
  function Meeting(h: nat, f: seq<Byte>, a: Irp, b: Irp): Sys
    requires Fits(a) && Fits(b)
  {
    var d := TheDisk(h, f, Some(b), [], Staged(Loaded(f, a), b), MakeRequest(h, a), false, Found(ServedReply(h, f, a), 0), Some(a));
    Sys([d.(stage := Draining)], [], Some(MakeRequest(h, b)), Scanning(Some(0)), 2, [a.id, b.id], [CancelOf(a)])
  }

  lemma ReplyMeetsStray(h: nat, f: seq<Byte>, a: Irp, b: Irp) returns (es: seq<Event>)
    requires ReadThen(a, b)
    ensures EndsIn(es, Meeting(h, f, a, b))
  {
    es := BothComeLate(h, f, a, b);
    es := Then(es, LateBoth(h, f, a, b, Draining), Visit);
    assert Rest([b]) == [] && Rest([Fetcher(1, SERVICE_FILE)]) == [];
  }

  /** A run after which packet `b`, which no worker ever took, is completed with success by the reply of the cancelled
      READ `a`: a WRITE without having been written, a READ with the bytes of `a`. */
  lemma WrongReplyCompletes(h: nat, f: seq<Byte>, a: Irp, b: Irp) returns (es: seq<Event>)
    requires ReadThen(a, b) && (Code(b) == SCSIOP_READ ==> |Wanted(a, f)| <= |b.data|)
    ensures Legal(es) && |Final(es).disks| == 1 && Final(es).disks[0].file == f && Final(es).disks[0].served == Some(a)
    ensures var data := if Code(b) == SCSIOP_READ then Wanted(a, f) + b.data[|Wanted(a, f)|..] else b.data;
            Final(es).completed == [CancelOf(a), Completion(b.id, Success, |Wanted(a, f)|, data)]
  {
    es := ReplyMeetsStray(h, f, a, b);
    es := ThenSection(es, Meeting(h, f, a, b), 0);
    if Code(b) == SCSIOP_READ {
      var n := |Wanted(a, f)|;
      assert Loaded(f, a)[..n] == Wanted(a, f);
    }
  }

  /** A run after which the copy-out of a reply would overrun the buffer of another READ. */
  lemma WrongReplyOverruns(h: nat, f: seq<Byte>, a: Irp, b: Irp) returns (es: seq<Event>)
    requires ReadThen(a, b) && Code(b) == SCSIOP_READ && |b.data| < |Wanted(a, f)|
    ensures Legal(es) && Guard(Final(es), Section(0)) && !Defined(Final(es), Section(0))
  {
    es := ReplyMeetsStray(h, f, a, b);
  }

  // ---- overtaking ----

  /** The system when READ `a` is completed, its BusStartNextPacket still owed, and packets `queue` wait. */
  function Owing(h: nat, f: seq<Byte>, a: Irp, b: Irp, queue: seq<Irp>, parked: seq<Fetcher>, fetch: Fetch, nextFetcher: nat): Sys
    requires Fits(a)
  {
    Sys([TheDisk(h, f, None, queue, Loaded(f, a), MakeRequest(h, a), false, Tail(0), Some(a))], parked, None, fetch,
        nextFetcher, [a.id, b.id], [Completion(a.id, Success, |Wanted(a, f)|, Overlay(a.data, Loaded(f, a), |Wanted(a, f)|))])
  }

  lemma FirstPacketCompleted(h: nat, f: seq<Byte>, a: Irp, b: Irp) returns (es: seq<Event>)
    requires ReadThen(a, b)
    ensures EndsIn(es, Owing(h, f, a, b, [b], [], Ready, 1))
  {
    es := FirstReplyFound(h, f, a, b);
    es := ThenSection(es, Serving(h, f, a, b, Found(ServedReply(h, f, a), 0)), 0);
  }

  lemma NextParked(h: nat, f: seq<Byte>, a: Irp, b: Irp) returns (es: seq<Event>)
    requires ReadThen(a, b)
    ensures EndsIn(es, Owing(h, f, a, b, [b], [Fetcher(1, SERVICE_FILE)], Scanning(None), 2))
  {
    es := FirstPacketCompleted(h, f, a, b);
    es := Then(es, Owing(h, f, a, b, [b], [], Ready, 1), Issue);
    assert Insert([], Fetcher(1, SERVICE_FILE)) == [Fetcher(1, SERVICE_FILE)];
  }

  /** A run after which packet `c` overtakes packet `b`: it arrives before the owed BusStartNextPacket. */
  lemma OvertakingHappens(h: nat, f: seq<Byte>, a: Irp, b: Irp, c: Irp) returns (es: seq<Event>)
    requires Distinct(a, b, c) && Code(a) == SCSIOP_READ
    ensures Legal(es) && Guard(Final(es), Arrive(0, c))
    ensures Starving(Final(es), 0) && Final(es).disks[0].pdo.irpQueue == [b]
  {
    es := NextParked(h, f, a, b);
  }

  // ---- a packet left behind ----

  lemma OwedBehindClear(h: nat, f: seq<Byte>, a: Irp, b: Irp) returns (es: seq<Event>)
    requires ReadThen(a, b)
    ensures EndsIn(es, SetStage(Owing(h, f, a, b, [b], [Fetcher(1, SERVICE_FILE)], Scanning(None), 2), 0, Draining))
  {
    es := NextParked(h, f, a, b);
    var s := Owing(h, f, a, b, [b], [Fetcher(1, SERVICE_FILE)], Scanning(None), 2);
    es := Then(es, s, Unlink(0));
    assert NextLinked(s.disks, 1) == None;
    es := Then(es, SetStage(s, 0, Unlinked), Clear(0));
    assert s.completed + [] == s.completed;
  }

  lemma SecondPacketStray(h: nat, f: seq<Byte>, a: Irp, b: Irp) returns (es: seq<Event>)
    requires ReadThen(a, b)
    ensures Legal(es) && |Final(es).disks| == 1 && Pinned(Final(es).disks[0])
    ensures Final(es).disks[0].stage.Destroyed? && Final(es).disks[0].pdo.current == Some(b)
  {
    es := OwedBehindClear(h, f, a, b);
    es := Then(es, Final(es), StartOwed(0));
    es := Then(es, Final(es), Finish(0));
  }

  lemma OnlyPacketCleared(h: nat, f: seq<Byte>, b: Irp, req: Request) returns (es: seq<Event>)
    requires Fits(b)
    ensures EndsIn(es, SetStage(AllWaiting(h, f, b, req, AtEntry(0)), 0, Draining))
  {
    es := FirstPacketQueued(h, f, b, req);
    var s := AllWaiting(h, f, b, req, AtEntry(0));
    es := Then(es, s, Unlink(0));
    assert NextLinked(s.disks, 1) == None;
    es := Then(es, SetStage(s, 0, Unlinked), Clear(0));
    assert s.completed + [] == s.completed;
  }

  lemma OnlyPacketStray(h: nat, f: seq<Byte>, b: Irp, req: Request) returns (es: seq<Event>)
    requires Fits(b)
    ensures Legal(es) && |Final(es).disks| == 1 && Pinned(Final(es).disks[0])
    ensures Final(es).disks[0].stage.Destroyed? && Final(es).disks[0].pdo.current == Some(b)
  {
    es := OnlyPacketCleared(h, f, b, req);
    es := Then(es, Final(es), Visit);
    es := Then(es, Final(es), Finish(0));
  }

  /** A run after which a removal has ended with packet `b` current, because of the start that the reply of `a` owed:
      no continuation completes it. */
  lemma RemovalStrands(h: nat, f: seq<Byte>, a: Irp, b: Irp) returns (es: seq<Event>)
    requires ReadThen(a, b)
    ensures Legal(es) && |Final(es).disks| == 1
    ensures Final(es).disks[0].stage.Destroyed? && Final(es).disks[0].pdo.current == Some(b)
    ensures forall fs :: Steps(Final(es), fs) ==> Completions(EndOf(Final(es), fs).completed, b.id) == 0
  {
    es := SecondPacketStray(h, f, a, b);
    forall fs | Steps(Final(es), fs) ensures Completions(EndOf(Final(es), fs).completed, b.id) == 0 {
      PinnedIsNeverCompleted(es, fs, 0);
    }
  }

  /** A run after which the same has happened to packet `b` on a disk that never served one: a walk of GET_REQUEST came
      to the disk before it was unlinked, and its call runs after CurrentIrp was cleared. */
  lemma WalkStrands(h: nat, f: seq<Byte>, b: Irp, req: Request) returns (es: seq<Event>)
    requires Fits(b)
    ensures Legal(es) && |Final(es).disks| == 1
    ensures Final(es).disks[0].stage.Destroyed? && Final(es).disks[0].pdo.current == Some(b)
    ensures forall fs :: Steps(Final(es), fs) ==> Completions(EndOf(Final(es), fs).completed, b.id) == 0
  {
    es := OnlyPacketStray(h, f, b, req);
    forall fs | Steps(Final(es), fs) ensures Completions(EndOf(Final(es), fs).completed, b.id) == 0 {
      PinnedIsNeverCompleted(es, fs, 0);
    }
  }

  // ---- two requests for one mailbox ----

  /** The system when packet `b` is current while the reply of `a` still owes its start. */
  function Again(h: nat, f: seq<Byte>, a: Irp, b: Irp, req: Request, event: bool, delivered: Option<Request>, fetch: Fetch): Sys
    requires Fits(a) && Fits(b)
  {
    var s := Owing(h, f, a, b, [], [], fetch, 2);
    s.(disks := [TheDisk(h, f, Some(b), [], Staged(Loaded(f, a), b), req, event, Tail(0), Some(a))], delivered := delivered)
  }

  lemma SecondPacketDelivered(h: nat, f: seq<Byte>, a: Irp, b: Irp) returns (es: seq<Event>)
    requires ReadThen(a, b)
    ensures EndsIn(es, Again(h, f, a, b, MakeRequest(h, a), false, Some(MakeRequest(h, b)), Scanning(Some(0))))
  {
    es := NextParked(h, f, a, b);
    var s := Owing(h, f, a, b, [b], [Fetcher(1, SERVICE_FILE)], Scanning(None), 2);
    es := Then(es, s, Step);
    es := Then(es, s.(fetch := AtEntry(0)), Visit);
    assert Rest([b]) == [] && Rest([Fetcher(1, SERVICE_FILE)]) == [];
  }

  lemma SecondPacketHeld(h: nat, f: seq<Byte>, a: Irp, b: Irp) returns (es: seq<Event>)
    requires ReadThen(a, b)
    ensures EndsIn(es, Again(h, f, a, b, MakeRequest(h, a), false, None, Holding(MakeRequest(h, b))))
  {
    var req := MakeRequest(h, a);
    es := SecondPacketDelivered(h, f, a, b);
    var s := Again(h, f, a, b, req, false, Some(MakeRequest(h, b)), Scanning(Some(0)));
    assert NextLinked(s.disks, 1) == None;
    es := Then(es, s, Step);
    es := Then(es, s.(fetch := Waiting), Receive);
  }

  lemma SecondPacketPosted(h: nat, f: seq<Byte>, a: Irp, b: Irp) returns (es: seq<Event>)
    requires ReadThen(a, b)
    ensures EndsIn(es, Again(h, f, a, b, MakeRequest(h, b), false, None, Posting(0)))
  {
    es := SecondPacketHeld(h, f, a, b);
    var s := Again(h, f, a, b, MakeRequest(h, a), false, None, Holding(MakeRequest(h, b)));
    assert FindProcessor(s.disks, h, 0) == Some(0);
    es := Then(es, s, Find);
    es := Then(es, s.(fetch := Directed(MakeRequest(h, b), 0)), Post);
  }

  lemma SecondPacketSignaled(h: nat, f: seq<Byte>, a: Irp, b: Irp) returns (es: seq<Event>)
    requires ReadThen(a, b)
    ensures EndsIn(es, Again(h, f, a, b, MakeRequest(h, b), true, None, Ready))
  {
    es := SecondPacketPosted(h, f, a, b);
    es := Then(es, Again(h, f, a, b, MakeRequest(h, b), false, None, Posting(0)), Signal);
  }

  lemma ThirdPacketWaits(h: nat, f: seq<Byte>, a: Irp, b: Irp, c: Irp) returns (es: seq<Event>)
    requires Distinct(a, b, c) && Code(a) == SCSIOP_READ
    ensures var s := Again(h, f, a, b, MakeRequest(h, b), true, None, Ready);
            EndsIn(es, s.(disks := [s.disks[0].(pdo := s.disks[0].pdo.(irpQueue := [c]))], parked := [Fetcher(2, SERVICE_FILE)],
                          fetch := Scanning(None), nextFetcher := 3, accepted := [a.id, b.id, c.id]))
  {
    es := SecondPacketSignaled(h, f, a, b);
    var s := Again(h, f, a, b, MakeRequest(h, b), true, None, Ready);
    es := Then(es, s, Arrive(0, c));
    assert Insert([], c) == [c] && [a.id, b.id] + [c.id] == [a.id, b.id, c.id];
    s := s.(disks := [s.disks[0].(pdo := s.disks[0].pdo.(irpQueue := [c]))], accepted := [a.id, b.id, c.id]);
    assert EndsIn(es, s);
    es := Then(es, s, Issue);
  }

  lemma ThirdPacketCleared(h: nat, f: seq<Byte>, a: Irp, b: Irp, c: Irp) returns (es: seq<Event>)
    requires Distinct(a, b, c) && Code(a) == SCSIOP_READ
    ensures Legal(es) && |Final(es).disks| == 1 && Final(es).fetch == Scanning(None) && Final(es).parked != []
    ensures var d := Final(es).disks[0];
            d.stage.Draining? && d.worker == Tail(0) && d.event && d.pdo.current.None? && d.pdo.irpQueue == [c]
            && d.pdo.serialNo == h
  {
    es := ThirdPacketWaits(h, f, a, b, c);
    es := Then(es, Final(es), Unlink(0));
    es := Then(es, Final(es), Clear(0));
  }

  lemma ThirdPacketStray(h: nat, f: seq<Byte>, a: Irp, b: Irp, c: Irp) returns (es: seq<Event>)
    requires Distinct(a, b, c) && Code(a) == SCSIOP_READ
    ensures Legal(es) && |Final(es).disks| == 1 && Final(es).fetch == Scanning(None)
    ensures Final(es).disks[0].event && Final(es).disks[0].pdo.serialNo == h && Final(es).disks[0].stage.Draining?
    ensures Final(es).delivered == Some(MakeRequest(h, c))
  {
    es := ThirdPacketCleared(h, f, a, b, c);
    es := Then(es, Final(es), StartOwed(0));
  }

  /** A run after which the mailbox of a disk is about to be overwritten while the event of the earlier request is
      still set: packet `c` is stray. */
  lemma MailboxIsOverwritten(h: nat, f: seq<Byte>, a: Irp, b: Irp, c: Irp) returns (es: seq<Event>)
    requires Distinct(a, b, c) && Code(a) == SCSIOP_READ
    ensures Legal(es) && Clash(Final(es), 0) && Final(es).fetch == Directed(MakeRequest(h, c), 0)
  {
    es := ThirdPacketStray(h, f, a, b, c);
    var s := Final(es);
    assert NextLinked(s.disks, 0) == None;
    es := Then(es, s, Step);
    es := Then(es, s.(fetch := Waiting), Receive);
    s := s.(fetch := Holding(MakeRequest(h, c)), delivered := None);
    assert FindProcessor(s.disks, h, 0) == Some(0);
    es := Then(es, s, Find);
  }

  // ---- a wake-up lost between taking a fetcher and putting it back ----

  /** As Owing, but packet `b` has been cancelled. */
  function NothingWaits(h: nat, f: seq<Byte>, a: Irp, b: Irp, parked: seq<Fetcher>, fetch: Fetch, nextFetcher: nat): Sys
    requires Fits(a)
  {
    var s := Owing(h, f, a, b, [], parked, fetch, nextFetcher);
    s.(completed := s.completed + [CancelOf(b)])
  }

  lemma NothingQueued(h: nat, f: seq<Byte>, a: Irp, b: Irp) returns (es: seq<Event>)
    requires ReadThen(a, b)
    ensures EndsIn(es, NothingWaits(h, f, a, b, [Fetcher(1, SERVICE_FILE)], Scanning(None), 2))
  {
    es := NextParked(h, f, a, b);
    es := Then(es, Owing(h, f, a, b, [b], [Fetcher(1, SERVICE_FILE)], Scanning(None), 2), CancelQueued(0, 0));
    assert Without([b], 0) == [];
  }

  lemma WalkedInVain(h: nat, f: seq<Byte>, a: Irp, b: Irp) returns (es: seq<Event>)
    requires ReadThen(a, b)
    ensures EndsIn(es, NothingWaits(h, f, a, b, [Fetcher(1, SERVICE_FILE)], Waiting, 2))
  {
    var parked := [Fetcher(1, SERVICE_FILE)];
    es := NothingQueued(h, f, a, b);
    es := Then(es, NothingWaits(h, f, a, b, parked, Scanning(None), 2), Step);
    es := Then(es, NothingWaits(h, f, a, b, parked, AtEntry(0), 2), Visit);
    assert Insert(Rest(parked), parked[0]) == parked;
    var s := NothingWaits(h, f, a, b, parked, Scanning(Some(0)), 2);
    assert EndsIn(es, s);
    assert NextLinked(s.disks, 1) == None;
    es := Then(es, s, Step);
  }

  /** Two linked disks: the reply of the first still owes its start, nothing waits, and the fetch thread waits. */
  function TwoDisks(h: nat, f: seq<Byte>, a: Irp, b: Irp, g: nat, req: Request): Sys
    requires Fits(a)
  {
    var s := NothingWaits(h, f, a, b, [Fetcher(1, SERVICE_FILE)], Waiting, 2);
    s.(disks := s.disks + [FreshDisk(g, f, req)])
  }

  lemma SecondDiskAdded(h: nat, f: seq<Byte>, a: Irp, b: Irp, g: nat, req: Request) returns (es: seq<Event>)
    requires ReadThen(a, b) && g != h
    ensures EndsIn(es, TwoDisks(h, f, a, b, g, req))
  {
    es := WalkedInVain(h, f, a, b);
    es := Then(es, NothingWaits(h, f, a, b, [Fetcher(1, SERVICE_FILE)], Waiting, 2), AddDisk(g, f, req));
  }

  lemma IdleIsQuiescent(s: Sys)
    requires s.fetch.Waiting? && s.delivered.None?
    requires forall i :: 0 <= i < |s.disks| ==> s.disks[i].worker.Idle? && !s.disks[i].event && s.disks[i].stage.Linked?
    ensures Quiescent(s)
  {
  }

  /** The two disks with the fetcher out. */
  function FetcherOut(h: nat, f: seq<Byte>, a: Irp, b: Irp, g: nat, req: Request): Sys
    requires Fits(a)
  {
    TwoDisks(h, f, a, b, g, req).(parked := [])
  }

  lemma ArrivalStrands(h: nat, f: seq<Byte>, a: Irp, b: Irp, c: Irp, g: nat, req: Request)
    requires Distinct(a, b, c)
    ensures var u := FetcherOut(h, f, a, b, g, req);
            Guard(u, Arrive(1, c)) && Defined(u, Arrive(1, c)) && Strands(u, Arrive(1, c), 1)
    ensures var t := Next(FetcherOut(h, f, a, b, g, req), Arrive(1, c));
            |t.disks| == 2 && t.disks[0] == FetcherOut(h, f, a, b, g, req).disks[0] && t.fetch.Waiting? && t.delivered.None?
            && t.disks[1].pdo.irpQueue == [c] && t.disks[1].worker.Idle? && !t.disks[1].event && t.disks[1].stage.Linked?
  {
  }

  lemma ArrivalBetween(h: nat, f: seq<Byte>, a: Irp, b: Irp, c: Irp, g: nat, req: Request)
    requires Distinct(a, b, c)
    ensures var u := FetcherOut(h, f, a, b, g, req); var es := [Arrive(1, c)];
            && Steps(u, es) && EndOf(u, es) == Next(u, Arrive(1, c))
            && Window(u, StartOwed(0), 0, es) && StrandedSince(u, es, 1)
  {
    var u := FetcherOut(h, f, a, b, g, req);
    var none: seq<Event> := [];
    ArrivalStrands(h, f, a, b, c, g, req);
    var es := Grow(u, none, u, Arrive(1, c));
    assert es == [Arrive(1, c)] && es[..0] == none;
    assert Window(u, StartOwed(0), 0, none);
  }

  lemma FetcherTaken(h: nat, f: seq<Byte>, a: Irp, b: Irp, g: nat, req: Request)
    requires Fits(a)
    ensures var s := TwoDisks(h, f, a, b, g, req);
            TakesInVain(s, StartOwed(0)) && CallerOf(s, StartOwed(0)) == 0 && Taken(s) == FetcherOut(h, f, a, b, g, req)
  {
    assert Rest([Fetcher(1, SERVICE_FILE)]) == [];
  }

  /** A run after which the owed BusStartNextPacket of the first disk takes the fetcher in vain, packet `c` arrives on
      the second disk, and the fetcher is put back: `c` waits beside a parked fetcher, nobody owes its disk a wake-up,
      and the system can do nothing by itself. */
  lemma PutBackStrands(h: nat, f: seq<Byte>, a: Irp, b: Irp, c: Irp, g: nat, req: Request) returns (es: seq<Event>)
    requires Distinct(a, b, c) && Code(a) == SCSIOP_READ && g != h
    ensures Legal(es) && TakesInVain(Final(es), StartOwed(0)) && Steps(Taken(Final(es)), [Arrive(1, c)])
    ensures Window(Taken(Final(es)), StartOwed(0), 0, [Arrive(1, c)]) && Enabled(EndOf(Taken(Final(es)), [Arrive(1, c)]), StartOwed(0))
    ensures var t := SplitBy(Final(es), StartOwed(0), [Arrive(1, c)]);
            1 < |t.disks| && Starving(t, 1) && !Owed(t, 1) && WorkPending(t) && Quiescent(t)
  {
    es := SecondDiskAdded(h, f, a, b, g, req);
    var s := TwoDisks(h, f, a, b, g, req);
    Reachable(es);
    FetcherTaken(h, f, a, b, g, req);
    ArrivalStrands(h, f, a, b, c, g, req);
    ArrivalBetween(h, f, a, b, c, g, req);
    SplitPutBackIsExact(s, StartOwed(0), [Arrive(1, c)], 1);
    var t := SplitBy(s, StartOwed(0), [Arrive(1, c)]);
    IdleIsQuiescent(t);
    assert HasPackets(t.disks[1].pdo);
  }

  // ---- an id used again ----

  /** The first disk is off the list, and the fetch thread holds the request of its packet `a`. */
  function Orphan(h: nat, f: seq<Byte>, a: Irp, b: Irp, req: Request, stage: Stage): Sys
    requires Fits(a)
  {
    var d := TheDisk(h, f, None, [], Staged(Zeros(BUFFER_SIZE), a), req, false, Idle, None);
    Sys([d.(stage := stage)], [], None, Holding(MakeRequest(h, a)), 1, [a.id, b.id], [CancelOf(a), CancelOf(b)])
  }

  lemma CarriedPacketCancelled(h: nat, f: seq<Byte>, a: Irp, b: Irp, req: Request) returns (es: seq<Event>)
    requires Fits(a) && Fits(b) && a.id != b.id
    ensures var s := Orphan(h, f, a, b, req, Draining);
            EndsIn(es, s.(disks := [s.disks[0].(pdo := s.disks[0].pdo.(irpQueue := [b]))], completed := [CancelOf(a)]))
  {
    es := FirstPacketHeld(h, f, a, b, req);
    var s := Started(h, f, a, b, req, false, None, Holding(MakeRequest(h, a)));
    es := Then(es, s, Unlink(0));
    assert NextLinked(s.disks, 1) == None;
    es := Then(es, SetStage(s, 0, Unlinked), Clear(0));
    assert [] + [CancelOf(a)] == [CancelOf(a)];
  }

  lemma CarriedQueueDrained(h: nat, f: seq<Byte>, a: Irp, b: Irp, req: Request) returns (es: seq<Event>)
    requires Fits(a) && Fits(b) && a.id != b.id
    ensures EndsIn(es, Orphan(h, f, a, b, req, Draining))
  {
    es := CarriedPacketCancelled(h, f, a, b, req);
    var s := Orphan(h, f, a, b, req, Draining);
    es := Then(es, s.(disks := [s.disks[0].(pdo := s.disks[0].pdo.(irpQueue := [b]))], completed := [CancelOf(a)]), Drain(0));
    assert Rest([b]) == [] && [CancelOf(a)] + [CancelOf(b)] == [CancelOf(a), CancelOf(b)];
  }

  lemma RequestOrphaned(h: nat, f: seq<Byte>, a: Irp, b: Irp, req: Request) returns (es: seq<Event>)
    requires Fits(a) && Fits(b) && a.id != b.id
    ensures EndsIn(es, Orphan(h, f, a, b, req, Gone))
  {
    es := CarriedQueueDrained(h, f, a, b, req);
    es := Then(es, Orphan(h, f, a, b, req, Draining), Finish(0));
    es := Then(es, Orphan(h, f, a, b, req, Destroyed), RemoveFinal(0));
  }

  /** The state when the id is registered again, its request still held. */
  predicate HeldForNew(s: Sys, h: nat, a: Irp, backing: seq<Byte>, mailbox: Request) {
    && |s.disks| == 2 && s.disks[0].stage.Gone? && s.disks[1] == FreshDisk(h, backing, mailbox)
    && Fits(a) && s.fetch == Holding(MakeRequest(h, a))
  }

  lemma StaleRequestSignaled(s: Sys, h: nat, a: Irp, backing: seq<Byte>, mailbox: Request) returns (fs: seq<Event>)
    requires HeldForNew(s, h, a, backing, mailbox)
    ensures Steps(s, fs) && |EndOf(s, fs).disks| == 2
    ensures EndOf(s, fs).disks[1] == FreshDisk(h, backing, MakeRequest(h, a)).(event := true)
  {
    assert FindProcessor(s.disks, h, 0) == Some(1);
    fs := [];
    fs := Grow(s, fs, s, Find);
    fs := Grow(s, fs, EndOf(s, fs), Post);
    fs := Grow(s, fs, EndOf(s, fs), Signal);
  }

  /** From the registration of the carried id on: the stale request reaches the new disk's worker, which carries it
      out on the new file with the new, empty buffer. */
  lemma StaleRequestServed(s: Sys, h: nat, a: Irp, backing: seq<Byte>, mailbox: Request) returns (fs: seq<Event>)
    requires HeldForNew(s, h, a, backing, mailbox)
    ensures Steps(s, fs) && |EndOf(s, fs).disks| == 2
    ensures var r := Serve(backing, Zeros(BUFFER_SIZE), MakeRequest(h, a));
            EndOf(s, fs).disks[1] == FreshDisk(h, r.file, MakeRequest(h, a)).(
              pdo := Pdo(h, None, [], r.buffer, 0), worker := Done(true, r.numBytes))
  {
    FittingRequestIsValid(h, a);
    fs := StaleRequestSignaled(s, h, a, backing, mailbox);
    fs := Grow(s, fs, EndOf(s, fs), Wake(1));
    fs := Grow(s, fs, EndOf(s, fs), Exec(1));
  }

  /** A run through the registration of an id that the fetch thread still carries, for a WRITE `a` that was cancelled
      when its disk was removed: zeros land in the new disk's file at the old packet's address, although no packet
      was ever accepted for the new disk. */
  lemma StaleWriteLands(h: nat, f: seq<Byte>, a: Irp, b: Irp, req: Request, backing: seq<Byte>, mailbox: Request)
    returns (es: seq<Event>, fs: seq<Event>)
    requires Fits(a) && Fits(b) && a.id != b.id && Code(a) == SCSIOP_WRITE
    ensures Legal(es) && |Final(es).disks| == 1
    ensures var e := AddDisk(h, backing, mailbox);
            && Enabled(Final(es), e) && !Premise(Final(es), e) && Steps(Next(Final(es), e), fs)
            && var t := EndOf(Next(Final(es), e), fs);
            && |t.disks| == 2 && t.disks[1].stage.Linked? && !HasPackets(t.disks[1].pdo)
            && t.disks[1].file == WriteAt(backing, Offset(DecodeCdb(a.cdb).lba, BLOCK_SIZE), Zeros(|a.data|))
  {
    es := RequestOrphaned(h, f, a, b, req);
    var s := Orphan(h, f, a, b, req, Gone);
    fs := StaleRequestServed(Next(s, AddDisk(h, backing, mailbox)), h, a, backing, mailbox);
    assert Zeros(BUFFER_SIZE)[..|a.data|] == Zeros(|a.data|);
  }

  // ---- a processor deleted under the fetch thread ----

  lemma MailboxDiskCleared(h: nat, f: seq<Byte>, a: Irp, b: Irp) returns (es: seq<Event>)
    requires Fits(a) && Fits(b) && a.id != b.id
    ensures Legal(es) && |Final(es).disks| == 1 && Final(es).fetch == Posting(0)
    ensures var d := Final(es).disks[0]; d.stage.Draining? && d.pdo.irpQueue == [b] && d.worker.Idle? && !d.event
  {
    es := FirstPacketInMailbox(h, f, a, b);
    es := Then(es, Final(es), Unlink(0));
    es := Then(es, Final(es), Clear(0));
  }

  lemma MailboxDiskDrained(h: nat, f: seq<Byte>, a: Irp, b: Irp) returns (es: seq<Event>)
    requires Fits(a) && Fits(b) && a.id != b.id
    ensures Legal(es) && |Final(es).disks| == 1 && Final(es).fetch == Posting(0)
    ensures var d := Final(es).disks[0]; d.stage.Draining? && d.pdo.irpQueue == [] && d.worker.Idle? && !d.event
  {
    es := MailboxDiskCleared(h, f, a, b);
    es := Then(es, Final(es), Drain(0));
  }

  /** A run that reaches the window: the fetch thread has written the mailbox and not yet set the event, and the
      worker may delete the processor. */
  lemma WindowIsReached(h: nat, f: seq<Byte>, a: Irp, b: Irp) returns (es: seq<Event>)
    requires Fits(a) && Fits(b) && a.id != b.id
    ensures Legal(es) && |Final(es).disks| == 1 && InWindow(Final(es), 0)
  {
    es := MailboxDiskDrained(h, f, a, b);
    es := Then(es, Final(es), Finish(0));
  }
}
