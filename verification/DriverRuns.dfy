/** Runs of the driver with whole routines interleaved: first in, first out per disk, conservation of GET_REQUEST
    packets, and the remove-lock count. An observer who only compares device extensions before and after each
    routine keeps the records. */
module DriverRuns {
  import opened Base
  import opened Blocks
  import opened Packets
  import opened CancelSafeQueue
  import opened Driver

  datatype Call =
    | StartCall(i: nat, irp: Irp)
    | GetCall(fetcher: Fetcher)
    | ReplyCall(reply: Reply)
    | CancelCall(i: nat, k: nat)
    | DestroyCall(i: nat)
    | CleanupCall(file: nat)
    | AddCall(serialNo: nat)

  /** What the observer knows of one disk: the packets that arrived and were not cancelled while queued, the packets
      that became current, and those that left CurrentIrp by a reply, each in order of time. */
  datatype Track = Track(live: seq<Irp>, started: seq<Irp>, finished: seq<Irp>)

  /** A packet that became current on the disk with this serial number. */
  datatype Dispatched = Dispatched(serialNo: nat, irp: Irp)

  /** The bus, one track per disk, the GET_REQUEST packets issued, those cancelled by a cleanup, and every packet
      that became current, over all disks. */
  datatype World = World(bus: Bus, tracks: seq<Track>, issued: seq<Fetcher>, dropped: seq<Fetcher>, dispatched: seq<Dispatched>)

  function Nothing(): World {
    World(Bus([], [], [], []), [], [], [], [])
  }

  // ---- the observer ----

  predicate BecameCurrent(p: Pdo, q: Pdo) {
    p.current.None? && q.current.Some?
  }

  function Observe(t: Track, p: Pdo, q: Pdo): Track {
    t.(started := if BecameCurrent(p, q) then t.started + [q.current.value] else t.started,
       finished := if p.current.Some? && q.current.None? then t.finished + [p.current.value] else t.finished)
  }

  function ObserveAll(ts: seq<Track>, ps: seq<Pdo>, qs: seq<Pdo>): (r: seq<Track>)
    requires |ts| == |ps| == |qs|
    ensures |r| == |ts| && forall i :: 0 <= i < |r| ==> r[i] == Observe(ts[i], ps[i], qs[i])
  {
    seq(|ts|, i requires 0 <= i < |ts| => Observe(ts[i], ps[i], qs[i]))
  }

  function NewlyCurrent(ps: seq<Pdo>, qs: seq<Pdo>): seq<Dispatched>
    requires |ps| == |qs|
  {
    if ps == [] then []
    else (if BecameCurrent(ps[0], qs[0]) then [Dispatched(qs[0].serialNo, qs[0].current.value)] else [])
         + NewlyCurrent(ps[1..], qs[1..])
  }

  /** The world after a routine, or a section of one, that leads to `bus`. */
  function Advance(w: World, bus: Bus): World
    requires |w.tracks| == |w.bus.pdos| == |bus.pdos|
  {
    w.(bus := bus, tracks := ObserveAll(w.tracks, w.bus.pdos, bus.pdos),
       dispatched := w.dispatched + NewlyCurrent(w.bus.pdos, bus.pdos))
  }

  // ---- the calls ----

  predicate Allowed(w: World, c: Call)
    requires |w.tracks| == |w.bus.pdos| && AllSound(w.bus.pdos)
  {
    match c
    case StartCall(i, irp) => i < |w.bus.pdos| && Fits(irp)
    case ReplyCall(reply) => ReplyInBounds(w.bus, reply)
    case CancelCall(i, k) => i < |w.bus.pdos| && k < |w.bus.pdos[i].irpQueue|
    case DestroyCall(i) => i < |w.bus.pdos|
    case _ => true
  }

  function Arrived(w: World, i: nat, irp: Irp): World
    requires i < |w.tracks|
  {
    w.(tracks := w.tracks[i := w.tracks[i].(live := w.tracks[i].live + [irp])])
  }

  /** A queued packet is cancelled: the observer strikes it from the arrivals, where it stands `k` places behind
      the packets that already started. */
  function CancelAt(w: World, i: nat, k: nat): World
    requires |w.tracks| == |w.bus.pdos| && i < |w.bus.pdos| && k < |w.bus.pdos[i].irpQueue|
  {
    var pdo := w.bus.pdos[i];
    var t := w.tracks[i];
    w.(bus := w.bus.(pdos := w.bus.pdos[i := pdo.(irpQueue := Without(pdo.irpQueue, k))],
                     completed := w.bus.completed + [CancelOf(pdo.irpQueue[k])]),
       tracks := w.tracks[i := t.(live := Without(t.live, |t.started| + k))])
  }

  /** SEND_REPLY, observed after its section and at its end. */
  function Replied(w: World, reply: Reply): World
    requires |w.tracks| == |w.bus.pdos| && AllSound(w.bus.pdos) && ReplyInBounds(w.bus, reply)
  {
    var found := FindPdo(w.bus.pdos, reply.handle, 0);
    if found.None? then w
    else Advance(Advance(w, Finish(w.bus, found.value, reply)), SendReply(w.bus, reply).0)
  }

  function Step(w: World, c: Call): World
    requires |w.tracks| == |w.bus.pdos| && AllSound(w.bus.pdos) && Allowed(w, c)
  {
    match c
    case StartCall(i, irp) => Advance(Arrived(w, i, irp), Start(w.bus, i, irp))
    case GetCall(fetcher) => Advance(w, GetRequest(w.bus, fetcher)).(issued := w.issued + [fetcher])
    case ReplyCall(reply) => Replied(w, reply)
    case CancelCall(i, k) => CancelAt(w, i, k)
    case DestroyCall(i) => w.(bus := Destroy(w.bus, i), tracks := Without(w.tracks, i))
    case CleanupCall(file) =>
      w.(bus := w.bus.(parked := OthersOf(w.bus.parked, file)), dropped := w.dropped + FetchersOf(w.bus.parked, file))
    case AddCall(serialNo) =>
      w.(bus := w.bus.(pdos := w.bus.pdos + [Pdo(serialNo, None, [], Zeros(BUFFER_SIZE), 0)]), tracks := w.tracks + [Track([], [], [])])
  }

  // ---- invariants ----

  function CurrentOf(pdo: Pdo): seq<Irp> {
    if pdo.current.Some? then [pdo.current.value] else []
  }

  /** First in, first out: what arrived is what started followed by what waits, and what started is what finished
      followed by what is current. */
  predicate InOrder(t: Track, pdo: Pdo) {
    t.live == t.started + pdo.irpQueue && t.started == t.finished + CurrentOf(pdo)
  }

  predicate Locked(pdo: Pdo) {
    pdo.lockCount == if pdo.current.Some? then 1 else 0
  }

  predicate WellFormed(w: World) {
    && |w.tracks| == |w.bus.pdos| && AllSound(w.bus.pdos)
    && forall i :: 0 <= i < |w.bus.pdos| ==> InOrder(w.tracks[i], w.bus.pdos[i]) && Locked(w.bus.pdos[i])
  }

  /** How often a fetcher is parked, answered or dropped. */
  function Answered(answers: seq<Answer>, f: Fetcher): nat {
    if answers == [] then 0 else Answered(answers[..|answers| - 1], f) + if answers[|answers| - 1].fetcher == f then 1 else 0
  }

  function Held(bus: Bus, f: Fetcher): nat {
    multiset(bus.parked)[f] + Answered(bus.answered, f)
  }

  predicate FetcherConserved(w: World, f: Fetcher) {
    Held(w.bus, f) + multiset(w.dropped)[f] == multiset(w.issued)[f]
  }

  /** The k-th answer is the request of the k-th packet that became current. */
  predicate AnswersMatch(w: World) {
    && |w.bus.answered| == |w.dispatched|
    && forall k :: 0 <= k < |w.dispatched| ==>
         |w.dispatched[k].irp.cdb| == 10
         && w.bus.answered[k].request == MakeRequest(w.dispatched[k].serialNo, w.dispatched[k].irp)
  }

  predicate WorldInv(w: World) {
    WellFormed(w) && NoIdleWork(w.bus) && AnswersMatch(w)
  }

  // ---- what the observer sees of one changed disk ----

  lemma {:induction false} NothingNew(ps: seq<Pdo>, qs: seq<Pdo>)
    requires |ps| == |qs| && forall i :: 0 <= i < |ps| ==> !BecameCurrent(ps[i], qs[i])
    ensures NewlyCurrent(ps, qs) == []
  {
    if ps != [] {
      NothingNew(ps[1..], qs[1..]);
    }
  }

  lemma {:induction false} OneNew(ps: seq<Pdo>, i: nat, q: Pdo)
    requires i < |ps| && BecameCurrent(ps[i], q)
    ensures NewlyCurrent(ps, ps[i := q]) == [Dispatched(q.serialNo, q.current.value)]
  {
    if i == 0 {
      NothingNew(ps[1..], ps[i := q][1..]);
    } else {
      assert ps[i := q][1..] == ps[1..][i - 1 := q];
      OneNew(ps[1..], i - 1, q);
    }
  }

  lemma OneObserved(ts: seq<Track>, ps: seq<Pdo>, i: nat, q: Pdo)
    requires |ts| == |ps| && i < |ps|
    ensures ObserveAll(ts, ps, ps[i := q]) == ts[i := Observe(ts[i], ps[i], q)]
  {
    assert forall j :: 0 <= j < |ts| ==> Observe(ts[j], ps[j], ps[j]) == ts[j];
  }

  /** An unchanged bus leaves the records as they are. */
  lemma NoneObserved(ts: seq<Track>, ps: seq<Pdo>)
    requires |ts| == |ps|
    ensures ObserveAll(ts, ps, ps) == ts && NewlyCurrent(ps, ps) == []
  {
    NothingNew(ps, ps);
    assert forall j :: 0 <= j < |ts| ==> Observe(ts[j], ps[j], ps[j]) == ts[j];
  }

  /** A section on disk `i` that keeps the disk's order and lock count, and answers what it starts. */
  lemma TakeKeeps(w: World, i: nat, effect: Effect)
    requires |w.tracks| == |w.bus.pdos| && AllSound(w.bus.pdos) && i < |w.bus.pdos| && Sound(effect.pdo)
    requires forall j :: 0 <= j < |w.bus.pdos| && j != i ==> InOrder(w.tracks[j], w.bus.pdos[j]) && Locked(w.bus.pdos[j])
    requires InOrder(Observe(w.tracks[i], w.bus.pdos[i], effect.pdo), effect.pdo) && Locked(effect.pdo)
    requires AnswersMatch(w)
    requires effect.answer.Some? <==> BecameCurrent(w.bus.pdos[i], effect.pdo)
    requires effect.answer.Some? ==> Fits(effect.pdo.current.value)
                                     && effect.answer.value.request == MakeRequest(effect.pdo.serialNo, effect.pdo.current.value)
    ensures WellFormed(Advance(w, Take(w.bus, i, effect))) && AnswersMatch(Advance(w, Take(w.bus, i, effect)))
  {
    OneObserved(w.tracks, w.bus.pdos, i, effect.pdo);
    if effect.answer.Some? {
      OneNew(w.bus.pdos, i, effect.pdo);
    } else {
      NothingNew(w.bus.pdos, w.bus.pdos[i := effect.pdo]);
    }
  }

  /** The first of the waiting packets joins the started ones. */
  lemma HeadStarts(t: Track, queue: seq<Irp>, head: Irp)
    requires t.live == t.started + queue && queue != [] && head == queue[0] && t.started == t.finished + []
    ensures t.live == (t.started + [head]) + Rest(queue) && t.started + [head] == t.finished + [head]
  {
    assert queue == [head] + Rest(queue);
  }

  lemma StartNextKeepsOrder(t: Track, pdo: Pdo, parked: seq<Fetcher>)
    requires Sound(pdo) && InOrder(t, pdo) && Locked(pdo)
    ensures var q := StartNext(pdo, parked).pdo;
            Sound(q) && InOrder(Observe(t, pdo, q), q) && Locked(q)
            && (StartNext(pdo, parked).answer.Some? <==> BecameCurrent(pdo, q))
  {
    if pdo.current.None? && parked != [] && pdo.irpQueue != [] {
      HeadStarts(t, pdo.irpQueue, pdo.irpQueue[0]);
    }
  }

  /** Direct dispatch keeps the order only because nothing is queued. */
  lemma StartPacketKeepsOrder(t: Track, pdo: Pdo, parked: seq<Fetcher>, irp: Irp)
    requires Sound(pdo) && Fits(irp) && InOrder(t, pdo) && Locked(pdo)
    requires parked != [] ==> !WaitsForFetcher(pdo)
    ensures var q := StartPacket(pdo, parked, irp).pdo; var seen := t.(live := t.live + [irp]);
            Sound(q) && InOrder(Observe(seen, pdo, q), q) && Locked(q)
            && (StartPacket(pdo, parked, irp).answer.Some? <==> BecameCurrent(pdo, q))
  {
    if pdo.current.None? && parked != [] {
      assert pdo.irpQueue == [] && t.live == t.started && t.started == t.finished;
    } else {
      assert t.live + [irp] == t.started + Insert(pdo.irpQueue, irp);
    }
  }

  lemma StartCallKeeps(w: World, i: nat, irp: Irp)
    requires WorldInv(w) && Allowed(w, StartCall(i, irp))
    ensures WorldInv(Step(w, StartCall(i, irp)))
  {
    StartPacketKeepsOrder(w.tracks[i], w.bus.pdos[i], w.bus.parked, irp);
    TakeKeeps(Arrived(w, i, irp), i, StartPacket(w.bus.pdos[i], w.bus.parked, irp));
  }

  lemma GetCallKeeps(w: World, f: Fetcher)
    requires WorldInv(w)
    ensures WorldInv(Step(w, GetCall(f)))
  {
    GetRequestIsExact(w.bus, f);
    if FirstWaiting(w.bus.pdos, 0).Some? {
      ServedKeeps(w, FirstWaiting(w.bus.pdos, 0).value, f);
    } else {
      NoneObserved(w.tracks, w.bus.pdos);
      assert w.dispatched + [] == w.dispatched;
    }
  }

  lemma ServedKeeps(w: World, i: nat, f: Fetcher)
    requires WorldInv(w) && i < |w.bus.pdos| && WaitsForFetcher(w.bus.pdos[i]) && w.bus.parked == []
    ensures WorldInv(Advance(w, ServeHead(w.bus, i, f)))
  {
    var effect := StartNext(w.bus.pdos[i], [f]);
    StartNextKeepsOrder(w.tracks[i], w.bus.pdos[i], [f]);
    TakeKeeps(w, i, effect);
    assert Rest([f]) == [];
    assert ServeHead(w.bus, i, f) == Take(w.bus, i, effect);
  }

  /** The section of a reply: the current packet is the next one to finish. */
  lemma FinishKeepsOrder(t: Track, pdo: Pdo)
    requires Sound(pdo) && InOrder(t, pdo) && Locked(pdo)
    ensures var q := Released(pdo); Sound(q) && InOrder(Observe(t, pdo, q), q) && Locked(q) && !BecameCurrent(pdo, q)
  {
    if pdo.current.Some? {
      assert t.finished + [pdo.current.value] == t.started == t.started + [];
    }
  }

  lemma FinishKeeps(w: World, i: nat, reply: Reply)
    requires WorldInv(w) && i < |w.bus.pdos| && ReplyFits(w.bus.pdos[i], reply)
    ensures var u := Advance(w, Finish(w.bus, i, reply));
            WellFormed(u) && AnswersMatch(u)
            && (u.bus.parked != [] ==> forall j :: 0 <= j < |u.bus.pdos| && j != i ==> !WaitsForFetcher(u.bus.pdos[j]))
  {
    FinishKeepsOrder(w.tracks[i], w.bus.pdos[i]);
    OneObserved(w.tracks, w.bus.pdos, i, Released(w.bus.pdos[i]));
    var finished := Finish(w.bus, i, reply);
    NothingNew(w.bus.pdos, finished.pdos);
    assert Advance(w, finished).dispatched == w.dispatched;
    assert Advance(w, finished).tracks == w.tracks[i := Observe(w.tracks[i], w.bus.pdos[i], Released(w.bus.pdos[i]))];
  }

  /** The owed BusStartNextPacket restores what the section left open on disk `i`. */
  lemma StartAfterFinish(u: World, i: nat)
    requires WellFormed(u) && AnswersMatch(u) && i < |u.bus.pdos|
    requires u.bus.parked != [] ==> forall j :: 0 <= j < |u.bus.pdos| && j != i ==> !WaitsForFetcher(u.bus.pdos[j])
    ensures WorldInv(Advance(u, StartNextOn(u.bus, i)))
  {
    StartNextKeepsOrder(u.tracks[i], u.bus.pdos[i], u.bus.parked);
    TakeKeeps(u, i, StartNext(u.bus.pdos[i], u.bus.parked));
  }

  /** A reply to an idle disk changes nothing. */
  lemma StrayReply(w: World, i: nat, reply: Reply)
    requires WorldInv(w) && i < |w.bus.pdos| && w.bus.pdos[i].current.None?
    ensures Finish(w.bus, i, reply) == w.bus && Advance(w, w.bus) == w
  {
    assert w.bus.completed + [] == w.bus.completed;
    NoneObserved(w.tracks, w.bus.pdos);
    assert w.dispatched + [] == w.dispatched;
  }

  lemma ReplyCallKeeps(w: World, reply: Reply)
    requires WorldInv(w) && ReplyInBounds(w.bus, reply)
    ensures WorldInv(Replied(w, reply))
  {
    var found := FindPdo(w.bus.pdos, reply.handle, 0);
    if found.Some? {
      var i := found.value;
      var finished := Finish(w.bus, i, reply);
      if w.bus.pdos[i].current.None? {
        StrayReply(w, i, reply);
      } else {
        FinishKeeps(w, i, reply);
        StartAfterFinish(Advance(w, finished), i);
        assert SendReply(w.bus, reply).0 == StartNextOn(finished, i);
      }
    }
  }

  lemma WithoutBehind<T>(p: seq<T>, q: seq<T>, k: nat)
    requires k < |q|
    ensures Without(p + q, |p| + k) == p + Without(q, k)
  {
  }

  lemma CancelCallKeeps(w: World, i: nat, k: nat)
    requires WorldInv(w) && Allowed(w, CancelCall(i, k))
    ensures WorldInv(CancelAt(w, i, k))
  {
    WithoutBehind(w.tracks[i].started, w.bus.pdos[i].irpQueue, k);
  }

  lemma StepKeeps(w: World, c: Call)
    requires WorldInv(w) && Allowed(w, c)
    ensures WorldInv(Step(w, c))
  {
    match c
    case StartCall(i, irp) => StartCallKeeps(w, i, irp);
    case GetCall(f) => GetCallKeeps(w, f);
    case ReplyCall(reply) => ReplyCallKeeps(w, reply);
    case CancelCall(i, k) => CancelCallKeeps(w, i, k);
    case DestroyCall(i) =>
    case CleanupCall(_) =>
    case AddCall(_) =>
  }

  // ---- whole runs ----

  predicate Legal(cs: seq<Call>)
    decreases |cs|, 0
  {
    cs == [] ||
    (var before := cs[..|cs| - 1];
     Legal(before) && WorldOk(After(before)) && Allowed(After(before), cs[|cs| - 1]))
  }

  /** What a call needs to be meaningful; it holds in every world a run reaches. */
  predicate WorldOk(w: World) {
    |w.tracks| == |w.bus.pdos| && AllSound(w.bus.pdos)
  }

  function After(cs: seq<Call>): World
    requires Legal(cs)
    decreases |cs|, 1
  {
    if cs == [] then Nothing() else Step(After(cs[..|cs| - 1]), cs[|cs| - 1])
  }

  lemma {:induction false} RunKeeps(cs: seq<Call>)
    requires Legal(cs)
    ensures WorldInv(After(cs))
  {
    if cs != [] {
      RunKeeps(cs[..|cs| - 1]);
      StepKeeps(After(cs[..|cs| - 1]), cs[|cs| - 1]);
    }
  }

  /** Started packets are the front of the arrivals and finished ones the front of the started, at most one is in
      flight, the queue is what has not started, and a fetcher is parked beside an idle disk only if it has no queue. */
  predicate FirstInFirstOut(t: Track, pdo: Pdo, parked: seq<Fetcher>) {
    && t.started <= t.live && t.finished <= t.started && |t.started| - |t.finished| <= 1
    && t.live[|t.started|..] == pdo.irpQueue
    && (parked != [] && pdo.current.None? ==> pdo.irpQueue == [])
    && pdo.lockCount == |t.started| - |t.finished|
  }

  /** Per-disk FIFO in every run of whole routines: packets become current in arrival order and are completed by
      replies in that order, at most one in flight; a packet dispatched on arrival overtakes nothing; and the
      SCSI path's remove-lock count is one exactly while a packet is current. */
  lemma Fifo(cs: seq<Call>)
    requires Legal(cs)
    ensures var w := After(cs);
            |w.tracks| == |w.bus.pdos|
            && forall i :: 0 <= i < |w.tracks| ==> FirstInFirstOut(w.tracks[i], w.bus.pdos[i], w.bus.parked)
  {
    RunKeeps(cs);
    var w := After(cs);
    forall i | 0 <= i < |w.tracks| ensures FirstInFirstOut(w.tracks[i], w.bus.pdos[i], w.bus.parked) {
      assert InOrder(w.tracks[i], w.bus.pdos[i]);
    }
  }

  // ---- completions ----

  /** What each routine completes: a cancelled packet of a queue and the packets of a removed disk as cancelled with
      nothing transferred, the current packet of a replying disk as its reply says, and nothing otherwise. */
  lemma StepCompletes(w: World, c: Call)
    requires WorldInv(w) && Allowed(w, c)
    ensures var before := w.bus.completed; var after := Step(w, c).bus.completed;
            && |before| <= |after| && after[..|before|] == before
            && match c
               case CancelCall(i, k) => CancelEach(after[|before|..], [w.bus.pdos[i].irpQueue[k]])
               case DestroyCall(i) => CancelEach(after[|before|..], PacketsOf(w.bus.pdos[i]))
               case ReplyCall(reply) =>
                 var i := FindPdo(w.bus.pdos, reply.handle, 0);
                 if i.None? then after == before else CompletesCurrent(w.bus, Step(w, c).bus, i.value, reply)
               case _ => after == before
  {
    match c
    case DestroyCall(i) => RemovalCancelsEach(w.bus.pdos[i]);
    case GetCall(f) => GetRequestIsExact(w.bus, f);
    case ReplyCall(reply) =>
      var found := FindPdo(w.bus.pdos, reply.handle, 0);
      if found.Some? {
        var i := ReplyIsExact(w.bus, reply);
        assert i == found.value;
      }
    case _ =>
  }

  // ---- conservation of GET_REQUEST packets ----

  lemma AnsweredOne(answers: seq<Answer>, a: Answer, f: Fetcher)
    ensures Answered(answers + [a], f) == Answered(answers, f) + if a.fetcher == f then 1 else 0
  {
    assert (answers + [a])[..|answers|] == answers;
  }

  /** A section either keeps the parked fetchers, up to order, or answers the first of them. */
  lemma SectionConserves(bus: Bus, i: nat, effect: Effect, f: Fetcher)
    requires i < |bus.pdos|
    requires effect.answer.None? ==> multiset(effect.parked) == multiset(bus.parked)
    requires effect.answer.Some? ==> bus.parked != [] && effect.parked == Rest(bus.parked) && effect.answer.value.fetcher == bus.parked[0]
    ensures Held(Take(bus, i, effect), f) == Held(bus, f)
  {
    if effect.answer.Some? {
      AnsweredOne(bus.answered, effect.answer.value, f);
      assert bus.parked == [bus.parked[0]] + Rest(bus.parked);
    } else {
      assert Take(bus, i, effect).answered == bus.answered;
    }
  }

  lemma StartNextOnConserves(bus: Bus, i: nat, f: Fetcher)
    requires i < |bus.pdos| && Sound(bus.pdos[i])
    ensures Held(StartNextOn(bus, i), f) == Held(bus, f)
  {
    if bus.parked != [] {
      PutBackKeepsFetchers(bus.parked);
    }
    SectionConserves(bus, i, StartNext(bus.pdos[i], bus.parked), f);
  }

  lemma {:induction false} ScanConserves(bus: Bus, k: nat, f: Fetcher)
    requires k <= |bus.pdos| && AllSound(bus.pdos)
    ensures Held(Scan(bus, k), f) == Held(bus, f)
    decreases |bus.pdos| - k
  {
    if k < |bus.pdos| {
      StartNextOnIsSound(bus, k);
      StartNextOnConserves(bus, k, f);
      ScanConserves(StartNextOn(bus, k), k + 1, f);
    }
  }

  lemma StepConserves(w: World, c: Call, f: Fetcher)
    requires WorldInv(w) && Allowed(w, c) && FetcherConserved(w, f)
    ensures FetcherConserved(Step(w, c), f)
  {
    match c
    case StartCall(i, irp) => SectionConserves(w.bus, i, StartPacket(w.bus.pdos[i], w.bus.parked, irp), f);
    case GetCall(g) => ScanConserves(w.bus.(parked := Insert(w.bus.parked, g)), 0, f);
    case ReplyCall(reply) =>
      var found := FindPdo(w.bus.pdos, reply.handle, 0);
      if found.Some? && w.bus.pdos[found.value].current.Some? {
        StartNextOnConserves(Finish(w.bus, found.value, reply), found.value, f);
      }
    case CleanupCall(file) => CleanupPartitions(w.bus.parked, file, f);
    case CancelCall(_, _) =>
    case DestroyCall(_) =>
    case AddCall(_) =>
  }

  /** In every run each GET_REQUEST packet is parked, answered or cancelled by a cleanup as often as it was issued,
      and the k-th answer is the handle, code, address and count of the k-th packet that became current. */
  lemma {:induction false} RequestsConserved(cs: seq<Call>, f: Fetcher)
    requires Legal(cs)
    ensures FetcherConserved(After(cs), f) && AnswersMatch(After(cs))
  {
    RunKeeps(cs);
    if cs != [] {
      RequestsConserved(cs[..|cs| - 1], f);
      RunKeeps(cs[..|cs| - 1]);
      StepConserves(After(cs[..|cs| - 1]), cs[|cs| - 1], f);
    }
  }
}
