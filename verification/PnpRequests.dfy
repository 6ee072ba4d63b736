/** Sequences of plug-and-play requests to a listed disk: which state they leave it in, against the requests that are in
    force, that is, neither ignored nor cancelled. */
module PnpRequests {
  import opened Extensions
  import opened Pnp

  /** What happens to a listed disk: a request, or a bus-relations report. */
  datatype Input = Ask(minor: Minor) | ReportMade

  /** The flags of a disk after `xs`. */
  function After(xs: seq<Input>): Flags {
    if xs == [] then FRESH
    else
      var f := After(xs[..|xs| - 1]);
      match xs[|xs| - 1]
      case Ask(minor) => OnPnp(f, minor)
      case ReportMade => Reported(f)
  }

  // ---- what the inputs mean ----

  predicate Ejected(xs: seq<Input>) {
    Ask(Eject) in xs
  }

  /** A report was made when the disk had been ejected. */
  predicate Omitted(xs: seq<Input>) {
    exists k :: 0 <= k < |xs| && xs[k] == ReportMade && Ejected(xs[..k])
  }

  predicate IsPending(state: PnpState) {
    state == StopPending || state == RemovePending
  }

  predicate IsQuery(x: Input) {
    x == Ask(QueryStop) || x == Ask(QueryRemove)
  }

  predicate IsCancel(x: Input) {
    x == Ask(CancelStop) || x == Ask(CancelRemove)
  }

  /** The state that input `x` asks for, when it asks for one, and the query that it cancels, when it cancels one. */
  datatype Meaning = Enter(state: PnpState) | Undo(query: PnpState) | NoChange

  function MeaningOf(x: Input, ejected: bool, omitted: bool): Meaning {
    match x
    case ReportMade => NoChange
    case Ask(StartDevice) => Enter(Started)
    case Ask(StopDevice) => Enter(Stopped)
    case Ask(QueryStop) => Enter(StopPending)
    case Ask(QueryRemove) => Enter(RemovePending)
    case Ask(SurpriseRemoval) => Enter(SurpriseRemovePending)
    case Ask(RemoveDevice) => if omitted then Enter(Deleted) else if ejected then NoChange else Enter(NotStarted)
    case Ask(CancelStop) => Undo(StopPending)
    case Ask(CancelRemove) => Undo(RemovePending)
    case Ask(Eject) => NoChange
    case Ask(OtherMinor) => NoChange
  }

  function Amended(r: seq<PnpState>, m: Meaning): (a: seq<PnpState>)
    requires r != []
    ensures a != []
  {
    match m
    case Enter(state) => r + [state]
    case Undo(query) => if r[|r| - 1] == query && |r| > 1 then r[..|r| - 1] else r
    case NoChange => r
  }

  /** The states entered by the requests in force, oldest first. A cancel takes back the last one if it is its query. */
  ghost function InForce(xs: seq<Input>): (r: seq<PnpState>)
    ensures r != []
  {
    if xs == [] then [NotStarted]
    else
      var before := xs[..|xs| - 1];
      var r := InForce(before);
      Amended(r, MeaningOf(xs[|xs| - 1], Ejected(before), Omitted(before)))
  }

  /** The state that the last request in force asks for. */
  ghost function Wanted(xs: seq<Input>): PnpState {
    InForce(xs)[|InForce(xs)| - 1]
  }

  /** A query came while another one was in force. */
  ghost predicate Nests(xs: seq<Input>)
    decreases |xs|
  {
    xs != [] && (Nests(xs[..|xs| - 1]) || (IsQuery(xs[|xs| - 1]) && IsPending(Wanted(xs[..|xs| - 1]))))
  }

  // ---- Present and ReportedMissing ----

  lemma OmittedStep(xs: seq<Input>, x: Input)
    ensures Omitted(xs + [x]) <==> Omitted(xs) || (x == ReportMade && Ejected(xs))
    ensures Ejected(xs + [x]) <==> Ejected(xs) || x == Ask(Eject)
  {
    var ys := xs + [x];
    assert ys[..|xs|] == xs;
    if Omitted(xs) {
      var k :| 0 <= k < |xs| && xs[k] == ReportMade && Ejected(xs[..k]);
      assert ys[k] == ReportMade && ys[..k] == xs[..k];
    }
    if x == ReportMade && Ejected(xs) {
      assert ys[|xs|] == ReportMade;
    }
    if Omitted(ys) {
      var k :| 0 <= k < |ys| && ys[k] == ReportMade && Ejected(ys[..k]);
      assert k < |xs| ==> xs[k] == ReportMade && xs[..k] == ys[..k];
    }
  }

  predicate PresenceAgrees(f: Flags, ejected: bool, omitted: bool) {
    f.present == !ejected && f.reportedMissing == omitted
  }

  lemma OnePresence(f: Flags, x: Input, ejected: bool, omitted: bool)
    requires PresenceAgrees(f, ejected, omitted)
    ensures PresenceAgrees(if x.Ask? then OnPnp(f, x.minor) else Reported(f), ejected || x == Ask(Eject), omitted || (x == ReportMade && ejected))
  {
  }

  /** A disk is present until it is ejected, and reported missing from the first report after that on. */
  lemma {:induction false} PresenceFollows(xs: seq<Input>)
    ensures PresenceAgrees(After(xs), Ejected(xs), Omitted(xs))
  {
    if xs != [] {
      var before, x := xs[..|xs| - 1], xs[|xs| - 1];
      PresenceFollows(before);
      OnePresence(After(before), x, Ejected(before), Omitted(before));
      OmittedStep(before, x);
      assert before + [x] == xs;
    }
  }

  // ---- the state ----

  /** Below every pending state there is one that is not pending. */
  predicate Settles(r: seq<PnpState>) {
    forall k :: 0 <= k < |r| && IsPending(r[k]) ==> k > 0 && !IsPending(r[k - 1])
  }

  /** The flags agree with the requests in force: the state is the last one's, and while it is a query's the state
      before it is remembered. */
  predicate Agrees(f: Flags, r: seq<PnpState>) {
    && r != [] && f.state == r[|r| - 1]
    && (IsPending(f.state) ==> |r| > 1 && f.previous == r[|r| - 2])
  }

  lemma OneRequest(f: Flags, r: seq<PnpState>, x: Input, ejected: bool, omitted: bool)
    requires Agrees(f, r) && Settles(r) && f.present == !ejected && f.reportedMissing == omitted
    requires !(IsQuery(x) && IsPending(f.state))
    ensures var m := MeaningOf(x, ejected, omitted);
            Settles(Amended(r, m)) && Agrees(if x.Ask? then OnPnp(f, x.minor) else Reported(f), Amended(r, m))
  {
  }

  /** Without nested queries the disk is in the state that the last request in force asks for. */
  lemma {:induction false} StateFollows(xs: seq<Input>)
    requires !Nests(xs)
    ensures Settles(InForce(xs)) && Agrees(After(xs), InForce(xs))
  {
    if xs != [] {
      var before, x := xs[..|xs| - 1], xs[|xs| - 1];
      StateFollows(before);
      PresenceFollows(before);
      OneRequest(After(before), InForce(before), x, Ejected(before), Omitted(before));
    }
  }

  /** A cancel without its query changes nothing, whatever came before. */
  lemma CancelWithoutQuery(f: Flags)
    ensures f.state != StopPending ==> OnPnp(f, CancelStop) == f
    ensures f.state != RemovePending ==> OnPnp(f, CancelRemove) == f
  {
  }

  lemma {:induction false} CancelsDoNotNest(xs: seq<Input>, cs: seq<Input>)
    requires !Nests(xs) && forall k :: 0 <= k < |cs| ==> IsCancel(cs[k])
    ensures !Nests(xs + cs)
  {
    if cs == [] {
      assert xs + cs == xs;
    } else {
      var n := |cs| - 1;
      assert (xs + cs)[..|xs + cs| - 1] == xs + cs[..n] && (xs + cs)[|xs + cs| - 1] == cs[n];
      CancelsDoNotNest(xs, cs[..n]);
    }
  }

  /** The request that cancels the query waiting in this state, and the query itself. */
  function CancelFor(state: PnpState): Minor {
    if state == StopPending then CancelStop else CancelRemove
  }

  function QueryFor(state: PnpState): Minor {
    if state == StopPending then QueryStop else QueryRemove
  }

  /** Query `q` and then cancels, after `xs`, lead the disk into a state that the last request in force does not ask for. */
  ghost predicate GoesWrong(xs: seq<Input>, q: Input, cs: seq<Input>) {
    (forall k :: 0 <= k < |cs| ==> IsCancel(cs[k])) && After(xs + [q] + cs).state != Wanted(xs + [q] + cs)
  }

  lemma Appended(xs: seq<Input>, x: Input)
    ensures After(xs + [x]) == if x.Ask? then OnPnp(After(xs), x.minor) else Reported(After(xs))
    ensures InForce(xs + [x]) == Amended(InForce(xs), MeaningOf(x, Ejected(xs), Omitted(xs)))
    ensures Nests(xs + [x]) <==> Nests(xs) || (IsQuery(x) && IsPending(Wanted(xs)))
  {
    assert (xs + [x])[..|xs|] == xs;
  }

  /** Two nested queries on the flags, cancelled in the opposite order: the second cancel finds the state of the first
      query remembered, and stays in it. */
  lemma NestedFlags(f: Flags, first: PnpState, second: PnpState)
    requires IsPending(first) && IsPending(second) && f.state == first
    ensures OnPnp(OnPnp(OnPnp(f, QueryFor(second)), CancelFor(second)), CancelFor(first)).state == first
  {
  }

  lemma NestedAmendments(r: seq<PnpState>, first: PnpState, second: PnpState)
    requires r != [] && Settles(r) && r[|r| - 1] == first && IsPending(first) && IsPending(second)
    ensures Amended(Amended(Amended(r, Enter(second)), Undo(second)), Undo(first)) == r[..|r| - 1]
    ensures |r| > 1 && r[|r| - 2] != first
  {
    assert (r + [second])[..|r|] == r;
  }

  lemma CancelsMean(state: PnpState, ejected: bool, omitted: bool)
    requires IsPending(state)
    ensures MeaningOf(Ask(CancelFor(state)), ejected, omitted) == Undo(state)
    ensures MeaningOf(Ask(QueryFor(state)), ejected, omitted) == Enter(state)
  {
  }

  /** The inputs of a nested query and its cancels, one after another. */
  function Nested(xs: seq<Input>, first: PnpState, second: PnpState): seq<Input> {
    xs + [Ask(QueryFor(second))] + [Ask(CancelFor(second))] + [Ask(CancelFor(first))]
  }

  lemma NestedState(xs: seq<Input>, first: PnpState, second: PnpState)
    requires IsPending(first) && IsPending(second) && After(xs).state == first
    ensures After(Nested(xs, first, second)).state == first
  {
    var asked := xs + [Ask(QueryFor(second))];
    Appended(xs, Ask(QueryFor(second)));
    Appended(asked, Ask(CancelFor(second)));
    Appended(asked + [Ask(CancelFor(second))], Ask(CancelFor(first)));
    NestedFlags(After(xs), first, second);
  }

  lemma NestedWanted(xs: seq<Input>, first: PnpState, second: PnpState)
    requires IsPending(first) && IsPending(second) && Wanted(xs) == first && Settles(InForce(xs))
    ensures Wanted(Nested(xs, first, second)) != first
  {
    var asked := xs + [Ask(QueryFor(second))];
    var once := asked + [Ask(CancelFor(second))];
    Appended(xs, Ask(QueryFor(second)));
    Appended(asked, Ask(CancelFor(second)));
    Appended(once, Ask(CancelFor(first)));
    CancelsMean(first, Ejected(once), Omitted(once));
    CancelsMean(second, Ejected(asked), Omitted(asked));
    CancelsMean(second, Ejected(xs), Omitted(xs));
    NestedAmendments(InForce(xs), first, second);
  }

  lemma NestedGoesWrong(xs: seq<Input>, second: PnpState)
    requires !Nests(xs) && IsPending(second) && IsPending(Wanted(xs))
    ensures GoesWrong(xs, Ask(QueryFor(second)), [Ask(CancelFor(second)), Ask(CancelFor(Wanted(xs)))])
  {
    var first := Wanted(xs);
    var cs := [Ask(CancelFor(second)), Ask(CancelFor(first))];
    StateFollows(xs);
    NestedState(xs, first, second);
    NestedWanted(xs, first, second);
    assert xs + [Ask(QueryFor(second))] + cs == Nested(xs, first, second);
  }

  /** When cancelled queries leave no trace: after requests without nested queries, a query and any cancels keep the disk
      in the state that the last request in force asks for if and only if no query is in force when the query comes. */
  lemma NestingIsExact(xs: seq<Input>, q: Input)
    requires !Nests(xs) && IsQuery(q)
    ensures (exists cs :: GoesWrong(xs, q, cs)) <==> IsPending(Wanted(xs))
  {
    if IsPending(Wanted(xs)) {
      NestedGoesWrong(xs, if q == Ask(QueryStop) then StopPending else RemovePending);
    } else {
      Appended(xs, q);
      forall cs | forall k :: 0 <= k < |cs| ==> IsCancel(cs[k]) ensures !GoesWrong(xs, q, cs) {
        CancelsDoNotNest(xs + [q], cs);
        StateFollows(xs + [q] + cs);
      }
    }
  }

  /** For example: a started disk is asked to stop and, before that is settled, to be removed. Both queries are
      cancelled, and the disk stays in StopPending. */
  lemma NestedQueriesStick()
    ensures After([Ask(StartDevice), Ask(QueryStop), Ask(QueryRemove), Ask(CancelRemove), Ask(CancelStop)]).state == StopPending
  {
    var a := [Ask(StartDevice)];
    var b := a + [Ask(QueryStop)];
    var c := b + [Ask(QueryRemove)];
    var d := c + [Ask(CancelRemove)];
    assert a[..0] == [] && b[..1] == a && c[..2] == b && d[..3] == c;
    assert After(a).state == Started && After(b).state == StopPending && After(c).state == RemovePending;
    assert After(d) == OnPnp(After(c), CancelRemove);
    var e := d + [Ask(CancelStop)];
    assert e[..4] == d;
    assert e == [Ask(StartDevice), Ask(QueryStop), Ask(QueryRemove), Ask(CancelRemove), Ask(CancelStop)];
  }
}
