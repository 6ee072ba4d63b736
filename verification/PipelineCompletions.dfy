/** Where completions come from: each is appended by the one step that takes its packet out of a disk. The section of a reply
    completes with the reply's verdict; everything else that completes a packet cancels it with nothing transferred. */
module PipelineCompletions {
  import opened Base
  import opened Packets
  import opened Pipeline

  /** The packet that the step takes out of a disk. */
  function TakenOut(s: Sys, e: Event): Option<Irp>
    requires Guard(s, e)
  {
    match e
    case CancelQueued(i, k) => Some(s.disks[i].pdo.irpQueue[k])
    case Clear(i) => s.disks[i].pdo.current
    case Drain(i) => Some(s.disks[i].pdo.irpQueue[0])
    case Section(i) => s.disks[s.disks[i].worker.target].pdo.current
    case _ => None
  }

  /** `c` completes `irp` as step `e` should: a reply with its own status, anything else as cancelled. */
  predicate CompletesAs(c: Completion, irp: Irp, e: Event) {
    c.id == irp.id && if e.Section? then !c.status.Cancelled? else IsCancelled(c, irp)
  }

  /** A step that takes no packet out completes nothing; one that does completes that packet only. */
  lemma StepCompletes(s: Sys, e: Event)
    requires Guard(s, e) && Defined(s, e)
    ensures var t := Next(s, e);
            match TakenOut(s, e)
            case None => t.completed == s.completed
            case Some(irp) =>
              |t.completed| == |s.completed| + 1 && t.completed[..|s.completed|] == s.completed
              && CompletesAs(t.completed[|s.completed|], irp, e)
  {
    if e.Clear? && s.disks[e.i].pdo.current.None? {
      assert s.completed + [] == s.completed;
    }
  }

  /** What the cancelling steps leave: the packet is gone and the others keep their order. */
  lemma CancelsLeaveOthers(s: Sys, e: Event)
    requires Guard(s, e) && (e.CancelQueued? || e.Clear? || e.Drain?)
    ensures var d := s.disks[e.i]; var t := Next(s, e);
            && |t.disks| == |s.disks| && (forall j :: 0 <= j < |s.disks| && j != e.i ==> t.disks[j] == s.disks[j])
            && (e.CancelQueued? ==> t.disks[e.i].pdo.irpQueue == d.pdo.irpQueue[..e.k] + d.pdo.irpQueue[e.k + 1..]
                                    && t.disks[e.i].pdo.current == d.pdo.current)
            && (e.Drain? ==> t.disks[e.i].pdo.irpQueue == d.pdo.irpQueue[1..] && t.disks[e.i].pdo.current == d.pdo.current)
            && (e.Clear? ==> t.disks[e.i].pdo.irpQueue == d.pdo.irpQueue && t.disks[e.i].pdo.current.None?)
  {
  }

  /** Step `m` of the run took the packet of `c` out of its disk, and appended `c` as the completion number `n`. */
  predicate AppendedAt(es: seq<Event>, m: nat, n: nat, c: Completion) {
    && m < |es| && Legal(es[..m]) && Guard(Final(es[..m]), es[m])
    && |Final(es[..m]).completed| == n
    && TakenOut(Final(es[..m]), es[m]).Some? && CompletesAs(c, TakenOut(Final(es[..m]), es[m]).value, es[m])
  }

  lemma PrefixAppends(es: seq<Event>, k: nat, m: nat, n: nat, c: Completion)
    requires k <= |es| && AppendedAt(es[..k], m, n, c)
    ensures AppendedAt(es, m, n, c)
  {
    assert es[..k][..m] == es[..m];
  }

  /** Every completion of a run has its step. */
  lemma {:induction false} CompletionHasStep(es: seq<Event>, n: nat) returns (m: nat)
    requires Legal(es) && n < |Final(es).completed|
    ensures AppendedAt(es, m, n, Final(es).completed[n])
    decreases |es|
  {
    var k := |es| - 1;
    var s := Final(es[..k]);
    StepCompletes(s, es[k]);
    if n < |s.completed| {
      m := CompletionHasStep(es[..k], n);
      assert Final(es).completed[n] == s.completed[n];
      PrefixAppends(es, k, m, n, s.completed[n]);
    } else {
      m := k;
    }
  }

  /** A packet is completed otherwise than as cancelled exactly by the section of a reply, and if cancelled then with
      nothing transferred. */
  lemma OnlyRepliesSucceed(es: seq<Event>, n: nat) returns (m: nat)
    requires Legal(es) && n < |Final(es).completed|
    ensures AppendedAt(es, m, n, Final(es).completed[n])
    ensures es[m].Section? <==> !Final(es).completed[n].status.Cancelled?
    ensures Final(es).completed[n].status.Cancelled? ==> Final(es).completed[n].information == 0
  {
    m := CompletionHasStep(es, n);
  }
}
