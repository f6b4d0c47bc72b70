/** What each reap phase does, as functions of the cluster's answers: the
    entries it appends to the reapable list, the events and metric samples it
    emits, and where it stops on an error. */
module Phases {
  import opened PdbTypes
  import opened Predicates
  import opened ScanSpec

  /** The reapable list and the trace of effects. */
  datatype Acc = Acc(reapable: seq<Pdb>, trace: seq<Effect>)

  /** Where a phase ended: the accumulated state, and the error that stopped it, if any. */
  datatype Progress = Progress(acc: Acc, failure: Option<ReapError>)

  /** a followed by the additions d. */
  function Then(a: Acc, d: Acc): Acc
  {
    Acc(a.reapable + d.reapable, a.trace + d.trace)
  }

  /** Additions made one after another are the concatenated additions. */
  lemma ThenAssoc(a: Acc, x: Acc, y: Acc)
    ensures Then(Then(a, x), y) == Then(a, Then(x, y))
  {
    assert a.reapable + x.reapable + y.reapable == a.reapable + (x.reapable + y.reapable);
    assert a.trace + x.trace + y.trace == a.trace + (x.trace + y.trace);
  }

  /** The outcome of one step: its additions, or the error that stops the phase. */
  function Apply(a: Acc, step: Result<Acc, ReapError>): Progress
  {
    match step
    case Failure(e) => Progress(a, Some(e))
    case Success(d) => Progress(Then(a, d), None)
  }

  // ---------------------------------------------------------------------
  // Counting effects in a trace

  /** Events announcing that a PDB was marked reapable. */
  function MarkEvents(t: seq<Effect>): nat
  {
    if t == [] then 0
    else MarkEvents(t[..|t| - 1]) + (if t[|t| - 1].Event? && t[|t| - 1].reason != PodDisruptionBudgetDeleted then 1 else 0)
  }

  /** Events announcing that a PDB was deleted. */
  function DeleteEvents(t: seq<Effect>): nat
  {
    if t == [] then 0
    else DeleteEvents(t[..|t| - 1]) + (if t[|t| - 1] == Event(t[|t| - 1].pdb, PodDisruptionBudgetDeleted) then 1 else 0)
  }

  /** Samples setting the "deleted" metric of a PDB to 1. */
  function Confirmations(t: seq<Effect>): nat
  {
    if t == [] then 0
    else
      Confirmations(t[..|t| - 1])
      + (if t[|t| - 1] == Metric(t[|t| - 1].pdb, PodDisruptionBudgetDeleted, 1) then 1 else 0)
  }

  /** The metric samples for one PDB and one reason. */
  function SamplesFor(t: seq<Effect>, p: Pdb, r: Reason): nat
  {
    if t == [] then 0
    else
      SamplesFor(t[..|t| - 1], p, r)
      + (if t[|t| - 1].Metric? && t[|t| - 1].pdb == p && t[|t| - 1].reason == r then 1 else 0)
  }

  lemma {:induction false} CountsAppend(x: seq<Effect>, y: seq<Effect>)
    ensures MarkEvents(x + y) == MarkEvents(x) + MarkEvents(y)
    ensures DeleteEvents(x + y) == DeleteEvents(x) + DeleteEvents(y)
    ensures Confirmations(x + y) == Confirmations(x) + Confirmations(y)
  {
    if y == [] {
      assert x + y == x;
    } else {
      CountsAppend(x, y[..|y| - 1]);
      var xy := x + y;
      assert xy[..|xy| - 1] == x + y[..|y| - 1];
      assert xy[|xy| - 1] == y[|y| - 1];
    }
  }

  lemma {:induction false} SamplesAppend(x: seq<Effect>, y: seq<Effect>, p: Pdb, r: Reason)
    ensures SamplesFor(x + y, p, r) == SamplesFor(x, p, r) + SamplesFor(y, p, r)
  {
    if y == [] {
      assert x + y == x;
    } else {
      SamplesAppend(x, y[..|y| - 1], p, r);
      var xy := x + y;
      assert xy[..|xy| - 1] == x + y[..|y| - 1];
      assert xy[|xy| - 1] == y[|y| - 1];
    }
  }

  // ---------------------------------------------------------------------
  // Shared pieces

  /** The pods a PDB's selector matches in a namespace. */
  function PodsOf(c: Cluster, ns: string, p: Pdb): Result<seq<Pod>, ReapError>
  {
    match c.selectorOf(p)
    case None => Failure(SelectorUnresolvable)
    case Some(selector) =>
      match c.listPods(ns, selector)
      case None => Failure(PodListFailed)
      case Some(pods) => Success(pods)
  }

  /** The pods of several PDBs of one namespace, concatenated; the first
      failing lookup decides the error. */
  function CollectPods(c: Cluster, ns: string, pdbs: seq<Pdb>): Result<seq<Pod>, ReapError>
  {
    if pdbs == [] then Success([])
    else
      match CollectPods(c, ns, pdbs[..|pdbs| - 1])
      case Failure(e) => Failure(e)
      case Success(pods) =>
        match PodsOf(c, ns, pdbs[|pdbs| - 1])
        case Failure(e) => Failure(e)
        case Success(more) => Success(pods + more)
  }

  /** Once a lookup has failed, the PDBs after it change nothing. */
  lemma {:induction false} CollectPodsStops(c: Cluster, ns: string, pdbs: seq<Pdb>, k: nat)
    requires k <= |pdbs| && CollectPods(c, ns, pdbs[..k]).Failure?
    ensures CollectPods(c, ns, pdbs) == CollectPods(c, ns, pdbs[..k])
  {
    if k < |pdbs| {
      assert pdbs[..|pdbs| - 1][..k] == pdbs[..k];
      CollectPodsStops(c, ns, pdbs[..|pdbs| - 1], k);
    } else {
      assert pdbs[..k] == pdbs;
    }
  }

  /** The additions of one check of PDB p for reason r: when it fires, p is
      marked reapable, an event is published and the metric is set to 1;
      otherwise the metric is set to 0. */
  function CheckDelta(p: Pdb, r: Reason, fired: bool): Acc
  {
    if fired then Acc([p], [Event(p, r), Metric(p, r, 1)]) else Acc([], [Metric(p, r, 0)])
  }

  function Flagged(pdbs: seq<Pdb>, r: Reason): seq<Effect>
  {
    if pdbs == [] then []
    else Flagged(pdbs[..|pdbs| - 1], r) + [Event(pdbs[|pdbs| - 1], r), Metric(pdbs[|pdbs| - 1], r, 1)]
  }

  function Unflagged(pdbs: seq<Pdb>, r: Reason): seq<Effect>
  {
    if pdbs == [] then []
    else Unflagged(pdbs[..|pdbs| - 1], r) + [Metric(pdbs[|pdbs| - 1], r, 0)]
  }

  lemma {:induction false} FlaggedCounts(pdbs: seq<Pdb>, r: Reason)
    requires r != PodDisruptionBudgetDeleted
    ensures MarkEvents(Flagged(pdbs, r)) == |pdbs|
    ensures DeleteEvents(Flagged(pdbs, r)) == 0 && Confirmations(Flagged(pdbs, r)) == 0
    ensures MarkEvents(Unflagged(pdbs, r)) == 0
    ensures DeleteEvents(Unflagged(pdbs, r)) == 0 && Confirmations(Unflagged(pdbs, r)) == 0
  {
    if pdbs != [] {
      var init := pdbs[..|pdbs| - 1];
      var p := pdbs[|pdbs| - 1];
      FlaggedCounts(init, r);
      CountsAppend(Flagged(init, r), [Event(p, r), Metric(p, r, 1)]);
      CountsAppend(Unflagged(init, r), [Metric(p, r, 0)]);
      assert [Event(p, r), Metric(p, r, 1)][..1] == [Event(p, r)];
    }
  }

  /** The scan's baseline samples announce nothing and confirm nothing. */
  lemma {:induction false} BaselineCounts(pdbs: seq<Pdb>, excluded: seq<string>)
    ensures var t := BaselineSamples(pdbs, excluded);
      MarkEvents(t) == 0 && DeleteEvents(t) == 0 && Confirmations(t) == 0
  {
    if pdbs != [] {
      var p := pdbs[|pdbs| - 1];
      BaselineCounts(pdbs[..|pdbs| - 1], excluded);
      SingleCounts(Metric(p, PodDisruptionBudgetDeleted, 0));
      CountsAppend(BaselineSamples(pdbs[..|pdbs| - 1], excluded),
                   if p.namespace !in excluded && IsBlocking(p) then [Metric(p, PodDisruptionBudgetDeleted, 0)] else []);
    }
  }

  // ---------------------------------------------------------------------
  // Phase 1: namespaces with several PDBs

  /** Whether the PDBs of a namespace are flagged: their pods could be listed
      and some pod is matched twice. */
  ghost predicate NamespaceFlagged(c: Cluster, ns: string, pdbs: seq<Pdb>)
  {
    CollectPods(c, ns, pdbs).Success? && HasDuplicateName(CollectPods(c, ns, pdbs).value)
  }

  /** The additions of one namespace of the multiple-budget phase. */
  ghost function MultipleDelta(c: Cluster, ns: string, pdbs: seq<Pdb>): Result<Acc, ReapError>
  {
    match CollectPods(c, ns, pdbs)
    case Failure(e) => Failure(e)
    case Success(pods) =>
      if HasDuplicateName(pods) then Success(Acc(pdbs, Flagged(pdbs, MultipleDetected)))
      else Success(Acc([], Unflagged(pdbs, MultipleDetected)))
  }

  /** The multiple-budget phase visiting the namespaces of m in the given order. */
  ghost function MultipleRun(c: Cluster, m: map<string, seq<Pdb>>, a0: Acc, order: seq<string>): Progress
  {
    if order == [] then Progress(a0, None)
    else
      var pr := MultipleRun(c, m, a0, order[..|order| - 1]);
      var ns := order[|order| - 1];
      if pr.failure.Some? then pr
      else
        Apply(pr.acc, MultipleDelta(c, ns, Lookup(m, ns)))
  }

  /** Visiting one more namespace after a run that has not failed. */
  lemma MultipleRunStep(c: Cluster, m: map<string, seq<Pdb>>, a0: Acc, order: seq<string>, ns: string)
    requires MultipleRun(c, m, a0, order).failure.None?
    ensures var acc := MultipleRun(c, m, a0, order).acc;
      MultipleRun(c, m, a0, order + [ns]) ==
        Apply(acc, MultipleDelta(c, ns, Lookup(m, ns)))
  {
    assert (order + [ns])[..|order|] == order;
  }

  /** Each namespace's additions keep the books: one announcing event per
      reapable entry, and nothing about deletions. */
  lemma MultipleDeltaCounts(c: Cluster, ns: string, pdbs: seq<Pdb>)
    requires MultipleDelta(c, ns, pdbs).Success?
    ensures var d := MultipleDelta(c, ns, pdbs).value;
      MarkEvents(d.trace) == |d.reapable| && DeleteEvents(d.trace) == 0 && Confirmations(d.trace) == 0
  {
    FlaggedCounts(pdbs, MultipleDetected);
  }

  /** Once the phase has stopped on an error, visiting more namespaces changes nothing. */
  lemma {:induction false} MultipleRunStops(c: Cluster, m: map<string, seq<Pdb>>, a0: Acc, order: seq<string>, more: seq<string>)
    requires MultipleRun(c, m, a0, order).failure.Some?
    ensures MultipleRun(c, m, a0, order + more) == MultipleRun(c, m, a0, order)
  {
    if more == [] {
      assert order + more == order;
    } else {
      MultipleRunStops(c, m, a0, order, more[..|more| - 1]);
      var all := order + more;
      assert all[..|all| - 1] == order + more[..|more| - 1];
      assert all != [];
    }
  }

  /** The phase adds as many announcing events as reapable entries, and no
      deletion event or confirmation, whether it completes or stops. */
  lemma {:induction false} MultipleRunCounts(c: Cluster, m: map<string, seq<Pdb>>, a0: Acc, order: seq<string>)
    ensures var a := MultipleRun(c, m, a0, order).acc;
      |a.reapable| - MarkEvents(a.trace) == |a0.reapable| - MarkEvents(a0.trace)
      && DeleteEvents(a.trace) == DeleteEvents(a0.trace)
      && Confirmations(a.trace) == Confirmations(a0.trace)
  {
    if order != [] {
      var init := order[..|order| - 1];
      var ns := order[|order| - 1];
      MultipleRunCounts(c, m, a0, init);
      var pr := MultipleRun(c, m, a0, init);
      if pr.failure.None? && MultipleDelta(c, ns, Lookup(m, ns)).Success? {
        var d := MultipleDelta(c, ns, Lookup(m, ns)).value;
        MultipleDeltaCounts(c, ns, Lookup(m, ns));
        CountsAppend(pr.acc.trace, d.trace);
      }
    }
  }

  /** PDB x belongs to namespace ns of m, whose PDBs are flagged. */
  ghost predicate FlaggedMember(c: Cluster, m: map<string, seq<Pdb>>, ns: string, x: Pdb)
  {
    NamespaceFlagged(c, ns, Lookup(m, ns)) && x in Lookup(m, ns)
  }

  /** When the phase completes, a PDB is in the reapable list exactly when it
      was before or it belongs to a visited namespace whose PDBs were flagged. */
  lemma {:induction false} MultipleRunMembership(c: Cluster, m: map<string, seq<Pdb>>, a0: Acc, order: seq<string>, x: Pdb)
    requires MultipleRun(c, m, a0, order).failure.None?
    ensures x in MultipleRun(c, m, a0, order).acc.reapable <==>
      x in a0.reapable || exists ns :: ns in order && FlaggedMember(c, m, ns, x)
  {
    if order != [] {
      var init := order[..|order| - 1];
      var last := order[|order| - 1];
      var pr := MultipleRun(c, m, a0, init);
      assert pr.failure.None?;
      MultipleRunMembership(c, m, a0, init, x);
      var d := MultipleDelta(c, last, Lookup(m, last)).value;
      assert MultipleRun(c, m, a0, order).acc == Then(pr.acc, d);
      assert x in d.reapable <==> FlaggedMember(c, m, last, x);
      assert order == init + [last];
      assert forall ns :: ns in order <==> ns in init || ns == last;
    }
  }

  // ---------------------------------------------------------------------
  // Phase 2: blocking PDBs

  /** The additions for one blocking PDB: its pods are resolved, then checked. */
  function BlockingDelta(cfg: Config, c: Cluster, now: int, ns: string, p: Pdb): Result<Acc, ReapError>
  {
    match PodsOf(c, ns, p)
    case Failure(e) => Failure(e)
    case Success(pods) => PodChecks(cfg, now, p, pods)
  }

  /** The checks of a blocking PDB over its pods: the misconfiguration check
      (only when enabled; no sample otherwise), whose error stops the
      evaluation, then the crash-loop and not-ready checks (a 0 sample when
      disabled). */
  function PodChecks(cfg: Config, now: int, p: Pdb, pods: seq<Pod>): Result<Acc, ReapError>
  {
    var misconfigured := if cfg.reapMisconfigured then IsMisconfigured(p, |pods|) else Success(false);
    if misconfigured.Failure? then Failure(misconfigured.error)
    else
      Success(BlockingAdditions(cfg.reapMisconfigured, p, misconfigured.value,
                                CrashLoopFires(cfg, pods), NotReadyFires(cfg, now, pods)))
  }

  /** The crash-loop check is enabled and its verdict is positive. */
  predicate CrashLoopFires(cfg: Config, pods: seq<Pod>)
  {
    cfg.reapCrashLoop && Verdict(CrashingCount(pods, cfg.crashLoopRestartCount), |pods|, cfg.allCrashLoop)
  }

  /** The not-ready check is enabled and its verdict is positive. */
  predicate NotReadyFires(cfg: Config, now: int, pods: seq<Pod>)
  {
    cfg.reapNotReady && Verdict(NotReadyCount(pods, now, cfg.reapNotReadyThreshold), |pods|, cfg.allNotReady)
  }

  /** The additions of the three checks of a blocking PDB, given their verdicts. */
  function BlockingAdditions(checkMisconfigured: bool, p: Pdb, misconfigured: bool, crashLoop: bool, notReady: bool): Acc
  {
    var first := if checkMisconfigured then CheckDelta(p, BlockingDetected, misconfigured) else Acc([], []);
    Then(Then(first, CheckDelta(p, BlockingCrashLoopDetected, crashLoop)),
         CheckDelta(p, BlockingNotReadyStateDetected, notReady))
  }

  /** The namespace-PDB pairs of m, namespace by namespace in the given order. */
  function Items(m: map<string, seq<Pdb>>, order: seq<string>): seq<(string, Pdb)>
  {
    if order == [] then []
    else Items(m, order[..|order| - 1]) + Tagged(order[|order| - 1], Lookup(m, order[|order| - 1]))
  }

  lemma ItemsStep(m: map<string, seq<Pdb>>, order: seq<string>, ns: string)
    ensures Items(m, order + [ns]) == Items(m, order) + Tagged(ns, Lookup(m, ns))
  {
    assert (order + [ns])[..|order|] == order;
  }

  function Tagged(ns: string, pdbs: seq<Pdb>): (r: seq<(string, Pdb)>)
    ensures |r| == |pdbs|
    ensures forall i :: 0 <= i < |pdbs| ==> r[i] == (ns, pdbs[i])
  {
    seq(|pdbs|, i requires 0 <= i < |pdbs| => (ns, pdbs[i]))
  }

  /** The blocking phase over the given PDBs, in order. */
  function BlockingRun(cfg: Config, c: Cluster, now: int, a0: Acc, items: seq<(string, Pdb)>): Progress
  {
    if items == [] then Progress(a0, None)
    else
      var pr := BlockingRun(cfg, c, now, a0, items[..|items| - 1]);
      var item := items[|items| - 1];
      if pr.failure.Some? then pr
      else
        Apply(pr.acc, BlockingDelta(cfg, c, now, item.0, item.1))
  }

  /** For one evaluated PDB: every entry added is that PDB, one per check
      that fired; each fired check is announced by one event; and no
      deletion is announced or confirmed. */
  lemma BlockingAdditionsCounts(checkMisconfigured: bool, p: Pdb, misconfigured: bool, crashLoop: bool, notReady: bool)
    ensures var d := BlockingAdditions(checkMisconfigured, p, misconfigured, crashLoop, notReady);
      (forall x :: x in d.reapable ==> x == p)
      && |d.reapable| == (if checkMisconfigured && misconfigured then 1 else 0)
                         + (if crashLoop then 1 else 0) + (if notReady then 1 else 0)
      && MarkEvents(d.trace) == |d.reapable|
      && DeleteEvents(d.trace) == 0 && Confirmations(d.trace) == 0
  {
    var first := if checkMisconfigured then CheckDelta(p, BlockingDetected, misconfigured) else Acc([], []);
    var second := CheckDelta(p, BlockingCrashLoopDetected, crashLoop);
    var third := CheckDelta(p, BlockingNotReadyStateDetected, notReady);
    if checkMisconfigured {
      CheckDeltaCounts(p, BlockingDetected, misconfigured);
    }
    CheckDeltaCounts(p, BlockingCrashLoopDetected, crashLoop);
    CheckDeltaCounts(p, BlockingNotReadyStateDetected, notReady);
    ThenCounts(first, second);
    ThenCounts(Then(first, second), third);
  }

  /** For one evaluated PDB: the crash-loop and not-ready metrics get exactly
      one sample each, the misconfiguration metric one sample when that check
      is enabled and none otherwise. */
  lemma BlockingAdditionsSamples(checkMisconfigured: bool, p: Pdb, misconfigured: bool, crashLoop: bool, notReady: bool)
    ensures var d := BlockingAdditions(checkMisconfigured, p, misconfigured, crashLoop, notReady);
      SamplesFor(d.trace, p, BlockingCrashLoopDetected) == 1
      && SamplesFor(d.trace, p, BlockingNotReadyStateDetected) == 1
      && SamplesFor(d.trace, p, BlockingDetected) == (if checkMisconfigured then 1 else 0)
  {
    var first := if checkMisconfigured then CheckDelta(p, BlockingDetected, misconfigured) else Acc([], []);
    var second := CheckDelta(p, BlockingCrashLoopDetected, crashLoop);
    var third := CheckDelta(p, BlockingNotReadyStateDetected, notReady);
    if checkMisconfigured {
      CheckDeltaSamples(p, BlockingDetected, misconfigured);
    }
    CheckDeltaSamples(p, BlockingCrashLoopDetected, crashLoop);
    CheckDeltaSamples(p, BlockingNotReadyStateDetected, notReady);
    forall r | true
      ensures SamplesFor(Then(Then(first, second), third).trace, p, r)
        == SamplesFor(first.trace, p, r) + SamplesFor(second.trace, p, r) + SamplesFor(third.trace, p, r)
    {
      SamplesAppend(first.trace, second.trace, p, r);
      SamplesAppend(first.trace + second.trace, third.trace, p, r);
    }
  }

  /** The same, for the additions of a blocking PDB whose evaluation succeeded. */
  lemma BlockingDeltaSignals(cfg: Config, c: Cluster, now: int, ns: string, p: Pdb)
    requires BlockingDelta(cfg, c, now, ns, p).Success?
    ensures var d := BlockingDelta(cfg, c, now, ns, p).value;
      (forall x :: x in d.reapable ==> x == p)
      && |d.reapable| <= 3
      && MarkEvents(d.trace) == |d.reapable|
      && DeleteEvents(d.trace) == 0 && Confirmations(d.trace) == 0
      && SamplesFor(d.trace, p, BlockingCrashLoopDetected) == 1
      && SamplesFor(d.trace, p, BlockingNotReadyStateDetected) == 1
      && SamplesFor(d.trace, p, BlockingDetected) == (if cfg.reapMisconfigured then 1 else 0)
  {
    var pods := PodsOf(c, ns, p).value;
    var misconfigured := if cfg.reapMisconfigured then IsMisconfigured(p, |pods|) else Success(false);
    BlockingAdditionsCounts(cfg.reapMisconfigured, p, misconfigured.value, CrashLoopFires(cfg, pods), NotReadyFires(cfg, now, pods));
    BlockingAdditionsSamples(cfg.reapMisconfigured, p, misconfigured.value, CrashLoopFires(cfg, pods), NotReadyFires(cfg, now, pods));
  }

  /** The counts of a sequence of additions are the sums of the counts. */
  lemma ThenCounts(d1: Acc, d2: Acc)
    ensures var d := Then(d1, d2);
      |d.reapable| == |d1.reapable| + |d2.reapable|
      && MarkEvents(d.trace) == MarkEvents(d1.trace) + MarkEvents(d2.trace)
      && DeleteEvents(d.trace) == DeleteEvents(d1.trace) + DeleteEvents(d2.trace)
      && Confirmations(d.trace) == Confirmations(d1.trace) + Confirmations(d2.trace)
  {
    CountsAppend(d1.trace, d2.trace);
  }

  lemma CheckDeltaCounts(p: Pdb, r: Reason, fired: bool)
    requires r != PodDisruptionBudgetDeleted
    ensures var d := CheckDelta(p, r, fired);
      MarkEvents(d.trace) == |d.reapable| && DeleteEvents(d.trace) == 0 && Confirmations(d.trace) == 0
      && (forall x :: x in d.reapable ==> x == p) && |d.reapable| <= 1
  {
    if fired {
      SingleCounts(Event(p, r));
      SingleCounts(Metric(p, r, 1));
      CountsAppend([Event(p, r)], [Metric(p, r, 1)]);
      assert [Event(p, r)] + [Metric(p, r, 1)] == CheckDelta(p, r, fired).trace;
    } else {
      SingleCounts(Metric(p, r, 0));
    }
  }

  /** A check publishes exactly one sample, for its own reason. */
  lemma CheckDeltaSamples(p: Pdb, r: Reason, fired: bool)
    ensures forall r' :: SamplesFor(CheckDelta(p, r, fired).trace, p, r') == (if r' == r then 1 else 0)
  {
    var d := CheckDelta(p, r, fired);
    forall r' | true
      ensures SamplesFor(d.trace, p, r') == (if r' == r then 1 else 0)
    {
      if fired {
        SingleSamples(Event(p, r), p, r');
        SingleSamples(Metric(p, r, 1), p, r');
        SamplesAppend([Event(p, r)], [Metric(p, r, 1)], p, r');
        assert [Event(p, r)] + [Metric(p, r, 1)] == d.trace;
      } else {
        SingleSamples(Metric(p, r, 0), p, r');
      }
    }
  }

  /** The counts of a one-effect trace. */
  lemma SingleCounts(e: Effect)
    ensures MarkEvents([e]) == (if e.Event? && e.reason != PodDisruptionBudgetDeleted then 1 else 0)
    ensures DeleteEvents([e]) == (if e == Event(e.pdb, PodDisruptionBudgetDeleted) then 1 else 0)
    ensures Confirmations([e]) == (if e == Metric(e.pdb, PodDisruptionBudgetDeleted, 1) then 1 else 0)
  {
    assert [e][..0] == [];
  }

  lemma SingleSamples(e: Effect, p: Pdb, r: Reason)
    ensures SamplesFor([e], p, r) == (if e.Metric? && e.pdb == p && e.reason == r then 1 else 0)
  {
    assert [e][..0] == [];
  }

  /** A PDB flagged by all three checks is appended three times. */
  lemma TripleFlag(cfg: Config, c: Cluster, now: int, ns: string, p: Pdb)
    requires PodsOf(c, ns, p).Success?
    requires var pods := PodsOf(c, ns, p).value;
      && cfg.reapMisconfigured && IsMisconfigured(p, |pods|) == Success(true)
      && CrashLoopFires(cfg, pods) && NotReadyFires(cfg, now, pods)
    ensures BlockingDelta(cfg, c, now, ns, p).Success?
    ensures BlockingDelta(cfg, c, now, ns, p).value.reapable == [p, p, p]
  {
  }

  /** Evaluating one more PDB after a run that has not failed. */
  lemma BlockingRunStep(cfg: Config, c: Cluster, now: int, a0: Acc, items: seq<(string, Pdb)>, item: (string, Pdb))
    requires BlockingRun(cfg, c, now, a0, items).failure.None?
    ensures var acc := BlockingRun(cfg, c, now, a0, items).acc;
      BlockingRun(cfg, c, now, a0, items + [item]) ==
        Apply(acc, BlockingDelta(cfg, c, now, item.0, item.1))
  {
    assert (items + [item])[..|items|] == items;
  }

  /** After a prefix that completes, the phase goes on from where the prefix left off. */
  lemma {:induction false} BlockingRunAppend(cfg: Config, c: Cluster, now: int, a0: Acc, items: seq<(string, Pdb)>, more: seq<(string, Pdb)>)
    requires BlockingRun(cfg, c, now, a0, items).failure.None?
    ensures BlockingRun(cfg, c, now, a0, items + more)
      == BlockingRun(cfg, c, now, BlockingRun(cfg, c, now, a0, items).acc, more)
  {
    if more == [] {
      assert items + more == items;
    } else {
      BlockingRunAppend(cfg, c, now, a0, items, more[..|more| - 1]);
      var all := items + more;
      assert all[..|all| - 1] == items + more[..|more| - 1];
    }
  }

  /** Visiting one more namespace: the run over its PDBs, started where the
      namespaces before it left off. */
  lemma BlockingNamespaceStep(cfg: Config, c: Cluster, now: int, a0: Acc, m: map<string, seq<Pdb>>,
                              order: seq<string>, ns: string, a1: Acc)
    requires BlockingRun(cfg, c, now, a0, Items(m, order)) == Progress(a1, None)
    ensures BlockingRun(cfg, c, now, a0, Items(m, order + [ns]))
      == BlockingRun(cfg, c, now, a1, Tagged(ns, Lookup(m, ns)))
  {
    ItemsStep(m, order, ns);
    BlockingRunAppend(cfg, c, now, a0, Items(m, order), Tagged(ns, Lookup(m, ns)));
  }

  lemma {:induction false} BlockingRunStops(cfg: Config, c: Cluster, now: int, a0: Acc, items: seq<(string, Pdb)>, more: seq<(string, Pdb)>)
    requires BlockingRun(cfg, c, now, a0, items).failure.Some?
    ensures BlockingRun(cfg, c, now, a0, items + more) == BlockingRun(cfg, c, now, a0, items)
  {
    if more == [] {
      assert items + more == items;
    } else {
      BlockingRunStops(cfg, c, now, a0, items, more[..|more| - 1]);
      var all := items + more;
      assert all[..|all| - 1] == items + more[..|more| - 1];
      assert all != [];
    }
  }

  /** The blocking phase adds as many announcing events as reapable entries,
      and no deletion event or confirmation, whether it completes or stops. */
  lemma {:induction false} BlockingRunCounts(cfg: Config, c: Cluster, now: int, a0: Acc, items: seq<(string, Pdb)>)
    ensures var a := BlockingRun(cfg, c, now, a0, items).acc;
      |a.reapable| - MarkEvents(a.trace) == |a0.reapable| - MarkEvents(a0.trace)
      && DeleteEvents(a.trace) == DeleteEvents(a0.trace)
      && Confirmations(a.trace) == Confirmations(a0.trace)
  {
    if items != [] {
      var init := items[..|items| - 1];
      var item := items[|items| - 1];
      assert items == init + [item];
      BlockingRunCounts(cfg, c, now, a0, init);
      var pr := BlockingRun(cfg, c, now, a0, init);
      if pr.failure.None? {
        BlockingRunStep(cfg, c, now, a0, init, item);
        match BlockingDelta(cfg, c, now, item.0, item.1)
        case Failure(_) =>
        case Success(d) =>
          BlockingDeltaSignals(cfg, c, now, item.0, item.1);
          CountsAppend(pr.acc.trace, d.trace);
      }
    }
  }

  // ---------------------------------------------------------------------
  // Phase 3: deleting the reapable PDBs

  datatype DeleteProgress = DeleteProgress(trace: seq<Effect>, reaped: nat, failed: bool)

  /** The first n delete requests over the reapable list (outside dry-run):
      an accepted delete publishes the "deleted" event and sets the metric to
      1; a PDB already gone is skipped; any other error stops the phase. */
  function DeleteRun(c: Cluster, pdbs: seq<Pdb>, n: nat): DeleteProgress
    requires n <= |pdbs|
  {
    if n == 0 then DeleteProgress([], 0, false)
    else
      var pr := DeleteRun(c, pdbs, n - 1);
      var p := pdbs[n - 1];
      if pr.failed then pr
      else
        match c.deleteOutcome(n - 1, p)
        case DeleteOk =>
          DeleteProgress(pr.trace + [Event(p, PodDisruptionBudgetDeleted), Metric(p, PodDisruptionBudgetDeleted, 1)],
                         pr.reaped + 1, false)
        case DeleteNotFound => pr
        case DeleteError => DeleteProgress(pr.trace, pr.reaped, true)
  }

  /** The index of the first failing delete among the first n, or n. */
  function FirstError(c: Cluster, pdbs: seq<Pdb>, n: nat): (r: nat)
    requires n <= |pdbs|
    ensures r <= n
  {
    if n == 0 then 0
    else
      var f := FirstError(c, pdbs, n - 1);
      if f < n - 1 then f
      else if c.deleteOutcome(n - 1, pdbs[n - 1]) == DeleteError then n - 1
      else n
  }

  /** The number of accepted deletes among the first n. */
  function AcceptedDeletes(c: Cluster, pdbs: seq<Pdb>, n: nat): nat
    requires n <= |pdbs|
  {
    if n == 0 then 0
    else AcceptedDeletes(c, pdbs, n - 1) + (if c.deleteOutcome(n - 1, pdbs[n - 1]) == DeleteOk then 1 else 0)
  }

  /** The deletion phase fails exactly when some delete fails; it counts the
      accepted deletes before the first failure, skipping PDBs already gone;
      and each counted delete is announced by one event and confirmed by one
      metric sample at 1. */
  lemma {:induction false} DeleteRunSpec(c: Cluster, pdbs: seq<Pdb>, n: nat)
    requires n <= |pdbs|
    ensures var pr := DeleteRun(c, pdbs, n);
      var f := FirstError(c, pdbs, n);
      (pr.failed <==> f < n)
      && (f < n ==> c.deleteOutcome(f, pdbs[f]) == DeleteError)
      && (forall i :: 0 <= i < f ==> c.deleteOutcome(i, pdbs[i]) != DeleteError)
      && pr.reaped == AcceptedDeletes(c, pdbs, f)
      && DeleteEvents(pr.trace) == pr.reaped && Confirmations(pr.trace) == pr.reaped
      && MarkEvents(pr.trace) == 0
  {
    if n > 0 {
      DeleteRunSpec(c, pdbs, n - 1);
      var pr := DeleteRun(c, pdbs, n - 1);
      var p := pdbs[n - 1];
      if pr.failed {
        assert DeleteRun(c, pdbs, n) == pr;
        assert FirstError(c, pdbs, n) == FirstError(c, pdbs, n - 1);
      } else {
        assert FirstError(c, pdbs, n - 1) == n - 1;
        match c.deleteOutcome(n - 1, p)
        case DeleteOk =>
          var e := [Event(p, PodDisruptionBudgetDeleted), Metric(p, PodDisruptionBudgetDeleted, 1)];
          assert DeleteRun(c, pdbs, n) == DeleteProgress(pr.trace + e, pr.reaped + 1, false);
          assert FirstError(c, pdbs, n) == n;
          SingleCounts(Event(p, PodDisruptionBudgetDeleted));
          SingleCounts(Metric(p, PodDisruptionBudgetDeleted, 1));
          CountsAppend([Event(p, PodDisruptionBudgetDeleted)], [Metric(p, PodDisruptionBudgetDeleted, 1)]);
          assert [Event(p, PodDisruptionBudgetDeleted)] + [Metric(p, PodDisruptionBudgetDeleted, 1)] == e;
          CountsAppend(pr.trace, e);
        case DeleteNotFound =>
          assert DeleteRun(c, pdbs, n) == pr;
          assert FirstError(c, pdbs, n) == n;
        case DeleteError =>
          assert FirstError(c, pdbs, n) == n - 1;
      }
    }
  }

  /** At most one PDB is counted per delete request. */
  lemma {:induction false} AcceptedDeletesBound(c: Cluster, pdbs: seq<Pdb>, n: nat)
    requires n <= |pdbs|
    ensures AcceptedDeletes(c, pdbs, n) <= n
  {
    if n > 0 {
      AcceptedDeletesBound(c, pdbs, n - 1);
    }
  }

  /** One more delete request after a run that has not failed. */
  lemma DeleteRunStep(c: Cluster, pdbs: seq<Pdb>, i: nat)
    requires i < |pdbs| && !DeleteRun(c, pdbs, i).failed
    ensures var pr := DeleteRun(c, pdbs, i);
      var p := pdbs[i];
      DeleteRun(c, pdbs, i + 1) ==
        match c.deleteOutcome(i, p)
        case DeleteOk =>
          DeleteProgress(pr.trace + [Event(p, PodDisruptionBudgetDeleted), Metric(p, PodDisruptionBudgetDeleted, 1)],
                         pr.reaped + 1, false)
        case DeleteNotFound => pr
        case DeleteError => DeleteProgress(pr.trace, pr.reaped, true)
  {
  }

  /** The whole deletion phase reaps at most one PDB per reapable entry, and
      its trace announces and confirms each one and marks nothing. */
  lemma DeleteRunAccounts(c: Cluster, pdbs: seq<Pdb>)
    ensures var pr := DeleteRun(c, pdbs, |pdbs|);
      pr.reaped <= |pdbs|
      && DeleteEvents(pr.trace) == pr.reaped && Confirmations(pr.trace) == pr.reaped
      && MarkEvents(pr.trace) == 0
  {
    DeleteRunSpec(c, pdbs, |pdbs|);
    AcceptedDeletesBound(c, pdbs, FirstError(c, pdbs, |pdbs|));
  }

  /** The deletion phase fails exactly when one of the requests it makes fails. */
  lemma DeleteRunFails(c: Cluster, pdbs: seq<Pdb>, n: nat)
    requires n <= |pdbs|
    ensures DeleteRun(c, pdbs, n).failed <==> exists i :: 0 <= i < n && c.deleteOutcome(i, pdbs[i]) == DeleteError
  {
    DeleteRunSpec(c, pdbs, n);
  }

  lemma {:induction false} DeleteRunStops(c: Cluster, pdbs: seq<Pdb>, k: nat, n: nat)
    requires k <= n <= |pdbs|
    requires DeleteRun(c, pdbs, k).failed
    ensures DeleteRun(c, pdbs, n) == DeleteRun(c, pdbs, k)
  {
    if n > k {
      DeleteRunStops(c, pdbs, k, n - 1);
    }
  }
}
