/** The reaper's execution context: the scan fills the per-namespace lists,
    the reap phases fill the reapable list and delete it, and every event and
    metric sample is appended to the trace. */
module Reaper {
  import opened PdbTypes
  import opened Predicates
  import opened ScanSpec
  import opened Phases

  /** The values reflect.DeepEqual is given by the reapable-list dedup check:
      one listed PDB, and the variadic argument, which is a slice of PDBs. */
  datatype Value = PdbValue(pdb: Pdb) | PdbSlice(pdbs: seq<Pdb>)

  /** Deep equality; values of different dynamic types are never equal. */
  predicate DeepEqual(a: Value, b: Value)
  {
    a == b
  }

  /** The dedup check never matches: a PDB is never deeply equal to a slice of PDBs. */
  lemma DedupNeverMatches(p: Pdb, xs: seq<Pdb>)
    ensures !DeepEqual(PdbValue(p), PdbSlice(xs))
  {
  }

  predicate NoDuplicates(s: seq<string>)
  {
    forall i, j :: 0 <= i < j < |s| ==> s[i] != s[j]
  }

  /** The first pass of the scan: the non-excluded PDBs grouped by namespace, in listing order. */
  method GroupByNamespace(pdbs: seq<Pdb>, excluded: seq<string>) returns (namespaced: map<string, seq<Pdb>>)
    ensures namespaced == Grouped(pdbs, excluded)
  {
    namespaced := map[];
    for i := 0 to |pdbs|
      invariant namespaced == Grouped(pdbs[..i], excluded)
    {
      assert pdbs[..i + 1][..i] == pdbs[..i];
      var p := pdbs[i];
      if p.namespace in excluded {
        continue;
      }
      namespaced := namespaced[p.namespace := Lookup(namespaced, p.namespace) + [p]];
    }
    assert pdbs[..|pdbs|] == pdbs;
  }

  /** A visit of the keys of a map in some order: the keys visited so far,
      each once, and the keys still to visit. */
  ghost predicate Visiting(keys: set<string>, order: seq<string>, remaining: set<string>)
  {
    remaining <= keys
    && (forall ns :: ns in keys ==> (ns in order <==> ns !in remaining))
    && (forall ns :: ns in order ==> ns in keys)
    && NoDuplicates(order)
  }

  lemma VisitStep(keys: set<string>, order: seq<string>, remaining: set<string>, ns: string)
    requires Visiting(keys, order, remaining) && ns in remaining
    ensures Visiting(keys, order + [ns], remaining - {ns})
  {
  }

  /** The pods of several PDBs of one namespace, concatenated in order; the
      first selector or listing failure stops the collection. */
  method CollectNamespacePods(c: Cluster, ns: string, pdbs: seq<Pdb>) returns (r: Result<seq<Pod>, ReapError>)
    ensures r == CollectPods(c, ns, pdbs)
  {
    var namespacePods: seq<Pod> := [];
    for j := 0 to |pdbs|
      invariant CollectPods(c, ns, pdbs[..j]) == Success(namespacePods)
    {
      assert pdbs[..j + 1][..j] == pdbs[..j];
      var selector := c.selectorOf(pdbs[j]);
      if selector.None? {
        CollectPodsStops(c, ns, pdbs, j + 1);
        return Failure(SelectorUnresolvable);
      }
      var pods := c.listPods(ns, selector.value);
      if pods.None? {
        CollectPodsStops(c, ns, pdbs, j + 1);
        return Failure(PodListFailed);
      }
      namespacePods := namespacePods + pods.value;
    }
    assert pdbs[..|pdbs|] == pdbs;
    return Success(namespacePods);
  }

  class ReaperContext {
    const config: Config
    var namespacesWithMultiple: map<string, seq<Pdb>>
    var clusterBlocking: map<string, seq<Pdb>>
    var reapable: seq<Pdb>
    var reapableCount: int
    var reapedCount: int
    var trace: seq<Effect>

    /** The reapable counter is the length of the reapable list. */
    ghost predicate Valid()
      reads this
    {
      reapableCount == |reapable|
    }

    /** The books the trace keeps: one announcing event per reapable entry,
        one deletion event and one confirming sample per reaped PDB. */
    ghost predicate Accounted()
      reads this
    {
      reapableCount == MarkEvents(trace)
      && reapedCount == DeleteEvents(trace)
      && reapedCount == Confirmations(trace)
    }

    constructor (config: Config)
      ensures this.config == config
      ensures namespacesWithMultiple == map[] && clusterBlocking == map[]
      ensures reapable == [] && reapableCount == 0 && reapedCount == 0 && trace == []
      ensures Valid() && Accounted()
    {
      this.config := config;
      namespacesWithMultiple := map[];
      clusterBlocking := map[];
      reapable := [];
      reapableCount := 0;
      reapedCount := 0;
      trace := [];
    }

    /** Lists the PDBs (None when listing fails), groups the non-excluded
        ones by namespace, records the namespaces with several PDBs and the
        blocking PDBs, and sets the "deleted" metric of each blocking PDB to 0. */
    method Scan(listed: Option<seq<Pdb>>) returns (failure: Option<ReapError>)
      modifies this`namespacesWithMultiple, this`clusterBlocking, this`trace
      ensures listed.None? ==>
        (failure == Some(PdbListFailed)
         && namespacesWithMultiple == old(namespacesWithMultiple)
         && clusterBlocking == old(clusterBlocking) && trace == old(trace))
      ensures listed.Some? ==>
        (failure.None?
         && (var g := Grouped(listed.value, config.excludedNamespaces);
             namespacesWithMultiple == AddMultiple(old(namespacesWithMultiple), g, g.Keys))
         && clusterBlocking == AddBlocking(old(clusterBlocking), listed.value, config.excludedNamespaces)
         && trace == old(trace) + BaselineSamples(listed.value, config.excludedNamespaces))
      ensures old(Accounted()) ==> Accounted()
    {
      if listed.None? {
        return Some(PdbListFailed);
      }
      var pdbs := listed.value;
      var excluded := config.excludedNamespaces;

      var namespaced := GroupByNamespace(pdbs, excluded);

      RecordMultipleNamespaces(namespaced);
      RecordBlocking(pdbs);
      BaselineCounts(pdbs, excluded);
      CountsAppend(old(trace), BaselineSamples(pdbs, excluded));
      return None;
    }

    /** The second pass of the scan: each namespace with more than one PDB
        has its PDBs appended to its multiple-budget entry. */
    method RecordMultipleNamespaces(namespaced: map<string, seq<Pdb>>)
      modifies this`namespacesWithMultiple
      ensures namespacesWithMultiple == AddMultiple(old(namespacesWithMultiple), namespaced, namespaced.Keys)
    {
      ghost var m0 := namespacesWithMultiple;
      var remaining := namespaced.Keys;
      while remaining != {}
        invariant remaining <= namespaced.Keys
        invariant namespacesWithMultiple == AddMultiple(m0, namespaced, namespaced.Keys - remaining)
        decreases remaining
      {
        var ns :| ns in remaining;
        AddMultipleStep(m0, namespaced, namespaced.Keys - remaining, ns);
        assert namespaced.Keys - (remaining - {ns}) == (namespaced.Keys - remaining) + {ns};
        remaining := remaining - {ns};
        var group := namespaced[ns];
        if |group| > 1 {
          namespacesWithMultiple := namespacesWithMultiple[ns := Lookup(namespacesWithMultiple, ns) + group];
        }
      }
      assert namespaced.Keys - {} == namespaced.Keys;
    }

    /** The third pass of the scan: each non-excluded PDB that allows no
        disruption and expects pods is recorded as blocking and its "deleted"
        metric is set to 0. */
    method RecordBlocking(pdbs: seq<Pdb>)
      modifies this`clusterBlocking, this`trace
      ensures clusterBlocking == AddBlocking(old(clusterBlocking), pdbs, config.excludedNamespaces)
      ensures trace == old(trace) + BaselineSamples(pdbs, config.excludedNamespaces)
    {
      var excluded := config.excludedNamespaces;
      for i := 0 to |pdbs|
        invariant clusterBlocking == AddBlocking(old(clusterBlocking), pdbs[..i], excluded)
        invariant trace == old(trace) + BaselineSamples(pdbs[..i], excluded)
      {
        assert pdbs[..i + 1][..i] == pdbs[..i];
        var p := pdbs[i];
        if p.namespace in excluded {
          continue;
        }
        if p.disruptionsAllowed != 0 {
          continue;
        }
        if p.expectedPods == 0 {
          continue;
        }
        clusterBlocking := clusterBlocking[p.namespace := Lookup(clusterBlocking, p.namespace) + [p]];
        trace := trace + [Metric(p, PodDisruptionBudgetDeleted, 0)];
      }
      assert pdbs[..|pdbs|] == pdbs;
    }

    /** Appends the given PDBs to the reapable list and its counter; the
        dedup check in front of it compares a PDB with the whole slice and so
        never skips anything. */
    method AddReapable(xs: seq<Pdb>)
      requires Valid()
      modifies this`reapable, this`reapableCount
      ensures Valid()
      ensures reapable == old(reapable) + xs
    {
      for i := 0 to |reapable|
        invariant Valid() && reapable == old(reapable)
      {
        if DeepEqual(PdbValue(reapable[i]), PdbSlice(xs)) {
          return;
        }
      }
      reapableCount := reapableCount + |xs|;
      reapable := reapable + xs;
    }

    /** Publishes one namespace's verdict: when flagged, every PDB of the
        namespace is appended to the reapable list, announced and its metric
        set to 1; otherwise its metric is set to 0. */
    method RecordMultiple(pdbs: seq<Pdb>, flagged: bool)
      requires Valid()
      modifies this`reapable, this`reapableCount, this`trace
      ensures Valid()
      ensures Acc(reapable, trace) == Then(Acc(old(reapable), old(trace)),
        if flagged then Acc(pdbs, Flagged(pdbs, MultipleDetected))
        else Acc([], Unflagged(pdbs, MultipleDetected)))
      ensures old(Accounted()) ==> Accounted()
    {
      ghost var t0 := trace;
      if flagged {
        AddReapable(pdbs);
        for j := 0 to |pdbs|
          invariant Valid() && reapable == old(reapable) + pdbs
          invariant trace == t0 + Flagged(pdbs[..j], MultipleDetected)
        {
          assert pdbs[..j + 1][..j] == pdbs[..j];
          trace := trace + [Event(pdbs[j], MultipleDetected), Metric(pdbs[j], MultipleDetected, 1)];
        }
        assert pdbs[..|pdbs|] == pdbs;
        FlaggedCounts(pdbs, MultipleDetected);
        CountsAppend(t0, Flagged(pdbs, MultipleDetected));
      } else {
        for j := 0 to |pdbs|
          invariant Valid() && reapable == old(reapable)
          invariant trace == t0 + Unflagged(pdbs[..j], MultipleDetected)
        {
          assert pdbs[..j + 1][..j] == pdbs[..j];
          trace := trace + [Metric(pdbs[j], MultipleDetected, 0)];
        }
        assert pdbs[..|pdbs|] == pdbs;
        FlaggedCounts(pdbs, MultipleDetected);
        CountsAppend(t0, Unflagged(pdbs, MultipleDetected));
      }
    }

    /** Evaluates one namespace with several PDBs: collects the pods of all
        of its PDBs and flags the namespace when some pod is matched twice. */
    method EvaluateNamespace(c: Cluster, ns: string, pdbs: seq<Pdb>) returns (failure: Option<ReapError>)
      requires Valid()
      modifies this`reapable, this`reapableCount, this`trace
      ensures Valid()
      ensures Progress(Acc(reapable, trace), failure) == Apply(Acc(old(reapable), old(trace)), MultipleDelta(c, ns, pdbs))
      ensures old(Accounted()) ==> Accounted()
    {
      var collected := CollectNamespacePods(c, ns, pdbs);
      if collected.Failure? {
        return Some(collected.error);
      }
      var namespacePods := collected.value;
      var dup := IsContainDuplicatePods(namespacePods);
      RecordMultiple(pdbs, dup);
      return None;
    }

    /** The multiple-budget phase (only when enabled): visits the namespaces
        with several PDBs in an unspecified order, reported in order, and stops
        at the first error. */
    method HandleMultiple(c: Cluster) returns (failure: Option<ReapError>, ghost order: seq<string>)
      requires Valid()
      modifies this`reapable, this`reapableCount, this`trace
      ensures Valid()
      ensures !config.reapMultiple ==> failure.None? && order == []
      ensures NoDuplicates(order) && forall ns :: ns in order ==> ns in namespacesWithMultiple
      ensures failure.None? && config.reapMultiple ==>
        forall ns :: ns in namespacesWithMultiple ==> ns in order
      ensures MultipleRun(c, namespacesWithMultiple, Acc(old(reapable), old(trace)), order)
        == Progress(Acc(reapable, trace), failure)
      ensures old(Accounted()) ==> Accounted()
    {
      order := [];
      ghost var a0 := Acc(reapable, trace);
      if !config.reapMultiple {
        return None, order;
      }
      var remaining := namespacesWithMultiple.Keys;
      while remaining != {}
        invariant Valid()
        invariant Visiting(namespacesWithMultiple.Keys, order, remaining)
        invariant MultipleRun(c, namespacesWithMultiple, a0, order) == Progress(Acc(reapable, trace), None)
        invariant old(Accounted()) ==> Accounted()
        decreases remaining
      {
        var ns :| ns in remaining;
        VisitStep(namespacesWithMultiple.Keys, order, remaining, ns);
        remaining := remaining - {ns};
        MultipleRunStep(c, namespacesWithMultiple, a0, order, ns);
        order := order + [ns];
        failure := EvaluateNamespace(c, ns, namespacesWithMultiple[ns]);
        if failure.Some? {
          return;
        }
      }
      return None, order;
    }

    /** Publishes the verdict of one check of a blocking PDB: when it fired,
        the PDB is appended to the reapable list, announced and its metric set
        to 1; otherwise its metric is set to 0. */
    method RecordCheck(p: Pdb, r: Reason, fired: bool)
      requires Valid()
      modifies this`reapable, this`reapableCount, this`trace
      ensures Valid()
      ensures Acc(reapable, trace) == Then(Acc(old(reapable), old(trace)), CheckDelta(p, r, fired))
      ensures r != PodDisruptionBudgetDeleted && old(Accounted()) ==> Accounted()
    {
      if fired {
        AddReapable([p]);
        trace := trace + [Event(p, r)];
        trace := trace + [Metric(p, r, 1)];
      } else {
        trace := trace + [Metric(p, r, 0)];
      }
      if r != PodDisruptionBudgetDeleted {
        CheckDeltaCounts(p, r, fired);
        CountsAppend(old(trace), CheckDelta(p, r, fired).trace);
      }
    }

    /** Evaluates one blocking PDB: resolves its pods, then checks them. */
    method EvaluateBlocking(c: Cluster, now: int, ns: string, p: Pdb) returns (failure: Option<ReapError>)
      requires Valid()
      modifies this`reapable, this`reapableCount, this`trace
      ensures Valid()
      ensures Progress(Acc(reapable, trace), failure) == Apply(Acc(old(reapable), old(trace)), BlockingDelta(config, c, now, ns, p))
      ensures old(Accounted()) ==> Accounted()
    {
      var selector := c.selectorOf(p);
      if selector.None? {
        return Some(SelectorUnresolvable);
      }
      var listed := c.listPods(ns, selector.value);
      if listed.None? {
        return Some(PodListFailed);
      }
      assert PodsOf(c, ns, p) == Success(listed.value);
      failure := CheckBlocking(p, listed.value, now);
    }

    /** Runs the checks of a blocking PDB over its pods: the misconfiguration
        check (when enabled), the crash-loop check and the not-ready check,
        each publishing its verdict. */
    method CheckBlocking(p: Pdb, pods: seq<Pod>, now: int) returns (failure: Option<ReapError>)
      requires Valid()
      modifies this`reapable, this`reapableCount, this`trace
      ensures Valid()
      ensures Progress(Acc(reapable, trace), failure) == Apply(Acc(old(reapable), old(trace)), PodChecks(config, now, p, pods))
      ensures old(Accounted()) ==> Accounted()
    {
      ghost var a0 := Acc(reapable, trace);
      ghost var first := Acc([], []);
      ghost var verdict := false;
      if config.reapMisconfigured {
        var misconfigured := IsMisconfigured(p, |pods|);
        if misconfigured.Failure? {
          return Some(misconfigured.error);
        }
        RecordCheck(p, BlockingDetected, misconfigured.value);
        verdict := misconfigured.value;
        first := CheckDelta(p, BlockingDetected, verdict);
      } else {
        assert Then(a0, first) == a0;
      }
      ghost var a1 := Acc(reapable, trace);

      var crashLoop := false;
      if config.reapCrashLoop {
        crashLoop := IsPodsInCrashloop(pods, config.crashLoopRestartCount, config.allCrashLoop);
        RecordCheck(p, BlockingCrashLoopDetected, crashLoop);
      } else {
        RecordCheck(p, BlockingCrashLoopDetected, false);
      }
      ghost var second := CheckDelta(p, BlockingCrashLoopDetected, crashLoop);
      ghost var a2 := Acc(reapable, trace);

      var notReady := false;
      if config.reapNotReady {
        notReady := IsPodsInNotReadyState(pods, config.reapNotReadyThreshold, config.allNotReady, now);
        RecordCheck(p, BlockingNotReadyStateDetected, notReady);
      } else {
        RecordCheck(p, BlockingNotReadyStateDetected, false);
      }
      ghost var third := CheckDelta(p, BlockingNotReadyStateDetected, notReady);

      ThenAssoc(a0, first, second);
      ThenAssoc(a0, Then(first, second), third);
      return None;
    }

    /** Evaluates the blocking PDBs of one namespace in listing order,
        stopping at the first error. */
    method EvaluateBlockingNamespace(c: Cluster, now: int, ns: string, pdbs: seq<Pdb>) returns (failure: Option<ReapError>)
      requires Valid()
      modifies this`reapable, this`reapableCount, this`trace
      ensures Valid()
      ensures BlockingRun(config, c, now, Acc(old(reapable), old(trace)), Tagged(ns, pdbs))
        == Progress(Acc(reapable, trace), failure)
      ensures old(Accounted()) ==> Accounted()
    {
      ghost var a0 := Acc(reapable, trace);
      ghost var items := Tagged(ns, pdbs);
      for j := 0 to |pdbs|
        invariant Valid()
        invariant BlockingRun(config, c, now, a0, items[..j]) == Progress(Acc(reapable, trace), None)
        invariant old(Accounted()) ==> Accounted()
      {
        BlockingRunStep(config, c, now, a0, items[..j], (ns, pdbs[j]));
        assert items[..j + 1] == items[..j] + [(ns, pdbs[j])];
        failure := EvaluateBlocking(c, now, ns, pdbs[j]);
        if failure.Some? {
          BlockingRunStops(config, c, now, a0, items[..j + 1], items[j + 1..]);
          assert items == items[..j + 1] + items[j + 1..];
          return;
        }
      }
      assert items[..|pdbs|] == items;
      return None;
    }

    /** The blocking phase: visits the namespaces with blocking PDBs in an
        unspecified order, reported in order, evaluates their PDBs in listing
        order, and stops at the first error. */
    method HandleBlocking(c: Cluster, now: int) returns (failure: Option<ReapError>, ghost order: seq<string>)
      requires Valid()
      modifies this`reapable, this`reapableCount, this`trace
      ensures Valid()
      ensures NoDuplicates(order) && forall ns :: ns in order ==> ns in clusterBlocking
      ensures failure.None? ==> forall ns :: ns in clusterBlocking ==> ns in order
      ensures BlockingRun(config, c, now, Acc(old(reapable), old(trace)), Items(clusterBlocking, order))
        == Progress(Acc(reapable, trace), failure)
      ensures old(Accounted()) ==> Accounted()
    {
      order := [];
      ghost var a0 := Acc(reapable, trace);
      var remaining := clusterBlocking.Keys;
      while remaining != {}
        invariant Valid()
        invariant Visiting(clusterBlocking.Keys, order, remaining)
        invariant BlockingRun(config, c, now, a0, Items(clusterBlocking, order)) == Progress(Acc(reapable, trace), None)
        invariant old(Accounted()) ==> Accounted()
        decreases remaining
      {
        var ns :| ns in remaining;
        VisitStep(clusterBlocking.Keys, order, remaining, ns);
        remaining := remaining - {ns};
        var pdbs := clusterBlocking[ns];
        BlockingNamespaceStep(config, c, now, a0, clusterBlocking, order, ns, Acc(reapable, trace));
        order := order + [ns];
        failure := EvaluateBlockingNamespace(c, now, ns, pdbs);
        if failure.Some? {
          return;
        }
      }
      return None, order;
    }

    /** The deletion phase: outside dry-run, requests the deletion of each
        reapable entry in order; an accepted delete is announced, counted and
        its metric set to 1, a PDB already gone is skipped, and any other
        error stops the phase. In dry-run nothing is deleted or published. */
    method HandleReapable(c: Cluster) returns (failure: Option<ReapError>)
      modifies this`reapedCount, this`trace
      ensures config.dryRun ==> failure.None? && reapedCount == old(reapedCount) && trace == old(trace)
      ensures !config.dryRun ==>
        (var pr := DeleteRun(c, reapable, |reapable|);
         trace == old(trace) + pr.trace && reapedCount == old(reapedCount) + pr.reaped
         && (failure.Some? <==> pr.failed)
         && (failure.Some? ==> failure == Some(DeleteFailed)))
      ensures reapedCount <= old(reapedCount) + |reapable|
      ensures old(Accounted()) ==> Accounted()
    {
      for i := 0 to |reapable|
        invariant config.dryRun ==> reapedCount == old(reapedCount) && trace == old(trace)
        invariant !config.dryRun ==>
          (var pr := DeleteRun(c, reapable, i);
           !pr.failed && trace == old(trace) + pr.trace && reapedCount == old(reapedCount) + pr.reaped)
      {
        var p := reapable[i];
        if config.dryRun {
          continue;
        }
        var outcome := c.deleteOutcome(i, p);
        if outcome == DeleteNotFound {
          continue;
        }
        DeleteRunStep(c, reapable, i);
        if outcome == DeleteError {
          DeleteRunStops(c, reapable, i + 1, |reapable|);
          DeleteRunAccounts(c, reapable);
          CountsAppend(old(trace), DeleteRun(c, reapable, |reapable|).trace);
          return Some(DeleteFailed);
        }
        trace := trace + [Event(p, PodDisruptionBudgetDeleted)];
        reapedCount := reapedCount + 1;
        trace := trace + [Metric(p, PodDisruptionBudgetDeleted, 1)];
      }
      if !config.dryRun {
        DeleteRunAccounts(c, reapable);
        CountsAppend(old(trace), DeleteRun(c, reapable, |reapable|).trace);
      }
      return None;
    }

    /** The three reap phases in order; each runs only when the one before it succeeded. */
    method Reap(c: Cluster, now: int) returns (failure: Option<ReapError>)
      requires Valid()
      modifies this`reapable, this`reapableCount, this`reapedCount, this`trace
      ensures Valid()
      ensures reapedCount <= old(reapedCount) + |reapable|
      ensures config.dryRun ==> reapedCount == old(reapedCount)
      ensures old(Accounted()) ==> Accounted()
    {
      ghost var order;
      failure, order := HandleMultiple(c);
      if failure.Some? {
        return;
      }
      failure, order := HandleBlocking(c, now);
      if failure.Some? {
        return;
      }
      failure := HandleReapable(c);
    }

    /** A scan followed, when it succeeded, by the reap phases. */
    method Execute(listed: Option<seq<Pdb>>, c: Cluster, now: int) returns (failure: Option<ReapError>)
      requires Valid()
      modifies this`namespacesWithMultiple, this`clusterBlocking, this`reapable, this`reapableCount
      modifies this`reapedCount, this`trace
      ensures Valid()
      ensures listed.None? ==>
        (failure == Some(PdbListFailed)
         && namespacesWithMultiple == old(namespacesWithMultiple) && clusterBlocking == old(clusterBlocking)
         && reapable == old(reapable) && reapedCount == old(reapedCount) && trace == old(trace))
      ensures listed.Some? ==>
        ((var g := Grouped(listed.value, config.excludedNamespaces);
          namespacesWithMultiple == AddMultiple(old(namespacesWithMultiple), g, g.Keys))
         && clusterBlocking == AddBlocking(old(clusterBlocking), listed.value, config.excludedNamespaces))
      ensures reapedCount <= old(reapedCount) + |reapable|
      ensures config.dryRun ==> reapedCount == old(reapedCount)
      ensures old(Accounted()) ==> Accounted()
    {
      failure := Scan(listed);
      if failure.Some? {
        return;
      }
      failure := Reap(c, now);
    }
  }

  /** One run of the reaper from a fresh context: the maps hold what the
      scan recorded, the reapable counter matches the list, the trace
      accounts for every mark and every delete, no more PDBs are reaped than
      were marked, and a dry run reaps nothing. */
  method Run(config: Config, listed: Option<seq<Pdb>>, c: Cluster, now: int)
    returns (ctx: ReaperContext, failure: Option<ReapError>)
    ensures fresh(ctx)
    ensures ctx.config == config
    ensures listed.Some? ==>
      ((var g := Grouped(listed.value, config.excludedNamespaces);
        ctx.namespacesWithMultiple == AddMultiple(map[], g, g.Keys))
       && ctx.clusterBlocking == AddBlocking(map[], listed.value, config.excludedNamespaces))
    ensures ctx.Valid() && ctx.Accounted()
    ensures ctx.reapedCount <= ctx.reapableCount
    ensures config.dryRun ==> ctx.reapedCount == 0 && DeleteEvents(ctx.trace) == 0 && Confirmations(ctx.trace) == 0
    ensures listed.None? ==>
      (failure == Some(PdbListFailed)
       && ctx.namespacesWithMultiple == map[] && ctx.clusterBlocking == map[]
       && ctx.reapable == [] && ctx.reapedCount == 0 && ctx.trace == [])
  {
    ctx := new ReaperContext(config);
    failure := ctx.Execute(listed, c, now);
  }
}
