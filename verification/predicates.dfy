/** The reaper's stateless checks on one PDB or on the pods its selector
    matches: misconfiguration, duplicate pod coverage, crash-looping pods and
    pods stuck not ready. */
module Predicates {
  import opened PdbTypes

  const CRASH_LOOP_BACK_OFF: string := "CrashLoopBackOff"
  const CONTAINERS_READY: string := "ContainersReady"
  const NANOS_PER_SECOND: int := 1_000_000_000

  // ---------------------------------------------------------------------
  // Int-or-percent resolution and misconfiguration

  /** Ceiling of x / 100 (Dafny's / floors for a positive divisor). */
  function CeilDiv100(x: int): (r: int)
    ensures 100 * r >= x > 100 * (r - 1)
  {
    -((-x) / 100)
  }

  /** Resolves an int-or-percent value against a total, rounding a
      percentage up; a value that is no percentage does not resolve. */
  function Resolve(v: IntOrPercent, total: int): (r: Option<int>)
    ensures r.None? <==> v.Malformed?
    ensures v.IntValue? ==> r == Some(v.n as int)
    ensures v.Percent? ==> r.Some? && 100 * r.value >= v.p * total > 100 * (r.value - 1)
  {
    match v
    case IntValue(n) => Some(n as int)
    case Percent(p) => Some(CeilDiv100(p * total))
    case Malformed(_) => None
  }

  /** A PDB is misconfigured when its own bounds leave no room for a
      disruption: maxUnavailable, when set, alone decides; otherwise
      minAvailable decides; a PDB with neither is never misconfigured. */
  function IsMisconfigured(pdb: Pdb, podCount: nat): (r: Result<bool, ReapError>)
    ensures pdb.maxUnavailable.None? && pdb.minAvailable.None? ==> r == Success(false)
    ensures r.Failure? <==>
      (if pdb.maxUnavailable.Some? then pdb.maxUnavailable.value.Malformed?
       else pdb.minAvailable.Some? && pdb.minAvailable.value.Malformed?)
    ensures r.Failure? ==>
      r.error == (if pdb.maxUnavailable.Some? then MaxUnavailableUnresolvable else MinAvailableUnresolvable)
  {
    if pdb.maxUnavailable.Some? then
      match Resolve(pdb.maxUnavailable.value, podCount)
      case None => Failure(MaxUnavailableUnresolvable)
      case Some(allowedUnavailable) => Success(allowedUnavailable == 0)
    else if pdb.minAvailable.Some? then
      match Resolve(pdb.minAvailable.value, podCount)
      case None => Failure(MinAvailableUnresolvable)
      case Some(requiredAvailable) => Success(requiredAvailable == pdb.expectedPods as int)
    else
      Success(false)
  }

  /** When maxUnavailable is set, minAvailable plays no part in the verdict. */
  lemma MaxUnavailableDecides(pdb: Pdb, other: Option<IntOrPercent>, podCount: nat)
    requires pdb.maxUnavailable.Some?
    ensures IsMisconfigured(pdb, podCount) == IsMisconfigured(pdb.(minAvailable := other), podCount)
  {
  }

  /** An absolute maxUnavailable is misconfigured exactly when it is 0, for any pod count. */
  lemma MaxUnavailableAbsolute(pdb: Pdb, podCount: nat)
    requires pdb.maxUnavailable.Some? && pdb.maxUnavailable.value.IntValue?
    ensures IsMisconfigured(pdb, podCount) == Success(pdb.maxUnavailable.value.n == 0)
  {
  }

  /** Because a percentage rounds up, a non-negative percentage maxUnavailable
      is misconfigured exactly when the percentage is 0 or no pod matches. */
  lemma MaxUnavailablePercent(pdb: Pdb, podCount: nat)
    requires pdb.maxUnavailable.Some? && pdb.maxUnavailable.value.Percent?
    requires pdb.maxUnavailable.value.p >= 0
    ensures IsMisconfigured(pdb, podCount) == Success(pdb.maxUnavailable.value.p == 0 || podCount == 0)
  {
    var p := pdb.maxUnavailable.value.p;
    var r := Resolve(pdb.maxUnavailable.value, podCount).value;
    if p == 0 || podCount == 0 {
      assert p * podCount == 0;
    } else {
      PositiveProduct(p, podCount);
      assert r > 0;
    }
  }

  lemma PositiveProduct(a: int, b: int)
    requires a > 0 && b > 0
    ensures a * b > 0
  {
  }

  /** With maxUnavailable unset, an absolute minAvailable is misconfigured
      exactly when it equals the expected pod count, for any pod count. */
  lemma MinAvailableAbsolute(pdb: Pdb, podCount: nat)
    requires pdb.maxUnavailable.None? && pdb.minAvailable.Some? && pdb.minAvailable.value.IntValue?
    ensures IsMisconfigured(pdb, podCount) == Success(pdb.minAvailable.value.n == pdb.expectedPods)
  {
  }

  /** With maxUnavailable unset, minAvailable is misconfigured exactly when it
      resolves to the expected pod count; "100%" is misconfigured whenever
      the matched pods number the expected pods. */
  lemma MinAvailableFull(pdb: Pdb, podCount: nat)
    requires pdb.maxUnavailable.None? && pdb.minAvailable == Some(Percent(100))
    requires podCount == pdb.expectedPods as int
    ensures IsMisconfigured(pdb, podCount) == Success(true)
  {
    assert 100 * podCount >= Resolve(Percent(100), podCount).value * 100 - 99;
  }

  // ---------------------------------------------------------------------
  // Duplicate pod coverage

  /** Some pod name occurs at two different positions. */
  ghost predicate HasDuplicateName(pods: seq<Pod>)
  {
    exists i, j :: 0 <= i < j < |pods| && pods[i].name == pods[j].name
  }

  ghost function NamesOf(pods: seq<Pod>): set<string>
  {
    set i | 0 <= i < |pods| :: pods[i].name
  }

  /** Walks the combined pod list once, remembering the names seen so far,
      and stops at the first name seen before. */
  method IsContainDuplicatePods(pods: seq<Pod>) returns (dup: bool)
    ensures dup == HasDuplicateName(pods)
  {
    var seen: set<string> := {};
    for i := 0 to |pods|
      invariant seen == NamesOf(pods[..i])
      invariant !HasDuplicateName(pods[..i])
    {
      var name := pods[i].name;
      if name in seen {
        var k :| 0 <= k < i && pods[..i][k].name == name;
        assert pods[k].name == pods[i].name;
        return true;
      }
      seen := seen + {name};
      var next := pods[..i + 1];
      assert next == pods[..i] + [pods[i]];
      forall a, b | 0 <= a < b < |next|
        ensures next[a].name != next[b].name
      {
        if b == i {
          assert pods[..i][a].name in NamesOf(pods[..i]);
        } else {
          assert pods[..i][a] == next[a] && pods[..i][b] == next[b];
        }
      }
      assert NamesOf(pods[..i + 1]) == NamesOf(pods[..i]) + {name} by {
        assert forall k :: 0 <= k < i ==> pods[..i + 1][k] == pods[..i][k];
        assert pods[..i + 1][i] == pods[i];
      }
    }
    assert pods[..|pods|] == pods;
    return false;
  }

  /** The pods gathered from several PDBs contain a duplicate exactly when one
      of the parts does or a name occurs in two parts. */
  lemma {:induction false} DuplicateConcat(a: seq<Pod>, b: seq<Pod>)
    ensures HasDuplicateName(a + b) <==>
      HasDuplicateName(a) || HasDuplicateName(b) || NamesOf(a) * NamesOf(b) != {}
  {
    var ab := a + b;
    if HasDuplicateName(ab) {
      var i, j :| 0 <= i < j < |ab| && ab[i].name == ab[j].name;
      if j < |a| {
        assert a[i].name == a[j].name;
      } else if i >= |a| {
        assert b[i - |a|].name == b[j - |a|].name;
      } else {
        assert a[i].name in NamesOf(a) * NamesOf(b);
      }
    }
    if HasDuplicateName(a) {
      var i, j :| 0 <= i < j < |a| && a[i].name == a[j].name;
      assert ab[i] == a[i] && ab[j] == a[j];
    }
    if HasDuplicateName(b) {
      var i, j :| 0 <= i < j < |b| && b[i].name == b[j].name;
      assert ab[|a| + i] == b[i] && ab[|a| + j] == b[j];
    }
    if NamesOf(a) * NamesOf(b) != {} {
      var n :| n in NamesOf(a) * NamesOf(b);
      var i :| 0 <= i < |a| && a[i].name == n;
      var j :| 0 <= j < |b| && b[j].name == n;
      assert ab[i] == a[i] && ab[|a| + j] == b[j];
      assert i < |a| + j && ab[i].name == ab[|a| + j].name;
    }
  }

  // ---------------------------------------------------------------------
  // Aggregation shared by the crash-loop and not-ready checks

  /** Any-mode asks for a positive count, all-mode for a count equal to the
      number of pods. */
  predicate Verdict(count: int, podCount: int, allPods: bool)
  {
    if allPods then count == podCount else count > 0
  }

  // ---------------------------------------------------------------------
  // Crash-looping pods

  /** A container waiting in CrashLoopBackOff with at least the threshold of
      restarts; the threshold is converted to int32 first. */
  predicate CrashLooping(c: ContainerStatus, threshold: int)
  {
    c.waitingReason.Some? && c.restartCount >= ToInt32(threshold)
    && c.waitingReason.value == CRASH_LOOP_BACK_OFF
  }

  predicate AnyCrashLooping(cs: seq<ContainerStatus>, threshold: int)
  {
    exists k :: 0 <= k < |cs| && CrashLooping(cs[k], threshold)
  }

  /** What one pod adds to the crash count: 1 for its init containers and 1
      for its regular containers, each when one of them crash-loops. */
  function CrashScore(pod: Pod, threshold: int): nat
  {
    (if AnyCrashLooping(pod.initContainerStatuses, threshold) then 1 else 0)
    + (if AnyCrashLooping(pod.containerStatuses, threshold) then 1 else 0)
  }

  predicate PodCrashLooping(pod: Pod, threshold: int)
  {
    AnyCrashLooping(pod.initContainerStatuses, threshold)
    || AnyCrashLooping(pod.containerStatuses, threshold)
  }

  function CrashingCount(pods: seq<Pod>, threshold: int): nat
  {
    if pods == [] then 0
    else CrashingCount(pods[..|pods| - 1], threshold) + CrashScore(pods[|pods| - 1], threshold)
  }

  /** The number of pods with at least one crash-looping container. */
  function CrashingPods(pods: seq<Pod>, threshold: int): nat
  {
    if pods == [] then 0
    else
      CrashingPods(pods[..|pods| - 1], threshold)
      + (if PodCrashLooping(pods[|pods| - 1], threshold) then 1 else 0)
  }

  method IsPodsInCrashloop(pods: seq<Pod>, threshold: int, allPods: bool) returns (r: bool)
    ensures r == Verdict(CrashingCount(pods, threshold), |pods|, allPods)
  {
    var podCount := |pods|;
    var crashingCount := 0;
    for i := 0 to |pods|
      invariant crashingCount == CrashingCount(pods[..i], threshold)
    {
      var pod := pods[i];
      var initCrashing := false;
      for k := 0 to |pod.initContainerStatuses|
        invariant !initCrashing
        invariant forall q :: 0 <= q < k ==> !CrashLooping(pod.initContainerStatuses[q], threshold)
      {
        var cs := pod.initContainerStatuses[k];
        if cs.waitingReason.Some? && cs.restartCount >= ToInt32(threshold) {
          if cs.waitingReason.value == CRASH_LOOP_BACK_OFF {
            crashingCount := crashingCount + 1;
            initCrashing := true;
            break;
          }
        }
      }
      assert initCrashing == AnyCrashLooping(pod.initContainerStatuses, threshold);
      var regularCrashing := false;
      for k := 0 to |pod.containerStatuses|
        invariant !regularCrashing
        invariant forall q :: 0 <= q < k ==> !CrashLooping(pod.containerStatuses[q], threshold)
      {
        var cs := pod.containerStatuses[k];
        if cs.waitingReason.Some? && cs.restartCount >= ToInt32(threshold) {
          if cs.waitingReason.value == CRASH_LOOP_BACK_OFF {
            crashingCount := crashingCount + 1;
            regularCrashing := true;
            break;
          }
        }
      }
      assert regularCrashing == AnyCrashLooping(pod.containerStatuses, threshold);
      assert pods[..i + 1][..i] == pods[..i];
    }
    assert pods[..|pods|] == pods;
    if !allPods {
      if crashingCount > 0 {
        return true;
      }
    } else {
      if crashingCount == podCount {
        return true;
      }
    }
    return false;
  }

  /** The crash count lies between the number of crash-looping pods and twice
      that number: a pod is counted twice when both an init container and a
      regular container crash-loop. */
  lemma {:induction false} CrashingCountBounds(pods: seq<Pod>, threshold: int)
    ensures CrashingPods(pods, threshold) <= CrashingCount(pods, threshold) <= 2 * CrashingPods(pods, threshold)
    ensures CrashingPods(pods, threshold) <= |pods|
  {
    if pods != [] {
      CrashingCountBounds(pods[..|pods| - 1], threshold);
    }
  }

  /** Any-mode detects exactly when some pod has a crash-looping container. */
  lemma {:induction false} CrashLoopAnyMode(pods: seq<Pod>, threshold: int)
    ensures Verdict(CrashingCount(pods, threshold), |pods|, false) <==>
      exists i :: 0 <= i < |pods| && PodCrashLooping(pods[i], threshold)
  {
    if pods != [] {
      var init := pods[..|pods| - 1];
      CrashLoopAnyMode(init, threshold);
      if exists i :: 0 <= i < |init| && PodCrashLooping(init[i], threshold) {
        var i :| 0 <= i < |init| && PodCrashLooping(init[i], threshold);
        assert pods[i] == init[i];
      }
      if exists i :: 0 <= i < |pods| && PodCrashLooping(pods[i], threshold) {
        var i :| 0 <= i < |pods| && PodCrashLooping(pods[i], threshold);
        if i < |init| {
          assert init[i] == pods[i];
        }
      }
    }
  }

  /** When no init container crash-loops, all-mode detects exactly when every
      pod has a crash-looping container. */
  lemma {:induction false} CrashLoopAllModeWithoutInit(pods: seq<Pod>, threshold: int)
    requires forall i :: 0 <= i < |pods| ==> !AnyCrashLooping(pods[i].initContainerStatuses, threshold)
    ensures Verdict(CrashingCount(pods, threshold), |pods|, true) <==>
      forall i :: 0 <= i < |pods| ==> PodCrashLooping(pods[i], threshold)
  {
    CountWithoutInit(pods, threshold);
    CrashingPodsAll(pods, threshold);
  }

  lemma {:induction false} CountWithoutInit(pods: seq<Pod>, threshold: int)
    requires forall i :: 0 <= i < |pods| ==> !AnyCrashLooping(pods[i].initContainerStatuses, threshold)
    ensures CrashingCount(pods, threshold) == CrashingPods(pods, threshold)
  {
    if pods != [] {
      var init := pods[..|pods| - 1];
      assert forall i :: 0 <= i < |init| ==> init[i] == pods[i];
      CountWithoutInit(init, threshold);
    }
  }

  /** The number of crash-looping pods equals the number of pods exactly when
      every pod crash-loops. */
  lemma {:induction false} CrashingPodsAll(pods: seq<Pod>, threshold: int)
    ensures CrashingPods(pods, threshold) == |pods| <==>
      forall i :: 0 <= i < |pods| ==> PodCrashLooping(pods[i], threshold)
  {
    if pods != [] {
      var init := pods[..|pods| - 1];
      assert forall i :: 0 <= i < |init| ==> init[i] == pods[i];
      CrashingPodsAll(init, threshold);
      CrashingCountBounds(init, threshold);
    }
  }

  /** A single pod whose init container and regular container both
      crash-loop: every pod crash-loops, yet all-mode does not detect it,
      because that pod is counted twice against a pod count of one. */
  lemma CrashLoopAllModeDoubleCount(threshold: nat)
    requires threshold < 0x8000_0000
    ensures var c := ContainerStatus(Some(CRASH_LOOP_BACK_OFF), threshold);
      var pods := [Pod("web-0", [c], [c], [])];
      (forall i :: 0 <= i < |pods| ==> PodCrashLooping(pods[i], threshold))
      && !Verdict(CrashingCount(pods, threshold), |pods|, true)
  {
    var c := ContainerStatus(Some(CRASH_LOOP_BACK_OFF), threshold);
    var pod := Pod("web-0", [c], [c], []);
    assert CrashLooping(pod.initContainerStatuses[0], threshold);
    assert CrashLooping(pod.containerStatuses[0], threshold);
    assert [pod][..0] == [];
  }

  /** Three pods of which only two crash-loop, one of them in both an init
      and a regular container: the count reaches the pod count, so all-mode
      detects although one pod is healthy. */
  lemma CrashLoopAllModeOvercount(threshold: nat)
    requires threshold < 0x8000_0000
    ensures var c := ContainerStatus(Some(CRASH_LOOP_BACK_OFF), threshold);
      var healthy := ContainerStatus(None, 0);
      var pods := [Pod("web-0", [c], [c], []), Pod("web-1", [], [c], []), Pod("web-2", [], [healthy], [])];
      !PodCrashLooping(pods[2], threshold)
      && Verdict(CrashingCount(pods, threshold), |pods|, true)
  {
    var c := ContainerStatus(Some(CRASH_LOOP_BACK_OFF), threshold);
    var healthy := ContainerStatus(None, 0);
    var p0 := Pod("web-0", [c], [c], []);
    var p1 := Pod("web-1", [], [c], []);
    var p2 := Pod("web-2", [], [healthy], []);
    assert CrashLooping(p0.initContainerStatuses[0], threshold);
    assert CrashLooping(p1.containerStatuses[0], threshold);
    assert CrashScore(p0, threshold) == 2;
    assert CrashScore(p1, threshold) == 1;
    assert !AnyCrashLooping(p2.containerStatuses, threshold);
    assert CrashScore(p2, threshold) == 0;
    var pods := [p0, p1, p2];
    assert pods[..2][..1] == [p0] && [p0][..0] == [];
    assert CrashingCount([p0], threshold) == 2;
    assert pods[..2] == [p0, p1];
    assert CrashingCount([p0, p1], threshold) == 3;
    assert pods[..|pods| - 1] == [p0, p1];
  }

  // ---------------------------------------------------------------------
  // Pods stuck not ready

  /** The threshold has passed when at least thresholdSeconds have elapsed
      between the condition's last transition and now (times in
      nanoseconds): a non-positive threshold has passed as soon as the
      transition is not in the future, and a positive one never within the
      first second after the transition. */
  function IsPodReadinessThresholdPast(lastTransition: int, now: int, thresholdSeconds: int): (r: bool)
    ensures thresholdSeconds <= 0 && lastTransition <= now ==> r
    ensures thresholdSeconds > 0 && now - lastTransition < NANOS_PER_SECOND ==> !r
  {
    now - lastTransition >= thresholdSeconds * NANOS_PER_SECOND
  }

  /** Once past, the threshold stays past as time goes on, and a smaller
      threshold is past too. */
  lemma ThresholdPastMonotone(lastTransition: int, now: int, later: int, thresholdSeconds: int, smaller: int)
    requires IsPodReadinessThresholdPast(lastTransition, now, thresholdSeconds)
    requires now <= later && smaller <= thresholdSeconds
    ensures IsPodReadinessThresholdPast(lastTransition, later, thresholdSeconds)
    ensures IsPodReadinessThresholdPast(lastTransition, now, smaller)
  {
  }

  predicate NotReadyCondition(c: PodCondition, now: int, thresholdSeconds: int)
  {
    c.condType == CONTAINERS_READY && c.status == "False"
    && IsPodReadinessThresholdPast(c.lastTransition, now, thresholdSeconds)
  }

  predicate PodNotReady(pod: Pod, now: int, thresholdSeconds: int)
  {
    exists k :: 0 <= k < |pod.conditions| && NotReadyCondition(pod.conditions[k], now, thresholdSeconds)
  }

  function NotReadyCount(pods: seq<Pod>, now: int, thresholdSeconds: int): nat
  {
    if pods == [] then 0
    else
      NotReadyCount(pods[..|pods| - 1], now, thresholdSeconds)
      + (if PodNotReady(pods[|pods| - 1], now, thresholdSeconds) then 1 else 0)
  }

  method IsPodsInNotReadyState(pods: seq<Pod>, thresholdSeconds: int, allPods: bool, now: int)
    returns (r: bool)
    ensures r == Verdict(NotReadyCount(pods, now, thresholdSeconds), |pods|, allPods)
  {
    var podCount := |pods|;
    var notReadyCount := 0;
    for i := 0 to |pods|
      invariant notReadyCount == NotReadyCount(pods[..i], now, thresholdSeconds)
    {
      var pod := pods[i];
      var counted := false;
      for k := 0 to |pod.conditions|
        invariant !counted
        invariant forall q :: 0 <= q < k ==> !NotReadyCondition(pod.conditions[q], now, thresholdSeconds)
      {
        var condition := pod.conditions[k];
        if condition.condType == CONTAINERS_READY && condition.status == "False" {
          if IsPodReadinessThresholdPast(condition.lastTransition, now, thresholdSeconds) {
            notReadyCount := notReadyCount + 1;
            counted := true;
            break;
          }
        }
      }
      assert counted == PodNotReady(pod, now, thresholdSeconds);
      assert pods[..i + 1][..i] == pods[..i];
    }
    assert pods[..|pods|] == pods;
    if !allPods {
      if notReadyCount > 0 {
        return true;
      }
    } else {
      if notReadyCount == podCount {
        return true;
      }
    }
    return false;
  }

  /** Each pod counts at most once, so any-mode detects exactly when some pod
      is not ready past the threshold and all-mode exactly when every pod is
      (an empty pod list included). */
  lemma {:induction false} NotReadyModes(pods: seq<Pod>, now: int, thresholdSeconds: int)
    ensures Verdict(NotReadyCount(pods, now, thresholdSeconds), |pods|, false) <==>
      exists i :: 0 <= i < |pods| && PodNotReady(pods[i], now, thresholdSeconds)
    ensures Verdict(NotReadyCount(pods, now, thresholdSeconds), |pods|, true) <==>
      forall i :: 0 <= i < |pods| ==> PodNotReady(pods[i], now, thresholdSeconds)
    ensures NotReadyCount(pods, now, thresholdSeconds) <= |pods|
  {
    if pods != [] {
      var init := pods[..|pods| - 1];
      assert forall i :: 0 <= i < |init| ==> init[i] == pods[i];
      NotReadyModes(init, now, thresholdSeconds);
    }
  }
}
