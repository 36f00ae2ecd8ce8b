/** reconcile as the controller runs it: early returns, at most one write against a store that
    others write to, and loops over the listed objects
    (internal/assignment/controller/controller.go). */
module ReconcileCode {
  import opened Kube
  import opened Seqs
  import opened Reconcile
  import F = Fence

  /** The stored assignment and bundles at the instant of the pass's write. Since the pass read
      its copies, others may have changed or removed them. */
  class Cluster {
    var a: Option<Assignment>
    var bundles: map<string, Bundle>
    var writes: nat

    constructor (a: Option<Assignment>, bundles: map<string, Bundle>)
      ensures this.a == a && this.bundles == bundles && writes == 0
    {
      this.a, this.bundles, writes := a, bundles, 0;
    }

    /** Update: the submitted copy replaces the stored object if it has its version. */
    method Update(copy: Assignment)
      modifies this
      ensures bundles == old(bundles)
      ensures if old(a).Some? && copy.version == old(a).value.version
              then a == Some(copy.(status := old(a).value.status, version := copy.version + 1))
                  && writes == old(writes) + 1
              else a == old(a) && writes == old(writes)
    {
      if a.Some? && copy.version == a.value.version {
        a, writes := Some(copy.(status := a.value.status, version := copy.version + 1)), writes + 1;
      }
    }

    method UpdateStatus(copy: Assignment)
      modifies this
      ensures bundles == old(bundles)
      ensures if old(a).Some? && copy.version == old(a).value.version
              then a == Some(old(a).value.(status := copy.status, version := copy.version + 1))
                  && writes == old(writes) + 1
              else a == old(a) && writes == old(writes)
    {
      if a.Some? && copy.version == a.value.version {
        a, writes := Some(a.value.(status := copy.status, version := copy.version + 1)), writes + 1;
      }
    }

    method UpdateBundle(name: string, copy: Bundle)
      modifies this
      ensures a == old(a)
      ensures if name in old(bundles) && copy.version == old(bundles)[name].version
              then bundles == old(bundles)[name := copy.(version := copy.version + 1)] && writes == old(writes) + 1
              else bundles == old(bundles) && writes == old(writes)
    {
      if name in bundles && copy.version == bundles[name].version {
        bundles, writes := bundles[name := copy.(version := copy.version + 1)], writes + 1;
      }
    }
  }

  /** What an action decided on a snapshot makes of the stored assignment: a controller write of
      the fencing protocol. */
  function Stored(stored: Option<Assignment>, action: Action, snapshot: Assignment, now: Time): Option<Assignment> {
    if stored.None? then None
    else
      var r := F.ActionEffect(action, stored.value, snapshot, now);
      if r.Some? then r else stored
  }

  /** And of the stored bundles: at most the bundle gets the protection finalizer, over the version
      that was read. */
  function StoredBundles(stored: map<string, Bundle>, action: Action, v: View): map<string, Bundle>
    requires action.ProtectBundle? ==> action.name in v.bundles
  {
    if action.ProtectBundle? && action.name in stored && stored[action.name].version == v.bundles[action.name].version
    then
      var read := v.bundles[action.name];
      stored[action.name := read.(finalizers := read.finalizers + {BUNDLE_FINALIZER}, version := read.version + 1)]
    else stored
  }

  /** What a bundle write satisfies: only the assignment's own bundle is written, over the version
      that was read, and if the store held what was read, it gains the finalizer and nothing else
      changes. */
  predicate HonestBundles(was: map<string, Bundle>, now': map<string, Bundle>, snapshot: Assignment, v: View) {
    now' != was ==>
      var n := snapshot.bundle;
      && n in was && n in v.bundles && was[n].version == v.bundles[n].version
      && now'.Keys == was.Keys && (forall m :: m in was && m != n ==> now'[m] == was[m])
      && (was[n] == v.bundles[n] ==>
            now'[n] == was[n].(finalizers := was[n].finalizers + {BUNDLE_FINALIZER}, version := was[n].version + 1))
  }

  /** updateStatus. */
  method TellStatus(cluster: Cluster, snapshot: Assignment, r: Report, now: Time)
    modifies cluster
    ensures cluster.a == Stored(old(cluster.a), Tell(r), snapshot, now) && cluster.bundles == old(cluster.bundles)
    ensures cluster.writes <= old(cluster.writes) + 1
  {
    var status := Render(r, snapshot.generation, now);
    if Equivalent(snapshot.status, status) { return; }
    cluster.UpdateStatus(snapshot.(status := status));
  }

  method ListWorkloads(v: View, a: Assignment) returns (r: Option<seq<Workload>>)
    ensures r == MatchingWorkloads(v, a)
  {
    if v.workloads.None? { return None; }
    var items := v.workloads.value;
    var result: seq<Workload> := [];
    ghost var wanted := (w: Workload) => WorkloadMatches(w, a);
    for i := 0 to |items|
      invariant result == Keep(items[..i], wanted)
    {
      KeepStep(items, i, wanted);
      if items[i].assignmentLabel == a.name && ClaimedUid(items[i].openSandboxUid, items[i].directUid) == a.uid {
        result := result + [items[i]];
      }
    }
    assert items[..|items|] == items;
    KeepExt(items, wanted, w => WorkloadMatches(w, a));
    return Some(result);
  }

  /** matchingPods: the Pods of a workload that was not taken from a Pool. */
  method ListPods(items: seq<Pod>, a: Assignment, w: Workload) returns (result: seq<Pod>)
    ensures result == Keep(items, p => PodMatches(p, a, w))
  {
    result := [];
    ghost var wanted := (p: Pod) => PodMatches(p, a, w);
    for i := 0 to |items|
      invariant result == Keep(items[..i], wanted)
    {
      var p := items[i];
      KeepStep(items, i, wanted);
      if p.assignmentLabel == a.name && ClaimedUid(p.openSandboxUid, p.directUid) == a.uid
          && OwnedBy(p.owners, "BatchSandbox", w.uid) {
        if !p.deleting { result := result + [p]; }
      }
    }
    assert items[..|items|] == items;
    KeepExt(items, wanted, p => PodMatches(p, a, w));
  }

  method FindPods(v: View, a: Assignment, w: Workload) returns (r: Option<seq<Pod>>)
    ensures r == MatchingPods(v, a, w)
  {
    if w.pool != "" {
      return MatchingPods(v, a, w);
    }
    if v.pods.None? { return None; }
    var pods := ListPods(v.pods.value, a, w);
    KeepExt(v.pods.value, p => PodMatches(p, a, w), p => PodMatches(p, a, w));
    return Some(pods);
  }

  /** The status is the one a pass stores for this workload and Pod. */
  predicate NamesGate(status: Status, snapshot: Assignment, v: View, p: Pod) {
    && IsReady(status) && status.podRef == Some(PodReference(p))
    && snapshot.bundle in v.bundles && status.resolved == Some(Resolved(v.bundles[snapshot.bundle]))
  }

  /** What the write of an honest pass satisfies, against whatever is stored by then: it wins only
      over the version that was read; Ready is stored only when the gate was open, naming what
      opened it; and when the gate was open and nobody wrote meanwhile, Ready is stored. */
  ghost predicate HonestWrite(
      cfg: Config, was: Option<Assignment>, now': Option<Assignment>, snapshot: Assignment, v: View) {
    && (now' != was ==> was.Some? && was.value.version == snapshot.version && now'.Some?)
    && (was.Some? && now'.Some? && now'.value.status != was.value.status && IsReady(now'.value.status) ==>
          exists w, p :: ReadyGate(cfg, snapshot, v, w, p) && NamesGate(now'.value.status, snapshot, v, p))
    && (was == Some(snapshot) ==>
          forall w, p :: ReadyGate(cfg, snapshot, v, w, p) ==>
                now'.Some? && NamesGate(now'.value.status, snapshot, v, p))
  }

  /** One pass over a live assignment. It is a controller write of the fencing protocol, writes at
      most one object, and its write is honest. */
  method ReconcileAssignment(cfg: Config, cluster: Cluster, snapshot: Assignment, v: View, now: Time)
    requires !snapshot.deleting
    modifies cluster
    ensures cluster.a == Stored(old(cluster.a), Decide(cfg, snapshot, v), snapshot, now)
    ensures cluster.writes <= old(cluster.writes) + 1
    ensures cluster.a == old(cluster.a) || cluster.bundles == old(cluster.bundles)
    ensures HonestWrite(cfg, old(cluster.a), cluster.a, snapshot, v)
    ensures HonestBundles(old(cluster.bundles), cluster.bundles, snapshot, v)
    ensures Decide(cfg, snapshot, v).ProtectBundle? && old(cluster.bundles) == v.bundles ==>
              && snapshot.bundle in cluster.bundles
              && BUNDLE_FINALIZER in cluster.bundles[snapshot.bundle].finalizers
  {
    ProtectsOwnBundle(cfg, snapshot, v);
    DecidedWriteIsHonest(cfg, cluster.a, snapshot, v, now);
    Conclude(cfg, cluster, snapshot, v, now);
  }

  lemma DecidedWriteIsHonest(cfg: Config, was: Option<Assignment>, snapshot: Assignment, v: View, now: Time)
    ensures HonestWrite(cfg, was, Stored(was, Decide(cfg, snapshot, v), snapshot, now), snapshot, v)
  {
    var d := Decide(cfg, snapshot, v);
    var now' := Stored(was, d, snapshot, now);
    ReadyExactlyWhenGateOpen(cfg, snapshot, v);
    if d.Tell? {
      RenderedReady(d.report, snapshot.generation, now);
      forall w, p | ReadyGate(cfg, snapshot, v, w, p)
        ensures d.report.Bound? && NamesGate(Render(d.report, snapshot.generation, now), snapshot, v, p)
      {
        ReadyReportNamesTheGate(cfg, snapshot, v, w, p);
      }
      if d.report.Bound? && Equivalent(snapshot.status, Render(d.report, snapshot.generation, now)) {
        F.EquivalentIsReady(snapshot.status, d.report, snapshot.generation, now);
      }
    }
  }

  /** The ladder of early returns. */
  method Conclude(cfg: Config, cluster: Cluster, snapshot: Assignment, v: View, now: Time)
    requires !snapshot.deleting
    modifies cluster
    ensures cluster.a == Stored(old(cluster.a), Decide(cfg, snapshot, v), snapshot, now)
    ensures cluster.writes <= old(cluster.writes) + 1
    ensures cluster.a == old(cluster.a) || cluster.bundles == old(cluster.bundles)
    ensures cluster.bundles == StoredBundles(old(cluster.bundles), Decide(cfg, snapshot, v), v)
  {
    if ASSIGNMENT_FINALIZER !in snapshot.finalizers {
      cluster.Update(snapshot.(finalizers := snapshot.finalizers + {ASSIGNMENT_FINALIZER}));
      return;
    }
    var problem := CheckTemplate(snapshot, v);
    if problem.Some? {
      TellStatus(cluster, snapshot, Progress(None, None, None, false, problem.value), now);
      return;
    }
    if snapshot.bundle !in v.bundles || v.bundles[snapshot.bundle].deleting {
      TellStatus(cluster, snapshot, Progress(None, None, None, false, BundleNotFound), now);
      return;
    }
    var bundle := v.bundles[snapshot.bundle];
    if bundle.rejected != [] {
      TellStatus(cluster, snapshot,
                 Progress(None, None, None, false, BundleInvalid(FirstRejected(bundle.rejected, v.order))), now);
      return;
    }
    if BUNDLE_FINALIZER !in bundle.finalizers {
      cluster.UpdateBundle(snapshot.bundle, bundle.(finalizers := bundle.finalizers + {BUNDLE_FINALIZER}));
      return;
    }
    if BoundaryMismatch(snapshot, v, bundle) {
      TellStatus(cluster, snapshot, Progress(None, None, None, false, TemplateBoundaryMismatch), now);
      return;
    }
    if snapshot.paused {
      TellStatus(cluster, snapshot,
                 Progress(Some(Resolved(bundle)), snapshot.status.workloadRef, snapshot.status.podRef,
                          snapshot.status.podRef.Some?, Paused), now);
      return;
    }
    ConcludeWorkload(cfg, cluster, snapshot, v, bundle, now);
  }

  method CheckTemplate(a: Assignment, v: View) returns (problem: Option<Reason>)
    ensures problem == TemplateProblem(a, v)
  {
    if a.template.name != "" {
      if a.template.name !in v.templates || v.templates[a.template.name].deleting { return Some(TemplateNotFound); }
      var template := v.templates[a.template.name];
      if template.uid != a.template.uid { return Some(TemplateReplaced); }
      if template.revision != a.template.revision { return Some(TemplateRevisionMismatch); }
      if !template.enabled || template.bundle != a.bundle { return Some(TemplateInvalid); }
    }
    return None;
  }

  method ConcludeWorkload(cfg: Config, cluster: Cluster, snapshot: Assignment, v: View, b: Bundle, now: Time)
    modifies cluster
    ensures cluster.a == Stored(old(cluster.a), DecideWorkload(cfg, snapshot, v, b), snapshot, now)
    ensures cluster.writes <= old(cluster.writes) + 1 && cluster.bundles == old(cluster.bundles)
  {
    var workloads := ListWorkloads(v, snapshot);
    if workloads.None? { return; }
    if |workloads.value| != 1 {
      var reason := if |workloads.value| > 1 then MultipleWorkloads else WorkloadPending;
      TellStatus(cluster, snapshot, Progress(Some(Resolved(b)), None, None, false, reason), now);
      return;
    }
    var workload := workloads.value[0];
    if snapshot.sandboxId == "" {
      cluster.Update(snapshot.(sandboxId := workload.name));
      return;
    }
    if workload.replicas != Some(1) {
      TellStatus(cluster, snapshot,
                 Progress(Some(Resolved(b)), Some(WorkloadReference(workload)), None, false, InvalidReplicaCount), now);
      return;
    }
    if workload.created < snapshot.created {
      TellStatus(cluster, snapshot,
                 Progress(Some(Resolved(b)), Some(WorkloadReference(workload)), None, false, StaleWorkload), now);
      return;
    }
    var pods := FindPods(v, snapshot, workload);
    if pods.None? { return; }
    if |pods.value| != 1 {
      var reason := if |pods.value| > 1 then MultiplePods else PodPending;
      TellStatus(cluster, snapshot, Progress(Some(Resolved(b)), Some(WorkloadReference(workload)), None, false, reason),
                 now);
      return;
    }
    var r := ReportPod(cfg, snapshot, v, b, workload, pods.value[0]);
    TellStatus(cluster, snapshot, r, now);
  }

  /** The checks on the one Pod that is left; each ends the pass with a status. */
  method ReportPod(cfg: Config, a: Assignment, v: View, b: Bundle, w: Workload, p: Pod) returns (r: Report)
    ensures Tell(r) == DecidePod(cfg, a, v, b, w, p)
  {
    var bundle, workload, pod := Some(Resolved(b)), Some(WorkloadReference(w)), Some(PodReference(p));
    if p.account == "" {
      return Progress(bundle, workload, pod, true,
                      ServiceAccountNotReady("bound Pod does not declare a ServiceAccount"));
    }
    if p.account !in v.accounts {
      return Progress(bundle, workload, pod, true, ServiceAccountNotReady("sandbox ServiceAccount is unavailable"));
    }
    if !EligibleAccount(v.accounts[p.account]) {
      return Progress(bundle, workload, pod, true, ServiceAccountNotReady("not eligible"));
    }
    if p.automount != Some(false) {
      return Progress(bundle, workload, pod, true,
                      ServiceAccountNotReady("automountServiceAccountToken must be false"));
    }
    if a.resumeAfter != "" && a.resumeAfter == p.uid { return Progress(bundle, workload, pod, false, ResumePending); }
    if w.pool == "" && p.created < a.created { return Progress(bundle, workload, pod, false, StalePod); }
    if p.runtimeClass !in cfg.runtimeClasses { return Progress(bundle, workload, pod, true, RuntimeNotAllowed); }
    if !p.ready { return Progress(bundle, workload, pod, true, PodNotReady); }
    if b.mediated && !IdentityOk(cfg, p) {
      return Progress(bundle, workload, pod, true, IdentityNotReady("identity is not isolated"));
    }
    var identity := if !b.mediated then IdentityNotRequired
                    else if cfg.mode == ExternalMediator then ExternalMediatorConfigured
                    else EgressIdentityConfigured;
    return Bound(bundle.value, workload.value, pod.value, identity);
  }
}
