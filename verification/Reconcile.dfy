/** One pass of the assignment controller over one assignment
    (internal/assignment/controller/controller.go). */
module Reconcile {
  import opened Kube
  import opened Seqs

  datatype Template = Template(
    uid: string, deleting: bool, revision: string, enabled: bool, bundle: string, bundleRevision: string)

  datatype Owner = Owner(controller: bool, kind: string, uid: string)

  /** The Pool allocation annotation of a workload. */
  datatype Allocation = Unallocated | Malformed | Allocated(pods: seq<string>)

  datatype Workload = Workload(
    name: string, uid: string, assignmentLabel: string, openSandboxUid: string, directUid: string,
    replicas: Option<int>, created: Time, pool: string, allocation: Allocation)

  datatype Pool = Pool(uid: string, recycle: string)

  datatype TokenSource = TokenSource(path: string, audience: string, expiration: Option<int>)

  /** A volume: its projected sources, if it is a projection; a source that is not a
      service account token is None. */
  datatype Volume = Volume(name: string, projected: Option<seq<Option<TokenSource>>>)

  datatype Mount = Mount(name: string, readOnly: bool, path: string, subPath: string, subPathExpr: string)

  datatype Container = Container(name: string, mounts: seq<Mount>)

  datatype Pod = Pod(
    name: string, uid: string, assignmentLabel: string, openSandboxUid: string, directUid: string,
    owners: seq<Owner>, deleting: bool, account: string, automount: Option<bool>,
    created: Time, runtimeClass: string, ready: bool,
    volumes: seq<Volume>, containers: seq<Container>)

  datatype ServiceAccount = ServiceAccount(eligible: bool, automount: Option<bool>)

  /** What one pass reads besides the assignment itself. A missing key stands for any
      failed read whose error the controller turns into a status; `workloads` and `pods`
      are None when listing them fails, which the controller returns as an error. Each kind
      of object is read once in a pass, so a view is any combination of reads. `order` stands
      for the random order in which the pass ranges over the map of backends: it says which of
      the rejected ones is met first. */
  datatype View = View(
    templates: map<string, Template>, bundles: map<string, Bundle>,
    workloads: Option<seq<Workload>>, pools: map<string, Pool>,
    pods: Option<seq<Pod>>, accounts: map<string, ServiceAccount>, order: nat)

  datatype IdentityMode = ProjectedSidecar | ExternalMediator

  datatype Config = Config(runtimeClasses: set<string>, mode: IdentityMode)

  // ---- predicates over the objects read --------------------------------------------------

  /** The assignment incarnation a workload or Pod claims to belong to. */
  function ClaimedUid(openSandboxUid: string, directUid: string): string {
    if openSandboxUid != "" then openSandboxUid else directUid
  }

  predicate OwnedBy(owners: seq<Owner>, kind: string, uid: string) {
    exists o :: o in owners && o.controller && o.kind == kind && o.uid == uid
  }

  predicate WorkloadMatches(w: Workload, a: Assignment) {
    w.assignmentLabel == a.name && ClaimedUid(w.openSandboxUid, w.directUid) == a.uid
  }

  predicate PodMatches(p: Pod, a: Assignment, w: Workload) {
    && p.assignmentLabel == a.name
    && ClaimedUid(p.openSandboxUid, p.directUid) == a.uid
    && OwnedBy(p.owners, "BatchSandbox", w.uid)
    && !p.deleting
  }

  predicate EligibleAccount(s: ServiceAccount) {
    s.eligible && s.automount == Some(false)
  }

  const IDENTITY_AUDIENCE := "aks-sandbox-capability-gateway"
  const IDENTITY_VOLUME := "assignment-identity"
  const IDENTITY_CONTAINER := "egress"
  const IDENTITY_MOUNT := "/var/run/aks-sandbox-identity"

  predicate IdentityToken(source: Option<TokenSource>) {
    && source.Some?
    && source.value.path == "token" && source.value.audience == IDENTITY_AUDIENCE
    && source.value.expiration.Some? && 0 < source.value.expiration.value <= 600
  }

  predicate ProjectsIdentity(p: Pod) {
    exists v :: v in p.volumes && v.name == IDENTITY_VOLUME && v.projected.Some?
                && exists s :: s in v.projected.value && IdentityToken(s)
  }

  predicate SoundMount(c: Container, m: Mount) {
    c.name == IDENTITY_CONTAINER && m.readOnly && m.path == IDENTITY_MOUNT && m.subPath == "" && m.subPathExpr == ""
  }

  /** validateIdentity: the audience-restricted token exists and only egress mounts it. */
  predicate SidecarIdentity(p: Pod) {
    && p.automount == Some(false)
    && ProjectsIdentity(p)
    && (forall c, m :: c in p.containers && m in c.mounts && m.name == IDENTITY_VOLUME ==> SoundMount(c, m))
    && (exists c, m :: c in p.containers && m in c.mounts && m.name == IDENTITY_VOLUME)
  }

  /** validateExternalMediatorIdentity: no projected service account token at all. */
  predicate NoProjectedToken(p: Pod) {
    forall v, s :: v in p.volumes && v.projected.Some? && s in v.projected.value ==> s.None?
  }

  predicate IdentityOk(cfg: Config, p: Pod) {
    match cfg.mode
    case ExternalMediator => NoProjectedToken(p)
    case ProjectedSidecar => SidecarIdentity(p)
  }

  function MatchingWorkloads(v: View, a: Assignment): Option<seq<Workload>> {
    if v.workloads.None? then None else Some(Keep(v.workloads.value, w => WorkloadMatches(w, a)))
  }

  /** matchingPods and allocatedPoolPods. None is an error return. */
  function MatchingPods(v: View, a: Assignment, w: Workload): Option<seq<Pod>> {
    if w.pool == "" then
      if v.pods.None? then None else Some(Keep(v.pods.value, p => PodMatches(p, a, w)))
    else if w.pool !in v.pools then None
    else if v.pools[w.pool].recycle != "Delete" && v.pools[w.pool].recycle != "Replace" then None
    else match w.allocation
      case Unallocated => Some([])
      case Malformed => None
      case Allocated(names) =>
        if |names| == 0 then Some([])
        else if |names| != 1 || v.pods.None? then None
        else
          var named := Keep(v.pods.value, (p: Pod) => p.name == names[0]);
          if named == [] then Some([])
          else if named[0].deleting || !OwnedBy(named[0].owners, "Pool", v.pools[w.pool].uid) then None
          else Some([named[0]])
  }

  // ---- what a pass decides to do ---------------------------------------------------------

  function WorkloadReference(w: Workload): ObjectRef { ObjectRef("BatchSandbox", w.name, w.uid) }

  function PodReference(p: Pod): ObjectRef { ObjectRef("Pod", p.name, p.uid) }

  /** A status to report, before it is stamped with the generation and the time. */
  datatype Report =
    | Progress(resolved: Option<ResolvedBundle>, workload: Option<ObjectRef>, pod: Option<ObjectRef>,
               podBound: bool, reason: Reason)
    | Bound(bundle: ResolvedBundle, boundWorkload: ObjectRef, boundPod: ObjectRef, identity: Reason)

  datatype Action =
    | Finalize
    | AddFinalizer
    | ProtectBundle(name: string)
    | RecordSandbox(id: string)
    | Tell(report: Report)
    | Fail

  function Halt(reason: Reason): Action { Tell(Progress(None, None, None, false, reason)) }

  function TemplateProblem(a: Assignment, v: View): Option<Reason> {
    if a.template.name == "" then None
    else if a.template.name !in v.templates || v.templates[a.template.name].deleting then Some(TemplateNotFound)
    else
      var t := v.templates[a.template.name];
      if t.uid != a.template.uid then Some(TemplateReplaced)
      else if t.revision != a.template.revision then Some(TemplateRevisionMismatch)
      else if !t.enabled || t.bundle != a.bundle then Some(TemplateInvalid)
      else None
  }

  /** The template, the assignment and the bundle must name one tenant and one revision. */
  predicate BoundaryMismatch(a: Assignment, v: View, b: Bundle) {
    && a.template.name != "" && a.template.name in v.templates
    && (|| v.templates[a.template.name].bundleRevision != b.revision
        || a.tenant == "" || b.tenant.None? || a.tenant != b.tenant.value)
  }

  function Resolved(b: Bundle): ResolvedBundle { ResolvedBundle(b.name, b.uid, b.revision) }

  /** validateBundlePolicy: the error of the first rejected backend in the order of this pass. */
  function FirstRejected(rejected: seq<string>, order: nat): string
    requires rejected != []
  {
    rejected[order % |rejected|]
  }

  /** reconcile. */
  function Decide(cfg: Config, a: Assignment, v: View): Action {
    if a.deleting then Finalize
    else if ASSIGNMENT_FINALIZER !in a.finalizers then AddFinalizer
    else
      var problem := TemplateProblem(a, v);
      if problem.Some? then Halt(problem.value)
      else if a.bundle !in v.bundles || v.bundles[a.bundle].deleting then Halt(BundleNotFound)
      else
        var b := v.bundles[a.bundle];
        if b.rejected != [] then Halt(BundleInvalid(FirstRejected(b.rejected, v.order)))
        else if BUNDLE_FINALIZER !in b.finalizers then ProtectBundle(a.bundle)
        else if BoundaryMismatch(a, v, b) then Halt(TemplateBoundaryMismatch)
        else if a.paused then
          Tell(Progress(Some(Resolved(b)), a.status.workloadRef, a.status.podRef, a.status.podRef.Some?, Paused))
        else DecideWorkload(cfg, a, v, b)
  }

  function DecideWorkload(cfg: Config, a: Assignment, v: View, b: Bundle): Action {
    var found := MatchingWorkloads(v, a);
    if found.None? then Fail
    else if |found.value| != 1 then
      Tell(Progress(Some(Resolved(b)), None, None, false,
                    if |found.value| > 1 then MultipleWorkloads else WorkloadPending))
    else
      var w := found.value[0];
      if a.sandboxId == "" then RecordSandbox(w.name)
      else if w.replicas != Some(1) then Without(b, w, InvalidReplicaCount)
      else if w.created < a.created then Without(b, w, StaleWorkload)
      else
        var pods := MatchingPods(v, a, w);
        if pods.None? then Fail
        else if |pods.value| != 1 then Without(b, w, if |pods.value| > 1 then MultiplePods else PodPending)
        else DecidePod(cfg, a, v, b, w, pods.value[0])
  }

  function Without(b: Bundle, w: Workload, reason: Reason): Action {
    Tell(Progress(Some(Resolved(b)), Some(WorkloadReference(w)), None, false, reason))
  }

  function With(b: Bundle, w: Workload, p: Pod, podBound: bool, reason: Reason): Action {
    Tell(Progress(Some(Resolved(b)), Some(WorkloadReference(w)), Some(PodReference(p)), podBound, reason))
  }

  function DecidePod(cfg: Config, a: Assignment, v: View, b: Bundle, w: Workload, p: Pod): Action {
    if p.account == "" then With(b, w, p, true, ServiceAccountNotReady("bound Pod does not declare a ServiceAccount"))
    else if p.account !in v.accounts
    then With(b, w, p, true, ServiceAccountNotReady("sandbox ServiceAccount is unavailable"))
    else if !EligibleAccount(v.accounts[p.account]) then With(b, w, p, true, ServiceAccountNotReady("not eligible"))
    else if p.automount != Some(false) then
      With(b, w, p, true, ServiceAccountNotReady("automountServiceAccountToken must be false"))
    else if a.resumeAfter != "" && a.resumeAfter == p.uid then With(b, w, p, false, ResumePending)
    else if w.pool == "" && p.created < a.created then With(b, w, p, false, StalePod)
    else if p.runtimeClass !in cfg.runtimeClasses then With(b, w, p, true, RuntimeNotAllowed)
    else if !p.ready then With(b, w, p, true, PodNotReady)
    else if b.mediated && !IdentityOk(cfg, p) then With(b, w, p, true, IdentityNotReady("identity is not isolated"))
    else
      Tell(Bound(Resolved(b), WorkloadReference(w), PodReference(p),
                 if !b.mediated then IdentityNotRequired
                 else if cfg.mode == ExternalMediator then ExternalMediatorConfigured
                 else EgressIdentityConfigured))
  }

  /** A pass protects the assignment's own bundle and no other. */
  lemma ProtectsOwnBundle(cfg: Config, a: Assignment, v: View)
    ensures var d := Decide(cfg, a, v); d.ProtectBundle? ==> d.name == a.bundle && d.name in v.bundles
  {}

  // ---- rendering a report as a status ----------------------------------------------------

  /** readyConditions and progressConditions. */
  function Conditions(r: Report, generation: int, now: Time): seq<Condition> {
    match r
    case Bound(_, _, _, identity) =>
      [Condition(BundleResolved, true, BundleValid, generation, now),
       Condition(PodBound, true, FreshPodObserved, generation, now),
       Condition(IdentityReady, true, identity, generation, now),
       Condition(Ready, true, AssignmentReady, generation, now)]
    case Progress(resolved, _, _, podBound, reason) =>
      [Condition(BundleResolved, resolved.Some?, if resolved.Some? then BundleValid else reason, generation, now),
       Condition(PodBound, podBound, if podBound then FreshPodObserved else reason, generation, now),
       Condition(IdentityReady, false, reason, generation, now),
       Condition(Ready, false, reason, generation, now)]
  }

  function Render(r: Report, generation: int, now: Time): Status {
    match r
    case Bound(b, w, p, _) => Status(Conditions(r, generation, now), Some(b), Some(w), Some(p))
    case Progress(b, w, p, _, _) => Status(Conditions(r, generation, now), b, w, p)
  }

  function StripTimes(conditions: seq<Condition>): (stripped: seq<Condition>)
    ensures |stripped| == |conditions|
    ensures forall i :: 0 <= i < |stripped| ==> stripped[i] == conditions[i].(transition := 0)
  {
    seq(|conditions|, i requires 0 <= i < |conditions| => conditions[i].(transition := 0))
  }

  /** statusEquivalent: equality up to transition times. */
  predicate Equivalent(left: Status, right: Status) {
    left.(conditions := StripTimes(left.conditions)) == right.(conditions := StripTimes(right.conditions))
  }

  // ---- the readiness gate ----------------------------------------------------------------

  /** Everything the platform demands before an assignment may carry authority, stated
      without the order in which the controller checks it. */
  predicate ReadyGate(cfg: Config, a: Assignment, v: View, w: Workload, p: Pod) {
    && !a.deleting && !a.paused && a.sandboxId != ""
    && ASSIGNMENT_FINALIZER in a.finalizers
    && (a.template.name != "" ==>
          && a.template.name in v.templates
          && v.templates[a.template.name]
              == Template(a.template.uid, false, a.template.revision, true, a.bundle,
                          v.templates[a.template.name].bundleRevision))
    && a.bundle in v.bundles
    && var b := v.bundles[a.bundle];
    && !b.deleting && b.rejected == [] && BUNDLE_FINALIZER in b.finalizers
    && (a.template.name != "" ==>
          v.templates[a.template.name].bundleRevision == b.revision && a.tenant != "" && b.tenant == Some(a.tenant))
    && MatchingWorkloads(v, a) == Some([w]) && MatchingPods(v, a, w) == Some([p])
    && w.replicas == Some(1) && w.created >= a.created
    && (p.uid == "" || p.uid != a.resumeAfter)
    && (w.pool != "" || p.created >= a.created)
    && p.ready && p.runtimeClass in cfg.runtimeClasses && p.automount == Some(false)
    && p.account != "" && p.account in v.accounts && EligibleAccount(v.accounts[p.account])
    && (b.mediated ==> IdentityOk(cfg, p))
  }

  /** A pass reports Ready exactly when the gate is open for some workload and Pod. */
  lemma ReadyExactlyWhenGateOpen(cfg: Config, a: Assignment, v: View)
    ensures (Decide(cfg, a, v).Tell? && Decide(cfg, a, v).report.Bound?)
            <==> exists w, p :: ReadyGate(cfg, a, v, w, p)
  {
    var d := Decide(cfg, a, v);
    if d.Tell? && d.report.Bound? {
      var found := MatchingWorkloads(v, a);
      var w := found.value[0];
      var p := MatchingPods(v, a, w).value[0];
      assert found.value == [w] && MatchingPods(v, a, w).value == [p];
      assert ReadyGate(cfg, a, v, w, p);
    }
    if w, p :| ReadyGate(cfg, a, v, w, p) {
      assert MatchingWorkloads(v, a).value[0] == w;
      assert MatchingPods(v, a, w).value[0] == p;
    }
  }

  /** A Ready report names the objects that opened the gate and nothing else. */
  lemma ReadyReportNamesTheGate(cfg: Config, a: Assignment, v: View, w: Workload, p: Pod)
    requires ReadyGate(cfg, a, v, w, p)
    ensures Decide(cfg, a, v).Tell? && Decide(cfg, a, v).report.Bound?
    ensures var r := Decide(cfg, a, v).report;
            && r.bundle == Resolved(v.bundles[a.bundle])
            && r.boundWorkload == WorkloadReference(w) && r.boundPod == PodReference(p)
            && (r.identity == IdentityNotRequired <==> !v.bundles[a.bundle].mediated)
  {
    assert MatchingWorkloads(v, a).value[0] == w;
    assert MatchingPods(v, a, w).value[0] == p;
  }

  /** The rendered Ready condition is True for a Bound report and for no other. */
  lemma RenderedReady(r: Report, generation: int, now: Time)
    ensures IsReady(Render(r, generation, now)) <==> r.Bound?
  {
    var c := Conditions(r, generation, now);
    assert Render(r, generation, now).conditions == c;
    if r.Bound? { assert c[3].kind == Ready && c[3].holds && c[3] in c; }
  }

  // ---- convergence -----------------------------------------------------------------------

  /** One assignment and everything the controller reads, with nobody else writing. */
  datatype World = World(a: Assignment, v: View)

  predicate WorldOk(s: World) {
    && !s.a.deleting
    && (s.v.workloads.Some? ==> forall w :: w in s.v.workloads.value ==> w.name != "")
    && (s.a.bundle in s.v.bundles ==> Distinct(s.v.bundles[s.a.bundle].rejected))
  }

  predicate Distinct(texts: seq<string>) { forall i, j :: 0 <= i < j < |texts| ==> texts[i] != texts[j] }

  /** What varies between passes on an unchanging cluster: the clock and the range order. */
  datatype Turn = Turn(now: Time, order: nat)

  function Touch(a: Assignment): Assignment { a.(version := a.version + 1) }

  function DecideAt(cfg: Config, s: World, order: nat): Action { Decide(cfg, s.a, s.v.(order := order)) }

  /** updateStatus writes only when the new status is not equivalent to the stored one. */
  predicate Writes(cfg: Config, s: World, t: Turn) {
    match DecideAt(cfg, s, t.order)
    case Tell(r) => !Equivalent(s.a.status, Render(r, s.a.generation, t.now))
    case Fail => false
    case _ => true
  }

  /** The effect of an action. */
  function Act(s: World, action: Action, now: Time): World
    requires action.ProtectBundle? ==> action.name in s.v.bundles
  {
    match action
    case AddFinalizer => s.(a := Touch(s.a.(finalizers := s.a.finalizers + {ASSIGNMENT_FINALIZER})))
    case ProtectBundle(n) =>
      var b := s.v.bundles[n];
      var b' := b.(finalizers := b.finalizers + {BUNDLE_FINALIZER}, version := b.version + 1);
      s.(v := s.v.(bundles := s.v.bundles[n := b']))
    case RecordSandbox(id) => s.(a := Touch(s.a.(sandboxId := id)))
    case Tell(r) =>
      var status := Render(r, s.a.generation, now);
      if Equivalent(s.a.status, status) then s else s.(a := Touch(s.a.(status := status)))
    case _ => s
  }

  /** The effect of one pass. */
  function Pass(cfg: Config, s: World, t: Turn): World { Act(s, DecideAt(cfg, s, t.order), t.now) }

  /** How many kinds of work are left: finalizer, bundle finalizer, sandbox ID, status. */
  function Rank(cfg: Config, s: World): nat {
    match DecideAt(cfg, s, 0)
    case AddFinalizer => 4
    case ProtectBundle(_) => 3
    case RecordSandbox(_) => 2
    case Tell(r) => if Writes(cfg, s, Turn(0, 0)) then 1 else 0
    case _ => 0
  }

  /** The range order never shows: at most one backend is rejected, or the pass stops before it
      looks at the backends. */
  predicate Steady(s: World) {
    || TemplateProblem(s.a, s.v).Some?
    || s.a.bundle !in s.v.bundles || s.v.bundles[s.a.bundle].deleting
    || |s.v.bundles[s.a.bundle].rejected| <= 1
  }

  lemma EquivalentIgnoresTime(stored: Status, r: Report, generation: int, t: Time, t': Time)
    ensures Equivalent(stored, Render(r, generation, t)) <==> Equivalent(stored, Render(r, generation, t'))
  {
    assert StripTimes(Conditions(r, generation, t)) == StripTimes(Conditions(r, generation, t'));
  }

  /** Nothing but the choice among several rejected backends depends on the range order. */
  lemma OrderIsHidden(cfg: Config, s: World, order: nat, order': nat)
    requires Steady(s)
    ensures DecideAt(cfg, s, order) == DecideAt(cfg, s, order')
  {
    var v, v' := s.v.(order := order), s.v.(order := order');
    if s.a.bundle in s.v.bundles && s.v.bundles[s.a.bundle].rejected == [] {
      SameWorkloads(cfg, s.a, v, v', s.v.bundles[s.a.bundle]);
    }
  }

  lemma SameWorkloads(cfg: Config, a: Assignment, v: View, v': View, b: Bundle)
    requires v' == v.(order := v'.order)
    ensures DecideWorkload(cfg, a, v, b) == DecideWorkload(cfg, a, v', b)
  {
    assert MatchingWorkloads(v, a) == MatchingWorkloads(v', a);
    forall w ensures MatchingPods(v, a, w) == MatchingPods(v', a, w) {}
  }

  lemma WritesIgnoresTurn(cfg: Config, s: World, t: Turn, t': Turn)
    requires Steady(s)
    ensures Writes(cfg, s, t) <==> Writes(cfg, s, t')
  {
    OrderIsHidden(cfg, s, t.order, t'.order);
    var d := DecideAt(cfg, s, t.order);
    if d.Tell? { EquivalentIgnoresTime(s.a.status, d.report, s.a.generation, t.now, t'.now); }
  }

  /** The lists of matching workloads and Pods do not depend on the fields a pass writes. */
  lemma MatchingStable(v: View, a: Assignment, a': Assignment)
    requires a.name == a'.name && a.uid == a'.uid
    ensures MatchingWorkloads(v, a) == MatchingWorkloads(v, a')
    ensures forall w :: MatchingPods(v, a, w) == MatchingPods(v, a', w)
  {
    if v.workloads.Some? {
      KeepExt(v.workloads.value, w => WorkloadMatches(w, a), w => WorkloadMatches(w, a'));
    }
    forall w ensures MatchingPods(v, a, w) == MatchingPods(v, a', w) {
      if v.pods.Some? {
        KeepExt(v.pods.value, p => PodMatches(p, a, w), p => PodMatches(p, a', w));
        if w.allocation.Allocated? && |w.allocation.pods| == 1 {
          assert MatchingPods(v, a, w) == MatchingPods(v, a', w);
        }
      }
    }
  }

  /** A pass keeps the world in order and does not touch what Steady looks at. */
  lemma PassKeepsWorld(cfg: Config, s: World, t: Turn)
    requires WorldOk(s)
    ensures WorldOk(Pass(cfg, s, t)) && (Steady(Pass(cfg, s, t)) <==> Steady(s))
  {
    ActKeepsWorld(s, DecideAt(cfg, s, t.order), t.now);
  }

  lemma ActKeepsWorld(s: World, action: Action, now: Time)
    requires WorldOk(s) && (action.ProtectBundle? ==> action.name in s.v.bundles)
    ensures WorldOk(Act(s, action, now)) && (Steady(Act(s, action, now)) <==> Steady(s))
  {}

  lemma AfterAddFinalizer(cfg: Config, s: World, t: Turn)
    requires WorldOk(s) && DecideAt(cfg, s, t.order).AddFinalizer?
    ensures Rank(cfg, Pass(cfg, s, t)) < 4
  {
    assert ASSIGNMENT_FINALIZER in Pass(cfg, s, t).a.finalizers;
  }

  lemma AfterProtectBundle(cfg: Config, s: World, t: Turn)
    requires WorldOk(s) && DecideAt(cfg, s, t.order).ProtectBundle?
    ensures Rank(cfg, Pass(cfg, s, t)) < 3
  {
    var s' := Pass(cfg, s, t);
    assert s'.a == s.a && BUNDLE_FINALIZER in s'.v.bundles[s.a.bundle].finalizers;
    NoProtectionLeft(cfg, s'.a, s'.v.(order := 0));
  }

  /** With both finalizers in place a pass has neither left to add. */
  lemma NoProtectionLeft(cfg: Config, a: Assignment, v: View)
    requires !a.deleting && ASSIGNMENT_FINALIZER in a.finalizers
    requires a.bundle in v.bundles && BUNDLE_FINALIZER in v.bundles[a.bundle].finalizers
    ensures var d := Decide(cfg, a, v); !d.AddFinalizer? && !d.ProtectBundle?
  {
    var b := v.bundles[a.bundle];
    LaterActions(cfg, a, v, b);
  }

  lemma LaterActions(cfg: Config, a: Assignment, v: View, b: Bundle)
    ensures var d := DecideWorkload(cfg, a, v, b); d.RecordSandbox? || d.Tell? || d.Fail?
    ensures a.sandboxId != "" ==> !DecideWorkload(cfg, a, v, b).RecordSandbox?
  {}

  lemma AfterRecordSandbox(cfg: Config, s: World, t: Turn)
    requires WorldOk(s) && DecideAt(cfg, s, t.order).RecordSandbox?
    ensures Rank(cfg, Pass(cfg, s, t)) < 2
  {
    var s' := Pass(cfg, s, t);
    RecordedName(cfg, s.a, s.v.(order := t.order));
    NoProtectionLeft(cfg, s'.a, s'.v.(order := 0));
    LaterActions(cfg, s'.a, s'.v.(order := 0), s'.v.bundles[s'.a.bundle]);
  }

  /** A pass that records a sandbox ID records the name of a listed workload, on an assignment
      and a bundle that are protected already. */
  lemma RecordedName(cfg: Config, a: Assignment, v: View)
    requires Decide(cfg, a, v).RecordSandbox?
    ensures v.workloads.Some? && exists w :: w in v.workloads.value && w.name == Decide(cfg, a, v).id
    ensures !a.deleting && ASSIGNMENT_FINALIZER in a.finalizers
    ensures a.bundle in v.bundles && BUNDLE_FINALIZER in v.bundles[a.bundle].finalizers
  {
    LaterActions(cfg, a, v, v.bundles[a.bundle]);
    var w := MatchingWorkloads(v, a).value[0];
    assert w in MatchingWorkloads(v, a).value && w in v.workloads.value;
  }

  /** Every pass over a live assignment in a steady world writes nothing or leaves strictly less
      to do, and a pass that writes nothing changes nothing. */
  lemma PassMakesProgress(cfg: Config, s: World, t: Turn)
    requires WorldOk(s) && Steady(s)
    ensures if Writes(cfg, s, t) then Rank(cfg, Pass(cfg, s, t)) < Rank(cfg, s) else Pass(cfg, s, t) == s
  {
    OrderIsHidden(cfg, s, t.order, 0);
    match DecideAt(cfg, s, t.order) {
      case AddFinalizer => AfterAddFinalizer(cfg, s, t);
      case ProtectBundle(_) => AfterProtectBundle(cfg, s, t);
      case RecordSandbox(_) => AfterRecordSandbox(cfg, s, t);
      case Tell(r) =>
        WritesIgnoresTurn(cfg, s, t, Turn(0, 0));
        if Writes(cfg, s, t) { SettledAfterTell(cfg, s, t); }
      case _ =>
    }
  }

  /** Once written in a steady world, the same report is found equivalent by the next pass. */
  lemma SettledAfterTell(cfg: Config, s: World, t: Turn)
    requires WorldOk(s) && Steady(s) && DecideAt(cfg, s, t.order).Tell? && Writes(cfg, s, t)
    ensures Rank(cfg, Pass(cfg, s, t)) == 0
  {
    var s' := Pass(cfg, s, t);
    var r := DecideAt(cfg, s, t.order).report;
    SameDecision(cfg, s, s', t.now, t.order);
    PassKeepsWorld(cfg, s, t);
    OrderIsHidden(cfg, s', t.order, 0);
    EquivalentIgnoresTime(s'.a.status, r, s.a.generation, t.now, 0);
  }

  /** Storing the status a pass reports does not change what the next pass reports. */
  lemma SameDecision(cfg: Config, s: World, s': World, now: Time, order: nat)
    requires DecideAt(cfg, s, order).Tell?
    requires s' == Pass(cfg, s, Turn(now, order))
    ensures DecideAt(cfg, s', order) == DecideAt(cfg, s, order)
  {
    MatchingStable(s.v.(order := order), s.a, s'.a);
  }

  function Passes(cfg: Config, s: World, turns: seq<Turn>): World
    decreases |turns|
  {
    if turns == [] then s else Passes(cfg, Pass(cfg, s, turns[0]), turns[1..])
  }

  function WriteCount(cfg: Config, s: World, turns: seq<Turn>): nat
    decreases |turns|
  {
    if turns == [] then 0
    else (if Writes(cfg, s, turns[0]) then 1 else 0) + WriteCount(cfg, Pass(cfg, s, turns[0]), turns[1..])
  }

  lemma {:induction false} WritesAreFew(cfg: Config, s: World, turns: seq<Turn>)
    requires WorldOk(s) && Steady(s)
    ensures WriteCount(cfg, s, turns) <= Rank(cfg, s)
    decreases |turns|
  {
    if turns != [] {
      PassMakesProgress(cfg, s, turns[0]);
      PassKeepsWorld(cfg, s, turns[0]);
      WritesAreFew(cfg, Pass(cfg, s, turns[0]), turns[1..]);
    }
  }

  lemma {:induction false} SilentInTheEnd(cfg: Config, s: World, turns: seq<Turn>)
    requires WorldOk(s) && Steady(s) && |turns| >= Rank(cfg, s)
    ensures forall t :: !Writes(cfg, Passes(cfg, s, turns), t)
    decreases |turns|
  {
    if Rank(cfg, s) == 0 || !Writes(cfg, s, turns[0]) {
      NothingLeft(cfg, s, if turns == [] then Turn(0, 0) else turns[0]);
      SilentStaysSilent(cfg, s, turns);
    } else {
      PassMakesProgress(cfg, s, turns[0]);
      PassKeepsWorld(cfg, s, turns[0]);
      SilentInTheEnd(cfg, Pass(cfg, s, turns[0]), turns[1..]);
    }
  }

  lemma NothingLeft(cfg: Config, s: World, t: Turn)
    requires WorldOk(s) && Steady(s) && (Rank(cfg, s) == 0 || !Writes(cfg, s, t))
    ensures !Writes(cfg, s, Turn(0, 0))
  {
    if Rank(cfg, s) != 0 { WritesIgnoresTurn(cfg, s, t, Turn(0, 0)); }
  }

  /** However often the controller runs on an unchanging steady cluster it writes at most four
      times, and from the fifth pass on it is silent at every instant and in every range order. */
  lemma ReconcileConverges(cfg: Config, s: World, turns: seq<Turn>)
    requires WorldOk(s) && Steady(s)
    ensures WriteCount(cfg, s, turns) <= Rank(cfg, s) <= 4
    ensures |turns| >= Rank(cfg, s) ==> forall t :: !Writes(cfg, Passes(cfg, s, turns), t)
  {
    WritesAreFew(cfg, s, turns);
    if |turns| >= Rank(cfg, s) { SilentInTheEnd(cfg, s, turns); }
  }

  /** A silent steady world is a fixed point of every later pass. */
  lemma {:induction false} SilentStaysSilent(cfg: Config, s: World, turns: seq<Turn>)
    requires WorldOk(s) && Steady(s) && !Writes(cfg, s, Turn(0, 0))
    ensures Passes(cfg, s, turns) == s
    ensures forall t :: !Writes(cfg, s, t)
    decreases |turns|
  {
    forall t ensures !Writes(cfg, s, t) { WritesIgnoresTurn(cfg, s, t, Turn(0, 0)); }
    if turns != [] {
      PassMakesProgress(cfg, s, turns[0]);
      SilentStaysSilent(cfg, s, turns[1..]);
    }
  }

  // ---- where it does not converge --------------------------------------------------------

  /** With two rejected backends every world is one range order away from another write: the
      stored text cannot be both of theirs. */
  lemma AnotherOrderWrites(cfg: Config, s: World) returns (t: Turn)
    requires WorldOk(s) && !Steady(s)
    ensures Writes(cfg, s, t)
  {
    t := Turn(0, 0);
    if !Writes(cfg, s, t) {
      t := Turn(0, 1);
      var texts := s.v.bundles[s.a.bundle].rejected;
      DifferentTexts(s.a.status, texts[0], texts[1], s.a.generation);
    }
  }

  lemma DifferentTexts(stored: Status, x: string, y: string, generation: int)
    requires x != y
    ensures var r := Progress(None, None, None, false, BundleInvalid(x));
            var r' := Progress(None, None, None, false, BundleInvalid(y));
            !(Equivalent(stored, Render(r, generation, 0)) && Equivalent(stored, Render(r', generation, 0)))
  {
    var r := Progress(None, None, None, false, BundleInvalid(x));
    var r' := Progress(None, None, None, false, BundleInvalid(y));
    assert StripTimes(Conditions(r, generation, 0))[3].reason != StripTimes(Conditions(r', generation, 0))[3].reason;
  }

  /** With two rejected backends there is, for every n, a run of n passes that all write. */
  lemma {:induction false} WritesWithoutEnd(cfg: Config, s: World, n: nat) returns (turns: seq<Turn>)
    requires WorldOk(s) && !Steady(s)
    ensures |turns| == n && WriteCount(cfg, s, turns) == n
    decreases n
  {
    turns := [];
    if n > 0 {
      var t := AnotherOrderWrites(cfg, s);
      PassKeepsWorld(cfg, s, t);
      var rest := WritesWithoutEnd(cfg, Pass(cfg, s, t), n - 1);
      turns := [t] + rest;
      assert turns[1..] == rest;
    }
  }

  /** On an unchanging cluster the controller stops writing, after at most four writes whatever
      the clock and the range order do, if and only if at most one backend of the bundle is
      rejected or the passes end before they look at the backends. */
  lemma ConvergesExactlyWhenSteady(cfg: Config, s: World)
    requires WorldOk(s)
    ensures Steady(s) <==> forall turns :: WriteCount(cfg, s, turns) <= 4
  {
    if Steady(s) {
      forall turns ensures WriteCount(cfg, s, turns) <= 4 { ReconcileConverges(cfg, s, turns); }
    } else {
      var turns := WritesWithoutEnd(cfg, s, 5);
    }
  }
}
