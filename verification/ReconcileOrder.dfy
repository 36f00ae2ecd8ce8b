/** The checks of one controller pass, one by one (internal/assignment/controller/controller.go):
    each has a condition of its own and a consequence of its own, and the first that fails decides. */
module ReconcileOrder {
  import opened Kube
  import opened Seqs
  import opened Reconcile

  // ---- up to the pause -------------------------------------------------------------------

  datatype EarlyCheck =
    | NotDeleting | HasFinalizer
    | TemplateExists | TemplateIsSame | TemplateIsUnchanged | TemplateFits
    | BundleExists | BundleCompiles | BundleIsProtected | BoundaryMatches | NotPaused

  function EarlyPlace(c: EarlyCheck): nat {
    match c
    case NotDeleting => 0
    case HasFinalizer => 1
    case TemplateExists => 2
    case TemplateIsSame => 3
    case TemplateIsUnchanged => 4
    case TemplateFits => 5
    case BundleExists => 6
    case BundleCompiles => 7
    case BundleIsProtected => 8
    case BoundaryMatches => 9
    case NotPaused => 10
  }

  function TemplateOf(a: Assignment, v: View): Option<Template> {
    if a.template.name in v.templates then Some(v.templates[a.template.name]) else None
  }

  function BundleOf(a: Assignment, v: View): Option<Bundle> {
    if a.bundle in v.bundles then Some(v.bundles[a.bundle]) else None
  }

  /** What each check asks, by itself. */
  predicate EarlyPasses(a: Assignment, t: Option<Template>, b: Option<Bundle>, c: EarlyCheck) {
    match c
    case NotDeleting => !a.deleting
    case HasFinalizer => ASSIGNMENT_FINALIZER in a.finalizers
    case TemplateExists => a.template.name == "" || (t.Some? && !t.value.deleting)
    case TemplateIsSame => a.template.name == "" || (t.Some? && t.value.uid == a.template.uid)
    case TemplateIsUnchanged => a.template.name == "" || (t.Some? && t.value.revision == a.template.revision)
    case TemplateFits => a.template.name == "" || (t.Some? && t.value.enabled && t.value.bundle == a.bundle)
    case BundleExists => b.Some? && !b.value.deleting
    case BundleCompiles => b.Some? && b.value.rejected == []
    case BundleIsProtected => b.Some? && BUNDLE_FINALIZER in b.value.finalizers
    case BoundaryMatches =>
      || a.template.name == ""
      || (t.Some? && b.Some? && t.value.bundleRevision == b.value.revision && a.tenant != ""
          && b.value.tenant == Some(a.tenant))
    case NotPaused => !a.paused
  }

  /** Every check before this one passes. */
  predicate ReachesEarly(a: Assignment, v: View, c: EarlyCheck) {
    forall c' :: EarlyPlace(c') < EarlyPlace(c) ==> EarlyPasses(a, TemplateOf(a, v), BundleOf(a, v), c')
  }

  predicate FirstEarly(a: Assignment, v: View, c: EarlyCheck) {
    ReachesEarly(a, v, c) && !EarlyPasses(a, TemplateOf(a, v), BundleOf(a, v), c)
  }

  predicate EarlyPass(a: Assignment, v: View) {
    ReachesEarly(a, v, NotPaused) && EarlyPasses(a, TemplateOf(a, v), BundleOf(a, v), NotPaused)
  }

  function ResolvedRef(b: Bundle): ResolvedBundle { ResolvedBundle(b.name, b.uid, b.revision) }

  /** The first of these checks to fail decides what the pass does: reports before the bundle is
      known name nothing, and a paused pass keeps both stored references. */
  lemma EarlyFailureDecides(cfg: Config, a: Assignment, v: View, c: EarlyCheck)
    requires FirstEarly(a, v, c)
    ensures var d, quiet := Decide(cfg, a, v), (r: Reason) => Tell(Progress(None, None, None, false, r));
            match c
            case NotDeleting => d == Finalize
            case HasFinalizer => d == AddFinalizer
            case TemplateExists => d == quiet(TemplateNotFound)
            case TemplateIsSame => d == quiet(TemplateReplaced)
            case TemplateIsUnchanged => d == quiet(TemplateRevisionMismatch)
            case TemplateFits => d == quiet(TemplateInvalid)
            case BundleExists => d == quiet(BundleNotFound)
            case BundleCompiles =>
              exists text :: a.bundle in v.bundles && text in v.bundles[a.bundle].rejected
                  && d == quiet(BundleInvalid(text))
            case BundleIsProtected => d == ProtectBundle(a.bundle)
            case BoundaryMatches => d == quiet(TemplateBoundaryMismatch)
            case NotPaused =>
              && a.bundle in v.bundles
              && d == Tell(Progress(Some(ResolvedRef(v.bundles[a.bundle])), a.status.workloadRef, a.status.podRef,
                                    a.status.podRef.Some?, Paused))
  {
    EarlierPass(a, v, c);
    if c == BundleCompiles {
      assert Decide(cfg, a, v) == Halt(BundleInvalid(FirstRejected(v.bundles[a.bundle].rejected, v.order)));
    }
  }

  lemma EarlierPass(a: Assignment, v: View, c: EarlyCheck)
    requires ReachesEarly(a, v, c)
    ensures var t, b, k := TemplateOf(a, v), BundleOf(a, v), EarlyPlace(c);
            && (k > 0 ==> EarlyPasses(a, t, b, NotDeleting)) && (k > 1 ==> EarlyPasses(a, t, b, HasFinalizer))
            && (k > 2 ==> EarlyPasses(a, t, b, TemplateExists)) && (k > 3 ==> EarlyPasses(a, t, b, TemplateIsSame))
            && (k > 4 ==> EarlyPasses(a, t, b, TemplateIsUnchanged)) && (k > 5 ==> EarlyPasses(a, t, b, TemplateFits))
            && (k > 6 ==> EarlyPasses(a, t, b, BundleExists)) && (k > 7 ==> EarlyPasses(a, t, b, BundleCompiles))
            && (k > 8 ==> EarlyPasses(a, t, b, BundleIsProtected)) && (k > 9 ==> EarlyPasses(a, t, b, BoundaryMatches))
  {}

  lemma PastThePause(cfg: Config, a: Assignment, v: View)
    requires EarlyPass(a, v)
    ensures a.bundle in v.bundles && Decide(cfg, a, v) == DecideWorkload(cfg, a, v, v.bundles[a.bundle])
  {
    EarlierPass(a, v, NotPaused);
  }

  // ---- the workload and the number of its Pods -------------------------------------------

  datatype WorkloadCheck =
    | WorkloadsListed | SomeWorkload | OneWorkload | SandboxIdRecorded | OneReplica | WorkloadIsFresh
    | PodsListed | SomePod | OnePod

  function WorkloadPlace(c: WorkloadCheck): nat {
    match c
    case WorkloadsListed => 0
    case SomeWorkload => 1
    case OneWorkload => 2
    case SandboxIdRecorded => 3
    case OneReplica => 4
    case WorkloadIsFresh => 5
    case PodsListed => 6
    case SomePod => 7
    case OnePod => 8
  }

  /** The Pods of the one workload, if there is exactly one. */
  function PodsOf(a: Assignment, v: View): Option<seq<Pod>> {
    var ws := MatchingWorkloads(v, a);
    if ws.Some? && |ws.value| == 1 then MatchingPods(v, a, ws.value[0]) else None
  }

  predicate WorkloadPasses(a: Assignment, ws: Option<seq<Workload>>, ps: Option<seq<Pod>>, c: WorkloadCheck) {
    match c
    case WorkloadsListed => ws.Some?
    case SomeWorkload => ws.Some? && |ws.value| >= 1
    case OneWorkload => ws.Some? && |ws.value| == 1
    case SandboxIdRecorded => a.sandboxId != ""
    case OneReplica => ws.Some? && |ws.value| == 1 && ws.value[0].replicas == Some(1)
    case WorkloadIsFresh => ws.Some? && |ws.value| == 1 && ws.value[0].created >= a.created
    case PodsListed => ps.Some?
    case SomePod => ps.Some? && |ps.value| >= 1
    case OnePod => ps.Some? && |ps.value| == 1
  }

  predicate ReachesWorkload(a: Assignment, v: View, c: WorkloadCheck) {
    && EarlyPass(a, v)
    && forall c' :: WorkloadPlace(c') < WorkloadPlace(c) ==>
          WorkloadPasses(a, MatchingWorkloads(v, a), PodsOf(a, v), c')
  }

  predicate FirstOnWorkload(a: Assignment, v: View, c: WorkloadCheck) {
    ReachesWorkload(a, v, c) && !WorkloadPasses(a, MatchingWorkloads(v, a), PodsOf(a, v), c)
  }

  function WorkloadRef(w: Workload): ObjectRef { ObjectRef("BatchSandbox", w.name, w.uid) }

  function PodRef(p: Pod): ObjectRef { ObjectRef("Pod", p.name, p.uid) }

  /** Once the one workload is known it is named, and no Pod is named when there is none or there
      are several. */
  lemma WorkloadFailureDecides(cfg: Config, a: Assignment, v: View, c: WorkloadCheck)
    requires FirstOnWorkload(a, v, c)
    ensures a.bundle in v.bundles
    ensures var d, ws, b := Decide(cfg, a, v), MatchingWorkloads(v, a), Some(ResolvedRef(v.bundles[a.bundle]));
            var naming := (w: Option<ObjectRef>, r: Reason) => Tell(Progress(b, w, None, false, r));
            match c
            case WorkloadsListed => d == Fail
            case SomeWorkload => d == naming(None, WorkloadPending)
            case OneWorkload => d == naming(None, MultipleWorkloads)
            case SandboxIdRecorded => ws.Some? && |ws.value| == 1 && d == RecordSandbox(ws.value[0].name)
            case OneReplica =>
              ws.Some? && |ws.value| == 1 && d == naming(Some(WorkloadRef(ws.value[0])), InvalidReplicaCount)
            case WorkloadIsFresh =>
              ws.Some? && |ws.value| == 1 && d == naming(Some(WorkloadRef(ws.value[0])), StaleWorkload)
            case PodsListed => d == Fail
            case SomePod => ws.Some? && |ws.value| == 1 && d == naming(Some(WorkloadRef(ws.value[0])), PodPending)
            case OnePod => ws.Some? && |ws.value| == 1 && d == naming(Some(WorkloadRef(ws.value[0])), MultiplePods)
  {
    PastThePause(cfg, a, v);
    WorkloadLadder(cfg, a, v, v.bundles[a.bundle], MatchingWorkloads(v, a), PodsOf(a, v), c);
  }

  lemma EarlierOnWorkload(a: Assignment, ws: Option<seq<Workload>>, ps: Option<seq<Pod>>, c: WorkloadCheck)
    requires forall c' :: WorkloadPlace(c') < WorkloadPlace(c) ==> WorkloadPasses(a, ws, ps, c')
    ensures var k := WorkloadPlace(c);
            && (k > 0 ==> WorkloadPasses(a, ws, ps, WorkloadsListed))
                && (k > 1 ==> WorkloadPasses(a, ws, ps, SomeWorkload))
            && (k > 2 ==> WorkloadPasses(a, ws, ps, OneWorkload))
                && (k > 3 ==> WorkloadPasses(a, ws, ps, SandboxIdRecorded))
            && (k > 4 ==> WorkloadPasses(a, ws, ps, OneReplica))
                && (k > 5 ==> WorkloadPasses(a, ws, ps, WorkloadIsFresh))
            && (k > 6 ==> WorkloadPasses(a, ws, ps, PodsListed)) && (k > 7 ==> WorkloadPasses(a, ws, ps, SomePod))
  {}

  lemma WorkloadLadder(
      cfg: Config, a: Assignment, v: View, b: Bundle, ws: Option<seq<Workload>>, ps: Option<seq<Pod>>, c: WorkloadCheck)
    requires ws == MatchingWorkloads(v, a) && ps == PodsOf(a, v)
    requires forall c' :: WorkloadPlace(c') < WorkloadPlace(c) ==> WorkloadPasses(a, ws, ps, c')
    requires !WorkloadPasses(a, ws, ps, c)
    ensures var d := DecideWorkload(cfg, a, v, b);
            var naming := (w: Option<ObjectRef>, r: Reason) => Tell(Progress(Some(ResolvedRef(b)), w, None, false, r));
            match c
            case WorkloadsListed => d == Fail
            case SomeWorkload => d == naming(None, WorkloadPending)
            case OneWorkload => d == naming(None, MultipleWorkloads)
            case SandboxIdRecorded => ws.Some? && |ws.value| == 1 && d == RecordSandbox(ws.value[0].name)
            case OneReplica =>
              ws.Some? && |ws.value| == 1 && d == naming(Some(WorkloadRef(ws.value[0])), InvalidReplicaCount)
            case WorkloadIsFresh =>
              ws.Some? && |ws.value| == 1 && d == naming(Some(WorkloadRef(ws.value[0])), StaleWorkload)
            case PodsListed => d == Fail
            case SomePod => ws.Some? && |ws.value| == 1 && d == naming(Some(WorkloadRef(ws.value[0])), PodPending)
            case OnePod => ws.Some? && |ws.value| == 1 && d == naming(Some(WorkloadRef(ws.value[0])), MultiplePods)
  {
    EarlierOnWorkload(a, ws, ps, c);
  }

  // ---- the one Pod -----------------------------------------------------------------------

  datatype PodCheck =
    | AccountNamed | AccountExists | AccountEligible | TokenNotMounted
    | PodNotFenced | PodIsFresh | RuntimeAllowed | PodIsReady | IdentityIsolated

  function PodPlace(c: PodCheck): nat {
    match c
    case AccountNamed => 0
    case AccountExists => 1
    case AccountEligible => 2
    case TokenNotMounted => 3
    case PodNotFenced => 4
    case PodIsFresh => 5
    case RuntimeAllowed => 6
    case PodIsReady => 7
    case IdentityIsolated => 8
  }

  predicate PodPasses(cfg: Config, a: Assignment, accounts: map<string, ServiceAccount>, b: Bundle, w: Workload, p: Pod,
                      c: PodCheck) {
    match c
    case AccountNamed => p.account != ""
    case AccountExists => p.account in accounts
    case AccountEligible => p.account in accounts && accounts[p.account] == ServiceAccount(true, Some(false))
    case TokenNotMounted => p.automount == Some(false)
    case PodNotFenced => p.uid == "" || p.uid != a.resumeAfter
    case PodIsFresh => w.pool != "" || p.created >= a.created
    case RuntimeAllowed => p.runtimeClass in cfg.runtimeClasses
    case PodIsReady => p.ready
    case IdentityIsolated => b.mediated ==> IdentityOk(cfg, p)
  }

  /** Exactly one workload with exactly one Pod was found, and nothing before the Pod checks fails. */
  predicate FindsPod(a: Assignment, v: View, w: Workload, p: Pod) {
    && ReachesWorkload(a, v, OnePod)
    && MatchingWorkloads(v, a) == Some([w]) && MatchingPods(v, a, w) == Some([p])
  }

  predicate ReachesPod(cfg: Config, a: Assignment, v: View, w: Workload, p: Pod, c: PodCheck) {
    && FindsPod(a, v, w, p) && a.bundle in v.bundles
    && forall c' :: PodPlace(c') < PodPlace(c) ==> PodPasses(cfg, a, v.accounts, v.bundles[a.bundle], w, p, c')
  }

  /** The reason and the value of PodBound that go with each check. */
  function PodReason(c: PodCheck): Reason {
    match c
    case AccountNamed => ServiceAccountNotReady("bound Pod does not declare a ServiceAccount")
    case AccountExists => ServiceAccountNotReady("sandbox ServiceAccount is unavailable")
    case AccountEligible => ServiceAccountNotReady("not eligible")
    case TokenNotMounted => ServiceAccountNotReady("automountServiceAccountToken must be false")
    case PodNotFenced => ResumePending
    case PodIsFresh => StalePod
    case RuntimeAllowed => RuntimeNotAllowed
    case PodIsReady => PodNotReady
    case IdentityIsolated => IdentityNotReady("identity is not isolated")
  }

  predicate CountsAsBound(c: PodCheck) { c != PodNotFenced && c != PodIsFresh }

  lemma AtThePod(cfg: Config, a: Assignment, v: View, w: Workload, p: Pod)
    requires FindsPod(a, v, w, p)
    ensures a.bundle in v.bundles && Decide(cfg, a, v) == DecidePod(cfg, a, v, v.bundles[a.bundle], w, p)
  {
    PastThePause(cfg, a, v);
    EarlierOnWorkload(a, MatchingWorkloads(v, a), PodsOf(a, v), OnePod);
    WorkloadStage(cfg, a, v, v.bundles[a.bundle], w, p);
  }

  lemma WorkloadStage(cfg: Config, a: Assignment, v: View, b: Bundle, w: Workload, p: Pod)
    requires MatchingWorkloads(v, a) == Some([w]) && MatchingPods(v, a, w) == Some([p])
    requires a.sandboxId != "" && w.replicas == Some(1) && w.created >= a.created
    ensures DecideWorkload(cfg, a, v, b) == DecidePod(cfg, a, v, b, w, p)
  {
    assert MatchingWorkloads(v, a).value[0] == w && MatchingPods(v, a, w).value[0] == p;
  }

  /** A pass that finds one workload with one Pod names both, and the bundle, whatever its verdict;
      the first of the Pod checks to fail gives the reason. */
  lemma PodFailureDecides(cfg: Config, a: Assignment, v: View, w: Workload, p: Pod, c: PodCheck)
    requires ReachesPod(cfg, a, v, w, p, c) && !PodPasses(cfg, a, v.accounts, v.bundles[a.bundle], w, p, c)
    ensures Decide(cfg, a, v)
            == Tell(Progress(Some(ResolvedRef(v.bundles[a.bundle])), Some(WorkloadRef(w)), Some(PodRef(p)),
                                               CountsAsBound(c), PodReason(c)))
  {
    AtThePod(cfg, a, v, w, p);
    PodLadder(cfg, a, v, v.bundles[a.bundle], w, p, c);
  }

  lemma PodLadder(cfg: Config, a: Assignment, v: View, b: Bundle, w: Workload, p: Pod, c: PodCheck)
    requires forall c' :: PodPlace(c') < PodPlace(c) ==> PodPasses(cfg, a, v.accounts, b, w, p, c')
    requires !PodPasses(cfg, a, v.accounts, b, w, p, c)
    ensures DecidePod(cfg, a, v, b, w, p) ==
              Tell(Progress(Some(ResolvedRef(b)), Some(WorkloadRef(w)), Some(PodRef(p)), CountsAsBound(c),
                            PodReason(c)))
  {
    EarlierOnPod(cfg, a, v.accounts, b, w, p, c);
  }

  lemma EarlierOnPod(cfg: Config, a: Assignment, s: map<string, ServiceAccount>, b: Bundle, w: Workload, p: Pod,
                     c: PodCheck)
    requires forall c' :: PodPlace(c') < PodPlace(c) ==> PodPasses(cfg, a, s, b, w, p, c')
    ensures var k := PodPlace(c);
            && (k > 0 ==> PodPasses(cfg, a, s, b, w, p, AccountNamed))
            && (k > 1 ==> PodPasses(cfg, a, s, b, w, p, AccountExists))
            && (k > 2 ==> PodPasses(cfg, a, s, b, w, p, AccountEligible))
            && (k > 3 ==> PodPasses(cfg, a, s, b, w, p, TokenNotMounted))
            && (k > 4 ==> PodPasses(cfg, a, s, b, w, p, PodNotFenced))
            && (k > 5 ==> PodPasses(cfg, a, s, b, w, p, PodIsFresh))
            && (k > 6 ==> PodPasses(cfg, a, s, b, w, p, RuntimeAllowed))
            && (k > 7 ==> PodPasses(cfg, a, s, b, w, p, PodIsReady))
  {}

  /** And when none of them fails the pass reports Ready, naming the same objects. */
  lemma NoFailureIsReady(cfg: Config, a: Assignment, v: View, w: Workload, p: Pod)
    requires FindsPod(a, v, w, p) && a.bundle in v.bundles
    requires forall c :: PodPasses(cfg, a, v.accounts, v.bundles[a.bundle], w, p, c)
    ensures Decide(cfg, a, v) ==
              Tell(Bound(ResolvedRef(v.bundles[a.bundle]), WorkloadRef(w), PodRef(p),
                         if !v.bundles[a.bundle].mediated then IdentityNotRequired
                         else if cfg.mode == ExternalMediator then ExternalMediatorConfigured
                         else EgressIdentityConfigured))
  {
    AtThePod(cfg, a, v, w, p);
    PodLadderPassed(cfg, a, v, v.bundles[a.bundle], w, p);
  }

  lemma PodLadderPassed(cfg: Config, a: Assignment, v: View, b: Bundle, w: Workload, p: Pod)
    requires forall c :: PodPasses(cfg, a, v.accounts, b, w, p, c)
    ensures DecidePod(cfg, a, v, b, w, p) ==
              Tell(Bound(ResolvedRef(b), WorkloadRef(w), PodRef(p),
                         if !b.mediated then IdentityNotRequired
                         else if cfg.mode == ExternalMediator then ExternalMediatorConfigured
                         else EgressIdentityConfigured))
  {
    EarlierOnPod(cfg, a, v.accounts, b, w, p, IdentityIsolated);
    assert PodPasses(cfg, a, v.accounts, b, w, p, IdentityIsolated);
  }

  /** Whatever the verdict, a pass that finds one workload with one Pod names both. */
  lemma FoundObjectsAreNamed(cfg: Config, a: Assignment, v: View, w: Workload, p: Pod)
    requires FindsPod(a, v, w, p)
    ensures a.bundle in v.bundles && NamesAll(Decide(cfg, a, v), a.generation, v.bundles[a.bundle], w, p)
  {
    AtThePod(cfg, a, v, w, p);
    PodStageNames(cfg, a, v, v.bundles[a.bundle], w, p);
  }

  /** The status to be stored refers to these three objects. */
  predicate NamesAll(d: Action, generation: int, b: Bundle, w: Workload, p: Pod) {
    && d.Tell?
    && var status := Render(d.report, generation, 0);
    && status.workloadRef == Some(WorkloadRef(w)) && status.podRef == Some(PodRef(p))
    && status.resolved == Some(ResolvedRef(b))
  }

  lemma PodStageNames(cfg: Config, a: Assignment, v: View, b: Bundle, w: Workload, p: Pod)
    ensures NamesAll(DecidePod(cfg, a, v, b, w, p), a.generation, b, w, p)
  {
    var first := FirstPodFailure(cfg, a, v.accounts, b, w, p, 0);
    if first.None? { PodLadderPassed(cfg, a, v, b, w, p); } else { PodLadder(cfg, a, v, b, w, p, first.value); }
  }

  /** The first Pod check that fails, if one does. */
  lemma FirstPodFailure(cfg: Config, a: Assignment, s: map<string, ServiceAccount>, b: Bundle, w: Workload, p: Pod,
                        k: nat)
    returns (first: Option<PodCheck>)
    requires k <= 9 && forall c :: PodPlace(c) < k ==> PodPasses(cfg, a, s, b, w, p, c)
    ensures first.None? ==> forall c :: PodPasses(cfg, a, s, b, w, p, c)
    ensures first.Some? ==>
              && !PodPasses(cfg, a, s, b, w, p, first.value)
              && forall c :: PodPlace(c) < PodPlace(first.value) ==> PodPasses(cfg, a, s, b, w, p, c)
    decreases 9 - k
  {
    if k == 9 { return None; }
    var c :| PodPlace(c) == k;
    if !PodPasses(cfg, a, s, b, w, p, c) { return Some(c); }
    forall c' | PodPlace(c') < k + 1 ensures PodPasses(cfg, a, s, b, w, p, c') { PlaceIsUnique(c, c'); }
    first := FirstPodFailure(cfg, a, s, b, w, p, k + 1);
  }

  lemma PlaceIsUnique(c: PodCheck, c': PodCheck)
    ensures PodPlace(c) == PodPlace(c') ==> c == c'
  {}

  /** A reason about the Pod is reported if and only if its own check is the first that fails. */
  lemma PodReasonIsExact(cfg: Config, a: Assignment, v: View, w: Workload, p: Pod, c: PodCheck)
    requires FindsPod(a, v, w, p) && a.bundle in v.bundles
    ensures var d := Decide(cfg, a, v);
            (d.Tell? && d.report.Progress? && d.report.reason == PodReason(c))
            <==> ReachesPod(cfg, a, v, w, p, c) && !PodPasses(cfg, a, v.accounts, v.bundles[a.bundle], w, p, c)
  {
    var first := FirstPodFailure(cfg, a, v.accounts, v.bundles[a.bundle], w, p, 0);
    if first.None? {
      NoFailureIsReady(cfg, a, v, w, p);
    } else {
      PodFailureDecides(cfg, a, v, w, p, first.value);
      ReasonsDiffer(c, first.value);
      PlaceIsUnique(c, first.value);
    }
  }

  lemma ReasonsDiffer(c: PodCheck, c': PodCheck)
    ensures PodReason(c) == PodReason(c') ==> c == c'
  {
    if c.AccountNamed? { assert |PodReason(c).detail| == 43; }
    if c.AccountExists? { assert |PodReason(c).detail| == 37; }
    if c.AccountEligible? { assert |PodReason(c).detail| == 12; }
    if c.TokenNotMounted? { assert |PodReason(c).detail| == 42; }
  }

  // ---- what is stored --------------------------------------------------------------------

  /** The value a report gives to each condition. */
  predicate Holds(r: Report, kind: ConditionKind) {
    match kind
    case BundleResolved => r.Bound? || r.resolved.Some?
    case PodBound => r.Bound? || r.podBound
    case IdentityReady => r.Bound?
    case Ready => r.Bound?
  }

  /** A rendered report has each condition once, with that value, stamped with the generation and the
      time; a condition that does not hold gives the reason of the report. */
  lemma RenderedExactly(r: Report, generation: int, now: Time, kind: ConditionKind)
    ensures var cs := Render(r, generation, now).conditions;
            && (exists c :: c in cs && c.kind == kind)
            && (forall i, j :: 0 <= i < j < |cs| ==> cs[i].kind != cs[j].kind)
            && (forall c :: c in cs && c.kind == kind ==>
                  && c.holds == Holds(r, kind) && c.generation == generation && c.transition == now
                  && (!c.holds ==> r.Progress? && c.reason == r.reason))
  {
    var cs := Conditions(r, generation, now);
    assert Render(r, generation, now).conditions == cs && |cs| == 4;
    assert cs[0].kind == BundleResolved && cs[1].kind == PodBound && cs[2].kind == IdentityReady && cs[3].kind == Ready;
    assert cs[0] in cs && cs[1] in cs && cs[2] in cs && cs[3] in cs;
  }

  /** Two statuses are equivalent exactly when they differ in transition times at most. */
  lemma EquivalentExactly(l: Status, r: Status)
    ensures Equivalent(l, r) <==>
              && l.resolved == r.resolved && l.workloadRef == r.workloadRef && l.podRef == r.podRef
              && |l.conditions| == |r.conditions|
              && forall i :: 0 <= i < |l.conditions| ==>
                   l.conditions[i] == r.conditions[i].(transition := l.conditions[i].transition)
  {
    var x, y := StripTimes(l.conditions), StripTimes(r.conditions);
    if Equivalent(l, r) {
      assert x == y;
      forall i | 0 <= i < |l.conditions|
        ensures l.conditions[i] == r.conditions[i].(transition := l.conditions[i].transition)
      {
        assert x[i] == y[i];
      }
    }
    if |l.conditions| == |r.conditions| && forall i :: 0 <= i < |l.conditions| ==>
         l.conditions[i] == r.conditions[i].(transition := l.conditions[i].transition)
    {
      assert x == y;
    }
  }

  // ---- Pods from a Pool, and what a Ready Pod may not do ---------------------------------

  /** A workload taken from a Pool is bound to a Pod exactly when the Pool replaces its Pods, the
      allocation names this Pod alone, and the Pod is live and owned by that Pool. */
  lemma PoolPodExactly(v: View, a: Assignment, w: Workload, p: Pod)
    requires w.pool != "" && v.pods.Some? && p in v.pods.value
    requires forall q :: q in v.pods.value && q.name == p.name ==> q == p
    ensures MatchingPods(v, a, w) == Some([p]) <==>
              && w.pool in v.pools && v.pools[w.pool].recycle in {"Delete", "Replace"}
              && w.allocation == Allocated([p.name]) && !p.deleting
              && exists o :: o in p.owners && o.controller && o.kind == "Pool" && o.uid == v.pools[w.pool].uid
  {
    if w.allocation.Allocated? && |w.allocation.pods| == 1 {
      var n := w.allocation.pods[0];
      var named := Keep(v.pods.value, (q: Pod) => q.name == n);
      if n == p.name { assert p in named && named[0] in named && named[0] == p; }
      if named != [] { assert named[0] in named && named[0].name == n; }
    }
  }

  /** A workload belongs to the assignment exactly when it is listed, labelled with its name, and
      carries its UID in the first of the two annotations that is not empty. */
  lemma MatchingWorkloadsExactly(v: View, a: Assignment, w: Workload)
    requires v.workloads.Some?
    ensures w in MatchingWorkloads(v, a).value <==>
              && w in v.workloads.value && w.assignmentLabel == a.name
              && (if w.openSandboxUid != "" then w.openSandboxUid else w.directUid) == a.uid
  {}

  /** And a Pod of a workload outside Pools likewise, if that workload controls it and it is live. */
  lemma MatchingPodsExactly(v: View, a: Assignment, w: Workload, p: Pod)
    requires v.pods.Some? && w.pool == ""
    ensures p in MatchingPods(v, a, w).value <==>
              && p in v.pods.value && p.assignmentLabel == a.name && !p.deleting
              && (if p.openSandboxUid != "" then p.openSandboxUid else p.directUid) == a.uid
              && exists o :: o in p.owners && o.controller && o.kind == "BatchSandbox" && o.uid == w.uid
  {}

  lemma NoTokenInAnyVolume(p: Pod, x: Volume, s: Option<TokenSource>)
    requires NoProjectedToken(p) && x in p.volumes && x.projected.Some? && s in x.projected.value
    ensures s == None
  {
    assert s.None?;
  }

  /** A Ready Pod with mediated egress has, in the external mode, no projected service account token,
      and otherwise one with the gateway's audience that lives at most ten minutes. */
  lemma ReadyPodHasItsIdentity(cfg: Config, a: Assignment, v: View, w: Workload, p: Pod)
    requires ReadyGate(cfg, a, v, w, p) && v.bundles[a.bundle].mediated
    ensures cfg.mode == ExternalMediator ==>
              forall x, s :: x in p.volumes && x.projected.Some? && s in x.projected.value ==> s == None
    ensures cfg.mode == ProjectedSidecar ==>
              exists x, s :: x in p.volumes && x.name == "assignment-identity" && x.projected.Some?
                             && Some(s) in x.projected.value && s.path == "token"
                             && s.audience == "aks-sandbox-capability-gateway"
                             && s.expiration.Some? && 0 < s.expiration.value <= 600
    ensures cfg.mode == ProjectedSidecar ==>
              exists c, m :: c in p.containers && m in c.mounts && m.name == "assignment-identity"
  {
    if cfg.mode == ExternalMediator {
      forall x, s | x in p.volumes && x.projected.Some? && s in x.projected.value ensures s == None {
        NoTokenInAnyVolume(p, x, s);
      }
    } else {
      var x :| x in p.volumes && x.name == IDENTITY_VOLUME && x.projected.Some?
               && exists s :: s in x.projected.value && IdentityToken(s);
      var s :| s in x.projected.value && IdentityToken(s);
      assert s == Some(s.value);
    }
  }

  /** A Ready Pod with mediated egress and a projected identity: no container but egress mounts the
      token, and that one read-only at the agreed place. */
  lemma ReadyPodIsIsolated(cfg: Config, a: Assignment, v: View, w: Workload, p: Pod, c: Container, m: Mount)
    requires ReadyGate(cfg, a, v, w, p) && v.bundles[a.bundle].mediated && cfg.mode == ProjectedSidecar
    requires c in p.containers && m in c.mounts && m.name == "assignment-identity"
    ensures c.name == "egress" && m.readOnly && m.path == "/var/run/aks-sandbox-identity" && m.subPath == ""
            && m.subPathExpr == ""
    ensures p.automount == Some(false)
  {
    assert SoundMount(c, m);
  }
}
