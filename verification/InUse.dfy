/** In-use protection of capability bundles: one sequential controller working from listed
    snapshots, interleaved with API replicas that create, fence and delete assignments and
    with administrators that create and delete bundles
    (internal/assignment/controller/controller.go). */
module InUse {
  import opened Kube
  import opened Reconcile

  /** Where the controller is in its pass. */
  datatype Phase =
    | Idle
    | Picked(a: Assignment)
    | Deciding(a: Assignment, v: View)
    | Releasing(a: Assignment)
    | Unused(a: Assignment)
    | Fetched(a: Assignment, b: Bundle)

  /** `tick` is larger than every version handed out and `uids` holds every UID ever used. */
  datatype State = State(
    assignments: map<string, Assignment>, bundles: map<string, Bundle>,
    queue: set<Assignment>, phase: Phase, tick: nat, uids: set<string>)

  datatype Step =
    // the controller
    | ListAll
    | Pick(a: Assignment)
    | ReadView(v: View)
    | Commit(now: Time)
    | EndPass
    | FinalizeNow
    | ReleaseList
    | ReleaseGet
    | ReleasePut
    // everybody else
    | CreateAssignment(created: Assignment)
    | EditAssignment(name: string, sandboxId: string, paused: bool, resumeAfter: string)
    | DeleteAssignment(name: string)
    | CreateBundle(bundle: Bundle)
    | DeleteBundle(name: string)

  predicate Enabled(s: State, step: Step) {
    match step
    case ListAll => s.phase.Idle?
    case Pick(a) => s.phase.Idle? && a in s.queue
    case ReadView(v) =>
      && s.phase.Picked?
      && (s.phase.a.bundle in v.bundles ==>
            s.phase.a.bundle in s.bundles && v.bundles[s.phase.a.bundle] == s.bundles[s.phase.a.bundle])
    case Commit(_) => s.phase.Deciding? && !s.phase.a.deleting
    // a pass may end early: a deletion that has to wait, or any call that fails
    case EndPass => !s.phase.Idle?
    case FinalizeNow => s.phase.Deciding? && s.phase.a.deleting && ASSIGNMENT_FINALIZER in s.phase.a.finalizers
    case ReleaseList => s.phase.Releasing?
    case ReleaseGet => s.phase.Unused?
    case ReleasePut => s.phase.Fetched?
    case CreateAssignment(a) =>
      a.name !in s.assignments && a.uid !in s.uids && !a.deleting && a.status == EMPTY_STATUS && a.version == s.tick
    case EditAssignment(n, _, _, _) => n in s.assignments
    case DeleteAssignment(n) => n in s.assignments
    case CreateBundle(b) => b.name !in s.bundles && b.uid !in s.uids && !b.deleting && b.version == s.tick
    case DeleteBundle(n) => n in s.bundles
  }

  /** Storing an object whose deletion was requested removes it once no finalizer is left. */
  function PutAssignment(s: State, a: Assignment): State {
    s.(assignments := if a.deleting && a.finalizers == {} then s.assignments - {a.name} else s.assignments[a.name := a],
       tick := s.tick + 1)
  }

  function PutBundle(s: State, b: Bundle): State {
    s.(bundles := if b.deleting && b.finalizers == {} then s.bundles - {b.name} else s.bundles[b.name := b],
       tick := s.tick + 1)
  }

  /** A write of the controller to the assignment it is reconciling. */
  function ControllerPut(s: State, a: Assignment, result: Option<Assignment>): State {
    if result.None? then s.(phase := Idle) else PutAssignment(s, result.value).(phase := Idle)
  }

  /** The write a pass ends with, for the assignment and the view it read. */
  function Conclude(s: State, action: Action, now: Time): State
    requires s.phase.Deciding? && (action.ProtectBundle? ==> action.name in s.phase.v.bundles)
  {
    var a, v := s.phase.a, s.phase.v;
    var gone := a.name !in s.assignments;
    match action
    case AddFinalizer =>
      if gone then s.(phase := Idle)
      else ControllerPut(s, a,
                         Update(s.assignments[a.name], a.(finalizers := a.finalizers + {ASSIGNMENT_FINALIZER}), s.tick))
    case RecordSandbox(id) =>
      if gone then s.(phase := Idle)
      else ControllerPut(s, a, Update(s.assignments[a.name], a.(sandboxId := id), s.tick))
    case Tell(r) =>
      var status := Render(r, a.generation, now);
      if gone || Equivalent(a.status, status) then s.(phase := Idle)
      else ControllerPut(s, a, UpdateStatus(s.assignments[a.name], a.(status := status), s.tick))
    case ProtectBundle(n) =>
      var copy := v.bundles[n];
      if n !in s.bundles || s.bundles[n].version != copy.version then s.(phase := Idle)
      else PutBundle(s, copy.(finalizers := copy.finalizers + {BUNDLE_FINALIZER}, version := s.tick)).(phase := Idle)
    case _ => s.(phase := Idle)
  }

  function Do(cfg: Config, s: State, step: Step): State
    requires Enabled(s, step)
  {
    if step.Commit? then Conclude(s, Decide(cfg, s.phase.a, s.phase.v), step.now) else DoRest(s, step)
  }

  /** Every step but the write that concludes a pass. */
  function DoRest(s: State, step: Step): State
    requires Enabled(s, step) && !step.Commit?
  {
    match step
    case ListAll => s.(queue := s.assignments.Values)
    case Pick(a) => s.(queue := s.queue - {a}, phase := Picked(a))
    case ReadView(v) => s.(phase := Deciding(s.phase.a, v))
    case EndPass => s.(phase := Idle)
    case FinalizeNow =>
      var a := s.phase.a;
      if a.name !in s.assignments then s.(phase := Idle)
      else
        var r := Update(s.assignments[a.name], a.(finalizers := a.finalizers - {ASSIGNMENT_FINALIZER}), s.tick);
        if r.None? then s.(phase := Idle) else PutAssignment(s, r.value).(phase := Releasing(a))
    case ReleaseList =>
      if exists n :: n in s.assignments && s.assignments[n].uid != s.phase.a.uid
          && s.assignments[n].bundle == s.phase.a.bundle
      then s.(phase := Idle) else s.(phase := Unused(s.phase.a))
    case ReleaseGet =>
      if s.phase.a.bundle !in s.bundles then s.(phase := Idle)
      else s.(phase := Fetched(s.phase.a, s.bundles[s.phase.a.bundle]))
    case ReleasePut =>
      var b := s.phase.b;
      if b.name !in s.bundles || s.bundles[b.name].version != b.version then s.(phase := Idle)
      else PutBundle(s, b.(finalizers := b.finalizers - {BUNDLE_FINALIZER}, version := s.tick)).(phase := Idle)
    case CreateAssignment(a) => PutAssignment(s, a).(uids := s.uids + {a.uid})
    case EditAssignment(n, id, paused, uid) =>
      PutAssignment(s, s.assignments[n].(sandboxId := id, paused := paused, resumeAfter := uid, version := s.tick))
    case DeleteAssignment(n) => PutAssignment(s, s.assignments[n].(deleting := true, version := s.tick))
    case CreateBundle(b) => PutBundle(s, b).(uids := s.uids + {b.uid})
    case DeleteBundle(n) => PutBundle(s, s.bundles[n].(deleting := true, version := s.tick))
  }

  // ---- the invariant ---------------------------------------------------------------------

  /** The bundle object with this name and UID exists and holds the protection finalizer. */
  predicate Holds(s: State, name: string, uid: string) {
    name in s.bundles && s.bundles[name].uid == uid && BUNDLE_FINALIZER in s.bundles[name].finalizers
  }

  /** The promise: authority is only ever drawn from a bundle incarnation that still exists. */
  predicate Protected(s: State, a: Assignment) {
    !a.deleting && IsReady(a.status) ==>
      a.status.resolved.Some? && a.status.resolved.value.name == a.bundle
          && Holds(s, a.bundle, a.status.resolved.value.uid)
  }

  predicate AllProtected(s: State) {
    forall n :: n in s.assignments ==> Protected(s, s.assignments[n])
  }

  predicate Stored(s: State) {
    && (forall n :: n in s.assignments ==>
          s.assignments[n].name == n && s.assignments[n].uid in s.uids && s.assignments[n].version < s.tick)
    && (forall n, m :: n in s.assignments && m in s.assignments && s.assignments[n].uid == s.assignments[m].uid ==>
          n == m)
    && (forall n :: n in s.bundles ==> s.bundles[n].name == n && s.bundles[n].version < s.tick)
  }

  /** A snapshot: known UID, old version, equal to the stored object when the versions agree,
      and a requested deletion is never taken back. */
  predicate Snapshot(s: State, a: Assignment) {
    && a.uid in s.uids && a.version < s.tick
    && (a.name in s.assignments && s.assignments[a.name].version == a.version ==> s.assignments[a.name] == a)
    && (a.deleting ==> forall n :: n in s.assignments && s.assignments[n].uid == a.uid ==> s.assignments[n].deleting)
  }

  predicate NoReadyUser(s: State, bundle: string) {
    forall n :: n in s.assignments && s.assignments[n].bundle == bundle && !s.assignments[n].deleting
                ==> !IsReady(s.assignments[n].status)
  }

  predicate BundleCopy(s: State, b: Bundle) {
    b.version < s.tick && (b.name in s.bundles && s.bundles[b.name].version == b.version ==> s.bundles[b.name] == b)
  }

  predicate PhaseOk(s: State) {
    match s.phase
    case Idle => true
    case Picked(a) => Snapshot(s, a)
    case Deciding(a, v) =>
      && Snapshot(s, a)
      && (a.bundle in v.bundles ==> v.bundles[a.bundle].name == a.bundle && BundleCopy(s, v.bundles[a.bundle]))
      && (a.bundle in v.bundles && BUNDLE_FINALIZER in v.bundles[a.bundle].finalizers ==>
            Holds(s, a.bundle, v.bundles[a.bundle].uid))
    case Releasing(a) => Snapshot(s, a) && a.deleting
    case Unused(a) => NoReadyUser(s, a.bundle)
    case Fetched(a, b) => b.name == a.bundle && NoReadyUser(s, a.bundle)
  }

  predicate Inv(s: State) {
    && Stored(s)
    && (forall a :: a in s.queue ==> Snapshot(s, a))
    && PhaseOk(s)
    && AllProtected(s)
  }

  // ---- preservation ----------------------------------------------------------------------

  /** `s'` differs from `s` by storing `a'` over the assignment `a` of the same incarnation. */
  predicate Rewrites(s: State, s': State, a: Assignment, a': Assignment) {
    && a.name in s.assignments && s.assignments[a.name] == a
    && a'.name == a.name && a'.uid == a.uid && a'.bundle == a.bundle && a'.version == s.tick
    && (a.deleting ==> a'.deleting)
    && s'.assignments == PutAssignment(s, a').assignments
    && s'.bundles == s.bundles && s'.tick == s.tick + 1 && s'.uids == s.uids && s'.queue == s.queue
  }

  lemma RewriteKeepsSnapshots(s: State, s': State, a: Assignment, a': Assignment)
    requires Stored(s) && Rewrites(s, s', a, a')
    ensures Stored(s')
    ensures forall c :: Snapshot(s, c) ==> Snapshot(s', c)
  {}

  /** A write that keeps the status keeps every promise. */
  lemma RewriteMetadata(s: State, s': State, a: Assignment, a': Assignment)
    requires Inv(s) && Rewrites(s, s', a, a') && a'.status == a.status
    requires s'.phase == s.phase || s'.phase == Idle
    ensures Inv(s')
  {
    RewriteKeepsSnapshots(s, s', a, a');
    assert Protected(s, a);
  }

  /** A Ready report is about a bundle the store still holds under that UID. */
  predicate ReportOk(s: State, a: Assignment, r: Report) {
    r.Bound? ==> r.bundle.name == a.bundle && Holds(s, a.bundle, r.bundle.uid)
  }

  /** A status write of the controller: Ready is only written over a bundle the pass has seen
      protected, and nobody but the controller takes the protection away. */
  lemma StatusWriteProtected(s: State, r: Report, now: Time)
    requires Inv(s) && s.phase.Deciding? && ReportOk(s, s.phase.a, r)
    ensures Inv(Conclude(s, Tell(r), now))
  {
    var a, s' := s.phase.a, Conclude(s, Tell(r), now);
    if s'.tick != s.tick {
      var a' := a.(status := Render(r, a.generation, now), version := s.tick);
      RewriteKeepsSnapshots(s, s', a, a');
      RenderedReady(r, a.generation, now);
      forall n | n in s'.assignments ensures Protected(s', s'.assignments[n]) {
        if n != a.name { assert Protected(s, s.assignments[n]); }
      }
    }
  }

  /** What a decision says about the bundle it was taken on. */
  lemma DecisionOk(cfg: Config, s: State)
    requires Inv(s) && s.phase.Deciding?
    ensures var d := Decide(cfg, s.phase.a, s.phase.v); d.Tell? ==> ReportOk(s, s.phase.a, d.report)
  {
    var a, v := s.phase.a, s.phase.v;
    var d := Decide(cfg, a, v);
    if d.Tell? && d.report.Bound? {
      ReadyExactlyWhenGateOpen(cfg, a, v);
      var w, p :| ReadyGate(cfg, a, v, w, p);
      ReadyReportNamesTheGate(cfg, a, v, w, p);
    }
  }

  lemma ConcludeKeepsInv(s: State, d: Action, now: Time)
    requires Inv(s) && s.phase.Deciding?
    requires d.Tell? ==> ReportOk(s, s.phase.a, d.report)
    requires d.ProtectBundle? ==> d.name == s.phase.a.bundle && d.name in s.phase.v.bundles
    ensures Inv(Conclude(s, d, now))
  {
    var s' := Conclude(s, d, now);
    var a := s.phase.a;
    if d.Tell? {
      StatusWriteProtected(s, d.report, now);
    } else if d.ProtectBundle? {
      BundleWriteKeeps(s, s');
    } else if s'.tick != s.tick {
      var a' := if d.AddFinalizer? then a.(finalizers := a.finalizers + {ASSIGNMENT_FINALIZER}, version := s.tick)
                else a.(sandboxId := d.id, version := s.tick);
      RewriteMetadata(s, s', a, a');
    }
  }

  lemma CommitKeepsInv(cfg: Config, s: State, now: Time)
    requires Inv(s) && Enabled(s, Commit(now))
    ensures Inv(Conclude(s, Decide(cfg, s.phase.a, s.phase.v), now))
  {
    DecisionOk(cfg, s);
    ProtectsOwnBundle(cfg, s.phase.a, s.phase.v);
    ConcludeKeepsInv(s, Decide(cfg, s.phase.a, s.phase.v), now);
  }

  /** A bundle write that keeps UID and protection of the bundle keeps the invariant. */
  lemma BundleWriteKeeps(s: State, s': State)
    requires Inv(s) && s'.assignments == s.assignments && s'.queue == s.queue && s'.uids == s.uids
    requires s.tick <= s'.tick && (s'.phase == s.phase || s'.phase == Idle)
    requires forall n :: n in s'.bundles ==> s'.bundles[n].name == n && s'.bundles[n].version < s'.tick
    requires forall n, u :: Holds(s, n, u) ==> Holds(s', n, u)
    requires forall c :: BundleCopy(s, c) ==> BundleCopy(s', c)
    ensures Inv(s')
  {
    forall n | n in s'.assignments ensures Protected(s', s'.assignments[n]) {
      assert Protected(s, s.assignments[n]);
    }
  }

  /** Taking the finalizer away is safe because nobody Ready uses the bundle. */
  lemma ReleaseKeepsInv(s: State, s': State, b: Bundle)
    requires Inv(s) && s.phase.Fetched? && s.phase.b == b
    requires b.name in s.bundles && s.bundles[b.name].version == b.version
    requires s' == PutBundle(s, b.(finalizers := b.finalizers - {BUNDLE_FINALIZER}, version := s.tick)).(phase := Idle)
    ensures Inv(s')
  {
    forall n | n in s'.assignments ensures Protected(s', s'.assignments[n]) {
      assert Protected(s, s.assignments[n]);
    }
  }

  lemma ListKeepsInv(s: State)
    requires Inv(s)
    ensures Inv(s.(queue := s.assignments.Values))
  {
    var s' := s.(queue := s.assignments.Values);
    forall a | a in s'.queue ensures Snapshot(s', a) {
      var n :| n in s.assignments && s.assignments[n] == a;
    }
  }

  lemma FinalizeKeepsInv(s: State)
    requires Inv(s) && Enabled(s, FinalizeNow)
    ensures Inv(DoRest(s, FinalizeNow))
  {
    var a, s' := s.phase.a, DoRest(s, FinalizeNow);
    if s'.phase.Releasing? {
      var a' := a.(finalizers := a.finalizers - {ASSIGNMENT_FINALIZER}, version := s.tick);
      RewriteMetadata(s, s'.(phase := Idle), a, a');
      RewriteKeepsSnapshots(s, s', a, a');
    }
  }

  /** Whoever else uses the bundle was listed; what is left is the assignment being deleted. */
  lemma ReleaseListKeepsInv(s: State)
    requires Inv(s) && Enabled(s, ReleaseList)
    ensures Inv(DoRest(s, ReleaseList))
  {
    var a, s' := s.phase.a, DoRest(s, ReleaseList);
    if s'.phase.Unused? {
      forall n | n in s.assignments && s.assignments[n].bundle == a.bundle ensures s.assignments[n].deleting {
        assert s.assignments[n].uid == a.uid;
      }
    }
  }

  lemma ControllerStepKeepsInv(s: State, step: Step)
    requires Inv(s) && Enabled(s, step)
    requires step.ListAll? || step.FinalizeNow? || step.ReleaseList? || step.ReleasePut?
    ensures Inv(DoRest(s, step))
  {
    match step {
      case ListAll => ListKeepsInv(s);
      case FinalizeNow => FinalizeKeepsInv(s);
      case ReleaseList => ReleaseListKeepsInv(s);
      case ReleasePut =>
        var b := s.phase.b;
        if b.name in s.bundles && s.bundles[b.name].version == b.version {
          ReleaseKeepsInv(s, DoRest(s, ReleasePut), b);
        }
    }
  }

  lemma ReadingStepKeepsInv(s: State, step: Step)
    requires Inv(s) && Enabled(s, step)
    requires step.Pick? || step.ReadView? || step.EndPass? || step.ReleaseGet?
    ensures Inv(DoRest(s, step))
  {}

  lemma CreateKeepsInv(s: State, a: Assignment)
    requires Inv(s) && Enabled(s, CreateAssignment(a))
    ensures Inv(PutAssignment(s, a).(uids := s.uids + {a.uid}))
  {
    var s' := PutAssignment(s, a).(uids := s.uids + {a.uid});
    assert !IsReady(a.status);
    forall c | Snapshot(s, c) ensures Snapshot(s', c) {}
    forall n | n in s'.assignments ensures Protected(s', s'.assignments[n]) {
      if n != a.name { assert Protected(s, s.assignments[n]); }
    }
  }

  lemma EditKeepsInv(s: State, a: Assignment, a': Assignment)
    requires Inv(s) && a.name in s.assignments && s.assignments[a.name] == a
    requires a'.name == a.name && a'.uid == a.uid && a'.bundle == a.bundle && a'.version == s.tick
             && a'.status == a.status
    requires a.deleting ==> a'.deleting
    ensures Inv(PutAssignment(s, a'))
  {
    RewriteMetadata(s, PutAssignment(s, a'), a, a');
  }

  lemma NewBundleKeepsInv(s: State, b: Bundle)
    requires Inv(s) && Enabled(s, CreateBundle(b))
    ensures Inv(PutBundle(s, b).(uids := s.uids + {b.uid}))
  {
    BundleWriteKeeps(s, PutBundle(s, b));
    MoreUids(PutBundle(s, b), s.uids + {b.uid});
  }

  lemma MoreUids(s: State, uids: set<string>)
    requires Inv(s) && s.uids <= uids
    ensures Inv(s.(uids := uids))
  {
    var s' := s.(uids := uids);
    forall c | Snapshot(s, c) ensures Snapshot(s', c) {}
    forall n | n in s'.assignments ensures Protected(s', s'.assignments[n]) { assert Protected(s, s.assignments[n]); }
  }

  lemma DeletedBundleKeepsInv(s: State, n: string)
    requires Inv(s) && Enabled(s, DeleteBundle(n))
    ensures Inv(DoRest(s, DeleteBundle(n)))
  {
    BundleWriteKeeps(s, DoRest(s, DeleteBundle(n)));
  }

  lemma OthersKeepInv(s: State, step: Step)
    requires Inv(s) && Enabled(s, step)
    requires step.CreateAssignment? || step.EditAssignment? || step.DeleteAssignment? || step.CreateBundle?
             || step.DeleteBundle?
    ensures Inv(DoRest(s, step))
  {
    match step {
      case CreateAssignment(a) => CreateKeepsInv(s, a);
      case EditAssignment(n, id, paused, uid) =>
        EditKeepsInv(s, s.assignments[n],
                     s.assignments[n].(sandboxId := id, paused := paused, resumeAfter := uid, version := s.tick));
      case DeleteAssignment(n) =>
        EditKeepsInv(s, s.assignments[n], s.assignments[n].(deleting := true, version := s.tick));
      case CreateBundle(b) => NewBundleKeepsInv(s, b);
      case DeleteBundle(n) => DeletedBundleKeepsInv(s, n);
    }
  }

  /** Every step of every actor keeps the invariant. */
  lemma StepKeepsInv(cfg: Config, s: State, step: Step)
    requires Inv(s) && Enabled(s, step)
    ensures Inv(Do(cfg, s, step))
  {
    if step.Commit? {
      CommitKeepsInv(cfg, s, step.now);
    } else if step.CreateAssignment? || step.EditAssignment? || step.DeleteAssignment?
              || step.CreateBundle? || step.DeleteBundle? {
      OthersKeepInv(s, step);
    } else if step.ListAll? || step.FinalizeNow? || step.ReleaseList? || step.ReleasePut? {
      ControllerStepKeepsInv(s, step);
    } else {
      ReadingStepKeepsInv(s, step);
    }
  }

  ghost predicate IsRun(cfg: Config, states: seq<State>, steps: seq<Step>) {
    && |states| == |steps| + 1
    && forall i :: 0 <= i < |steps| ==> Enabled(states[i], steps[i]) && states[i + 1] == Do(cfg, states[i], steps[i])
  }

  predicate Start(s: State) {
    s.assignments == map[] && s.bundles == map[] && s.queue == {} && s.phase == Idle
  }

  /** In every reachable state, every live assignment whose stored status is Ready resolves to a
      bundle incarnation that still exists and is protected. */
  lemma {:induction false} ReadyAssignmentsHoldTheirBundle(cfg: Config, states: seq<State>, steps: seq<Step>, i: nat)
    requires IsRun(cfg, states, steps) && Start(states[0]) && i < |states|
    ensures Inv(states[i]) && AllProtected(states[i])
  {
    if i > 0 {
      ReadyAssignmentsHoldTheirBundle(cfg, states, steps, i - 1);
      StepKeepsInv(cfg, states[i - 1], steps[i - 1]);
    }
  }

  // ---- what the controller gets done -----------------------------------------------------

  /** A pass that nobody disturbs stores what its action does to the assignment and the bundle. */
  lemma UndisturbedPassActs(cfg: Config, s: State, now: Time)
    requires Stored(s) && Enabled(s, Commit(now))
    requires var a, v := s.phase.a, s.phase.v;
             && a.name in s.assignments && s.assignments[a.name] == a
             && (a.bundle in v.bundles ==> a.bundle in s.bundles && s.bundles[a.bundle] == v.bundles[a.bundle])
    ensures var a, v, d := s.phase.a, s.phase.v, Decide(cfg, s.phase.a, s.phase.v);
            var s' := Do(cfg, s, Commit(now));
            && s'.phase == Idle && a.name in s'.assignments
            && ProtectsOwn(d, a, v)
            && SameButVersion(s'.assignments[a.name], Act(World(a, v), d, now).a)
            && (a.bundle in v.bundles ==>
                  && a.bundle in s'.bundles
                  && s'.bundles[a.bundle].finalizers == Act(World(a, v), d, now).v.bundles[a.bundle].finalizers)
  {
    var a, v := s.phase.a, s.phase.v;
    ProtectsOwnBundle(cfg, a, v);
    UndisturbedActionActs(s, Decide(cfg, a, v), now);
  }

  predicate ProtectsOwn(d: Action, a: Assignment, v: View) {
    d.ProtectBundle? ==> d.name == a.bundle && a.bundle in v.bundles
  }

  predicate SameButVersion(a: Assignment, a': Assignment) { a == a'.(version := a.version) }

  lemma UndisturbedActionActs(s: State, d: Action, now: Time)
    requires Stored(s) && s.phase.Deciding? && !s.phase.a.deleting && ProtectsOwn(d, s.phase.a, s.phase.v)
    requires var a, v := s.phase.a, s.phase.v;
             && a.name in s.assignments && s.assignments[a.name] == a
             && (a.bundle in v.bundles ==> a.bundle in s.bundles && s.bundles[a.bundle] == v.bundles[a.bundle])
    ensures var a, v, s' := s.phase.a, s.phase.v, Conclude(s, d, now);
            && s'.phase == Idle && a.name in s'.assignments
            && SameButVersion(s'.assignments[a.name], Act(World(a, v), d, now).a)
            && (a.bundle in v.bundles ==>
                  && a.bundle in s'.bundles
                  && s'.bundles[a.bundle].finalizers == Act(World(a, v), d, now).v.bundles[a.bundle].finalizers)
  {}

  const NOTHING_READ := View(map[], map[], None, map[], None, map[], 0)

  /** Listing, picking the assignment, looking around and finalizing it. */
  lemma FinalizesAlone(cfg: Config, s: State, a: Assignment) returns (states: seq<State>, steps: seq<Step>)
    requires s.phase.Idle? && a.name in s.assignments && s.assignments[a.name] == a
    requires a.deleting && ASSIGNMENT_FINALIZER in a.finalizers
    ensures IsRun(cfg, states, steps) && |steps| == 4 && states[0] == s
    ensures var a' := a.(finalizers := a.finalizers - {ASSIGNMENT_FINALIZER}, version := s.tick);
            states[4] == PutAssignment(s, a').(phase := Releasing(a), queue := s.assignments.Values - {a})
  {
    var s1 := s.(queue := s.assignments.Values);
    var s2 := s1.(queue := s1.queue - {a}, phase := Picked(a));
    var s3 := s2.(phase := Deciding(a, NOTHING_READ));
    var a' := a.(finalizers := a.finalizers - {ASSIGNMENT_FINALIZER}, version := s.tick);
    var s4 := PutAssignment(s3, a').(phase := Releasing(a));
    states, steps := [s, s1, s2, s3, s4], [ListAll, Pick(a), ReadView(NOTHING_READ), FinalizeNow];
    assert Enabled(s1, Pick(a)) && s2 == Do(cfg, s1, Pick(a));
    assert s4 == Do(cfg, s3, FinalizeNow);
  }

  /** Finding no other user, fetching the bundle and releasing it. */
  lemma ReleasesAlone(cfg: Config, s: State, a: Assignment) returns (states: seq<State>, steps: seq<Step>)
    requires s.phase == Releasing(a) && a.bundle in s.bundles && s.bundles[a.bundle].name == a.bundle
    requires forall n :: n in s.assignments && s.assignments[n].bundle == a.bundle ==> s.assignments[n].uid == a.uid
    ensures IsRun(cfg, states, steps) && |steps| == 3 && states[0] == s
    ensures var b := s.bundles[a.bundle];
            states[3]
                == PutBundle(s, b.(finalizers := b.finalizers - {BUNDLE_FINALIZER}, version := s.tick)).(phase := Idle)
  {
    var b := s.bundles[a.bundle];
    var s1, s2 := s.(phase := Unused(a)), s.(phase := Fetched(a, b));
    var s3 := PutBundle(s2, b.(finalizers := b.finalizers - {BUNDLE_FINALIZER}, version := s.tick)).(phase := Idle);
    states, steps := [s, s1, s2, s3], [ReleaseList, ReleaseGet, ReleasePut];
    assert s1 == Do(cfg, s, ReleaseList);
    assert s2 == Do(cfg, s1, ReleaseGet);
    assert s3 == Do(cfg, s2, ReleasePut);
  }

  /** Finalizing the last assignment of a bundle, with nobody in between, takes its finalizer away and
      the bundle's protection with it; a bundle whose deletion was requested is then gone, and so is
      the assignment, unless other finalizers hold them. */
  lemma LastReleaseFreesTheBundle(cfg: Config, s: State, a: Assignment) returns (states: seq<State>, steps: seq<Step>)
    requires Stored(s) && s.phase.Idle? && a.name in s.assignments && s.assignments[a.name] == a
    requires a.deleting && ASSIGNMENT_FINALIZER in a.finalizers && a.bundle in s.bundles
    requires forall n :: n in s.assignments && s.assignments[n].bundle == a.bundle ==> n == a.name
    ensures IsRun(cfg, states, steps) && |steps| == 7 && states[0] == s && states[7].phase == Idle
    ensures var f, b := states[7], s.bundles[a.bundle];
            && (a.finalizers == {ASSIGNMENT_FINALIZER} <==> a.name !in f.assignments)
            && (a.name in f.assignments ==>
                  f.assignments[a.name].finalizers == a.finalizers - {ASSIGNMENT_FINALIZER})
            && (b.deleting && b.finalizers <= {BUNDLE_FINALIZER} <==> a.bundle !in f.bundles)
            && (a.bundle in f.bundles ==> f.bundles[a.bundle].finalizers == b.finalizers - {BUNDLE_FINALIZER})
  {
    var x, xs := FinalizesAlone(cfg, s, a);
    var y, ys := ReleasesAlone(cfg, x[4], a);
    states, steps := x + y[1..], xs + ys;
    forall i | 0 <= i < |steps| ensures Enabled(states[i], steps[i]) && states[i + 1] == Do(cfg, states[i], steps[i]) {
      if i >= 4 { assert states[i] == y[i - 4] && states[i + 1] == y[i - 3]; }
    }
    LeftOver(a.finalizers, ASSIGNMENT_FINALIZER);
    LeftOver(s.bundles[a.bundle].finalizers, BUNDLE_FINALIZER);
  }

  lemma LeftOver(finalizers: set<string>, f: string)
    ensures finalizers - {f} == {} <==> finalizers <= {f}
    ensures f in finalizers ==> (finalizers <= {f} <==> finalizers == {f})
  {}
}
