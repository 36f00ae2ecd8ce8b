/** Lifecycle fencing: any number of pause and resume handlers
    (internal/assignment/opensandboxapi/handler.go) and of controller passes working from
    snapshots interleave over one stored assignment. Every write to the object is a
    compare-and-swap. */
module Fence {
  import opened Kube
  import opened Seqs
  import opened Reconcile

  /** Which call of SetLifecycleFence a handler is performing. */
  datatype Goal = PauseFence | PauseUndo | ResumeFence(uid: string) | ResumeUndo

  predicate SetsPaused(g: Goal) { g.PauseFence? || g.ResumeUndo? }

  function FenceUid(g: Goal): string { if g.ResumeFence? then g.uid else "" }

  /** Where a pause or resume handler is. `epoch` is the number of fence writes that cleared
      the paused annotation before this handler set it. */
  datatype Handler =
    | Loading(goal: Goal)
    | Loaded(goal: Goal, copy: Assignment)
    | Waiting(epoch: nat)
    | Quiet(epoch: nat)
    | PauseSent(epoch: nat)
    | ResumeSent
    | Finished

  /** `history` lists every version of the object, oldest first; informer caches serve any of
      them. `fences` counts all fence writes and `clears` those that removed the pause. */
  datatype State = State(
    obj: Assignment, history: seq<Assignment>,
    snapshots: map<nat, Assignment>, handlers: map<nat, Handler>,
    fences: nat, clears: nat)

  datatype Step =
    | ControllerRead(k: nat)
    | ControllerWrite(k: nat, view: View, now: Time)
    | BeginPause(h: nat)
    | BeginResume(h: nat, cached: nat)
    | Load(h: nat)
    | Store(h: nat)
    | PollQuiet(h: nat)
    | PollTimeout(h: nat)
    | SendPause(h: nat)
    | ResumeRejected(h: nat)
    | RecordId(id: string)
    | BeginDelete

  predicate Enabled(s: State, step: Step) {
    match step
    case ControllerRead(_) => true
    case ControllerWrite(k, _, _) => k in s.snapshots
    case BeginPause(h) => h !in s.handlers
    case BeginResume(h, i) => h !in s.handlers && i < |s.history|
    case Load(h) => h in s.handlers && s.handlers[h].Loading?
    case Store(h) => h in s.handlers && s.handlers[h].Loaded?
    case PollQuiet(h) => h in s.handlers && s.handlers[h].Waiting? && !IsReady(s.obj.status)
    case PollTimeout(h) => h in s.handlers && s.handlers[h].Waiting?
    case SendPause(h) => h in s.handlers && s.handlers[h].Quiet?
    case ResumeRejected(h) => h in s.handlers && s.handlers[h].ResumeSent?
    case RecordId(_) => true
    case BeginDelete => true
  }

  function Replace(s: State, obj: Assignment): State {
    s.(obj := obj, history := s.history + [obj])
  }

  /** What an action on a copy makes of the stored object, if it writes this object at all. */
  function ActionEffect(action: Action, stored: Assignment, copy: Assignment, now: Time): Option<Assignment> {
    var next := stored.version + 1;
    match action
    case AddFinalizer => Update(stored, copy.(finalizers := copy.finalizers + {ASSIGNMENT_FINALIZER}), next)
    case RecordSandbox(id) => Update(stored, copy.(sandboxId := id), next)
    case Finalize => Update(stored, copy.(finalizers := copy.finalizers - {ASSIGNMENT_FINALIZER}), next)
    case Tell(r) =>
      var status := Render(r, copy.generation, now);
      if Equivalent(copy.status, status) then None else UpdateStatus(stored, copy.(status := status), next)
    case _ => None
  }

  /** The same for a whole controller pass over a snapshot. */
  function ControllerEffect(cfg: Config, stored: Assignment, copy: Assignment, view: View,
                            now: Time): Option<Assignment> {
    ActionEffect(Decide(cfg, copy, view), stored, copy, now)
  }

  /** What a controller pass makes of the stored object, from a copy, a view and the clock. */
  type Passing = (Assignment, Assignment, View, Time) -> Option<Assignment>

  function Controller(cfg: Config): Passing {
    (stored, copy, view, now) => ControllerEffect(cfg, stored, copy, view, now)
  }

  /** The handler's state once its fence write has gone through. */
  function AfterFence(g: Goal, clears: nat): Handler {
    match g
    case PauseFence => Waiting(clears)
    case ResumeFence(_) => ResumeSent
    case _ => Finished
  }

  function Do(pass: Passing, s: State, step: Step): State
    requires Enabled(s, step)
  {
    match step
    case ControllerRead(k) => s.(snapshots := s.snapshots[k := s.obj])
    case ControllerWrite(k, view, now) =>
      var r := pass(s.obj, s.snapshots[k], view, now);
      if r.None? then s else Replace(s, r.value)
    case BeginPause(h) => s.(handlers := s.handlers[h := Loading(PauseFence)])
    case BeginResume(h, i) => s.(handlers := s.handlers[h := Loading(ResumeFence(PodUid(s.history[i].status)))])
    case Load(h) => s.(handlers := s.handlers[h := Loaded(s.handlers[h].goal, s.obj)])
    case Store(h) =>
      var g := s.handlers[h].goal;
      var copy := s.handlers[h].copy.(paused := SetsPaused(g), resumeAfter := FenceUid(g));
      var r := Update(s.obj, copy, s.obj.version + 1);
      if r.None? then s.(handlers := s.handlers[h := Loading(g)])
      else
        var clears := if SetsPaused(g) then s.clears else s.clears + 1;
        Replace(s, r.value).(handlers := s.handlers[h := AfterFence(g, clears)], fences := s.fences + 1,
                             clears := clears)
    case PollQuiet(h) => s.(handlers := s.handlers[h := Quiet(s.handlers[h].epoch)])
    case PollTimeout(h) => s.(handlers := s.handlers[h := Loading(PauseUndo)])
    case SendPause(h) => s.(handlers := s.handlers[h := PauseSent(s.handlers[h].epoch)])
    case ResumeRejected(h) => s.(handlers := s.handlers[h := Loading(ResumeUndo)])
    case RecordId(id) => Replace(s, s.obj.(sandboxId := id, version := s.obj.version + 1))
    case BeginDelete => Replace(s, s.obj.(deleting := true, version := s.obj.version + 1))
  }

  predicate Start(s: State) {
    s.history == [s.obj] && s.snapshots == map[] && s.handlers == map[] && s.fences == s.clears == 0
  }

  ghost predicate IsRun(pass: Passing, states: seq<State>, steps: seq<Step>) {
    && |states| == |steps| + 1
    && forall i :: 0 <= i < |steps| ==> Enabled(states[i], steps[i]) && states[i + 1] == Do(pass, states[i], steps[i])
  }

  // ---- inductive invariant ---------------------------------------------------------------

  /** A held copy with the stored version is the stored object. */
  predicate Agrees(copy: Assignment, obj: Assignment) {
    copy.version <= obj.version && (copy.version == obj.version ==> copy == obj)
  }

  predicate CopiesAgree(s: State) {
    && (forall k :: k in s.snapshots ==> Agrees(s.snapshots[k], s.obj))
    && (forall h :: h in s.handlers && s.handlers[h].Loaded? ==> Agrees(s.handlers[h].copy, s.obj))
  }

  /** As long as nobody cleared the pause since this handler set it, the object is paused, and
      not Ready once the handler has seen it not Ready. */
  predicate PauseHolds(s: State, p: Handler) {
    && (p.Waiting? || p.Quiet? || p.PauseSent? ==>
          p.epoch <= s.clears && (p.epoch == s.clears ==> s.obj.paused))
    && ((p.Quiet? || p.PauseSent?) && p.epoch == s.clears ==> !IsReady(s.obj.status))
  }

  predicate Inv(s: State) {
    && s.history != [] && s.history[|s.history| - 1] == s.obj
    && CopiesAgree(s)
    && forall h :: h in s.handlers ==> PauseHolds(s, s.handlers[h])
  }

  /** What a controller write can do to the fence fields and to readiness. */
  predicate WriteRespectsFence(obj: Assignment, r: Option<Assignment>) {
    r.Some? ==>
      && r.value.version == obj.version + 1
      && r.value.paused == obj.paused && r.value.resumeAfter == obj.resumeAfter
      && (r.value.status == obj.status
          || (IsReady(r.value.status) ==>
                !obj.paused && (PodUid(r.value.status) == "" || PodUid(r.value.status) != obj.resumeAfter)))
      && (obj.paused ==> PodUid(r.value.status) == PodUid(obj.status) || PodUid(r.value.status) == "")
  }

  /** A pass that respects the fence whenever the copy it works from agrees with the store. */
  ghost predicate Respectful(pass: Passing) {
    forall obj, copy, view, now :: Agrees(copy, obj) ==> WriteRespectsFence(obj, pass(obj, copy, view, now))
  }

  lemma EffectRespectsFence(cfg: Config, obj: Assignment, copy: Assignment, view: View, now: Time)
    requires Agrees(copy, obj)
    ensures WriteRespectsFence(obj, ControllerEffect(cfg, obj, copy, view, now))
  {
    var d := Decide(cfg, copy, view);
    if d.Tell? && copy.version == obj.version {
      RenderedReady(d.report, copy.generation, now);
      if d.report.Bound? {
        ReadyExactlyWhenGateOpen(cfg, copy, view);
        var w, p :| ReadyGate(cfg, copy, view, w, p);
        ReadyReportNamesTheGate(cfg, copy, view, w, p);
      }
    }
  }

  /** The controller respects the fence, whatever it reads. */
  lemma ControllerIsRespectful(cfg: Config)
    ensures Respectful(Controller(cfg))
  {
    forall obj, copy, view, now | Agrees(copy, obj)
      ensures WriteRespectsFence(obj, Controller(cfg)(obj, copy, view, now))
    {
      EffectRespectsFence(cfg, obj, copy, view, now);
    }
  }

  lemma InvInductive(pass: Passing, s: State, step: Step)
    requires Respectful(pass) && Inv(s) && Enabled(s, step)
    ensures Inv(Do(pass, s, step))
  {
    var s' := Do(pass, s, step);
    if step.ControllerWrite? {
      assert WriteRespectsFence(s.obj, pass(s.obj, s.snapshots[step.k], step.view, step.now));
    }
    forall h | h in s'.handlers ensures PauseHolds(s', s'.handlers[h]) {
      assert h in s.handlers ==> PauseHolds(s, s.handlers[h]);
    }
  }

  /** One step of any actor, seen from the fence: a step that is not a fence write keeps both
      annotations, and changes readiness only within what they allow. */
  lemma StepRespectsFence(pass: Passing, s: State, step: Step)
    requires Respectful(pass) && Inv(s) && Enabled(s, step)
    ensures var s' := Do(pass, s, step);
            && s.fences <= s'.fences
            && (s'.fences == s.fences ==> s'.obj.paused == s.obj.paused && s'.obj.resumeAfter == s.obj.resumeAfter)
            && (s'.fences != s.fences ==> s'.obj.status == s.obj.status)
            && (s'.obj.status == s.obj.status
                || (IsReady(s'.obj.status) ==>
                      !s.obj.paused && (PodUid(s'.obj.status) == "" || PodUid(s'.obj.status) != s.obj.resumeAfter)))
            && (s.obj.paused ==> PodUid(s'.obj.status) == PodUid(s.obj.status) || PodUid(s'.obj.status) == "")
  {
    if step.ControllerWrite? {
      assert WriteRespectsFence(s.obj, pass(s.obj, s.snapshots[step.k], step.view, step.now));
    }
  }

  lemma {:induction false} RunKeepsInv(pass: Passing, states: seq<State>, steps: seq<Step>, i: nat)
    requires Respectful(pass) && IsRun(pass, states, steps) && Inv(states[0]) && i < |states|
    ensures Inv(states[i])
  {
    if i > 0 {
      RunKeepsInv(pass, states, steps, i - 1);
      InvInductive(pass, states[i - 1], steps[i - 1]);
    }
  }

  // ---- main results ----------------------------------------------------------------------

  /** Pause safety: when a handler forwards its pause upstream, the assignment is paused and
      not Ready, unless somebody cleared the pause after the handler set it. */
  lemma PauseSentOnlyWhenNotReady(cfg: Config, states: seq<State>, steps: seq<Step>, i: nat, h: nat)
    requires IsRun(Controller(cfg), states, steps) && Start(states[0])
    requires i < |steps| && steps[i] == SendPause(h)
    requires states[i].handlers[h].epoch == states[i].clears
    ensures states[i].obj.paused && !IsReady(states[i].obj.status)
  {
    ControllerIsRespectful(cfg);
    RunKeepsInv(Controller(cfg), states, steps, i);
    assert PauseHolds(states[i], states[i].handlers[h]);
  }

  lemma {:induction false} PausedKeepsNotReady(pass: Passing, states: seq<State>, steps: seq<Step>, i: nat, j: nat)
    requires Respectful(pass) && IsRun(pass, states, steps) && Inv(states[0])
    requires i <= j < |states|
    requires forall k :: i <= k <= j ==> states[k].obj.paused
    requires !IsReady(states[i].obj.status)
    ensures !IsReady(states[j].obj.status)
    ensures PodUid(states[j].obj.status) == PodUid(states[i].obj.status) || PodUid(states[j].obj.status) == ""
  {
    if i < j {
      PausedKeepsNotReady(pass, states, steps, i, j - 1);
      RunKeepsInv(pass, states, steps, j - 1);
      StepRespectsFence(pass, states[j - 1], steps[j - 1]);
    }
  }

  /** A paused assignment that is not Ready stays not Ready for as long as it stays paused,
      whatever snapshots are in flight; its Pod reference is kept or dropped, never replaced. */
  lemma PausedStaysNotReady(cfg: Config, states: seq<State>, steps: seq<Step>, i: nat, j: nat)
    requires IsRun(Controller(cfg), states, steps) && Inv(states[0])
    requires i <= j < |states|
    requires forall k :: i <= k <= j ==> states[k].obj.paused
    requires !IsReady(states[i].obj.status)
    ensures !IsReady(states[j].obj.status)
    ensures PodUid(states[j].obj.status) == PodUid(states[i].obj.status) || PodUid(states[j].obj.status) == ""
  {
    ControllerIsRespectful(cfg);
    PausedKeepsNotReady(Controller(cfg), states, steps, i, j);
  }

  /** The assignment gives the Pod with this UID authority. */
  predicate Authorizes(a: Assignment, uid: string) {
    IsReady(a.status) && PodUid(a.status) == uid
  }

  /** Resume fence: after a resume that read Pod UID `u` has written its fence, no state up to
      the next fence write authorizes `u`, exactly when the state it wrote over did not. */
  lemma ResumeFenceExact(cfg: Config, states: seq<State>, steps: seq<Step>, i: nat, n: nat, u: string)
    requires IsRun(Controller(cfg), states, steps) && Inv(states[0])
    requires i < n < |states| && steps[i].Store?
    requires states[i].handlers[steps[i].h].goal == ResumeFence(u) && u != ""
    requires states[i + 1].fences == states[i].fences + 1 == states[n].fences
    ensures (forall j :: i < j <= n ==> !Authorizes(states[j].obj, u)) <==> !Authorizes(states[i].obj, u)
  {
    ControllerIsRespectful(cfg);
    RunKeepsInv(Controller(cfg), states, steps, i);
    assert states[i + 1].obj.status == states[i].obj.status;
    if !Authorizes(states[i].obj, u) {
      forall j | i < j <= n ensures !Authorizes(states[j].obj, u) {
        FencesMonotone(Controller(cfg), states, steps, i + 1, j);
        FencesMonotone(Controller(cfg), states, steps, j, n);
        FencedPodStaysOut(Controller(cfg), states, steps, i + 1, j, u);
      }
    }
  }

  lemma {:induction false} FencesMonotone(pass: Passing, states: seq<State>, steps: seq<Step>, i: nat, j: nat)
    requires IsRun(pass, states, steps) && i <= j < |states|
    ensures states[i].fences <= states[j].fences
  {
    if i < j {
      FencesMonotone(pass, states, steps, i, j - 1);
      assert states[j] == Do(pass, states[j - 1], steps[j - 1]);
    }
  }

  /** Without a fence write, a Pod without authority gets none while the assignment is paused or
      the Pod is the fenced one. */
  lemma {:induction false} FencedPodStaysOut(pass: Passing, states: seq<State>, steps: seq<Step>, i: nat, j: nat,
                                             u: string)
    requires Respectful(pass) && IsRun(pass, states, steps) && Inv(states[0]) && i <= j < |states| && u != ""
    requires (states[i].obj.paused || states[i].obj.resumeAfter == u) && !Authorizes(states[i].obj, u)
    requires states[i].fences == states[j].fences
    ensures states[j].obj.paused == states[i].obj.paused && states[j].obj.resumeAfter == states[i].obj.resumeAfter
    ensures !Authorizes(states[j].obj, u)
  {
    if i < j {
      FencesMonotone(pass, states, steps, i, j - 1);
      FencesMonotone(pass, states, steps, j - 1, j);
      FencedPodStaysOut(pass, states, steps, i, j - 1, u);
      RunKeepsInv(pass, states, steps, j - 1);
      StepRespectsFence(pass, states[j - 1], steps[j - 1]);
    }
  }

  /** The end-to-end resume guarantee: from a completed pause (state `p`: paused, not Ready,
      bound to Pod `u`) that lasts until the resume writes its fence at step `i`, a resume that
      read the object in a version no older than `p` and still saw a Pod reference keeps `u` out
      until the next fence write. */
  lemma ResumeKeepsOldPodOut(cfg: Config, states: seq<State>, steps: seq<Step>, p: nat, b: nat, i: nat, n: nat)
    requires IsRun(Controller(cfg), states, steps) && Start(states[0])
    requires p <= b < i < n < |states|
    requires forall k :: p <= k <= i ==> states[k].obj.paused
    requires !IsReady(states[p].obj.status)
    requires steps[b].BeginResume? && steps[i] == Store(steps[b].h)
    requires steps[b].cached >= |states[p].history| - 1
    requires PodUid(states[b].history[steps[b].cached].status) != ""
    requires states[i].handlers[steps[b].h].goal == ResumeFence(PodUid(states[b].history[steps[b].cached].status))
    requires states[i + 1].fences == states[i].fences + 1 == states[n].fences
    ensures !Authorizes(states[n].obj, PodUid(states[p].obj.status))
  {
    ControllerIsRespectful(cfg);
    var c := steps[b].cached;
    var u := PodUid(states[b].history[c].status);
    var q := HistoryIsStates(Controller(cfg), states, steps, p, b, c);
    PausedStaysNotReady(cfg, states, steps, p, q);
    PausedStaysNotReady(cfg, states, steps, p, i);
    RunKeepsInv(Controller(cfg), states, steps, p);
    ResumeFenceExact(cfg, states, steps, i, n, u);
  }

  /** Every version a cache can serve that is no older than state `p` was the stored object of
      some state since `p`. */
  lemma {:induction false} HistoryIsStates(pass: Passing, states: seq<State>, steps: seq<Step>, p: nat, b: nat, c: nat)
    returns (q: nat)
    requires Respectful(pass) && IsRun(pass, states, steps) && Start(states[0])
    requires p <= b < |states| && |states[p].history| - 1 <= c < |states[b].history|
    ensures p <= q <= b && states[b].history[c] == states[q].obj
    decreases b
  {
    RunKeepsInv(pass, states, steps, b);
    if c == |states[b].history| - 1 {
      q := b;
    } else {
      HistoryGrows(pass, states[b - 1], steps[b - 1]);
      q := HistoryIsStates(pass, states, steps, p, b - 1, c);
    }
  }

  lemma HistoryGrows(pass: Passing, s: State, step: Step)
    requires Enabled(s, step)
    ensures var s' := Do(pass, s, step); s.history <= s'.history && |s'.history| <= |s.history| + 1
  {}

  // ---- what each handler writes ----------------------------------------------------------

  /** The two annotations. */
  datatype Annotations = Annotations(paused: bool, resumeAfter: string)

  function AnnotationsOf(a: Assignment): Annotations { Annotations(a.paused, a.resumeAfter) }

  /** A step that makes a handler call SetLifecycleFence: a pause or a resume arrives, waiting for
      the pause times out, or the upstream refuses the resume. */
  predicate Calls(step: Step, h: nat) {
    step == BeginPause(h) || (step.BeginResume? && step.h == h) || step == PollTimeout(h) || step == ResumeRejected(h)
  }

  /** The arguments of that call. */
  function Arguments(s: State, step: Step): Annotations
    requires Enabled(s, step) && exists h :: Calls(step, h)
  {
    match step
    case BeginPause(_) => Annotations(true, "")
    case BeginResume(_, cached) => Annotations(false, PodUid(s.history[cached].status))
    case PollTimeout(_) => Annotations(false, "")
    case ResumeRejected(_) => Annotations(true, "")
  }

  /** The first fence write of handler h that goes through after step i is step k. */
  ghost predicate NextWrite(states: seq<State>, steps: seq<Step>, i: nat, k: nat, h: nat) {
    && i < k < |steps| && |states| == |steps| + 1
    && steps[k] == Store(h) && states[k + 1].fences != states[k].fences
    && forall m :: i < m < k && steps[m] == Store(h) ==> states[m + 1].fences == states[m].fences
  }

  /** Every call of SetLifecycleFence, once it goes through, leaves exactly the annotations of that
      call: a pause is set without a UID; a resume clears it and fences the Pod of the version it
      read; a pause that timed out is cleared; and a resume that was refused is paused again. After
      its own write a pause goes on to wait and a resume can be refused. */
  lemma FenceWriteLeavesItsArguments(
      cfg: Config, states: seq<State>, steps: seq<Step>, i: nat, k: nat, h: nat)
    requires IsRun(Controller(cfg), states, steps) && NextWrite(states, steps, i, k, h) && Calls(steps[i], h)
    ensures AnnotationsOf(states[k + 1].obj) == Arguments(states[i], steps[i])
    ensures states[k + 1].obj.status == states[k].obj.status && states[k + 1].fences == states[k].fences + 1
    ensures steps[i].BeginPause? <==> Enabled(states[k + 1], PollTimeout(h))
    ensures steps[i].BeginResume? <==> Enabled(states[k + 1], ResumeRejected(h))
  {
    GoalOfCall(Controller(cfg), states, steps, i, k, k, h);
    assert states[k + 1] == Do(Controller(cfg), states[k], Store(h));
  }

  /** Until its write goes through, a handler keeps trying the same call, whatever others do. */
  lemma {:induction false} GoalOfCall(
      pass: Passing, states: seq<State>, steps: seq<Step>, i: nat, j: nat, k: nat, h: nat)
    requires IsRun(pass, states, steps) && NextWrite(states, steps, i, k, h) && i < j <= k && Calls(steps[i], h)
    ensures h in states[j].handlers && (states[j].handlers[h].Loading? || states[j].handlers[h].Loaded?)
    ensures states[j].handlers[h].goal ==
              match steps[i]
              case BeginPause(_) => PauseFence
              case BeginResume(_, cached) => ResumeFence(PodUid(states[i].history[cached].status))
              case PollTimeout(_) => PauseUndo
              case _ => ResumeUndo
    decreases j
  {
    if j == i + 1 {
      assert states[j] == Do(pass, states[i], steps[i]);
    } else {
      var m := j - 1;
      GoalOfCall(pass, states, steps, i, m, k, h);
      assert steps[m] == Store(h) ==> states[m + 1].fences == states[m].fences;
      StepKeepsGoal(pass, states[m], steps[m], h);
    }
  }

  lemma StepKeepsGoal(pass: Passing, s: State, step: Step, h: nat)
    requires Enabled(s, step) && h in s.handlers && (s.handlers[h].Loading? || s.handlers[h].Loaded?)
    requires step == Store(h) ==> Do(pass, s, step).fences == s.fences
    ensures var s' := Do(pass, s, step);
            && h in s'.handlers && (s'.handlers[h].Loading? || s'.handlers[h].Loaded?)
            && s'.handlers[h].goal == s.handlers[h].goal
  {}

  /** A refused resume: once its write goes through the assignment is paused again, and until
      another fence write no Pod gets authority that it does not have at that instant. */
  lemma RefusedResumeIsPausedAgain(
      cfg: Config, states: seq<State>, steps: seq<Step>, i: nat, k: nat, n: nat, h: nat, u: string)
    requires IsRun(Controller(cfg), states, steps) && Inv(states[0]) && NextWrite(states, steps, i, k, h)
    requires steps[i] == ResumeRejected(h)
    requires k < n < |states| && states[n].fences == states[k + 1].fences && u != ""
    ensures states[n].obj.paused && states[n].obj.resumeAfter == ""
    ensures Authorizes(states[n].obj, u) ==> Authorizes(states[k].obj, u)
  {
    ControllerIsRespectful(cfg);
    FenceWriteLeavesItsArguments(cfg, states, steps, i, k, h);
    AnnotationsStay(Controller(cfg), states, steps, k + 1, n);
    if !Authorizes(states[k].obj, u) { FencedPodStaysOut(Controller(cfg), states, steps, k + 1, n, u); }
  }

  lemma {:induction false} AnnotationsStay(pass: Passing, states: seq<State>, steps: seq<Step>, i: nat, j: nat)
    requires Respectful(pass) && IsRun(pass, states, steps) && Inv(states[0]) && i <= j < |states|
    requires states[i].fences == states[j].fences
    ensures AnnotationsOf(states[j].obj) == AnnotationsOf(states[i].obj)
  {
    if i < j {
      FencesMonotone(pass, states, steps, i, j - 1);
      FencesMonotone(pass, states, steps, j - 1, j);
      AnnotationsStay(pass, states, steps, i, j - 1);
      RunKeepsInv(pass, states, steps, j - 1);
      StepRespectsFence(pass, states[j - 1], steps[j - 1]);
    }
  }

  // ---- who can get authority -------------------------------------------------------------

  /** There is a run from `s` to `s'` without a fence write. */
  ghost predicate Reaches(pass: Passing, s: State, s': State) {
    exists states, steps :: IsRun(pass, states, steps) && Connects(states, s, s') && s.fences == s'.fences
  }

  predicate Connects(states: seq<State>, s: State, s': State) {
    states != [] && states[0] == s && states[|states| - 1] == s'
  }

  lemma RunsJoin(pass: Passing, a: seq<State>, x: seq<Step>, b: seq<State>, y: seq<Step>)
    requires IsRun(pass, a, x) && IsRun(pass, b, y) && a[|x|] == b[0]
    ensures IsRun(pass, a + b[1..], x + y) && (a + b[1..])[|x| + |y|] == b[|y|]
  {
    var states, steps := a + b[1..], x + y;
    forall i | 0 <= i < |steps| ensures Enabled(states[i], steps[i]) && states[i + 1] == Do(pass, states[i], steps[i]) {
      if i >= |x| { assert states[i] == b[i - |x|] && states[i + 1] == b[i - |x| + 1]; }
    }
  }

  lemma ReachesFurther(pass: Passing, s: State, s1: State, s2: State)
    requires Reaches(pass, s, s1) && Reaches(pass, s1, s2)
    ensures Reaches(pass, s, s2)
  {
    var a, x :| IsRun(pass, a, x) && Connects(a, s, s1);
    var b, y :| IsRun(pass, b, y) && Connects(b, s1, s2);
    RunsJoin(pass, a, x, b, y);
    assert Connects(a + b[1..], s, s2);
  }

  lemma ReachesItself(pass: Passing, s: State)
    ensures Reaches(pass, s, s)
  {
    assert IsRun(pass, [s], []) && Connects([s], s, s);
  }

  /** The state after a pass that nobody interrupts. */
  function AfterPass(pass: Passing, s: State, view: View): State {
    Do(pass, Do(pass, s, ControllerRead(0)), ControllerWrite(0, view, 0))
  }

  lemma PassReaches(pass: Passing, s: State, view: View)
    requires Respectful(pass) && Inv(s)
    ensures var s' := AfterPass(pass, s, view);
            && Reaches(pass, s, s') && Inv(s') && s'.handlers == s.handlers
            && s'.obj == (if pass(s.obj, s.obj, view, 0).None? then s.obj else pass(s.obj, s.obj, view, 0).value)
  {
    var s1 := Do(pass, s, ControllerRead(0));
    var s2 := AfterPass(pass, s, view);
    var states, steps := [s, s1, s2], [ControllerRead(0), ControllerWrite(0, view, 0)];
    assert IsRun(pass, states, steps) && Connects(states, s, s2);
    InvInductive(pass, s, steps[0]);
    InvInductive(pass, s1, steps[1]);
  }

  /** Some cluster can make the assignment Ready. */
  predicate Matchable(cfg: Config, a: Assignment) {
    !a.deleting && cfg.runtimeClasses != {} && (a.template.name != "" ==> a.tenant != "")
  }

  /** What an assignment is to be bound to. */
  datatype Binding = Binding(podName: string, podUid: string, revision: string)

  function OpenTemplate(a: Assignment, b: Binding): Template {
    Template(a.template.uid, false, a.template.revision, true, a.bundle, b.revision)
  }

  function OpenBundle(a: Assignment, b: Binding): Bundle {
    Bundle(a.bundle, "bundle", 0, false, {BUNDLE_FINALIZER}, b.revision, Some(a.tenant), [], false)
  }

  function OpenWorkload(a: Assignment): Workload {
    Workload("sandbox", "workload", a.name, a.uid, "", Some(1), a.created, "", Unallocated)
  }

  function OpenPod(a: Assignment, b: Binding, class': string): Pod {
    Pod(b.podName, b.podUid, a.name, a.uid, "", [Owner(true, "BatchSandbox", "workload")], false,
        "account", Some(false), a.created, class', true, [], [])
  }

  /** A cluster with one workload and one Pod, in which all is well. */
  function OpenView(a: Assignment, b: Binding, class': string): View {
    View(map[a.template.name := OpenTemplate(a, b)], map[a.bundle := OpenBundle(a, b)],
         Some([OpenWorkload(a)]), map[], Some([OpenPod(a, b, class')]),
         map["account" := ServiceAccount(true, Some(false))], 0)
  }

  lemma OnlyOneMatches(a: Assignment, b: Binding, class': string)
    ensures var v := OpenView(a, b, class');
            && MatchingWorkloads(v, a) == Some([OpenWorkload(a)])
            && MatchingPods(v, a, OpenWorkload(a)) == Some([OpenPod(a, b, class')])
  {
    var w, p := OpenWorkload(a), OpenPod(a, b, class');
    assert WorkloadMatches(w, a);
    assert p.owners[0] in p.owners && OwnedBy(p.owners, "BatchSandbox", w.uid);
    KeepOne(w, w => WorkloadMatches(w, a));
    KeepOne(p, p => PodMatches(p, a, w));
  }

  predicate Prepared(a: Assignment) { ASSIGNMENT_FINALIZER in a.finalizers && a.sandboxId != "" }

  lemma OpenGate(cfg: Config, a: Assignment, b: Binding, class': string)
    requires Matchable(cfg, a) && Prepared(a) && !a.paused && class' in cfg.runtimeClasses
    requires b.podUid != "" && b.podUid != a.resumeAfter
    ensures ReadyGate(cfg, a, OpenView(a, b, class'), OpenWorkload(a), OpenPod(a, b, class'))
  {
    OnlyOneMatches(a, b, class');
  }

  /** The status binds the assignment to this Pod and this revision of its bundle. */
  predicate BoundTo(a: Assignment, b: Binding) {
    && IsReady(a.status) && a.status.podRef == Some(ObjectRef("Pod", b.podName, b.podUid))
    && a.status.resolved == Some(ResolvedBundle(a.bundle, "bundle", b.revision))
  }

  /** The same incarnation with the same fence; a sandbox ID, once there, is kept. */
  predicate SameIncarnation(a: Assignment, a': Assignment) {
    && a' == a.(version := a'.version, finalizers := a'.finalizers, sandboxId := a'.sandboxId, status := a'.status)
    && (a.sandboxId != "" ==> a'.sandboxId == a.sandboxId)
  }

  /** A stored status that is equivalent to a Ready one is a Ready one. */
  lemma EquivalentIsReady(stored: Status, r: Report, generation: int, now: Time)
    requires r.Bound? && Equivalent(stored, Render(r, generation, now))
    ensures IsReady(stored) && stored.podRef == Some(r.boundPod) && stored.resolved == Some(r.bundle)
  {
    var c := Conditions(r, generation, now);
    assert StripTimes(stored.conditions) == StripTimes(c);
    assert StripTimes(c)[3] == c[3].(transition := 0)
        && StripTimes(stored.conditions)[3] == stored.conditions[3].(transition := 0);
    assert stored.conditions[3] in stored.conditions;
  }

  lemma BindingEffect(cfg: Config, a: Assignment, b: Binding, class': string)
    requires Matchable(cfg, a) && Prepared(a) && !a.paused && class' in cfg.runtimeClasses
    requires b.podUid != "" && b.podUid != a.resumeAfter
    ensures var r := ControllerEffect(cfg, a, a, OpenView(a, b, class'), 0);
            var a' := if r.None? then a else r.value;
            BoundTo(a', b) && SameIncarnation(a, a')
  {
    var v, w, p := OpenView(a, b, class'), OpenWorkload(a), OpenPod(a, b, class');
    OpenGate(cfg, a, b, class');
    ReadyReportNamesTheGate(cfg, a, v, w, p);
    OpenReport(cfg, a, b, class');
    var report := Decide(cfg, a, v).report;
    RenderedReady(report, a.generation, 0);
    if Equivalent(a.status, Render(report, a.generation, 0)) { EquivalentIsReady(a.status, report, a.generation, 0); }
  }

  lemma OpenReport(cfg: Config, a: Assignment, b: Binding, class': string)
    requires ReadyGate(cfg, a, OpenView(a, b, class'), OpenWorkload(a), OpenPod(a, b, class'))
    ensures Decide(cfg, a, OpenView(a, b, class')) ==
              Tell(Bound(ResolvedBundle(a.bundle, "bundle", b.revision), WorkloadReference(OpenWorkload(a)),
                         PodReference(OpenPod(a, b, class')), IdentityNotRequired))
  {
    OnlyOneMatches(a, b, class');
  }

  lemma FinalizerEffect(cfg: Config, a: Assignment, v: View)
    requires !a.deleting && ASSIGNMENT_FINALIZER !in a.finalizers
    ensures var r := ControllerEffect(cfg, a, a, v, 0);
            r.Some? && r.value == a.(finalizers := a.finalizers + {ASSIGNMENT_FINALIZER}, version := a.version + 1)
  {}

  lemma NamingEffect(cfg: Config, a: Assignment, b: Binding, class': string)
    requires Matchable(cfg, a) && ASSIGNMENT_FINALIZER in a.finalizers && a.sandboxId == "" && !a.paused
    ensures var r := ControllerEffect(cfg, a, a, OpenView(a, b, class'), 0);
            r.Some? && r.value == a.(sandboxId := "sandbox", version := a.version + 1)
  {
    OnlyOneMatches(a, b, class');
  }

  /** A pass over an assignment that is being deleted takes the finalizer away and nothing else. */
  lemma DeletionEffect(cfg: Config, a: Assignment, v: View)
    requires a.deleting
    ensures ControllerEffect(cfg, a, a, v, 0)
         == Some(a.(finalizers := a.finalizers - {ASSIGNMENT_FINALIZER}, version := a.version + 1))
  {}

  /** From any state in which the assignment can be matched there is one with the finalizer. */
  lemma FinalizerReached(cfg: Config, s: State) returns (s': State)
    requires Inv(s) && !s.obj.deleting
    ensures Reaches(Controller(cfg), s, s') && Inv(s') && SameIncarnation(s.obj, s'.obj)
    ensures ASSIGNMENT_FINALIZER in s'.obj.finalizers && s'.handlers == s.handlers
  {
    ControllerIsRespectful(cfg);
    ReachesItself(Controller(cfg), s);
    s' := s;
    if ASSIGNMENT_FINALIZER !in s.obj.finalizers {
      FinalizerEffect(cfg, s.obj, EMPTY_VIEW);
      PassReaches(Controller(cfg), s, EMPTY_VIEW);
      s' := AfterPass(Controller(cfg), s, EMPTY_VIEW);
    }
  }

  const EMPTY_VIEW := View(map[], map[], None, map[], None, map[], 0)

  lemma NameReached(cfg: Config, s: State, b: Binding) returns (s': State)
    requires Inv(s) && Matchable(cfg, s.obj) && !s.obj.paused && ASSIGNMENT_FINALIZER in s.obj.finalizers
    ensures Reaches(Controller(cfg), s, s') && Inv(s') && SameIncarnation(s.obj, s'.obj) && Prepared(s'.obj)
    ensures s'.handlers == s.handlers
  {
    ControllerIsRespectful(cfg);
    ReachesItself(Controller(cfg), s);
    s' := s;
    if s.obj.sandboxId == "" {
      var view := OpenView(s.obj, b, "");
      NamingEffect(cfg, s.obj, b, "");
      PassReaches(Controller(cfg), s, view);
      s' := AfterPass(Controller(cfg), s, view);
    }
  }

  /** An assignment that is not paused can be bound to any Pod but the fenced one. */
  lemma BindingReached(cfg: Config, s: State, b: Binding) returns (s': State)
    requires Inv(s) && Matchable(cfg, s.obj) && !s.obj.paused && b.podUid != "" && b.podUid != s.obj.resumeAfter
    ensures Reaches(Controller(cfg), s, s') && Inv(s') && SameIncarnation(s.obj, s'.obj) && BoundTo(s'.obj, b)
    ensures s'.handlers == s.handlers
  {
    ControllerIsRespectful(cfg);
    var s1 := FinalizerReached(cfg, s);
    var s2 := NameReached(cfg, s1, b);
    var class' :| class' in cfg.runtimeClasses;
    var view := OpenView(s2.obj, b, class');
    BindingEffect(cfg, s2.obj, b, class');
    PassReaches(Controller(cfg), s2, view);
    s' := AfterPass(Controller(cfg), s2, view);
    ReachesFurther(Controller(cfg), s, s1, s2);
    ReachesFurther(Controller(cfg), s, s2, s');
  }

  /** Without a fence write the Pod with UID `u` can get authority exactly when it has it already,
      or the assignment is not paused and `u` is not the fenced UID. */
  lemma AuthorityReachedExactly(cfg: Config, s: State, u: string)
    requires Inv(s) && Matchable(cfg, s.obj) && u != ""
    ensures (exists s' :: Reaches(Controller(cfg), s, s') && Authorizes(s'.obj, u))
       <==> Authorizes(s.obj, u) || (!s.obj.paused && s.obj.resumeAfter != u)
  {
    var pass := Controller(cfg);
    ControllerIsRespectful(cfg);
    if Authorizes(s.obj, u) {
      ReachesItself(pass, s);
    } else if !s.obj.paused && s.obj.resumeAfter != u {
      var s' := BindingReached(cfg, s, Binding("pod", u, ""));
    } else {
      forall s' | Reaches(pass, s, s') ensures !Authorizes(s'.obj, u) {
        var states, steps :| IsRun(pass, states, steps) && Connects(states, s, s');
        FencedPodStaysOut(pass, states, steps, 0, |steps|, u);
      }
    }
  }

  /** The fence write a handler is about to make goes through and removes the pause. */
  predicate Clears(s: State, h: nat) {
    && Enabled(s, Store(h)) && !SetsPaused(s.handlers[h].goal)
    && s.handlers[h].copy.version == s.obj.version
  }

  lemma ClearedState(pass: Passing, s: State, h: nat)
    requires Respectful(pass) && Inv(s) && Clears(s, h)
    ensures var s' := Do(pass, s, Store(h));
            && Inv(s') && s'.fences == s.fences + 1
            && s'.obj ==
               s.obj.(paused := false, resumeAfter := FenceUid(s.handlers[h].goal), version := s.obj.version + 1)
  {
    InvInductive(pass, s, Store(h));
    assert Agrees(s.handlers[h].copy, s.obj);
  }

  /** Only a fence write that goes through changes the number of fence writes. */
  lemma FenceWriteIs(pass: Passing, s: State, step: Step)
    requires Enabled(s, step)
    ensures var s' := Do(pass, s, step);
            s'.fences != s.fences ==>
              && step.Store? && s.handlers[step.h].copy.version == s.obj.version && s'.fences == s.fences + 1
              && s'.obj.paused == SetsPaused(s.handlers[step.h].goal)
  {}

  /** A pause that nobody helps: it sets its fence, gives up waiting, and is about to undo it. */
  lemma PauseTimesOut(pass: Passing, s: State, h: nat) returns (states: seq<State>, steps: seq<Step>)
    requires Respectful(pass) && Inv(s) && h !in s.handlers
    ensures IsRun(pass, states, steps) && states[0] == s && |steps| == 5 && Inv(states[5])
    ensures states[5].obj == s.obj.(paused := true, resumeAfter := "", version := s.obj.version + 1)
    ensures Clears(states[5], h) && states[5].handlers[h].goal == PauseUndo
  {
    var x, xs := PauseFences(pass, s, h);
    var y, ys := WaitTimesOut(pass, x[3], h);
    RunsJoin(pass, x, xs, y, ys);
    states, steps := x + y[1..], xs + ys;
  }

  lemma PauseFences(pass: Passing, s: State, h: nat) returns (states: seq<State>, steps: seq<Step>)
    requires Respectful(pass) && Inv(s) && h !in s.handlers
    ensures IsRun(pass, states, steps) && states[0] == s && |steps| == 3 && Inv(states[3])
    ensures states[3].obj == s.obj.(paused := true, resumeAfter := "", version := s.obj.version + 1)
    ensures h in states[3].handlers && states[3].handlers[h].Waiting?
  {
    var s1 := Do(pass, s, BeginPause(h));
    var s2 := Do(pass, s1, Load(h));
    var s3 := Do(pass, s2, Store(h));
    states, steps := [s, s1, s2, s3], [BeginPause(h), Load(h), Store(h)];
    InvInductive(pass, s, BeginPause(h));
    InvInductive(pass, s1, Load(h));
    InvInductive(pass, s2, Store(h));
  }

  lemma WaitTimesOut(pass: Passing, s: State, h: nat) returns (states: seq<State>, steps: seq<Step>)
    requires Respectful(pass) && Inv(s) && h in s.handlers && s.handlers[h].Waiting?
    ensures IsRun(pass, states, steps) && states[0] == s && |steps| == 2 && Inv(states[2]) && states[2].obj == s.obj
    ensures Clears(states[2], h) && states[2].handlers[h].goal == PauseUndo
  {
    var s1 := Do(pass, s, PollTimeout(h));
    var s2 := Do(pass, s1, Load(h));
    states, steps := [s, s1, s2], [PollTimeout(h), Load(h)];
    InvInductive(pass, s, PollTimeout(h));
    InvInductive(pass, s1, Load(h));
  }

  /** After a fence write that removes the pause, be it a resume or the undoing of a pause that
      timed out, `u` can get authority before the next fence write exactly when it had it already
      or is not the UID the write fences. A resume that saw no Pod reference fences nothing, and
      so does an undone pause: they let every Pod in. */
  lemma ClearedFenceAdmitsExactly(cfg: Config, s: State, h: nat, u: string)
    requires Inv(s) && Matchable(cfg, s.obj) && Clears(s, h) && u != ""
    ensures (exists s' :: Reaches(Controller(cfg), Do(Controller(cfg), s, Store(h)), s') && Authorizes(s'.obj, u))
       <==> Authorizes(s.obj, u) || FenceUid(s.handlers[h].goal) != u
  {
    ControllerIsRespectful(cfg);
    ClearedState(Controller(cfg), s, h);
    AuthorityReachedExactly(cfg, Do(Controller(cfg), s, Store(h)), u);
  }

  // ---- where the fence is lost -----------------------------------------------------------

  /** A pass that finds neither template nor bundle leaves no Pod reference. */
  lemma DroppingEffect(cfg: Config, a: Assignment)
    requires !a.deleting && ASSIGNMENT_FINALIZER in a.finalizers
    ensures var r := ControllerEffect(cfg, a, a, EMPTY_VIEW, 0);
            var a' := if r.None? then a else r.value;
            PodUid(a'.status) == "" && SameIncarnation(a, a')
  {
    var d := Decide(cfg, a, EMPTY_VIEW);
    assert d.Tell? && d.report.Progress? && d.report.pod.None?;
  }

  lemma ReferenceDropped(cfg: Config, s: State) returns (s': State)
    requires Inv(s) && !s.obj.deleting
    ensures Reaches(Controller(cfg), s, s') && Inv(s') && SameIncarnation(s.obj, s'.obj)
    ensures PodUid(s'.obj.status) == "" && s'.handlers == s.handlers
  {
    ControllerIsRespectful(cfg);
    var s1 := FinalizerReached(cfg, s);
    DroppingEffect(cfg, s1.obj);
    PassReaches(Controller(cfg), s1, EMPTY_VIEW);
    s' := AfterPass(Controller(cfg), s1, EMPTY_VIEW);
    ReachesFurther(Controller(cfg), s, s1, s');
  }

  /** A resume that nobody interrupts, from its cached read to its fence write. */
  lemma ResumeAlone(pass: Passing, s: State, h: nat) returns (states: seq<State>, steps: seq<Step>)
    requires Respectful(pass) && Inv(s) && h !in s.handlers
    ensures IsRun(pass, states, steps) && states[0] == s && |steps| == 2
    ensures steps[0] == BeginResume(h, |s.history| - 1) && Inv(states[2]) && states[2].obj == s.obj
    ensures h in states[2].handlers && states[2].handlers[h] == Loaded(ResumeFence(PodUid(s.obj.status)), s.obj)
    ensures states[2].fences == s.fences
  {
    var s1 := Do(pass, s, BeginResume(h, |s.history| - 1));
    var s2 := Do(pass, s1, Load(h));
    states, steps := [s, s1, s2], [BeginResume(h, |s.history| - 1), Load(h)];
    InvInductive(pass, s, steps[0]);
    InvInductive(pass, s1, steps[1]);
  }

  /** Where the resume fence is lost: from every state with a live assignment that can be matched,
      whatever Pod it is bound to, a bundle that is missing for one pass makes the controller drop
      the reference; a resume that reads the newest version then fences nothing, and every Pod,
      the paused one included, can get authority again. */
  lemma DroppedPodReferenceLosesTheFence(cfg: Config, s: State, h: nat, u: string)
    returns (dropped: State, before: State, final: State)
    requires Inv(s) && Matchable(cfg, s.obj) && h !in s.handlers && u != ""
    ensures Reaches(Controller(cfg), s, dropped) && Reaches(Controller(cfg), dropped, before)
    ensures before.obj == dropped.obj && dropped.obj.paused == s.obj.paused
    ensures Clears(before, h) && before.handlers[h].goal == ResumeFence("")
    ensures Reaches(Controller(cfg), Do(Controller(cfg), before, Store(h)), final) && Authorizes(final.obj, u)
  {
    var pass := Controller(cfg);
    ControllerIsRespectful(cfg);
    dropped := ReferenceDropped(cfg, s);
    var states, steps := ResumeAlone(pass, dropped, h);
    before := states[2];
    assert Connects(states, dropped, before);
    ClearedState(pass, before, h);
    final := BindingReached(cfg, Do(pass, before, Store(h)), Binding("pod", u, ""));
  }
}
