/** Authority across a pause: verifications of credentials (internal/assignment/credentialbroker)
    that read the assignment while pause and resume handlers and the controller work on it
    (internal/assignment/opensandboxapi/handler.go). */
module Rotation {
  import opened Kube
  import D = Durations
  import B = Broker
  import R = Reconcile
  import F = Fence
  import G = GrantRuns

  /** Within grant states b+1 to j the stored assignment, if there is one, is that of the fence
      state with the given number. */
  ghost predicate Sees(gs: seq<G.State>, fs: seq<F.State>, at: seq<nat>, b: nat, j: nat) {
    && b < j < |gs| == |at|
    && forall k :: b < k <= j ==> at[k] < |fs| && (gs[k].assignment == None || gs[k].assignment == Some(fs[at[k]].obj))
  }

  /** The stored status is one the claims were issued for. */
  predicate StatusBinds(status: Status, c: B.Claims) {
    && IsReady(status) && PodUid(status) == c.podUid
    && (if status.resolved.Some? then status.resolved.value.name else "") == c.bundleName
    && (if status.resolved.Some? then status.resolved.value.revision else "") == c.bundleRevision
  }

  /** How a credential slips through the fence: the write that removes the pause fences another
      UID or none, or the pause never took the authority away. */
  predicate Slips(s: F.State, h: nat, c: B.Claims)
    requires F.Clears(s, h)
  {
    F.FenceUid(s.handlers[h].goal) != c.podUid || StatusBinds(s.obj.status, c)
  }

  // ---- what the fence stops --------------------------------------------------------------

  /** While `u` is fenced, a state that authorizes it still has the status of the fence write. */
  lemma {:induction false} FencedStatusStays(
      pass: F.Passing, states: seq<F.State>, steps: seq<F.Step>, i: nat, j: nat, u: string)
    requires F.Respectful(pass) && F.IsRun(pass, states, steps) && F.Inv(states[0]) && i <= j < |states| && u != ""
    requires states[i].obj.resumeAfter == u && states[i].fences == states[j].fences
    ensures states[j].obj.resumeAfter == u
    ensures F.Authorizes(states[j].obj, u) ==> states[j].obj.status == states[i].obj.status
  {
    if i < j {
      F.FencesMonotone(pass, states, steps, i, j - 1);
      F.FencesMonotone(pass, states, steps, j - 1, j);
      FencedStatusStays(pass, states, steps, i, j - 1, u);
      F.RunKeepsInv(pass, states, steps, j - 1);
      F.StepRespectsFence(pass, states[j - 1], steps[j - 1]);
    }
  }

  /** A verification that has succeeded was shown, after it began, some fence state that binds. */
  lemma SawBindingState(
      gs: seq<G.State>, gsteps: seq<G.Step>, fs: seq<F.State>, at: seq<nat>, b: nat, j: nat, v: nat, id: string)
    returns (m: nat)
    requires G.IsRun(gs, gsteps) && G.Start(gs[0]) && Sees(gs, fs, at, b, j) && gsteps[b] == G.BeginVerify(v, id)
    requires v in gs[j].verifies && gs[j].verifies[v].Valid?
    ensures id in gs[b].grants && m < |fs| && G.Binds(Some(fs[m].obj), gs[b].grants[id])
    ensures exists k :: b < k <= j && at[k] == m
  {
    var k := G.ValidWasBound(gs, gsteps, b, j, v, id);
    m := at[k];
  }

  /** The last fence write before a state that is not paused, in a run that starts paused: it
      removes the pause. */
  lemma {:induction false} LastClear(pass: F.Passing, states: seq<F.State>, steps: seq<F.Step>, m: nat) returns (i: nat)
    requires F.Respectful(pass) && F.IsRun(pass, states, steps) && F.Inv(states[0]) && m < |states|
    requires states[0].obj.paused && !states[m].obj.paused
    ensures i < m && steps[i].Store? && F.Clears(states[i], steps[i].h) && states[m].fences == states[i].fences + 1
    decreases m
  {
    var s, step := states[m - 1], steps[m - 1];
    F.RunKeepsInv(pass, states, steps, m - 1);
    F.StepRespectsFence(pass, s, step);
    F.FenceWriteIs(pass, s, step);
    if states[m].fences == s.fences { i := LastClear(pass, states, steps, m - 1); } else { i := m - 1; }
  }

  /** Authority rotation: a verification that begins while the assignment is paused, however long it
      takes and however many fence writes follow, succeeds only if its credential slips through one
      of the writes that remove the pause: the last one before some state it reads. */
  lemma VerifiesAcrossFenceOnlyIf(
      cfg: R.Config, fs: seq<F.State>, fsteps: seq<F.Step>,
      gs: seq<G.State>, gsteps: seq<G.Step>, at: seq<nat>, b: nat, j: nat, v: nat, id: string)
    returns (i: nat)
    requires F.IsRun(F.Controller(cfg), fs, fsteps) && F.Inv(fs[0]) && fs[0].obj.paused
    requires G.IsRun(gs, gsteps) && G.Start(gs[0]) && Sees(gs, fs, at, b, j) && gsteps[b] == G.BeginVerify(v, id)
    requires v in gs[j].verifies && gs[j].verifies[v].Valid?
    ensures i < |fsteps| && fsteps[i].Store? && F.Clears(fs[i], fsteps[i].h)
    ensures exists k :: b < k <= j && i < at[k] < |fs| && fs[at[k]].fences == fs[i].fences + 1
    ensures id in gs[b].grants && (gs[b].grants[id].podUid != "" ==> Slips(fs[i], fsteps[i].h, gs[b].grants[id]))
  {
    F.ControllerIsRespectful(cfg);
    var m := SawBindingState(gs, gsteps, fs, at, b, j, v, id);
    var c := gs[b].grants[id];
    i := LastClear(F.Controller(cfg), fs, fsteps, m);
    if c.podUid != "" && F.FenceUid(fs[i].handlers[fsteps[i].h].goal) == c.podUid {
      BindingStateIsOld(cfg, fs, fsteps, i, m, c);
    }
  }

  lemma BindingStateIsOld(cfg: R.Config, fs: seq<F.State>, fsteps: seq<F.Step>, i: nat, m: nat, c: B.Claims)
    requires F.IsRun(F.Controller(cfg), fs, fsteps) && F.Inv(fs[0]) && i < m < |fs| && G.Binds(Some(fs[m].obj), c)
    requires fsteps[i].Store? && F.Clears(fs[i], fsteps[i].h) && fs[m].fences == fs[i].fences + 1
    requires c.podUid != "" && F.FenceUid(fs[i].handlers[fsteps[i].h].goal) == c.podUid
    ensures fs[i].obj.status == fs[m].obj.status
  {
    var pass := F.Controller(cfg);
    F.ControllerIsRespectful(cfg);
    F.RunKeepsInv(pass, fs, fsteps, i);
    F.ClearedState(pass, fs[i], fsteps[i].h);
    FencedStatusStays(pass, fs, fsteps, i + 1, m, c.podUid);
  }

  /** The same for a pause that was completed: from state p, paused and not Ready on Pod `u`, across
      a resume that read the assignment no older than that and still saw a Pod, up to the next
      fence write, no verification begun in that window of a credential bound to `u` succeeds. */
  lemma NoVerificationAcrossResume(
      cfg: R.Config, fs: seq<F.State>, fsteps: seq<F.Step>, p: nat, r: nat, i: nat,
      gs: seq<G.State>, gsteps: seq<G.Step>, at: seq<nat>, b: nat, j: nat, v: nat, id: string)
    requires F.IsRun(F.Controller(cfg), fs, fsteps) && F.Start(fs[0]) && p <= r < i < |fsteps|
    requires (forall k :: p <= k <= i ==> fs[k].obj.paused) && !IsReady(fs[p].obj.status)
    requires fsteps[r].BeginResume? && fsteps[i] == F.Store(fsteps[r].h)
    requires fsteps[r].cached >= |fs[p].history| - 1 && PodUid(fs[r].history[fsteps[r].cached].status) != ""
    requires fs[i].handlers[fsteps[r].h].goal == F.ResumeFence(PodUid(fs[r].history[fsteps[r].cached].status))
    requires fs[i + 1].fences == fs[i].fences + 1 == fs[|fsteps|].fences
    requires G.IsRun(gs, gsteps) && G.Start(gs[0]) && Sees(gs, fs, at, b, j) && gsteps[b] == G.BeginVerify(v, id)
    requires forall k :: b < k <= j ==> p <= at[k]
    requires id in gs[b].grants && gs[b].grants[id].podUid == PodUid(fs[p].obj.status)
    ensures v in gs[j].verifies && !gs[j].verifies[v].Valid?
  {
    G.VerificationSawAuthority(gs, gsteps, b, j, v, id);
    if gs[j].verifies[v].Valid? {
      var m := SawBindingState(gs, gsteps, fs, at, b, j, v, id);
      F.FencesMonotone(F.Controller(cfg), fs, fsteps, i + 1, if m > i then m else i + 1);
      F.FencesMonotone(F.Controller(cfg), fs, fsteps, m, |fsteps|);
      if m > i { F.ResumeKeepsOldPodOut(cfg, fs, fsteps, p, r, i, m); }
    }
  }

  // ---- what it lets through --------------------------------------------------------------

  /** The claims name this incarnation of the assignment, and are in force for some time. */
  predicate Addressed(c: B.Claims, a: Assignment) {
    && c.assignmentName == a.name && c.assignmentUid == a.uid && c.sandboxId == a.sandboxId && a.sandboxId != ""
    && c.bundleName == a.bundle && c.podUid != ""
    && c.notBefore < c.expires && D.Stored(c.expires) == c.expires
  }

  lemma GrantRunsJoin(a: seq<G.State>, x: seq<G.Step>, b: seq<G.State>, y: seq<G.Step>)
    requires G.IsRun(a, x) && G.IsRun(b, y) && a[|x|] == b[0]
    ensures G.IsRun(a + b[1..], x + y)
  {
    var states, steps := a + b[1..], x + y;
    forall i | 0 <= i < |steps| ensures G.Enabled(states[i], steps[i]) && states[i + 1] == G.Do(states[i], steps[i]) {
      if i >= |x| { assert states[i] == b[i - |x|] && states[i + 1] == b[i - |x| + 1]; }
    }
  }

  /** A Pod starts, and a credential for it is issued while the stored assignment is `a`. */
  lemma CredentialIssued(c: B.Claims, n: string, a: Assignment) returns (gs: seq<G.State>, gsteps: seq<G.Step>)
    requires D.Stored(c.expires) == c.expires
    ensures G.IsRun(gs, gsteps) && G.Start(gs[0]) && |gsteps| == 3 && gsteps[2] == G.IssueGrant(c)
    ensures gs[2].assignment == Some(a)
    ensures gs[3] == G.State(c.notBefore, map[c.id := c], map[], {}, Some(a),
                             map[n := G.Pod(c.podUid, false, false)], {c.podUid}, map[], map[])
  {
    var pod := G.Pod(c.podUid, false, false);
    var g0 := G.State(c.notBefore, map[], map[], {}, None, map[], {}, map[], map[]);
    var g1 := g0.(pods := map[n := pod], podUids := {c.podUid});
    var g2 := g1.(assignment := Some(a));
    var g3 := g2.(grants := map[c.id := c]);
    gs, gsteps := [g0, g1, g2, g3], [G.CreatePod(n, pod), G.ChangeAssignment(Some(a)), G.IssueGrant(c)];
    assert G.Enabled(g0, gsteps[0]) && g1 == G.Do(g0, gsteps[0]);
    assert G.Enabled(g2, gsteps[2]) && g3 == G.Do(g2, gsteps[2]);
  }

  /** The assignment becomes `a0`, the verification begins, and the assignment becomes `a1`. */
  lemma VerificationBegins(s: G.State, c: B.Claims, a0: Assignment, a1: Assignment)
    returns (gs: seq<G.State>, gsteps: seq<G.Step>)
    requires s.verifies == map[] && s.revoked == {} && s.grants == map[c.id := c] && s.now == c.notBefore < c.expires
    ensures G.IsRun(gs, gsteps) && gs[0] == s && |gsteps| == 3 && gsteps[1] == G.BeginVerify(0, c.id)
    ensures gs[1].assignment == gs[2].assignment == Some(a0)
    ensures gs[3] == s.(assignment := Some(a1), verifies := map[0 := G.Parsed(c.id, c.notBefore, false)])
  {
    var s1 := s.(assignment := Some(a0));
    var s2 := s1.(verifies := map[0 := G.Parsed(c.id, c.notBefore, false)]);
    var s3 := s2.(assignment := Some(a1));
    gs := [s, s1, s2, s3];
    gsteps := [G.ChangeAssignment(Some(a0)), G.BeginVerify(0, c.id), G.ChangeAssignment(Some(a1))];
    assert G.Enabled(s1, gsteps[1]) && s2 == G.Do(s1, gsteps[1]);
  }

  /** The remaining reads of a verification that nobody interrupts. */
  lemma VerificationEnds(s: G.State, c: B.Claims, a: Assignment) returns (gs: seq<G.State>, gsteps: seq<G.Step>)
    requires s.assignment == Some(a) && G.Binds(Some(a), c) && s.grants == map[c.id := c] && s.records == map[]
    requires s.verifies == map[0 := G.Parsed(c.id, c.notBefore, false)]
    requires s.pods == map[G.PodName(Some(a)) := G.Pod(c.podUid, false, false)]
    ensures G.IsRun(gs, gsteps) && |gsteps| == 4 && gs[0] == s
    ensures forall k :: 0 <= k <= 4 ==> gs[k].assignment == Some(a)
    ensures 0 in gs[4].verifies && gs[4].verifies[0].Valid? && gs[4].verifies[0].id == c.id
  {
    var t := c.notBefore;
    var s1 := s.(verifies := s.verifies[0 := G.Fetched(c.id, t, false, None)]);
    var s2 := s.(verifies := s.verifies[0 := G.Unrevoked(c.id, t, false, s.now)]);
    var s3 := s2.(verifies := s2.verifies[0 := G.Bound(c.id, t, false, s.now, G.PodName(Some(a)))]);
    var s4 := s2.(verifies := s2.verifies[0 := G.Valid(c.id, t, false, s.now)]);
    G.NoRecordReads(s, 0, c.id, false, t, s1, s2);
    G.LastReads(s2, 0, c.id, false, t, s.now, s3, s4);
    gsteps := [G.FetchRecord(0), G.Judge(0), G.BindAssignment(0), G.CheckPod(0)];
    gs := FourSteps(s, s1, s2, s3, s4, gsteps);
  }

  lemma FourSteps(s: G.State, s1: G.State, s2: G.State, s3: G.State, s4: G.State, steps: seq<G.Step>)
    returns (gs: seq<G.State>)
    requires |steps| == 4
    requires G.Enabled(s, steps[0]) && s1 == G.Do(s, steps[0])
    requires G.Enabled(s1, steps[1]) && s2 == G.Do(s1, steps[1])
    requires G.Enabled(s2, steps[2]) && s3 == G.Do(s2, steps[2])
    requires G.Enabled(s3, steps[3]) && s4 == G.Do(s3, steps[3])
    ensures gs == [s, s1, s2, s3, s4] && G.IsRun(gs, steps)
  {
    gs := [s, s1, s2, s3, s4];
  }

  /** A state that binds the claims is reached from the cleared fence without another fence write;
      unless it is the cleared state itself, it binds the Pod under the given name. */
  lemma BindingStateReached(cfg: R.Config, s: F.State, h: nat, c: B.Claims, podName: string) returns (s': F.State)
    requires F.Inv(s) && F.Matchable(cfg, s.obj) && F.Clears(s, h) && Addressed(c, s.obj) && Slips(s, h, c)
    ensures F.Reaches(F.Controller(cfg), F.Do(F.Controller(cfg), s, F.Store(h)), s') && G.Binds(Some(s'.obj), c)
    ensures F.FenceUid(s.handlers[h].goal) != c.podUid ==> G.PodName(Some(s'.obj)) == podName
  {
    var pass := F.Controller(cfg);
    F.ControllerIsRespectful(cfg);
    F.ClearedState(pass, s, h);
    s' := F.Do(pass, s, F.Store(h));
    F.ReachesItself(pass, s');
    if F.FenceUid(s.handlers[h].goal) != c.podUid {
      s' := F.BindingReached(cfg, s', F.Binding(podName, c.podUid, c.bundleRevision));
    }
  }

  /** A run of the fence in which some state p binds the claims, so that the credential could be
      issued, and which ends paused, with a write about to remove the pause through which the
      credential slips. */
  ghost predicate AboutToSlip(
      cfg: R.Config, fs: seq<F.State>, fsteps: seq<F.Step>, p: nat, h: nat, c: B.Claims)
  {
    && F.IsRun(F.Controller(cfg), fs, fsteps) && F.Start(fs[0]) && p < |fs| && G.Binds(Some(fs[p].obj), c)
    && var s := fs[|fsteps|];
    && s.obj.paused && F.Matchable(cfg, s.obj) && F.Clears(s, h) && Addressed(c, s.obj) && Slips(s, h, c)
  }

  /** And a credential that slips through does verify: the run goes on, without another fence write,
      and over it there is a run of the broker that issues the credential at state p, begins a
      verification while the assignment is paused, and answers valid. The Pod is bound again under
      the name it had at p, unless it was bound all the time. */
  lemma VerifiesAcrossFence(
      cfg: R.Config, fs0: seq<F.State>, steps0: seq<F.Step>, p: nat, h: nat, c: B.Claims)
    returns (fs: seq<F.State>, fsteps: seq<F.Step>, gs: seq<G.State>, gsteps: seq<G.Step>, at: seq<nat>)
    requires AboutToSlip(cfg, fs0, steps0, p, h, c)
    ensures F.IsRun(F.Controller(cfg), fs, fsteps) && fs0 <= fs && steps0 + [F.Store(h)] <= fsteps
    ensures fs[|fsteps|].fences == fs0[|steps0|].fences + 1
    ensures Slipped(gs, gsteps, fs, at, p, |steps0|, c)
    ensures F.FenceUid(fs0[|steps0|].handlers[h].goal) != c.podUid ==>
              G.PodName(gs[10].assignment) == G.PodName(Some(fs0[p].obj))
  {
    fs, fsteps := RunThatBindsAgain(cfg, fs0, steps0, p, h, c);
    gs, gsteps, at := BrokerOver(fs, p, |steps0|, c);
  }

  /** The run of the fence. */
  lemma RunThatBindsAgain(cfg: R.Config, fs0: seq<F.State>, steps0: seq<F.Step>, p: nat, h: nat, c: B.Claims)
    returns (fs: seq<F.State>, fsteps: seq<F.Step>)
    requires AboutToSlip(cfg, fs0, steps0, p, h, c)
    ensures F.IsRun(F.Controller(cfg), fs, fsteps) && fs0 <= fs && steps0 + [F.Store(h)] <= fsteps
    ensures fs[|fsteps|].fences == fs0[|steps0|].fences + 1 && G.Binds(Some(fs[|fsteps|].obj), c)
    ensures F.FenceUid(fs0[|steps0|].handlers[h].goal) != c.podUid ==>
              G.PodName(Some(fs[|fsteps|].obj)) == G.PodName(Some(fs0[p].obj))
  {
    var s := fs0[|steps0|];
    F.ControllerIsRespectful(cfg);
    F.RunKeepsInv(F.Controller(cfg), fs0, steps0, |steps0|);
    var s' := BindingStateReached(cfg, s, h, c, G.PodName(Some(fs0[p].obj)));
    fs, fsteps := ClearThenRun(cfg, fs0, steps0, h, s');
  }

  /** The run of the broker over three states of it. */
  lemma BrokerOver(fs: seq<F.State>, p: nat, q: nat, c: B.Claims)
    returns (gs: seq<G.State>, gsteps: seq<G.Step>, at: seq<nat>)
    requires p <= q < |fs| && G.Binds(Some(fs[p].obj), c) && G.Binds(Some(fs[|fs| - 1].obj), c)
    requires c.notBefore < c.expires && D.Stored(c.expires) == c.expires
    ensures Slipped(gs, gsteps, fs, at, p, q, c) && gs[10].assignment == Some(fs[|fs| - 1].obj)
  {
    gs, gsteps := VerificationOver(c, fs[p].obj, fs[q].obj, fs[|fs| - 1].obj);
    at := Matched(gs, fs, p, q);
  }

  /** A run of the broker that issues the credential in step 2 and begins to verify it in step 4;
      the verification succeeds. */
  ghost predicate Answers(gs: seq<G.State>, gsteps: seq<G.Step>, c: B.Claims) {
    && G.IsRun(gs, gsteps) && G.Start(gs[0]) && |gsteps| == 10
    && gsteps[2] == G.IssueGrant(c) && gsteps[4] == G.BeginVerify(0, c.id)
    && 0 in gs[10].verifies && gs[10].verifies[0].Valid? && gs[10].verifies[0].id == c.id
  }

  /** From the issuance, on fence state p, over the beginning of the verification, on state q, to
      the end, the stored assignments are those of the fence run, in order. */
  predicate Follows(gs: seq<G.State>, fs: seq<F.State>, at: seq<nat>, p: nat, q: nat) {
    && |gs| == |at| == 11 && at[2] == p && at[4] == at[5] == q
    && (forall k :: 2 <= k <= 10 ==> at[k] < |fs| && gs[k].assignment == Some(fs[at[k]].obj))
    && (forall k :: 0 <= k < 10 ==> at[k] <= at[k + 1])
  }

  /** The broker issues the credential on fence state p, whose assignment binds its claims, begins
      to verify it on state q, and answers valid. */
  ghost predicate Slipped(
      gs: seq<G.State>, gsteps: seq<G.Step>, fs: seq<F.State>, at: seq<nat>, p: nat, q: nat, c: B.Claims)
  {
    Answers(gs, gsteps, c) && Follows(gs, fs, at, p, q) && G.Binds(gs[2].assignment, c)
  }

  /** The stored assignments of a broker run that follows three states. */
  predicate Shows(gs: seq<G.State>, a: Assignment, a0: Assignment, a1: Assignment) {
    && |gs| == 11 && gs[2].assignment == gs[3].assignment == Some(a)
    && gs[4].assignment == gs[5].assignment == Some(a0)
    && forall k :: 6 <= k <= 10 ==> gs[k].assignment == Some(a1)
  }

  /** Numbering the fence states a verification reads. */
  lemma Matched(gs: seq<G.State>, fs: seq<F.State>, p: nat, q: nat) returns (at: seq<nat>)
    requires p <= q < |fs| && Shows(gs, fs[p].obj, fs[q].obj, fs[|fs| - 1].obj)
    ensures Follows(gs, fs, at, p, q)
  {
    var n := |fs| - 1;
    at := [p, p, p, p, q, q, n, n, n, n, n];
  }

  /** A verification that begins on `a0` and ends on `a1`, which binds the claims. */
  lemma VerificationOver(c: B.Claims, a: Assignment, a0: Assignment, a1: Assignment)
    returns (gs: seq<G.State>, gsteps: seq<G.Step>)
    requires c.notBefore < c.expires && D.Stored(c.expires) == c.expires && G.Binds(Some(a1), c)
    ensures Answers(gs, gsteps, c) && Shows(gs, a, a0, a1)
  {
    var x, xs := CredentialIssued(c, G.PodName(Some(a1)), a);
    var y, ys := VerificationBegins(x[3], c, a0, a1);
    var z, zs := VerificationEnds(y[3], c, a1);
    GrantRunsJoin(x, xs, y, ys);
    GrantRunsJoin(x + y[1..], xs + ys, z, zs);
    gs, gsteps := x + y[1..] + z[1..], xs + ys + zs;
    Positions(x, y, z, gs);
  }

  lemma Positions(x: seq<G.State>, y: seq<G.State>, z: seq<G.State>, gs: seq<G.State>)
    requires |x| == |y| == 4 && |z| == 5 && x[3] == y[0] && y[3] == z[0] && gs == x + y[1..] + z[1..]
    ensures |gs| == 11 && gs[0] == x[0] && gs[2] == x[2] && gs[3] == x[3] && gs[4] == y[1] && gs[5] == y[2]
    ensures forall k :: 6 <= k <= 10 ==> gs[k] == z[k - 6]
  {}

  /** Continuing a run with the write that removes the pause and what is reached from there. */
  lemma ClearThenRun(cfg: R.Config, fs0: seq<F.State>, steps0: seq<F.Step>, h: nat, s': F.State)
    returns (fs: seq<F.State>, fsteps: seq<F.Step>)
    requires F.IsRun(F.Controller(cfg), fs0, steps0) && F.Inv(fs0[|steps0|]) && F.Clears(fs0[|steps0|], h)
    requires F.Reaches(F.Controller(cfg), F.Do(F.Controller(cfg), fs0[|steps0|], F.Store(h)), s')
    ensures F.IsRun(F.Controller(cfg), fs, fsteps) && fs0 <= fs && steps0 + [F.Store(h)] <= fsteps
    ensures fs[|fsteps|] == s' && s'.fences == fs0[|steps0|].fences + 1
  {
    var pass := F.Controller(cfg);
    var s := fs0[|steps0|];
    F.ControllerIsRespectful(cfg);
    F.ClearedState(pass, s, h);
    var s1 := F.Do(pass, s, F.Store(h));
    var states, steps :| F.IsRun(pass, states, steps) && F.Connects(states, s1, s') && s1.fences == s'.fences;
    assert F.IsRun(pass, [s, s1], [F.Store(h)]);
    F.RunsJoin(pass, [s, s1], [F.Store(h)], states, steps);
    var rest, restSteps := [s, s1] + states[1..], [F.Store(h)] + steps;
    F.RunsJoin(pass, fs0, steps0, rest, restSteps);
    fs, fsteps := fs0 + rest[1..], steps0 + restSteps;
  }

  /** The timed-out pause: from every start with an assignment that can be matched and is neither
      paused nor fenced against the Pod, the Pod is bound and the credential issued, a pause sets
      its fence and gives up waiting, a verification begins, the pause is undone, and the
      verification succeeds. */
  lemma TimedOutPauseLetsThrough(cfg: R.Config, s: F.State, h: nat, c: B.Claims)
    returns (fs: seq<F.State>, fsteps: seq<F.Step>, gs: seq<G.State>, gsteps: seq<G.Step>, at: seq<nat>, p: nat, q: nat)
    requires F.Start(s) && F.Matchable(cfg, s.obj) && !s.obj.paused && Addressed(c, s.obj)
    requires s.obj.resumeAfter != c.podUid
    ensures F.IsRun(F.Controller(cfg), fs, fsteps) && fs[0] == s && q < |fsteps| && fsteps[q] == F.Store(h)
    ensures F.Clears(fs[q], h) && fs[q].handlers[h].goal == F.PauseUndo && fs[q].obj.paused
    ensures Slipped(gs, gsteps, fs, at, p, q, c)
  {
    var fs0, steps0;
    fs0, steps0, p := BoundThenTimedOut(cfg, s, h, c);
    q := |steps0|;
    fs, fsteps, gs, gsteps, at := VerifiesAcrossFence(cfg, fs0, steps0, p, h, c);
    assert fs[q] == fs0[q];
  }

  lemma BoundThenTimedOut(cfg: R.Config, s: F.State, h: nat, c: B.Claims)
    returns (fs: seq<F.State>, fsteps: seq<F.Step>, p: nat)
    requires F.Start(s) && F.Matchable(cfg, s.obj) && !s.obj.paused && Addressed(c, s.obj)
    requires s.obj.resumeAfter != c.podUid
    ensures AboutToSlip(cfg, fs, fsteps, p, h, c) && fs[0] == s
    ensures fs[|fsteps|].handlers[h].goal == F.PauseUndo
  {
    var pass := F.Controller(cfg);
    F.ControllerIsRespectful(cfg);
    var bound := F.BindingReached(cfg, s, F.Binding("pod", c.podUid, c.bundleRevision));
    var x, xs :| F.IsRun(pass, x, xs) && F.Connects(x, s, bound);
    var y, ys := F.PauseTimesOut(pass, bound, h);
    F.RunsJoin(pass, x, xs, y, ys);
    fs, fsteps, p := x + y[1..], xs + ys, |xs|;
    assert fs[p] == bound && fs[|fsteps|] == y[5];
  }
}
