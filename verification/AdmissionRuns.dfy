/** What admission lets happen: a create request that nobody interrupts goes through whenever the
    tenant has room (internal/assignment/admission/admission.go,
    internal/assignment/opensandboxapi/handler.go). */
module AdmissionRuns {
  import opened Kube
  import opened Admission

  // ---- who is recorded in a Lease --------------------------------------------------------

  /** A stored Lease records a process that is between acquisition and release. */
  predicate RecordsHolder(cfg: Config, s: State, n: string)
    requires n in s.leases
  {
    var l := s.leases[n];
    && l.holder.Some? && l.holder.value in s.procs
    && var p := s.procs[l.holder.value];
    && Holding(p) && LeaseName(cfg, p) == n && l.renew == Some(p.hold.renew) && l.seconds == Some(LEASE_SECONDS)
  }

  predicate Recorded(cfg: Config, s: State) { forall n :: n in s.leases ==> RecordsHolder(cfg, s, n) }

  /** A process that is not about to take or release a Lease keeps what a Lease records of it. */
  lemma HolderStays(cfg: Config, s: State, step: Step, q: nat)
    requires Enabled(cfg, s, step) && q in s.procs && Holding(s.procs[q]) && step != Release(q)
    ensures var s' := Do(cfg, s, step);
            && q in s'.procs && Holding(s'.procs[q])
            && s'.procs[q].hold == s.procs[q].hold && s'.procs[q].req == s.procs[q].req
  {
    if OfProcess(step) && step.p == q { HolderMoves(cfg, s, step); }
  }

  lemma HolderMoves(cfg: Config, s: State, step: Step)
    requires Enabled(cfg, s, step) && OfProcess(step) && step.p in s.procs && Holding(s.procs[step.p]) && !step.Release?
    ensures var p, p' := s.procs[step.p], Next(cfg, s, step); Holding(p') && p'.hold == p.hold && p'.req == p.req
  {}

  lemma LeaseWriteRecords(cfg: Config, s: State, step: Step, n: string)
    requires Enabled(cfg, s, step) && (step.CreateLease? || step.TakeLease?)
    requires n in Do(cfg, s, step).leases && (n !in s.leases || Do(cfg, s, step).leases[n] != s.leases[n])
    ensures RecordsHolder(cfg, Do(cfg, s, step), n)
  {}

  lemma OtherLeasesStay(cfg: Config, s: State, step: Step)
    requires Enabled(cfg, s, step) && !step.CreateLease? && !step.TakeLease? && !step.Release?
    ensures Do(cfg, s, step).leases == s.leases
  {}

  lemma ReleaseRecords(cfg: Config, s: State, p: nat, n: string)
    requires Excludes(cfg, s) && Recorded(cfg, s) && Enabled(cfg, s, Release(p)) && n in Do(cfg, s, Release(p)).leases
    ensures n in s.leases && Do(cfg, s, Release(p)).leases[n] == s.leases[n] && s.leases[n].holder != Some(p)
  {
    assert HoldsLease(cfg, s, p, s.procs[p]);
    assert RecordsHolder(cfg, s, n);
  }

  lemma RecordedInductive(cfg: Config, s: State, step: Step)
    requires Excludes(cfg, s) && Recorded(cfg, s) && Enabled(cfg, s, step)
    ensures Recorded(cfg, Do(cfg, s, step))
  {
    var s' := Do(cfg, s, step);
    forall n | n in s'.leases ensures RecordsHolder(cfg, s', n) {
      if step.Release? { ReleaseRecords(cfg, s, step.p, n); }
      if !step.CreateLease? && !step.TakeLease? && !step.Release? { OtherLeasesStay(cfg, s, step); }
      if n !in s.leases || s'.leases[n] != s.leases[n] {
        LeaseWriteRecords(cfg, s, step, n);
      } else {
        assert RecordsHolder(cfg, s, n);
        HolderStays(cfg, s, step, s.leases[n].holder.value);
      }
    }
  }

  lemma {:induction false} RunRecorded(cfg: Config, states: seq<State>, steps: seq<Step>, i: nat)
    requires IsRun(cfg, states, steps) && Start(states[0]) && i < |states|
    ensures Recorded(cfg, states[i])
  {
    if i > 0 {
      RunRecorded(cfg, states, steps, i - 1);
      RunInvariant(cfg, states, steps, i - 1);
      RecordedInductive(cfg, states[i - 1], steps[i - 1]);
    }
  }

  predicate NobodyHolds(cfg: Config, s: State, lease: string) {
    forall q :: q in s.procs && Holding(s.procs[q]) && LeaseName(cfg, s.procs[q]) == lease ==> !Live(s, s.procs[q])
  }

  /** A Lease without a live holder is absent or available. */
  lemma UnheldIsAvailable(cfg: Config, s: State, n: string)
    requires Recorded(cfg, s) && NobodyHolds(cfg, s, n) && n in s.leases
    ensures Available(s.leases[n], s.now)
  {
    assert RecordsHolder(cfg, s, n);
  }

  // ---- single steps ----------------------------------------------------------------------

  /** Counting admits if and only if fewer assignments are charged to the tenant than its budget. */
  lemma CountAdmitsExactly(cfg: Config, s: State, p: nat)
    requires Enabled(cfg, s, Count(p)) && s.procs[p].req.tenant in cfg.max
    ensures var p' := Do(cfg, s, Count(p)).procs[p];
            && (p'.Admitted? <==> |Charged(cfg, s.assignments, s.procs[p].req.tenant)| < cfg.max[s.procs[p].req.tenant])
            && (!p'.Admitted? <==> p'.Leaving? && p'.outcome == Rejected)
  {}

  /** A name that is taken answers with the stored assignment if and only if that has the caller's
      tenant, key and request hash, and is a conflict otherwise. */
  lemma TakenNameAnswersExactly(cfg: Config, s: State, p: nat)
    requires Enabled(cfg, s, GetExisting(p)) && s.procs[p].req.name in s.assignments
    ensures var a, r, p' := s.assignments[s.procs[p].req.name], s.procs[p].req, Do(cfg, s, GetExisting(p)).procs[p];
            && p'.Leaving?
            && (p'.outcome == Existing(a) <==>
                  a.tenant == r.tenant && a.idempotencyKey == r.key && a.requestHash == r.hash)
            && (p'.outcome == Conflict <==> p'.outcome != Existing(a))
  {}

  /** A stored assignment without a sandbox ID is answered for once it has one, dropped when it is
      older than the pending time and still has none, and left alone otherwise. */
  lemma PendingAnswersExactly(cfg: Config, s: State, p: nat)
    requires Enabled(cfg, s, Refresh(p))
    ensures var found, p' := s.procs[p].outcome.found, Do(cfg, s, Refresh(p)).procs[p];
            var old' := s.now - found.created >= cfg.pendingTTL && found.name in s.assignments;
            && (p'.Replied? <==> old' && s.assignments[found.name].sandboxId != "")
            && (p'.Replied? ==> p'.answer == s.assignments[found.name])
            && (p'.Stale? <==> old' && s.assignments[found.name].sandboxId == "")
            && (p'.Ended? <==> !old')
  {}

  /** A stale pending assignment that is dropped is marked for deletion, and nothing else changes. */
  lemma StaleIsDropped(cfg: Config, s: State, p: nat)
    requires Enabled(cfg, s, DropStale(p)) && s.procs[p].checked.name in s.assignments
    ensures var n, s' := s.procs[p].checked.name, Do(cfg, s, DropStale(p));
            && s'.assignments == s.assignments[n := s.assignments[n].(deleting := true)]
            && s'.leases == s.leases && s'.posts == s.posts && s'.procs[p].Ended?
  {}

  /** A release deletes the Lease exactly when it was created by this holder or still has the UID the
      takeover saw. */
  lemma ReleaseDeletesExactly(leases: map<string, Lease>, n: string, h: Hold)
    requires n in leases
    ensures n !in ReleaseLease(leases, n, h) <==> h.uid == None || h.uid == Some(leases[n].uid)
    ensures forall m :: m in leases && m != n ==>
              m in ReleaseLease(leases, n, h) && ReleaseLease(leases, n, h)[m] == leases[m]
  {}

  // ---- an uninterrupted request ----------------------------------------------------------

  lemma RunsJoin(cfg: Config, a: seq<State>, x: seq<Step>, b: seq<State>, y: seq<Step>)
    requires IsRun(cfg, a, x) && IsRun(cfg, b, y) && a[|x|] == b[0]
    ensures IsRun(cfg, a + b[1..], x + y) && (a + b[1..])[|x| + |y|] == b[|y|]
  {
    var states, steps := a + b[1..], x + y;
    forall i | 0 <= i < |steps|
      ensures Enabled(cfg, states[i], steps[i]) && states[i + 1] == Do(cfg, states[i], steps[i])
    {
      if i >= |x| { assert states[i] == b[i - |x|] && states[i + 1] == b[i - |x| + 1]; }
    }
  }

  lemma TwoSteps(cfg: Config, s: State, s1: State, s2: State, x: Step, y: Step)
    requires Enabled(cfg, s, x) && s1 == Do(cfg, s, x) && Enabled(cfg, s1, y) && s2 == Do(cfg, s1, y)
    ensures IsRun(cfg, [s, s1, s2], [x, y])
  {}

  lemma OneStep(cfg: Config, s: State, s1: State, x: Step)
    requires Enabled(cfg, s, x) && s1 == Do(cfg, s, x)
    ensures IsRun(cfg, [s, s1], [x])
  {}

  function Moved(s: State, p: nat, next: Process): State { s.(procs := s.procs[p := next]) }

  /** Arriving, reading the clock and getting the Lease. */
  lemma Arrives(cfg: Config, s: State, p: nat, r: Request) returns (states: seq<State>, steps: seq<Step>)
    requires p !in s.procs && WellFormed(cfg, r)
    ensures IsRun(cfg, states, steps) && |steps| == 3 && states[0] == s && steps[0] == Arrive(p, r)
    ensures var n := cfg.leaseOf(r.tenant);
            states[3] == Moved(s, p, if n in s.leases then Seen(r, s.now, s.leases[n]) else Missing(r, s.now))
  {
    var s1, s2 := Moved(s, p, Looping(r)), Moved(s, p, Timed(r, s.now));
    var n := cfg.leaseOf(r.tenant);
    var s3 := Moved(s, p, if n in s.leases then Seen(r, s.now, s.leases[n]) else Missing(r, s.now));
    Enters(cfg, s, p, r, s1, s2);
    assert s3 == Moved(s2, p, s3.procs[p]);
    Gets(cfg, s2, p, r, s3);
    RunsJoin(cfg, [s, s1, s2], [Arrive(p, r), ReadClock(p)], [s2, s3], [GetLease(p)]);
    states, steps := [s, s1, s2] + [s2, s3][1..], [Arrive(p, r), ReadClock(p)] + [GetLease(p)];
  }

  lemma Enters(cfg: Config, s: State, p: nat, r: Request, s1: State, s2: State)
    requires p !in s.procs && WellFormed(cfg, r)
    requires s1 == Moved(s, p, Looping(r)) && s2 == Moved(s, p, Timed(r, s.now))
    ensures IsRun(cfg, [s, s1, s2], [Arrive(p, r), ReadClock(p)])
  {
    ArriveStep(cfg, s, p, r);
    ClockStep(cfg, s1, p, r);
    assert Moved(s1, p, Timed(r, s.now)) == s2;
    TwoSteps(cfg, s, s1, s2, Arrive(p, r), ReadClock(p));
  }

  lemma Gets(cfg: Config, s: State, p: nat, r: Request, s': State)
    requires p in s.procs && s.procs[p] == Timed(r, s.now) && p in s'.procs && s' == Moved(s, p, s'.procs[p])
    requires var n := cfg.leaseOf(r.tenant);
             s'.procs[p] == if n in s.leases then Seen(r, s.now, s.leases[n]) else Missing(r, s.now)
    ensures IsRun(cfg, [s, s'], [GetLease(p)])
  {
    GetStep(cfg, s, p, r, s'.procs[p]);
    OneStep(cfg, s, s', GetLease(p));
  }

  lemma ArriveStep(cfg: Config, s: State, p: nat, r: Request)
    requires p !in s.procs && WellFormed(cfg, r)
    ensures Enabled(cfg, s, Arrive(p, r)) && Do(cfg, s, Arrive(p, r)) == Moved(s, p, Looping(r))
  {}

  lemma ClockStep(cfg: Config, s: State, p: nat, r: Request)
    requires p in s.procs && s.procs[p] == Looping(r)
    ensures Enabled(cfg, s, ReadClock(p)) && Do(cfg, s, ReadClock(p)) == Moved(s, p, Timed(r, s.now))
  {}

  lemma GetStep(cfg: Config, s: State, p: nat, r: Request, next: Process)
    requires p in s.procs && s.procs[p] == Timed(r, s.now)
    requires var n := cfg.leaseOf(r.tenant);
             next == if n in s.leases then Seen(r, s.now, s.leases[n]) else Missing(r, s.now)
    ensures Enabled(cfg, s, GetLease(p)) && Do(cfg, s, GetLease(p)) == Moved(s, p, next)
  {}

  /** The state of an acquisition that has just succeeded. */
  predicate Acquired(cfg: Config, s: State, f: State, p: nat, r: Request) {
    var n := cfg.leaseOf(r.tenant);
    && p in f.procs && f.procs[p].Held? && f.procs[p].req == r && f.procs[p].hold.renew == s.now
    && f == s.(procs := f.procs, leases := f.leases, tick := s.tick + 1)
    && f.procs == s.procs[p := f.procs[p]] && n in f.leases && f.leases == s.leases[n := f.leases[n]]
    && (f.procs[p].hold.uid.Some? ==> f.leases[n].uid == f.procs[p].hold.uid.value)
  }

  lemma CreatesLease(cfg: Config, s: State, p: nat, r: Request) returns (states: seq<State>, steps: seq<Step>)
    requires p !in s.procs && WellFormed(cfg, r) && cfg.leaseOf(r.tenant) !in s.leases
    ensures IsRun(cfg, states, steps) && |steps| == 4 && states[0] == s && steps[0] == Arrive(p, r)
    ensures Acquired(cfg, s, states[4], p, r)
  {
    var x, xs := Arrives(cfg, s, p, r);
    var f := Do(cfg, x[3], CreateLease(p));
    RunsJoin(cfg, x, xs, [x[3], f], [CreateLease(p)]);
    states, steps := x + [x[3], f][1..], xs + [CreateLease(p)];
    LeaseCreated(cfg, x[3], p, r);
  }

  lemma LeaseCreated(cfg: Config, s: State, p: nat, r: Request)
    requires p in s.procs && s.procs[p] == Missing(r, s.now) && cfg.leaseOf(r.tenant) !in s.leases
    ensures Enabled(cfg, s, CreateLease(p)) && Acquired(cfg, s, Do(cfg, s, CreateLease(p)), p, r)
  {}

  lemma TakesLease(cfg: Config, s: State, p: nat, r: Request) returns (states: seq<State>, steps: seq<Step>)
    requires p !in s.procs && WellFormed(cfg, r)
    requires var n := cfg.leaseOf(r.tenant); n in s.leases && Available(s.leases[n], s.now)
    ensures IsRun(cfg, states, steps) && |steps| == 5 && states[0] == s && steps[0] == Arrive(p, r)
    ensures Acquired(cfg, s, states[5], p, r)
  {
    var x, xs := Arrives(cfg, s, p, r);
    var y, ys := LeaseTaken(cfg, x[3], p, r);
    RunsJoin(cfg, x, xs, y, ys);
    states, steps := x + y[1..], xs + ys;
  }

  lemma LeaseTaken(cfg: Config, s: State, p: nat, r: Request) returns (states: seq<State>, steps: seq<Step>)
    requires var n := cfg.leaseOf(r.tenant);
             && p in s.procs && n in s.leases && s.procs[p] == Seen(r, s.now, s.leases[n])
                 && Available(s.leases[n], s.now)
    ensures IsRun(cfg, states, steps) && |steps| == 2 && states[0] == s && Acquired(cfg, s, states[2], p, r)
  {
    var l := s.leases[cfg.leaseOf(r.tenant)];
    var s1 := Moved(s, p, Taking(r, s.now, l));
    var s2 := Do(cfg, s1, TakeLease(p));
    states, steps := [s, s1, s2], [CheckLease(p), TakeLease(p)];
    assert Enabled(cfg, s, steps[0]) && s1 == Do(cfg, s, steps[0]);
  }

  /** The Lease is acquired from any state without a live holder. */
  lemma Acquires(cfg: Config, s: State, p: nat, r: Request) returns (states: seq<State>, steps: seq<Step>)
    requires p !in s.procs && WellFormed(cfg, r) && Recorded(cfg, s) && NobodyHolds(cfg, s, cfg.leaseOf(r.tenant))
    ensures IsRun(cfg, states, steps) && states[0] == s && steps != [] && steps[0] == Arrive(p, r)
    ensures Acquired(cfg, s, states[|steps|], p, r)
  {
    if cfg.leaseOf(r.tenant) in s.leases {
      UnheldIsAvailable(cfg, s, cfg.leaseOf(r.tenant));
      states, steps := TakesLease(cfg, s, p, r);
    } else {
      states, steps := CreatesLease(cfg, s, p, r);
    }
  }

  /** What the request leaves behind: one assignment of its own, charged to its tenant; no Lease; and
      one post of the new UID. */
  predicate Served(cfg: Config, s: State, f: State, p: nat, r: Request, uid: string, name: string) {
    && name !in s.assignments && name in f.assignments && f.assignments == s.assignments[name := f.assignments[name]]
    && var a := f.assignments[name];
    && a.name == name && a.uid == uid && a.tenant == r.tenant && a.bundle == r.bundle
    && a.idempotencyKey == r.key && a.requestHash == r.hash && !a.deleting && a.created == s.now
    && f.leases == s.leases - {cfg.leaseOf(r.tenant)} && f.posts == s.posts + [uid]
    && p in f.procs && f.procs[p] == Posted(r, uid)
  }

  /** Counting, creating, releasing and posting. */
  lemma CreatesAndPosts(cfg: Config, s: State, p: nat, r: Request, uid: string, generated: string)
    returns (states: seq<State>, steps: seq<Step>)
    requires p in s.procs && s.procs[p].Held? && s.procs[p].req == r && s.procs[p].hold.renew == s.now
    requires WellFormed(cfg, r) && |Charged(cfg, s.assignments, r.tenant)| < cfg.max[r.tenant]
    requires uid !in s.born && ChosenName(r, generated) !in s.assignments
    requires var n := cfg.leaseOf(r.tenant);
             n in s.leases && (s.procs[p].hold.uid.Some? ==> s.leases[n].uid == s.procs[p].hold.uid.value)
    ensures IsRun(cfg, states, steps) && |steps| == 4 && states[0] == s
    ensures Served(cfg, s, states[4], p, r, uid, ChosenName(r, generated))
  {
    var hold := s.procs[p].hold;
    var s1 := Moved(s, p, Admitted(r, hold));
    var s2 := Do(cfg, s1, Create(p, uid, generated));
    CountsRoom(cfg, s, p, r);
    CreatesOne(cfg, s1, p, r, uid, generated);
    var y, ys := ReleasesAndPosts(cfg, s2, p, r, uid);
    TwoSteps(cfg, s, s1, s2, Count(p), Create(p, uid, generated));
    RunsJoin(cfg, [s, s1, s2], [Count(p), Create(p, uid, generated)], y, ys);
    states, steps := [s, s1, s2] + y[1..], [Count(p), Create(p, uid, generated)] + ys;
  }

  lemma CountsRoom(cfg: Config, s: State, p: nat, r: Request)
    requires p in s.procs && s.procs[p].Held? && s.procs[p].req == r && s.procs[p].hold.renew == s.now
    requires r.tenant in cfg.max && |Charged(cfg, s.assignments, r.tenant)| < cfg.max[r.tenant]
    ensures Enabled(cfg, s, Count(p)) && Do(cfg, s, Count(p)) == Moved(s, p, Admitted(r, s.procs[p].hold))
  {
    CountAdmitsExactly(cfg, s, p);
  }

  lemma CreatesOne(cfg: Config, s: State, p: nat, r: Request, uid: string, generated: string)
    requires p in s.procs && s.procs[p].Admitted? && s.procs[p].req == r && s.procs[p].hold.renew == s.now
    requires uid !in s.born && ChosenName(r, generated) !in s.assignments
    ensures Enabled(cfg, s, Create(p, uid, generated))
    ensures var f, name := Do(cfg, s, Create(p, uid, generated)), ChosenName(r, generated);
            && f.now == s.now && f.leases == s.leases && f.posts == s.posts
            && f.assignments == s.assignments[name := NewAssignment(r, name, uid, s.now, s.tick)]
            && f.procs == s.procs[p := Leaving(r, s.procs[p].hold, Created(uid))]
  {}

  lemma ReleasesAndPosts(cfg: Config, s: State, p: nat, r: Request, uid: string)
    returns (states: seq<State>, steps: seq<Step>)
    requires p in s.procs && s.procs[p].Leaving? && s.procs[p].req == r && s.procs[p].outcome == Created(uid)
    requires s.procs[p].hold.renew == s.now
    requires var n := cfg.leaseOf(r.tenant);
             n in s.leases && (s.procs[p].hold.uid.Some? ==> s.leases[n].uid == s.procs[p].hold.uid.value)
    ensures IsRun(cfg, states, steps) && |steps| == 2 && states[0] == s
    ensures states[2] == s.(leases := s.leases - {cfg.leaseOf(r.tenant)}, posts := s.posts + [uid],
                            procs := s.procs[p := Posted(r, uid)])
  {
    var s1 := s.(leases := s.leases - {cfg.leaseOf(r.tenant)}, procs := s.procs[p := Free(r, Created(uid))]);
    var s2 := s1.(posts := s.posts + [uid], procs := s.procs[p := Posted(r, uid)]);
    states, steps := [s, s1, s2], [Release(p), Post(p)];
    assert Enabled(cfg, s, Release(p)) && s1 == Do(cfg, s, Release(p));
    assert Enabled(cfg, s1, Post(p)) && s2 == Do(cfg, s1, Post(p));
  }

  /** From every reachable state in which nobody live holds the tenant's Lease, the tenant is below
      its budget and the name is free, a request that nobody interrupts acquires the Lease, creates
      one assignment with its tenant, bundle, key and hash, releases the Lease and posts the new UID
      upstream. One more assignment is then charged to the tenant, so budgets are reached exactly. */
  lemma RoomIsGranted(
      cfg: Config, before: seq<State>, done: seq<Step>, p: nat, r: Request, uid: string, generated: string)
    returns (states: seq<State>, steps: seq<Step>)
    requires IsRun(cfg, before, done) && Start(before[0])
    requires var s := before[|done|];
             && p !in s.procs && WellFormed(cfg, r) && NobodyHolds(cfg, s, cfg.leaseOf(r.tenant))
             && |Charged(cfg, s.assignments, r.tenant)| < cfg.max[r.tenant]
             && uid !in s.born && ChosenName(r, generated) !in s.assignments
    ensures IsRun(cfg, states, steps) && states[0] == before[|done|] && steps != [] && steps[0] == Arrive(p, r)
    ensures Served(cfg, before[|done|], states[|steps|], p, r, uid, ChosenName(r, generated))
    ensures |Charged(cfg, states[|steps|].assignments, r.tenant)|
            == |Charged(cfg, before[|done|].assignments, r.tenant)| + 1
  {
    var s := before[|done|];
    RunRecorded(cfg, before, done, |done|);
    var x, xs := Acquires(cfg, s, p, r);
    var f := x[|xs|];
    var y, ys := CreatesAndPosts(cfg, f, p, r, uid, generated);
    RunsJoin(cfg, x, xs, y, ys);
    states, steps := x + y[1..], xs + ys;
    var name := ChosenName(r, generated);
    ChargedNewcomer(cfg, s.assignments, states[|steps|].assignments[name], name, r.tenant);
  }

  // ---- an uninterrupted retry ------------------------------------------------------------

  /** Finding the name taken, reading the assignment that has it, releasing and answering. */
  lemma AnswersTakenName(cfg: Config, s: State, p: nat, r: Request, uid: string, a: Assignment)
    returns (states: seq<State>, steps: seq<Step>)
    requires p in s.procs && s.procs[p].Admitted? && s.procs[p].req == r && s.procs[p].hold.renew == s.now
    requires uid !in s.born && r.name != "" && r.name in s.assignments && s.assignments[r.name] == a
    requires IdentityOf(a) == Wanted(r) && a.sandboxId != ""
    ensures IsRun(cfg, states, steps) && |steps| == 4 && states[0] == s
    ensures states[4].assignments == s.assignments && states[4].posts == s.posts
    ensures p in states[4].procs && states[4].procs[p] == Replied(r, a, a)
  {
    var hold := s.procs[p].hold;
    var s1, s2 := Moved(s, p, NameTaken(r, hold)), Moved(s, p, Leaving(r, hold, Existing(a)));
    var s3 := s2.(leases := ReleaseLease(s.leases, cfg.leaseOf(r.tenant), hold),
                  procs := s.procs[p := Free(r, Existing(a))]);
    var s4 := Moved(s3, p, Replied(r, a, a));
    states, steps := [s, s1, s2, s3, s4], [Create(p, uid, ""), GetExisting(p), Release(p), Replay(p)];
    TakenSteps(cfg, s, p, r, uid, a);
    assert Moved(s1, p, s2.procs[p]) == s2;
    AnswerSteps(cfg, s2, p, r, a, s3);
  }

  lemma TakenSteps(cfg: Config, s: State, p: nat, r: Request, uid: string, a: Assignment)
    requires p in s.procs && s.procs[p].Admitted? && s.procs[p].req == r && s.procs[p].hold.renew == s.now
    requires uid !in s.born && r.name != "" && r.name in s.assignments && s.assignments[r.name] == a
    requires IdentityOf(a) == Wanted(r)
    ensures var hold := s.procs[p].hold;
            var s1 := Moved(s, p, NameTaken(r, hold));
            && Enabled(cfg, s, Create(p, uid, "")) && Do(cfg, s, Create(p, uid, "")) == s1
            && Enabled(cfg, s1, GetExisting(p))
            && Do(cfg, s1, GetExisting(p)) == Moved(s1, p, Leaving(r, hold, Existing(a)))
  {}

  lemma AnswerSteps(cfg: Config, s: State, p: nat, r: Request, a: Assignment, s': State)
    requires p in s.procs && s.procs[p].Leaving? && s.procs[p].req == r && s.procs[p].outcome == Existing(a)
    requires s.procs[p].hold.renew == s.now && a.sandboxId != ""
    requires s' == s.(leases := ReleaseLease(s.leases, cfg.leaseOf(r.tenant), s.procs[p].hold),
                      procs := s.procs[p := Free(r, Existing(a))])
    ensures Enabled(cfg, s, Release(p)) && Do(cfg, s, Release(p)) == s'
    ensures Enabled(cfg, s', Replay(p)) && Do(cfg, s', Replay(p)) == Moved(s', p, Replied(r, a, a))
  {}

  /** A retry that nobody interrupts, of a request whose assignment is stored with a sandbox ID while
      the tenant is below its budget, is answered from that assignment: nothing is created and
      nothing is posted. */
  lemma RetryIsAnswered(cfg: Config, before: seq<State>, done: seq<Step>, p: nat, r: Request, uid: string)
    returns (states: seq<State>, steps: seq<Step>)
    requires IsRun(cfg, before, done) && Start(before[0])
    requires var s := before[|done|];
             && p !in s.procs && WellFormed(cfg, r) && NobodyHolds(cfg, s, cfg.leaseOf(r.tenant))
             && |Charged(cfg, s.assignments, r.tenant)| < cfg.max[r.tenant] && uid !in s.born
             && r.name != "" && r.name in s.assignments
             && IdentityOf(s.assignments[r.name]) == Wanted(r) && s.assignments[r.name].sandboxId != ""
    ensures IsRun(cfg, states, steps) && states[0] == before[|done|] && steps != [] && steps[0] == Arrive(p, r)
    ensures var s, f := before[|done|], states[|steps|];
            && f.assignments == s.assignments && f.posts == s.posts
            && p in f.procs && f.procs[p] == Replied(r, s.assignments[r.name], s.assignments[r.name])
  {
    var s := before[|done|];
    RunRecorded(cfg, before, done, |done|);
    var x, xs := Acquires(cfg, s, p, r);
    var f := x[|xs|];
    var g := Moved(f, p, Admitted(r, f.procs[p].hold));
    CountsRoom(cfg, f, p, r);
    RunsJoin(cfg, x, xs, [f, g], [Count(p)]);
    var y, ys := AnswersTakenName(cfg, g, p, r, uid, s.assignments[r.name]);
    RunsJoin(cfg, x + [f, g][1..], xs + [Count(p)], y, ys);
    states, steps := x + [f, g][1..] + y[1..], xs + [Count(p)] + ys;
  }
}
