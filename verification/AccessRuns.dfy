/** Every interleaving of requesters, administrators and expiry sweepers over the stored
    access requests. Status writes of the dashboard are compare-and-swap; a sweeper's merge
    patch (section 2 of RFC 7396) is unconditional and sets the state alone. */
module AccessRuns {
  import opened Kube
  import opened Access

  /** An administrator's request in progress: the copy it read, then the status it will store
      together with the tenant budget it was checked against. */
  datatype Admin = Reading(copy: Request) | Deciding(copy: Request, status: AccessStatus, budget: int)

  datatype Decision = Decision(spec: Spec, status: AccessStatus, budget: int)

  /** One sweep of one replica: the list it read, and the clock it read after that. */
  datatype Sweeper = Sweeper(seen: set<Request>, clock: Option<Time>)

  /** `log` lists, per request name, the decisions that were stored. */
  datatype State = State(
    now: Time, requests: map<string, Request>, used: set<string>, tick: nat,
    creators: map<nat, Request>, admins: map<nat, Admin>,
    sweepers: map<nat, Sweeper>, log: map<string, seq<Decision>>)

  datatype Step =
    | Tick(t: Time)
    | Submit(p: nat, request: Request)
    | Initialize(p: nat)
    | Open(q: nat, name: string)
    | Approve(q: nat, minutes: int, budget: int, admin: Person, reason: string)
    | Deny(q: nat, admin: Person, reason: string)
    | Commit(q: nat)
    | SweepList(w: nat)
    | SweepClock(w: nat)
    | SweepPatch(w: nat, seen: Request)
    | Delete(name: string)

  predicate Enabled(valid: Verdict, s: State, step: Step) {
    match step
    case Tick(t) => t >= s.now
    case Submit(_, r) => r.name !in s.used && r.status == NO_STATUS && r.version == s.tick && !r.deleting
    case Initialize(p) => p in s.creators
    case Open(_, n) => n in s.requests && IsPending(s.requests[n].status)
    case Approve(q, minutes, budget, admin, reason) =>
      && q in s.admins && s.admins[q].Reading?
      && Judged(valid(s.admins[q].copy.spec), s.admins[q].copy, minutes, budget, admin, reason, s.now).Some?
    case Deny(q, admin, reason) =>
      q in s.admins && s.admins[q].Reading? && Denial(s.admins[q].copy, admin, reason).Some?
    case Commit(q) => q in s.admins && s.admins[q].Deciding?
    case SweepList(_) => true
    case SweepClock(w) => w in s.sweepers
    case SweepPatch(w, r) =>
      && w in s.sweepers && s.sweepers[w].clock.Some? && r in s.sweepers[w].seen
      && r.status.phase.Approved? && r.status.expiresAt.Some? && r.status.expiresAt.value <= s.sweepers[w].clock.value
    case Delete(n) => n in s.requests
  }

  function Put(s: State, n: string, status: AccessStatus): State
    requires n in s.requests
  {
    s.(requests := s.requests[n := s.requests[n].(status := status, version := s.tick)], tick := s.tick + 1)
  }

  /** The dashboard's UpdateStatus on a copy it read earlier. */
  predicate Wins(s: State, copy: Request) {
    copy.name in s.requests && s.requests[copy.name].version == copy.version
  }

  function Log(s: State, n: string): seq<Decision> { if n in s.log then s.log[n] else [] }

  function Do(valid: Verdict, s: State, step: Step): State
    requires Enabled(valid, s, step)
  {
    match step
    case Tick(t) => s.(now := t)
    case Submit(p, r) =>
      s.(requests := s.requests[r.name := r], used := s.used + {r.name}, tick := s.tick + 1,
         creators := s.creators[p := r])
    case Initialize(p) =>
      var copy := s.creators[p];
      var s1 := s.(creators := s.creators - {p});
      if Wins(s, copy) then Put(s1, copy.name, copy.status.(phase := Pending)) else s1
    case Open(q, n) => s.(admins := s.admins[q := Reading(s.requests[n])])
    case Approve(q, minutes, budget, admin, reason) =>
      var copy := s.admins[q].copy;
      var status := Judged(valid(copy.spec), copy, minutes, budget, admin, reason, s.now).value;
      s.(admins := s.admins[q := Deciding(copy, status, budget)])
    case Deny(q, admin, reason) =>
      s.(admins := s.admins[q := Deciding(s.admins[q].copy, Denial(s.admins[q].copy, admin, reason).value, 0)])
    case Commit(q) =>
      var d := s.admins[q];
      var s1 := s.(admins := s.admins - {q});
      if !Wins(s, d.copy) then s1
      else
        var decided := Log(s, d.copy.name) + [Decision(d.copy.spec, d.status, d.budget)];
        Put(s1, d.copy.name, d.status).(log := s.log[d.copy.name := decided])
    case SweepList(w) => s.(sweepers := s.sweepers[w := Sweeper(s.requests.Values, None)])
    case SweepClock(w) => s.(sweepers := s.sweepers[w := s.sweepers[w].(clock := Some(s.now))])
    case SweepPatch(_, r) =>
      if r.name in s.requests then Put(s, r.name, s.requests[r.name].status.(phase := Expired)) else s
    case Delete(n) => s.(requests := s.requests - {n})
  }

  // ---- the invariant ---------------------------------------------------------------------

  predicate Copy(s: State, r: Request) {
    && r.name in s.used && r.version < s.tick
    && (r.name in s.requests && s.requests[r.name].version == r.version ==> s.requests[r.name] == r)
  }

  /** A decision that may be stored: a denial, or an approval with a bounded lifetime. */
  predicate Sound(d: Decision) {
    d.status.phase.Denied? || (d.status.phase.Approved? && Bounded(d.status, d.spec.requestedSeconds, d.budget))
  }

  /** A stored request is what its log says: undecided, or decided once, and then at most
      expired. */
  predicate Accounted(r: Request, log: seq<Decision>) {
    match r.status.phase
    case Unset => log == []
    case Pending => log == []
    case Expired =>
      |log| == 1 && log[0].spec == r.spec && log[0].status == r.status.(phase := Approved) && Sound(log[0])
    case _ => |log| == 1 && log[0].spec == r.spec && log[0].status == r.status && Sound(log[0])
  }

  predicate AdminOk(s: State, a: Admin) {
    && Copy(s, a.copy) && IsPending(a.copy.status)
    && (a.Deciding? ==> Sound(Decision(a.copy.spec, a.status, a.budget)))
  }

  /** What a sweeper saw approved is still approved, or expired already, with the same expiry. */
  predicate SweepOk(s: State, r: Request) {
    && Copy(s, r)
    && (r.status.phase.Approved? && r.name in s.requests ==>
          && (s.requests[r.name].status.phase.Approved? || s.requests[r.name].status.phase.Expired?)
          && s.requests[r.name].status.expiresAt == r.status.expiresAt)
  }

  predicate SweeperOk(s: State, w: Sweeper) {
    (forall r :: r in w.seen ==> SweepOk(s, r)) && (w.clock.Some? ==> w.clock.value <= s.now)
  }

  predicate Inv(s: State) {
    && (forall n :: n in s.requests ==>
          s.requests[n].name == n && n in s.used && s.requests[n].version < s.tick
              && Accounted(s.requests[n], Log(s, n)))
    && (forall n :: n in s.log ==> n in s.used && |s.log[n]| <= 1)
    && (forall p :: p in s.creators ==> Copy(s, s.creators[p]) && s.creators[p].status == NO_STATUS)
    && (forall q :: q in s.admins ==> AdminOk(s, s.admins[q]))
    && (forall w :: w in s.sweepers ==> SweeperOk(s, s.sweepers[w]))
  }

  /** Writing a status under a new version keeps every copy honest. */
  lemma PutKeepsCopies(s: State, n: string, status: AccessStatus, r: Request)
    requires n in s.requests && s.requests[n].name == n && Copy(s, r)
    ensures Copy(Put(s, n, status), r)
  {}

  lemma PutKeepsInv(s: State, n: string, status: AccessStatus, s': State)
    requires Inv(s) && n in s.requests
    requires s' == Put(s, n, status).(log := s'.log)
    requires forall m :: m != n ==> Log(s', m) == Log(s, m)
    requires forall m :: m in s'.log ==> m in s.used && |s'.log[m]| <= 1
    requires Accounted(s'.requests[n], Log(s', n))
    requires s.requests[n].status.phase.Approved? || s.requests[n].status.phase.Expired? ==>
               (status.phase.Approved? || status.phase.Expired?) && status.expiresAt == s.requests[n].status.expiresAt
    ensures Inv(s')
  {
    forall r | Copy(s, r) ensures Copy(s', r) { PutKeepsCopies(s, n, status, r); }
    forall q | q in s'.admins ensures AdminOk(s', s'.admins[q]) { assert AdminOk(s, s.admins[q]); }
    SweepersStay(s, s');
    forall p | p in s'.creators ensures Copy(s', s'.creators[p]) { assert Copy(s, s.creators[p]); }
    forall m | m in s'.requests
      ensures s'.requests[m].name == m && m in s'.used && s'.requests[m].version < s'.tick
              && Accounted(s'.requests[m], Log(s', m)) {
      if m != n { assert s'.requests[m] == s.requests[m] && Log(s', m) == Log(s, m); }
    }
  }

  lemma SubmitKeepsInv(valid: Verdict, s: State, step: Step)
    requires Inv(s) && Enabled(valid, s, step) && step.Submit?
    ensures Inv(Do(valid, s, step))
  {
    var s' := Do(valid, s, step);
    forall r | Copy(s, r) ensures Copy(s', r) {}
    assert step.request.name !in s.log;
  }

  lemma CommitKeepsInv(valid: Verdict, s: State, q: nat)
    requires Inv(s) && Enabled(valid, s, Commit(q))
    ensures Inv(Do(valid, s, Commit(q)))
  {
    var d := s.admins[q];
    assert AdminOk(s, d);
    FewerAdmins(s, q);
    if Wins(s, d.copy) { DecisionKeepsInv(s.(admins := s.admins - {q}), d); }
  }

  lemma FewerAdmins(s: State, q: nat)
    requires Inv(s)
    ensures Inv(s.(admins := s.admins - {q}))
  {
    var s' := s.(admins := s.admins - {q});
    forall p | p in s'.admins ensures AdminOk(s', s'.admins[p]) { assert AdminOk(s, s.admins[p]); }
    SweepersStay(s, s');
  }

  /** Storing a sound decision over a copy that is still current. */
  lemma DecisionKeepsInv(s: State, d: Admin)
    requires Inv(s) && d.Deciding? && AdminOk(s, d) && Wins(s, d.copy)
    ensures var n := d.copy.name;
            Inv(Put(s, n, d.status).(log := s.log[n := Log(s, n) + [Decision(d.copy.spec, d.status, d.budget)]]))
  {
    var n := d.copy.name;
    var s' := Put(s, n, d.status).(log := s.log[n := Log(s, n) + [Decision(d.copy.spec, d.status, d.budget)]]);
    assert s.requests[n] == d.copy && Log(s, n) == [];
    PutKeepsInv(s, n, d.status, s');
  }

  lemma InitializeKeepsInv(valid: Verdict, s: State, p: nat)
    requires Inv(s) && Enabled(valid, s, Initialize(p))
    ensures Inv(Do(valid, s, Initialize(p)))
  {
    var copy := s.creators[p];
    var s1 := s.(creators := s.creators - {p});
    assert Inv(s1);
    if Wins(s, copy) { PutKeepsInv(s1, copy.name, copy.status.(phase := Pending), Do(valid, s, Initialize(p))); }
  }

  lemma PatchKeepsInv(valid: Verdict, s: State, w: nat, r: Request)
    requires Inv(s) && Enabled(valid, s, SweepPatch(w, r))
    ensures Inv(Do(valid, s, SweepPatch(w, r)))
  {
    assert SweeperOk(s, s.sweepers[w]) && SweepOk(s, r);
    if r.name in s.requests {
      PutKeepsInv(s, r.name, s.requests[r.name].status.(phase := Expired), Do(valid, s, SweepPatch(w, r)));
    }
  }

  lemma InvInductive(valid: Verdict, s: State, step: Step)
    requires Inv(s) && Enabled(valid, s, step)
    ensures Inv(Do(valid, s, step))
  {
    if step.Submit? || step.Initialize? || step.Commit? || step.SweepPatch? {
      StatusStepKeepsInv(valid, s, step);
    } else if step.Approve? || step.Deny? {
      ReviewKeepsInv(valid, s, step);
    } else {
      ReadingStepKeepsInv(valid, s, step);
    }
  }

  lemma StatusStepKeepsInv(valid: Verdict, s: State, step: Step)
    requires Inv(s) && Enabled(valid, s, step) && (step.Submit? || step.Initialize? || step.Commit? || step.SweepPatch?)
    ensures Inv(Do(valid, s, step))
  {
    match step {
      case Submit(_, _) => SubmitKeepsInv(valid, s, step);
      case Initialize(p) => InitializeKeepsInv(valid, s, p);
      case Commit(q) => CommitKeepsInv(valid, s, q);
      case SweepPatch(w, r) => PatchKeepsInv(valid, s, w, r);
    }
  }

  lemma ReadingStepKeepsInv(valid: Verdict, s: State, step: Step)
    requires Inv(s) && Enabled(valid, s, step)
    requires step.Tick? || step.Open? || step.SweepList? || step.SweepClock? || step.Delete?
    ensures Inv(Do(valid, s, step))
  {
    match step {
      case Open(q, n) => OpenKeepsInv(s, q, n);
      case SweepList(w) => ListKeepsInv(s, w);
      case Delete(n) => DeleteKeepsInv(s, n);
      case Tick(t) => TickKeepsInv(s, t);
      case SweepClock(w) => ClockKeepsInv(s, w);
    }
  }

  lemma OpenKeepsInv(s: State, q: nat, n: string)
    requires Inv(s) && n in s.requests && IsPending(s.requests[n].status)
    ensures Inv(s.(admins := s.admins[q := Reading(s.requests[n])]))
  {
    AdminKeepsInv(s, q, Reading(s.requests[n]));
  }

  lemma TickKeepsInv(s: State, now: Time)
    requires Inv(s) && s.now <= now
    ensures Inv(s.(now := now))
  {
    var s' := s.(now := now);
    forall q | q in s'.admins ensures AdminOk(s', s'.admins[q]) { assert AdminOk(s, s.admins[q]); }
    SweepersStay(s, s');
  }

  lemma ClockKeepsInv(s: State, w: nat)
    requires Inv(s) && w in s.sweepers
    ensures Inv(s.(sweepers := s.sweepers[w := s.sweepers[w].(clock := Some(s.now))]))
  {
    assert SweeperOk(s, s.sweepers[w]);
    SweeperKeepsInv(s, w, s.sweepers[w].(clock := Some(s.now)));
  }

  lemma SweeperKeepsInv(s: State, w: nat, sweeper: Sweeper)
    requires Inv(s) && SweeperOk(s, sweeper)
    ensures Inv(s.(sweepers := s.sweepers[w := sweeper]))
  {
    var s' := s.(sweepers := s.sweepers[w := sweeper]);
    forall q | q in s'.admins ensures AdminOk(s', s'.admins[q]) { assert AdminOk(s, s.admins[q]); }
    forall x | x in s'.sweepers ensures SweeperOk(s', s'.sweepers[x]) {
      assert SweeperOk(s, s'.sweepers[x]);
      SweeperStays(s, s', s'.sweepers[x]);
    }
  }

  /** What a sweeper has seen stays as honest as every single request in it. */
  lemma SweeperStays(s: State, s': State, sweeper: Sweeper)
    requires SweeperOk(s, sweeper) && s.now <= s'.now && forall r :: SweepOk(s, r) ==> SweepOk(s', r)
    ensures SweeperOk(s', sweeper)
  {}

  lemma SweepersStay(s: State, s': State)
    requires (forall w :: w in s.sweepers ==> SweeperOk(s, s.sweepers[w])) && s'.sweepers == s.sweepers
             && s.now <= s'.now
    requires forall r :: SweepOk(s, r) ==> SweepOk(s', r)
    ensures forall w :: w in s'.sweepers ==> SweeperOk(s', s'.sweepers[w])
  {
    forall w | w in s'.sweepers ensures SweeperOk(s', s'.sweepers[w]) { SweeperStays(s, s', s.sweepers[w]); }
  }

  lemma ReviewKeepsInv(valid: Verdict, s: State, step: Step)
    requires Inv(s) && Enabled(valid, s, step) && (step.Approve? || step.Deny?)
    ensures Inv(Do(valid, s, step))
  {
    assert AdminOk(s, s.admins[step.q]);
    var copy := s.admins[step.q].copy;
    if step.Approve? {
      ApprovalIsSound(valid, copy, step.minutes, step.budget, step.admin, step.reason, s.now);
    }
    AdminKeepsInv(s, step.q, Do(valid, s, step).admins[step.q]);
  }

  lemma ApprovalIsSound(valid: Verdict, copy: Request, minutes: int, budget: int, admin: Person, reason: string,
                        now: Time)
    requires Judged(valid(copy.spec), copy, minutes, budget, admin, reason, now).Some?
    ensures Sound(Decision(copy.spec, Judged(valid(copy.spec), copy, minutes, budget, admin, reason, now).value,
                           budget))
  {
    JudgedIsBounded(valid(copy.spec), copy, minutes, budget, admin, reason, now);
  }

  lemma AdminKeepsInv(s: State, q: nat, a: Admin)
    requires Inv(s) && AdminOk(s, a)
    ensures Inv(s.(admins := s.admins[q := a]))
  {
    var s' := s.(admins := s.admins[q := a]);
    forall p | p in s'.admins ensures AdminOk(s', s'.admins[p]) { assert p != q ==> AdminOk(s, s.admins[p]); }
  }

  lemma ListKeepsInv(s: State, w: nat)
    requires Inv(s)
    ensures Inv(s.(sweepers := s.sweepers[w := Sweeper(s.requests.Values, None)]))
  {
    var sweeper := Sweeper(s.requests.Values, None);
    forall r | r in sweeper.seen ensures SweepOk(s, r) { var n :| n in s.requests && s.requests[n] == r; }
    SweeperKeepsInv(s, w, sweeper);
  }

  lemma DeleteKeepsInv(s: State, n: string)
    requires Inv(s)
    ensures Inv(s.(requests := s.requests - {n}))
  {
    var s' := s.(requests := s.requests - {n});
    forall q | q in s'.admins ensures AdminOk(s', s'.admins[q]) { assert AdminOk(s, s.admins[q]); }
    SweepersStay(s, s');
  }

  // ---- whole runs ------------------------------------------------------------------------

  ghost predicate IsRun(valid: Verdict, states: seq<State>, steps: seq<Step>) {
    && |states| == |steps| + 1
    && forall i :: 0 <= i < |steps| ==>
          Enabled(valid, states[i], steps[i]) && states[i + 1] == Do(valid, states[i], steps[i])
  }

  predicate Start(s: State) {
    s.requests == map[] && s.creators == map[] && s.admins == map[] && s.sweepers == map[] && s.log == map[]
  }

  lemma {:induction false} RunKeepsInv(valid: Verdict, states: seq<State>, steps: seq<Step>, i: nat)
    requires IsRun(valid, states, steps) && Inv(states[0]) && i < |states|
    ensures Inv(states[i])
  {
    if i > 0 {
      RunKeepsInv(valid, states, steps, i - 1);
      InvInductive(valid, states[i - 1], steps[i - 1]);
    }
  }

  /** Every request is decided at most once; every stored approval, expired or not, has the
      bounded lifetime of the one decision taken on it. */
  lemma DecidedAtMostOnce(valid: Verdict, states: seq<State>, steps: seq<Step>, i: nat, n: string)
    requires IsRun(valid, states, steps) && Start(states[0]) && i < |states|
    ensures |Log(states[i], n)| <= 1
    ensures n in states[i].requests
            && (states[i].requests[n].status.phase.Approved? || states[i].requests[n].status.phase.Expired?) ==>
              && |Log(states[i], n)| == 1
              && Bounded(states[i].requests[n].status, states[i].requests[n].spec.requestedSeconds,
                         Log(states[i], n)[0].budget)
  {
    RunKeepsInv(valid, states, steps, i);
  }

  /** The order of states: pending, then approved or denied, then expired after approved. */
  predicate Advances(a: AccessStatus, b: AccessStatus) {
    match a.phase
    case Denied => b == a
    case Expired => b == a
    case Approved => b == a || b == a.(phase := Expired)
    case _ => true
  }

  lemma AdvancesTransitive(a: AccessStatus, b: AccessStatus, c: AccessStatus)
    requires Advances(a, b) && Advances(b, c)
    ensures Advances(a, c)
  {}

  lemma StepAdvances(valid: Verdict, s: State, step: Step, n: string)
    requires Inv(s) && Enabled(valid, s, step) && n in s.requests && n in Do(valid, s, step).requests
    ensures Advances(s.requests[n].status, Do(valid, s, step).requests[n].status)
  {
    match step {
      case Commit(q) => assert AdminOk(s, s.admins[q]);
      case SweepPatch(w, r) => PatchAdvances(valid, s, w, r, n);
      case Initialize(p) => assert Copy(s, s.creators[p]);
      case _ => assert Do(valid, s, step).requests[n] == s.requests[n];
    }
  }

  lemma PatchAdvances(valid: Verdict, s: State, w: nat, r: Request, n: string)
    requires Inv(s) && Enabled(valid, s, SweepPatch(w, r)) && n in s.requests
    ensures Advances(s.requests[n].status, Do(valid, s, SweepPatch(w, r)).requests[n].status)
  {
    assert SweeperOk(s, s.sweepers[w]) && SweepOk(s, r);
  }

  lemma RunStepAdvances(valid: Verdict, states: seq<State>, steps: seq<Step>, k: nat, n: string)
    requires IsRun(valid, states, steps) && Inv(states[0]) && k < |steps|
    requires n in states[k].requests && n in states[k + 1].requests
    ensures Advances(states[k].requests[n].status, states[k + 1].requests[n].status)
  {
    RunKeepsInv(valid, states, steps, k);
    StepAdvances(valid, states[k], steps[k], n);
  }

  ghost predicate Exists(states: seq<State>, i: nat, j: nat, n: string) {
    forall k :: i <= k <= j < |states| ==> n in states[k].requests
  }

  /** Denied and Expired are absorbing and an approval never changes but to expire, over every
      run, for as long as the request exists. */
  lemma {:induction false} DecisionsAreFinal(valid: Verdict, states: seq<State>, steps: seq<Step>, i: nat, j: nat,
                                             n: string)
    requires IsRun(valid, states, steps) && Inv(states[0]) && i <= j < |states| && Exists(states, i, j, n)
    ensures n in states[i].requests && n in states[j].requests
            && Advances(states[i].requests[n].status, states[j].requests[n].status)
  {
    if i < j {
      DecisionsAreFinal(valid, states, steps, i, j - 1, n);
      RunStepAdvances(valid, states, steps, j - 1, n);
      AdvancesTransitive(states[i].requests[n].status, states[j - 1].requests[n].status, states[j].requests[n].status);
    }
  }

  /** A request becomes Expired only by a sweeper and only once its recorded expiry has passed. */
  lemma ExpiresOnlyAfterExpiry(valid: Verdict, s: State, step: Step, n: string)
    requires Inv(s) && Enabled(valid, s, step) && n in s.requests && n in Do(valid, s, step).requests
    requires !s.requests[n].status.phase.Expired? && Do(valid, s, step).requests[n].status.phase.Expired?
    ensures step.SweepPatch? && s.requests[n].status.expiresAt.Some? && s.requests[n].status.expiresAt.value <= s.now
  {
    if step.SweepPatch? {
      assert SweeperOk(s, s.sweepers[step.w]) && SweepOk(s, step.seen);
    } else {
      OnlySweeperExpires(valid, s, step, n);
    }
  }

  lemma OnlySweeperExpires(valid: Verdict, s: State, step: Step, n: string)
    requires Inv(s) && Enabled(valid, s, step) && n in s.requests && n in Do(valid, s, step).requests
             && !step.SweepPatch?
    ensures Do(valid, s, step).requests[n].status.phase.Expired? ==> s.requests[n].status.phase.Expired?
  {
    if step.Commit? { assert AdminOk(s, s.admins[step.q]); }
  }

  // ---- what gets done --------------------------------------------------------------------

  /** Nothing but this request changes, and that in its status and version alone. */
  predicate OnlyStatus(s: State, s': State, n: string, status: AccessStatus) {
    && n in s.requests && n in s'.requests
    && s'.requests == s.requests[n := s.requests[n].(status := status, version := s'.requests[n].version)]
  }

  /** An approval that nobody interrupts is stored as it was decided. */
  lemma ApprovalIsStored(
      valid: Verdict, s: State, q: nat, n: string, minutes: int, budget: int, admin: Person, reason: string)
    requires n in s.requests && s.requests[n].name == n && IsPending(s.requests[n].status)
    requires Judged(valid(s.requests[n].spec), s.requests[n], minutes, budget, admin, reason, s.now).Some?
    ensures Enabled(valid, s, Open(q, n))
    ensures var s1 := Do(valid, s, Open(q, n));
            var approve := Approve(q, minutes, budget, admin, reason);
            && Enabled(valid, s1, approve)
            && var s2 := Do(valid, s1, approve);
            && Enabled(valid, s2, Commit(q))
            && OnlyStatus(s, Do(valid, s2, Commit(q)), n,
                          Judged(valid(s.requests[n].spec), s.requests[n], minutes, budget, admin, reason, s.now).value)
  {}

  /** And so is a denial. */
  lemma DenialIsStored(valid: Verdict, s: State, q: nat, n: string, admin: Person, reason: string)
    requires n in s.requests && s.requests[n].name == n && IsPending(s.requests[n].status)
    requires Denial(s.requests[n], admin, reason).Some?
    ensures Enabled(valid, s, Open(q, n))
    ensures var s1 := Do(valid, s, Open(q, n));
            && Enabled(valid, s1, Deny(q, admin, reason))
            && var s2 := Do(valid, s1, Deny(q, admin, reason));
            && Enabled(valid, s2, Commit(q))
            && OnlyStatus(s, Do(valid, s2, Commit(q)), n, Denial(s.requests[n], admin, reason).value)
  {}

  /** A new request becomes Pending. */
  lemma SubmissionBecomesPending(valid: Verdict, s: State, p: nat, r: Request)
    requires Enabled(valid, s, Submit(p, r))
    ensures var s1 := Do(valid, s, Submit(p, r));
            && Enabled(valid, s1, Initialize(p))
            && OnlyStatus(s1, Do(valid, s1, Initialize(p)), r.name, NO_STATUS.(phase := Pending))
            && s1.requests == s.requests[r.name := r]
  {}

  /** A sweep that nobody interrupts expires an approved request whose expiry has been reached, and
      changes nothing else of it. */
  lemma SweepExpires(valid: Verdict, s: State, w: nat, n: string)
    requires n in s.requests && s.requests[n].name == n && s.requests[n].status.phase.Approved?
    requires s.requests[n].status.expiresAt.Some? && s.requests[n].status.expiresAt.value <= s.now
    ensures var s1 := Do(valid, s, SweepList(w));
            && Enabled(valid, s1, SweepClock(w))
            && var s2 := Do(valid, s1, SweepClock(w));
            && Enabled(valid, s2, SweepPatch(w, s.requests[n]))
            && OnlyStatus(s, Do(valid, s2, SweepPatch(w, s.requests[n])), n, s.requests[n].status.(phase := Expired))
  {}
}
