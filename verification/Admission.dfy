/** Sandbox creation across API replicas: a Lease per tenant guards count-then-create, and
    assignments with derived names make creation idempotent
    (internal/assignment/admission/admission.go, internal/assignment/opensandboxapi/handler.go,
    internal/assignment/store/kubernetes/store.go).

    Every create request is a process of its own, on any replica. Processes interleave with one
    another, with the clock, and with whoever deletes assignments or records sandbox IDs. */
module Admission {
  import opened Kube

  const LEASE_SECONDS: int := 15
  const LEASE_TIME: Time := LEASE_SECONDS * SECOND

  /** A coordination Lease. No holder stands for an absent or empty holder identity. */
  datatype Lease = Lease(uid: nat, version: nat, holder: Option<nat>, seconds: Option<int>, renew: Option<Time>)

  /** leaseAvailable. */
  predicate Available(l: Lease, now: Time) {
    l.holder.None? || l.renew.None? || l.seconds.None? || l.renew.value + l.seconds.value * SECOND <= now
  }

  datatype Request = Request(name: string, tenant: string, bundle: string, key: string, hash: string)

  /** What never changes during a run: budgets, the tenant of each bundle, and the two digests
      from which Lease and assignment names are derived, which may collide. */
  datatype Config = Config(
    max: map<string, int>, bundleTenant: map<string, string>,
    leaseOf: string -> string, nameOf: (string, string) -> string,
    pendingTTL: Time)

  predicate WellFormed(cfg: Config, r: Request) {
    && r.bundle in cfg.bundleTenant && r.tenant == cfg.bundleTenant[r.bundle] && r.tenant in cfg.max
    && r.name == (if r.key == "" then "" else cfg.nameOf(r.tenant, r.key))
  }

  /** An acquired Lease: the time recorded in it and, when an expired Lease was taken over, the
      UID that the release is conditioned on. */
  datatype Hold = Hold(renew: Time, uid: Option<nat>)

  datatype Outcome = Created(uid: string) | Existing(found: Assignment) | Conflict | Rejected

  datatype Process =
    | Looping(req: Request)
    | Timed(req: Request, t: Time)
    | Missing(req: Request, t: Time)
    | Seen(req: Request, t: Time, lease: Lease)
    | Taking(req: Request, t: Time, lease: Lease)
    | Held(req: Request, hold: Hold)
    | Admitted(req: Request, hold: Hold)
    | NameTaken(req: Request, hold: Hold)
    | Leaving(req: Request, hold: Hold, outcome: Outcome)
    | Free(req: Request, outcome: Outcome)
    | Stale(req: Request, checked: Assignment)
    | Replied(req: Request, checked: Assignment, answer: Assignment)
    | Posted(req: Request, uid: string)
    | Ended(req: Request)

  predicate Holding(p: Process) { p.Held? || p.Admitted? || p.NameTaken? || p.Leaving? }

  /** What a replay must agree on: tenant, key and request hash. */
  datatype Identity = Identity(tenant: string, key: string, hash: string)

  function IdentityOf(a: Assignment): Identity { Identity(a.tenant, a.idempotencyKey, a.requestHash) }

  function Wanted(r: Request): Identity { Identity(r.tenant, r.key, r.hash) }

  /** `posts` lists the assignment UIDs sent upstream in create requests. `born`, `creator` and
      `removed` record, per assignment UID ever used, its identity, the process that created it,
      and whether the object is gone. */
  datatype State = State(
    now: Time, leases: map<string, Lease>, assignments: map<string, Assignment>,
    procs: map<nat, Process>, posts: seq<string>, tick: nat,
    born: map<string, Identity>, creator: map<string, nat>, removed: set<string>)

  datatype Step =
    | Tick(t: Time)
    | Arrive(p: nat, req: Request)
    | ReadClock(p: nat)
    | GetLease(p: nat)
    | CheckLease(p: nat)
    | CreateLease(p: nat)
    | TakeLease(p: nat)
    | Count(p: nat)
    | GiveUp(p: nat)
    | Create(p: nat, uid: string, generated: string)
    | GetExisting(p: nat)
    | Release(p: nat)
    | Post(p: nat)
    | Replay(p: nat)
    | Refresh(p: nat)
    | DropStale(p: nat)
    | RecordId(name: string, id: string)
    | RequestDelete(name: string)
    | Remove(name: string)

  /** The assignments charged to a tenant. */
  function Charged(cfg: Config, assignments: map<string, Assignment>, tenant: string): set<string> {
    set n | n in assignments && !assignments[n].deleting
            && assignments[n].bundle in cfg.bundleTenant && cfg.bundleTenant[assignments[n].bundle] == tenant
  }

  /** A holder that has not outlived its Lease. A holder past that instant has stopped for good:
      this is the hypothesis under which the Lease excludes. */
  predicate Live(s: State, p: Process) {
    Holding(p) ==> s.now < p.hold.renew + LEASE_TIME
  }

  predicate At(s: State, p: nat) { p in s.procs && Live(s, s.procs[p]) }

  predicate Enabled(cfg: Config, s: State, step: Step) {
    match step
    case Tick(t) => t >= s.now
    case Arrive(p, r) => p !in s.procs && WellFormed(cfg, r)
    case ReadClock(p) => At(s, p) && s.procs[p].Looping?
    case GetLease(p) => At(s, p) && s.procs[p].Timed?
    case CheckLease(p) => At(s, p) && s.procs[p].Seen?
    case CreateLease(p) => At(s, p) && s.procs[p].Missing?
    case TakeLease(p) => At(s, p) && s.procs[p].Taking?
    case Count(p) => At(s, p) && s.procs[p].Held?
    case GiveUp(p) => At(s, p) && (s.procs[p].Held? || s.procs[p].Admitted? || s.procs[p].NameTaken?)
    case Create(p, uid, generated) =>
      At(s, p) && s.procs[p].Admitted? && uid !in s.born
      && (s.procs[p].req.name == "" ==> generated !in s.assignments)
    case GetExisting(p) => At(s, p) && s.procs[p].NameTaken?
    case Release(p) => At(s, p) && s.procs[p].Leaving?
    case Post(p) => At(s, p) && s.procs[p].Free? && s.procs[p].outcome.Created?
    case Replay(p) =>
      At(s, p) && s.procs[p].Free? && s.procs[p].outcome.Existing? && s.procs[p].outcome.found.sandboxId != ""
    case Refresh(p) =>
      At(s, p) && s.procs[p].Free? && s.procs[p].outcome.Existing? && s.procs[p].outcome.found.sandboxId == ""
    case DropStale(p) => At(s, p) && s.procs[p].Stale?
    case RecordId(n, _) => n in s.assignments
    case RequestDelete(n) => n in s.assignments
    case Remove(n) => n in s.assignments && s.assignments[n].deleting
  }

  function LeaseName(cfg: Config, p: Process): string { cfg.leaseOf(p.req.tenant) }

  function NewAssignment(r: Request, name: string, uid: string, now: Time, version: nat): Assignment {
    Assignment(name, uid, version, 1, now, false, {}, "", false, "", r.key, r.hash,
               TemplateRef("", "", ""), r.tenant, r.bundle, EMPTY_STATUS)
  }

  function ChosenName(r: Request, generated: string): string { if r.name == "" then generated else r.name }

  /** The steps taken by a create request, as opposed to its surroundings. */
  predicate OfProcess(step: Step) {
    !step.Tick? && !step.RecordId? && !step.RequestDelete? && !step.Remove?
  }

  /** The acquisition loop: read the clock, get the Lease, then create it or take it over. */
  function NextInLoop(cfg: Config, s: State, step: Step): Process
    requires Enabled(cfg, s, step) && LeaseStep(step)
  {
    var me := s.procs[step.p];
    var n := LeaseName(cfg, me);
    match step
    case ReadClock(_) => Timed(me.req, s.now)
    case GetLease(_) => if n in s.leases then Seen(me.req, me.t, s.leases[n]) else Missing(me.req, me.t)
    case CheckLease(_) => if Available(me.lease, s.now) then Taking(me.req, me.t, me.lease) else Looping(me.req)
    case CreateLease(_) => if n in s.leases then Looping(me.req) else Held(me.req, Hold(me.t, None))
    case TakeLease(_) =>
      if n !in s.leases then Ended(me.req)
      else if s.leases[n].version != me.lease.version then Looping(me.req)
      else Held(me.req, Hold(me.t, Some(me.lease.uid)))
  }

  /** Under the Lease: count, create, look at the object that already has the name. */
  function NextInSection(cfg: Config, s: State, step: Step): Process
    requires Enabled(cfg, s, step) && (step.Count? || step.GiveUp? || step.Create? || step.GetExisting?)
  {
    var me := s.procs[step.p];
    match step
    case Count(_) =>
      if me.req.tenant in cfg.max && |Charged(cfg, s.assignments, me.req.tenant)| < cfg.max[me.req.tenant]
      then Admitted(me.req, me.hold) else Leaving(me.req, me.hold, Rejected)
    case GiveUp(_) => Leaving(me.req, me.hold, Rejected)
    case Create(_, uid, generated) =>
      if ChosenName(me.req, generated) in s.assignments then NameTaken(me.req, me.hold)
      else Leaving(me.req, me.hold, Created(uid))
    case GetExisting(_) =>
      if me.req.name !in s.assignments then Leaving(me.req, me.hold, Rejected)
      else
        var a := s.assignments[me.req.name];
        Leaving(me.req, me.hold, if IdentityOf(a) == Wanted(me.req) then Existing(a) else Conflict)
  }

  /** After the release: post a new assignment upstream, or answer for an existing one. */
  function NextAfterRelease(cfg: Config, s: State, step: Step): Process
    requires Enabled(cfg, s, step) && (step.Release? || step.Post? || step.Replay? || step.Refresh? || step.DropStale?)
  {
    var me := s.procs[step.p];
    match step
    case Release(_) => Free(me.req, me.outcome)
    case Post(_) => Posted(me.req, me.outcome.uid)
    case Replay(_) => Replied(me.req, me.outcome.found, me.outcome.found)
    case Refresh(_) =>
      var checked := me.outcome.found;
      if s.now - checked.created < cfg.pendingTTL || checked.name !in s.assignments then Ended(me.req)
      else if s.assignments[checked.name].sandboxId != "" then Replied(me.req, checked, s.assignments[checked.name])
      else Stale(me.req, checked)
    case DropStale(_) => Ended(me.req)
  }

  predicate LeaseStep(step: Step) {
    step.ReadClock? || step.GetLease? || step.CheckLease? || step.CreateLease? || step.TakeLease?
  }

  function Next(cfg: Config, s: State, step: Step): Process
    requires Enabled(cfg, s, step) && OfProcess(step)
  {
    if step.Arrive? then Looping(step.req)
    else if LeaseStep(step) then NextInLoop(cfg, s, step)
    else if step.Count? || step.GiveUp? || step.Create? || step.GetExisting? then NextInSection(cfg, s, step)
    else NextAfterRelease(cfg, s, step)
  }

  /** Lease deletion: conditioned on the UID after a takeover, unconditional otherwise. */
  function ReleaseLease(leases: map<string, Lease>, n: string, h: Hold): map<string, Lease> {
    if n in leases && (h.uid.Some? ==> leases[n].uid == h.uid.value) then leases - {n} else leases
  }

  /** What a step changes besides the process that takes it. */
  function Effect(cfg: Config, s: State, step: Step): State
    requires Enabled(cfg, s, step)
  {
    match step
    case Tick(t) => s.(now := t)
    case CreateLease(p) =>
      var n := LeaseName(cfg, s.procs[p]);
      if n in s.leases then s
      else s.(leases := s.leases[n := Lease(s.tick, s.tick, Some(p), Some(LEASE_SECONDS), Some(s.procs[p].t))],
              tick := s.tick + 1)
    case TakeLease(p) =>
      var n := LeaseName(cfg, s.procs[p]);
      var copy := s.procs[p].lease;
      if n !in s.leases || s.leases[n].version != copy.version then s
      else s.(leases := s.leases[n := Lease(copy.uid, s.tick, Some(p), Some(LEASE_SECONDS), Some(s.procs[p].t))],
              tick := s.tick + 1)
    case Create(p, uid, generated) =>
      var r := s.procs[p].req;
      var name := ChosenName(r, generated);
      if name in s.assignments then s
      else s.(assignments := s.assignments[name := NewAssignment(r, name, uid, s.now, s.tick)], tick := s.tick + 1,
              born := s.born[uid := Wanted(r)], creator := s.creator[uid := p])
    case Release(p) => s.(leases := ReleaseLease(s.leases, LeaseName(cfg, s.procs[p]), s.procs[p].hold))
    case Post(p) => s.(posts := s.posts + [s.procs[p].outcome.uid])
    case DropStale(p) =>
      var n := s.procs[p].checked.name;
      if n in s.assignments then s.(assignments := s.assignments[n := s.assignments[n].(deleting := true)]) else s
    case RecordId(n, id) => s.(assignments := s.assignments[n := s.assignments[n].(sandboxId := id)])
    case RequestDelete(n) => s.(assignments := s.assignments[n := s.assignments[n].(deleting := true)])
    case Remove(n) => s.(assignments := s.assignments - {n}, removed := s.removed + {s.assignments[n].uid})
    case _ => s
  }

  function Do(cfg: Config, s: State, step: Step): State
    requires Enabled(cfg, s, step)
  {
    var after := Effect(cfg, s, step);
    if OfProcess(step) then after.(procs := s.procs[step.p := Next(cfg, s, step)]) else after
  }

  predicate Start(s: State) {
    s.leases == map[] && s.assignments == map[] && s.procs == map[] && s.posts == []
    && s.born == map[] && s.creator == map[] && s.removed == {}
  }

  ghost predicate IsRun(cfg: Config, states: seq<State>, steps: seq<Step>) {
    && |states| == |steps| + 1
    && forall i :: 0 <= i < |steps| ==>
          Enabled(cfg, states[i], steps[i]) && states[i + 1] == Do(cfg, states[i], steps[i])
  }

  // ---- mutual exclusion ------------------------------------------------------------------

  predicate LeaseCopy(cfg: Config, s: State, p: Process) {
    p.Seen? || p.Taking? ==>
      && p.lease.version < s.tick
      && (LeaseName(cfg, p) in s.leases && s.leases[LeaseName(cfg, p)].version == p.lease.version ==>
            s.leases[LeaseName(cfg, p)] == p.lease)
      && (p.Taking? ==> Available(p.lease, s.now))
  }

  /** A live holder is the recorded holder of its tenant's Lease. */
  predicate HoldsLease(cfg: Config, s: State, id: nat, p: Process) {
    Holding(p) && Live(s, p) ==>
      && LeaseName(cfg, p) in s.leases
      && var l := s.leases[LeaseName(cfg, p)];
      && l.holder == Some(id) && l.renew == Some(p.hold.renew) && l.seconds == Some(LEASE_SECONDS)
      && (p.hold.uid.Some? ==> l.uid == p.hold.uid.value)
  }

  predicate Excludes(cfg: Config, s: State) {
    && (forall n :: n in s.leases ==> s.leases[n].version < s.tick)
    && (forall p :: p in s.procs ==> LeaseCopy(cfg, s, s.procs[p]) && HoldsLease(cfg, s, p, s.procs[p]))
  }

  /** A step that moves one process and touches no Lease and no clock. */
  lemma ExcludesFrame(cfg: Config, s: State, s': State, p: nat, next: Process)
    requires Excludes(cfg, s) && s'.leases == s.leases && s'.now == s.now && s.tick <= s'.tick
    requires s'.procs == s.procs[p := next]
    requires LeaseCopy(cfg, s', next) && HoldsLease(cfg, s', p, next)
    ensures Excludes(cfg, s')
  {
    forall q | q in s'.procs ensures LeaseCopy(cfg, s', s'.procs[q]) && HoldsLease(cfg, s', q, s'.procs[q]) {
      if q != p { assert LeaseCopy(cfg, s, s.procs[q]) && HoldsLease(cfg, s, q, s.procs[q]); }
    }
  }

  /** Writing a Lease under a new version is safe when no other live process holds it. */
  lemma ExcludesWrite(cfg: Config, s: State, s': State, p: nat, next: Process, n: string, l: Lease)
    requires Excludes(cfg, s) && s'.now == s.now && s'.tick == s.tick + 1
    requires s'.procs == s.procs[p := next] && s'.leases == s.leases[n := l] && l.version == s.tick
    requires next.Held? && HoldsLease(cfg, s', p, next)
    requires n in s.leases ==> Available(s.leases[n], s.now)
    ensures Excludes(cfg, s')
  {
    forall q | q in s'.procs ensures LeaseCopy(cfg, s', s'.procs[q]) && HoldsLease(cfg, s', q, s'.procs[q]) {
      if q != p { assert LeaseCopy(cfg, s, s.procs[q]) && HoldsLease(cfg, s, q, s.procs[q]); }
    }
  }

  /** A live holder releases its own Lease and nobody else's. */
  lemma ExcludesRelease(cfg: Config, s: State, p: nat)
    requires Excludes(cfg, s) && Enabled(cfg, s, Release(p))
    ensures Excludes(cfg, Do(cfg, s, Release(p)))
  {
    var s' := Do(cfg, s, Release(p));
    assert HoldsLease(cfg, s, p, s.procs[p]);
    forall q | q in s'.procs ensures LeaseCopy(cfg, s', s'.procs[q]) && HoldsLease(cfg, s', q, s'.procs[q]) {
      if q != p { assert LeaseCopy(cfg, s, s.procs[q]) && HoldsLease(cfg, s, q, s.procs[q]); }
    }
  }

  lemma ExcludesTick(cfg: Config, s: State, t: Time)
    requires Excludes(cfg, s) && t >= s.now
    ensures Excludes(cfg, s.(now := t))
  {
    var s' := s.(now := t);
    forall q | q in s'.procs ensures LeaseCopy(cfg, s', s'.procs[q]) && HoldsLease(cfg, s', q, s'.procs[q]) {
      assert LeaseCopy(cfg, s, s.procs[q]) && HoldsLease(cfg, s, q, s.procs[q]);
    }
  }

  lemma ExcludesLeaseStep(cfg: Config, s: State, step: Step)
    requires Excludes(cfg, s) && Enabled(cfg, s, step) && LeaseStep(step)
    ensures Excludes(cfg, Do(cfg, s, step))
  {
    var s' := Do(cfg, s, step);
    var me := s.procs[step.p];
    var n := LeaseName(cfg, me);
    var next := s'.procs[step.p];
    assert LeaseCopy(cfg, s, me);
    if next.Held? {
      ExcludesWrite(cfg, s, s', step.p, next, n, s'.leases[n]);
    } else {
      ExcludesFrame(cfg, s, s', step.p, next);
    }
  }

  lemma ExcludesInductive(cfg: Config, s: State, step: Step)
    requires Excludes(cfg, s) && Enabled(cfg, s, step)
    ensures Excludes(cfg, Do(cfg, s, step))
  {
    var s' := Do(cfg, s, step);
    if step.Tick? {
      ExcludesTick(cfg, s, step.t);
    } else if LeaseStep(step) {
      ExcludesLeaseStep(cfg, s, step);
    } else if step.Release? {
      ExcludesRelease(cfg, s, step.p);
    } else if step.RecordId? || step.RequestDelete? || step.Remove? {
      ExcludesUnchanged(cfg, s, s');
    } else {
      assert step.p in s.procs ==> HoldsLease(cfg, s, step.p, s.procs[step.p]);
      ExcludesFrame(cfg, s, s', step.p, s'.procs[step.p]);
    }
  }

  lemma ExcludesUnchanged(cfg: Config, s: State, s': State)
    requires Excludes(cfg, s) && s'.leases == s.leases && s'.now == s.now && s.tick == s'.tick && s'.procs == s.procs
    ensures Excludes(cfg, s')
  {
    forall q | q in s'.procs ensures LeaseCopy(cfg, s', s'.procs[q]) && HoldsLease(cfg, s', q, s'.procs[q]) {
      assert LeaseCopy(cfg, s, s.procs[q]) && HoldsLease(cfg, s, q, s.procs[q]);
    }
  }

  /** Two live processes between acquisition and release of one and the same Lease. */
  predicate Rivals(cfg: Config, s: State, p: nat, q: nat) {
    && p in s.procs && q in s.procs
    && Holding(s.procs[p]) && Live(s, s.procs[p]) && Holding(s.procs[q]) && Live(s, s.procs[q])
    && LeaseName(cfg, s.procs[p]) == LeaseName(cfg, s.procs[q])
  }

  /** At most one live process holds the Lease of a tenant, even when two tenants share a Lease
      name. */
  lemma AtMostOneHolder(cfg: Config, s: State, p: nat, q: nat)
    requires Excludes(cfg, s)
    ensures Rivals(cfg, s, p, q) ==> p == q
  {
    assert p in s.procs && q in s.procs ==> HoldsLease(cfg, s, p, s.procs[p]) && HoldsLease(cfg, s, q, s.procs[q]);
  }

  // ---- the budget ------------------------------------------------------------------------

  function Budget(cfg: Config, tenant: string): nat
    requires tenant in cfg.max
  {
    if cfg.max[tenant] < 0 then 0 else cfg.max[tenant]
  }

  /** No tenant is over budget, and a live process that has been admitted finds room. */
  predicate WithinBudget(cfg: Config, s: State) {
    && (forall t :: t in cfg.max ==> |Charged(cfg, s.assignments, t)| <= Budget(cfg, t))
    && (forall p :: p in s.procs ==> Room(cfg, s, s.procs[p]))
  }

  predicate Room(cfg: Config, s: State, p: Process) {
    && WellFormed(cfg, p.req)
    && (p.Admitted? && Live(s, p) ==> |Charged(cfg, s.assignments, p.req.tenant)| < Budget(cfg, p.req.tenant))
  }

  lemma SubsetSize<T>(small: set<T>, large: set<T>)
    requires small <= large
    ensures |small| <= |large|
  {
    assert large == small + (large - small);
  }

  /** Creating an assignment charges exactly its own tenant, by one. */
  lemma CreateCharges(cfg: Config, s: State, r: Request, name: string, uid: string, now: Time, version: nat, t: string)
    requires WellFormed(cfg, r) && name !in s.assignments
    ensures var after := s.assignments[name := NewAssignment(r, name, uid, now, version)];
            |Charged(cfg, after, t)| == |Charged(cfg, s.assignments, t)| + (if t == r.tenant then 1 else 0)
  {
    var a := NewAssignment(r, name, uid, now, version);
    ChargedNewcomer(cfg, s.assignments, a, name, t);
  }

  lemma ChargedNewcomer(cfg: Config, assignments: map<string, Assignment>, a: Assignment, name: string, t: string)
    requires name !in assignments && !a.deleting && a.bundle in cfg.bundleTenant
    ensures Charged(cfg, assignments[name := a], t)
         == Charged(cfg, assignments, t) + (if cfg.bundleTenant[a.bundle] == t then {name} else {})
  {}

  lemma ChargedAfterCreate(cfg: Config, s: State, step: Step, t: string)
    requires Enabled(cfg, s, step) && step.Create? && WellFormed(cfg, s.procs[step.p].req)
    ensures var r := s.procs[step.p].req;
            |Charged(cfg, Effect(cfg, s, step).assignments, t)| == |Charged(cfg, s.assignments, t)|
              + (if ChosenName(r, step.generated) !in s.assignments && t == r.tenant then 1 else 0)
  {
    var r := s.procs[step.p].req;
    var name := ChosenName(r, step.generated);
    if name !in s.assignments { CreateCharges(cfg, s, r, name, step.uid, s.now, s.tick, t); }
  }

  /** A creation takes no room from any other admitted process: it is of another tenant. */
  lemma RoomAfterCreate(cfg: Config, s: State, step: Step, q: nat)
    requires Excludes(cfg, s) && Enabled(cfg, s, step) && step.Create? && q in s.procs && q != step.p
    requires Room(cfg, s, s.procs[step.p]) && Room(cfg, s, s.procs[q])
    ensures Room(cfg, Do(cfg, s, step), s.procs[q])
  {
    ChargedAfterCreate(cfg, s, step, s.procs[q].req.tenant);
    AtMostOneHolder(cfg, s, step.p, q);
  }

  /** The creator itself needs no room any more. */
  lemma CreatorMovesOn(cfg: Config, s: State, step: Step)
    requires Enabled(cfg, s, step) && step.Create? && Room(cfg, s, s.procs[step.p])
    ensures Room(cfg, Do(cfg, s, step), Next(cfg, s, step))
  {}

  lemma TotalsAfterCreate(cfg: Config, s: State, step: Step, t: string)
    requires WithinBudget(cfg, s) && Enabled(cfg, s, step) && step.Create? && t in cfg.max
    ensures |Charged(cfg, Effect(cfg, s, step).assignments, t)| <= Budget(cfg, t)
  {
    assert Room(cfg, s, s.procs[step.p]);
    ChargedAfterCreate(cfg, s, step, t);
  }

  lemma RoomsAfterCreate(cfg: Config, s: State, step: Step, q: nat)
    requires Excludes(cfg, s) && WithinBudget(cfg, s) && Enabled(cfg, s, step) && step.Create? && q in s.procs
    ensures Room(cfg, Do(cfg, s, step), if q == step.p then Next(cfg, s, step) else s.procs[q])
  {
    assert Room(cfg, s, s.procs[step.p]) && Room(cfg, s, s.procs[q]);
    if q != step.p { RoomAfterCreate(cfg, s, step, q); } else { CreatorMovesOn(cfg, s, step); }
  }

  lemma CreateWithinBudget(cfg: Config, s: State, step: Step)
    requires Excludes(cfg, s) && WithinBudget(cfg, s) && Enabled(cfg, s, step) && step.Create?
    ensures WithinBudget(cfg, Do(cfg, s, step))
  {
    var s' := Do(cfg, s, step);
    forall t | t in cfg.max ensures |Charged(cfg, s'.assignments, t)| <= Budget(cfg, t) {
      TotalsAfterCreate(cfg, s, step, t);
    }
    forall q | q in s'.procs ensures Room(cfg, s', s'.procs[q]) { RoomsAfterCreate(cfg, s, step, q); }
  }

  /** No step but Create charges anybody. */
  lemma OnlyCreateCharges(cfg: Config, s: State, step: Step, t: string)
    requires Enabled(cfg, s, step) && !step.Create?
    ensures |Charged(cfg, Do(cfg, s, step).assignments, t)| <= |Charged(cfg, s.assignments, t)|
  {
    var after := Effect(cfg, s, step).assignments;
    if after != s.assignments { SubsetSize(Charged(cfg, after, t), Charged(cfg, s.assignments, t)); }
  }

  lemma WithinBudgetInductive(cfg: Config, s: State, step: Step)
    requires Excludes(cfg, s) && WithinBudget(cfg, s) && Enabled(cfg, s, step)
    ensures WithinBudget(cfg, Do(cfg, s, step))
  {
    if step.Create? { CreateWithinBudget(cfg, s, step); } else { OthersWithinBudget(cfg, s, step); }
  }

  lemma OthersWithinBudget(cfg: Config, s: State, step: Step)
    requires WithinBudget(cfg, s) && Enabled(cfg, s, step) && !step.Create?
    ensures WithinBudget(cfg, Do(cfg, s, step))
  {
    var s' := Do(cfg, s, step);
    forall t | t in cfg.max ensures |Charged(cfg, s'.assignments, t)| <= Budget(cfg, t) {
      OnlyCreateCharges(cfg, s, step, t);
    }
    forall q | q in s'.procs ensures Room(cfg, s', s'.procs[q]) {
      if OfProcess(step) && q == step.p { RoomOfMover(cfg, s, step); } else { RoomOfBystander(cfg, s, step, q); }
    }
  }

  lemma RoomOfMover(cfg: Config, s: State, step: Step)
    requires WithinBudget(cfg, s) && Enabled(cfg, s, step) && !step.Create? && OfProcess(step)
    ensures Room(cfg, Do(cfg, s, step), Next(cfg, s, step))
  {
    AdmittedByCounting(cfg, s, step);
    if !step.Arrive? { assert Room(cfg, s, s.procs[step.p]); }
  }

  lemma RoomOfBystander(cfg: Config, s: State, step: Step, q: nat)
    requires WithinBudget(cfg, s) && Enabled(cfg, s, step) && !step.Create? && q in s.procs
    ensures Room(cfg, Do(cfg, s, step), s.procs[q])
  {
    assert Room(cfg, s, s.procs[q]);
    OnlyCreateCharges(cfg, s, step, s.procs[q].req.tenant);
    assert s.now <= Effect(cfg, s, step).now;
  }

  /** A process keeps its request, and becomes Admitted by counting and in no other way. */
  lemma AdmittedByCounting(cfg: Config, s: State, step: Step)
    requires Enabled(cfg, s, step) && OfProcess(step)
    ensures !step.Arrive? ==> Next(cfg, s, step).req == s.procs[step.p].req
    ensures Next(cfg, s, step).Admitted? ==> step.Count?
  {}

  // ---- idempotency -----------------------------------------------------------------------

  /** An assignment object seen by a process: its identity is the one its UID was born with, and
      it is still the stored incarnation unless it was removed. */
  predicate Known(s: State, a: Assignment) {
    && a.uid in s.born && s.born[a.uid] == IdentityOf(a)
    && (a.uid in s.removed || (a.name in s.assignments && s.assignments[a.name].uid == a.uid))
  }

  predicate OutcomeOk(s: State, id: nat, r: Request, o: Outcome) {
    match o
    case Created(uid) => uid in s.creator && s.creator[uid] == id && uid !in s.posts
    case Existing(a) => Known(s, a) && IdentityOf(a) == Wanted(r)
    case _ => true
  }

  predicate ProcessOk(s: State, id: nat, p: Process) {
    && (p.Leaving? || p.Free? ==> OutcomeOk(s, id, p.req, p.outcome))
    && (p.Stale? || p.Replied? ==> Known(s, p.checked) && IdentityOf(p.checked) == Wanted(p.req))
    && (p.Replied? ==> IdentityOf(p.answer) == Wanted(p.req) || p.checked.uid in s.removed)
  }

  predicate Idempotent(s: State) {
    && (forall n :: n in s.assignments ==> s.assignments[n].name == n && Known(s, s.assignments[n]))
    && PostsOk(s)
    && (forall p :: p in s.procs ==> ProcessOk(s, p, s.procs[p]))
  }

  /** Nothing that was known about assignments is ever unlearned. */
  predicate Remembers(s: State, s': State) {
    && (forall u :: u in s.born ==> u in s'.born && s'.born[u] == s.born[u])
    && s.removed <= s'.removed
    && (forall n :: n in s.assignments ==>
          || s.assignments[n].uid in s'.removed
          || (n in s'.assignments && s'.assignments[n].uid == s.assignments[n].uid))
  }

  lemma StepRemembers(cfg: Config, s: State, step: Step)
    requires Enabled(cfg, s, step)
    ensures Remembers(s, Effect(cfg, s, step))
  {}

  lemma KnownStable(cfg: Config, s: State, step: Step, a: Assignment)
    requires Enabled(cfg, s, step) && Known(s, a)
    ensures Known(Do(cfg, s, step), a)
  {
    StepRemembers(cfg, s, step);
    RememberedIsKnown(s, Effect(cfg, s, step), a);
  }

  lemma RememberedIsKnown(s: State, s': State, a: Assignment)
    requires Remembers(s, s') && Known(s, a)
    ensures Known(s', a)
  {}

  lemma StoredKnown(cfg: Config, s: State, step: Step, n: string)
    requires Idempotent(s) && Enabled(cfg, s, step) && n in Do(cfg, s, step).assignments
    ensures Do(cfg, s, step).assignments[n].name == n && Known(Do(cfg, s, step), Do(cfg, s, step).assignments[n])
  {
    if n in s.assignments { KnownStable(cfg, s, step, s.assignments[n]); }
    StoredIdentity(cfg, s, step, n);
  }

  /** A stored assignment is the one stored before, up to its ID and its deletion, or newborn. */
  lemma StoredIdentity(cfg: Config, s: State, step: Step, n: string)
    requires Enabled(cfg, s, step) && n in Effect(cfg, s, step).assignments
    ensures var s' := Effect(cfg, s, step);
            var a := s'.assignments[n];
            if n in s.assignments
            then a == s.assignments[n].(sandboxId := a.sandboxId, deleting := a.deleting)
            else a.name == n && a.uid in s'.born && s'.born[a.uid] == IdentityOf(a)
  {
    match step {
      case Create(_, _, _) =>
      case DropStale(_) =>
      case RecordId(_, _) =>
      case RequestDelete(_) =>
      case Remove(_) =>
      case _ => assert Effect(cfg, s, step).assignments == s.assignments;
    }
  }

  lemma OutcomeStable(cfg: Config, s: State, step: Step, p: nat, r: Request, o: Outcome)
    requires Idempotent(s) && Enabled(cfg, s, step) && OutcomeOk(s, p, r, o)
    requires p in s.procs && (s.procs[p].Leaving? || s.procs[p].Free?) && s.procs[p].outcome == o
    requires step != Post(p)
    ensures OutcomeOk(Do(cfg, s, step), p, r, o)
  {
    if o.Existing? { KnownStable(cfg, s, step, o.found); }
    if o.Created? { CreatedStable(cfg, s, step, p, o.uid); }
  }

  /** A creator stays the creator, and nobody else posts what it created. */
  lemma CreatedStable(cfg: Config, s: State, step: Step, p: nat, uid: string)
    requires Idempotent(s) && Enabled(cfg, s, step) && step != Post(p) && uid in s.creator && s.creator[uid] == p
             && uid !in s.posts
    ensures var s' := Effect(cfg, s, step); uid in s'.creator && s'.creator[uid] == p && uid !in s'.posts
  {
    if step.Post? { assert ProcessOk(s, step.p, s.procs[step.p]); }
  }

  /** What another process does leaves this one in order. */
  lemma BystanderOk(cfg: Config, s: State, step: Step, q: nat)
    requires Idempotent(s) && Enabled(cfg, s, step) && q in s.procs && (OfProcess(step) ==> step.p != q)
    ensures ProcessOk(Do(cfg, s, step), q, s.procs[q])
  {
    var p := s.procs[q];
    assert ProcessOk(s, q, p);
    if p.Leaving? || p.Free? {
      OutcomeStable(cfg, s, step, q, p.req, p.outcome);
    } else if p.Stale? || p.Replied? {
      AnsweredStable(cfg, s, step, q, p);
    }
  }

  /** What was checked for an answer stays known, and what was removed stays removed. */
  lemma AnsweredStable(cfg: Config, s: State, step: Step, q: nat, p: Process)
    requires Enabled(cfg, s, step) && (p.Stale? || p.Replied?) && ProcessOk(s, q, p)
    ensures ProcessOk(Effect(cfg, s, step), q, p)
  {
    StepRemembers(cfg, s, step);
    RememberedIsKnown(s, Effect(cfg, s, step), p.checked);
  }

  /** The process that moves stays in order. */
  lemma MoverOk(cfg: Config, s: State, step: Step)
    requires Idempotent(s) && Enabled(cfg, s, step) && OfProcess(step)
    ensures ProcessOk(Do(cfg, s, step), step.p, Next(cfg, s, step))
  {
    if !step.Arrive? && !LeaseStep(step) {
      assert ProcessOk(s, step.p, s.procs[step.p]);
      if step.Count? || step.GiveUp? || step.Create? || step.GetExisting? { SectionOk(cfg, s, step); }
      else if step.Release? { OutcomeStable(cfg, s, step, step.p, s.procs[step.p].req, s.procs[step.p].outcome); }
      else if step.Replay? || step.Refresh? { AnswerOk(cfg, s, step); }
    }
  }

  lemma SectionOk(cfg: Config, s: State, step: Step)
    requires Idempotent(s) && Enabled(cfg, s, step)
             && (step.Count? || step.GiveUp? || step.Create? || step.GetExisting?)
    ensures ProcessOk(Do(cfg, s, step), step.p, Next(cfg, s, step))
  {
    var n := s.procs[step.p].req.name;
    if step.GetExisting? && n in s.assignments { KnownStable(cfg, s, step, s.assignments[n]); }
  }

  lemma AnswerOk(cfg: Config, s: State, step: Step)
    requires Idempotent(s) && Enabled(cfg, s, step) && (step.Replay? || step.Refresh?)
    ensures ProcessOk(Do(cfg, s, step), step.p, Next(cfg, s, step))
  {
    var checked := s.procs[step.p].outcome.found;
    assert ProcessOk(s, step.p, s.procs[step.p]);
    KnownStable(cfg, s, step, checked);
    if checked.name in s.assignments { assert Known(s, s.assignments[checked.name]); }
  }

  lemma IdempotentInductive(cfg: Config, s: State, step: Step)
    requires Idempotent(s) && Enabled(cfg, s, step)
    ensures Idempotent(Do(cfg, s, step))
  {
    var s' := Do(cfg, s, step);
    forall n | n in s'.assignments ensures s'.assignments[n].name == n && Known(s', s'.assignments[n]) {
      StoredKnown(cfg, s, step, n);
    }
    forall q | q in s'.procs ensures ProcessOk(s', q, s'.procs[q]) {
      if OfProcess(step) && q == step.p { MoverOk(cfg, s, step); } else { BystanderOk(cfg, s, step, q); }
    }
    PostsDistinct(cfg, s, step);
  }

  predicate PostsOk(s: State) {
    && s.creator.Keys == s.born.Keys
    && (forall u :: u in s.posts ==> u in s.creator)
    && (forall i, j :: 0 <= i < j < |s.posts| ==> s.posts[i] != s.posts[j])
  }

  lemma PostsDistinct(cfg: Config, s: State, step: Step)
    requires Idempotent(s) && Enabled(cfg, s, step)
    ensures PostsOk(Do(cfg, s, step))
  {
    if step.Post? {
      assert ProcessOk(s, step.p, s.procs[step.p]);
      OnePost(s, Do(cfg, s, step), s.procs[step.p].outcome.uid);
    } else if step.Create? {
      OneBirth(cfg, s, step);
    } else {
      NoPost(cfg, s, step);
    }
  }

  lemma OnePost(s: State, s': State, uid: string)
    requires PostsOk(s) && uid in s.creator && uid !in s.posts
    requires s'.posts == s.posts + [uid] && s'.creator == s.creator && s'.born == s.born
    ensures PostsOk(s')
  {}

  lemma OneBirth(cfg: Config, s: State, step: Step)
    requires PostsOk(s) && Enabled(cfg, s, step) && step.Create?
    ensures PostsOk(Do(cfg, s, step))
  {}

  lemma NoPost(cfg: Config, s: State, step: Step)
    requires PostsOk(s) && Enabled(cfg, s, step) && !step.Post? && !step.Create?
    ensures PostsOk(Do(cfg, s, step))
  {
    var s' := Effect(cfg, s, step);
    assert s'.posts == s.posts && s'.creator == s.creator && s'.born == s.born;
  }

  // ---- whole runs ------------------------------------------------------------------------

  lemma {:induction false} RunInvariant(cfg: Config, states: seq<State>, steps: seq<Step>, i: nat)
    requires IsRun(cfg, states, steps) && Start(states[0]) && i < |states|
    ensures Excludes(cfg, states[i]) && WithinBudget(cfg, states[i]) && Idempotent(states[i])
  {
    if i == 0 {
      forall t | t in cfg.max ensures Charged(cfg, states[0].assignments, t) == {} {}
    } else {
      RunInvariant(cfg, states, steps, i - 1);
      ExcludesInductive(cfg, states[i - 1], steps[i - 1]);
      WithinBudgetInductive(cfg, states[i - 1], steps[i - 1]);
      IdempotentInductive(cfg, states[i - 1], steps[i - 1]);
    }
  }

  /** Quota: in every interleaving in which holders stop at the end of their Lease, at most one
      live process per Lease is between acquisition and release, and no tenant ever has more
      live assignments than its budget, replays included. */
  lemma QuotaNeverExceeded(cfg: Config, states: seq<State>, steps: seq<Step>, i: nat, tenant: string)
    requires IsRun(cfg, states, steps) && Start(states[0]) && i < |states| && tenant in cfg.max
    ensures |Charged(cfg, states[i].assignments, tenant)| <= Budget(cfg, tenant)
    ensures forall p, q :: Rivals(cfg, states[i], p, q) ==> p == q
  {
    RunInvariant(cfg, states, steps, i);
    forall p, q ensures Rivals(cfg, states[i], p, q) ==> p == q { AtMostOneHolder(cfg, states[i], p, q); }
  }

  /** Idempotent create: whatever names collide, no assignment UID is posted upstream twice, and
      a replayed answer comes from an assignment with the caller's tenant, key and request hash
      unless the assignment that was checked has been removed since. */
  lemma CreateIsIdempotent(cfg: Config, states: seq<State>, steps: seq<Step>, i: nat)
    requires IsRun(cfg, states, steps) && Start(states[0]) && i < |states|
    ensures forall j, k :: 0 <= j < k < |states[i].posts| ==> states[i].posts[j] != states[i].posts[k]
    ensures forall p :: p in states[i].procs && states[i].procs[p].Replied? ==>
              || IdentityOf(states[i].procs[p].answer) == Wanted(states[i].procs[p].req)
              || states[i].procs[p].checked.uid in states[i].removed
  {
    RunInvariant(cfg, states, steps, i);
    forall p | p in states[i].procs && states[i].procs[p].Replied?
      ensures || IdentityOf(states[i].procs[p].answer) == Wanted(states[i].procs[p].req)
              || states[i].procs[p].checked.uid in states[i].removed
    {
      assert ProcessOk(states[i], p, states[i].procs[p]);
    }
  }
}
