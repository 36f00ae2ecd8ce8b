/** Runs of the credential broker: verifications and revocations as sequences of separate reads,
    interleaved with the clock, issuance, Pod churn and arbitrary changes of the assignment
    (internal/assignment/credentialbroker/broker.go,
    internal/assignment/credentialbroker/kubernetes.go). */
module GrantRuns {
  import opened Kube
  import opened Durations
  import opened Broker

  datatype Pod = Pod(uid: string, deleting: bool, failed: bool)

  /** A verification in progress. `at` is the clock when the token was parsed, `late` records
      that the grant had been revoked before that, and `judged` is the clock IsRevoked read. */
  datatype Verify =
    | Parsed(id: string, at: Time, late: bool)
    | Fetched(id: string, at: Time, late: bool, record: Option<Time>)
    | Unrevoked(id: string, at: Time, late: bool, judged: Time)
    | Bound(id: string, at: Time, late: bool, judged: Time, podName: string)
    | Valid(id: string, at: Time, late: bool, judged: Time)
    | Refused(id: string)

  /** `records` is the revocation store, `revoked` the grants a revocation was stored for, and
      `podUids` every Pod UID ever used. */
  datatype State = State(
    now: Time, grants: map<string, Claims>, records: map<string, Time>, revoked: set<string>,
    assignment: Option<Assignment>, pods: map<string, Pod>, podUids: set<string>,
    verifies: map<nat, Verify>, revokes: map<nat, string>)

  /** Any credential may be issued at any time: which ones the authorization check allows does not
      matter to what no verification may do. */
  datatype Step =
    | Tick(t: Time)
    | IssueGrant(claims: Claims)
    | ChangeAssignment(a: Option<Assignment>)
    | CreatePod(name: string, pod: Pod)
    | WearPod(name: string, deleting: bool, failed: bool)
    | RemovePod(name: string)
    | BeginVerify(v: nat, id: string)
    | FetchRecord(v: nat)
    | Judge(v: nat)
    | BindAssignment(v: nat)
    | CheckPod(v: nat)
    | BeginRevoke(r: nat, id: string)
    | StoreRevocation(r: nat)

  /** The part of ValidateGrant that reads the assignment. */
  predicate Binds(a: Option<Assignment>, c: Claims) {
    && a.Some? && a.value.name == c.assignmentName
    && !a.value.deleting && a.value.uid == c.assignmentUid && !a.value.paused
    && a.value.sandboxId == c.sandboxId && IsReady(a.value.status)
    && PodUid(a.value.status) == c.podUid
    && (if a.value.status.resolved.Some? then a.value.status.resolved.value.name else "") == c.bundleName
    && (if a.value.status.resolved.Some? then a.value.status.resolved.value.revision else "") == c.bundleRevision
  }

  predicate PodServes(p: Pod, uid: string) { !p.deleting && p.uid == uid && !p.failed }

  predicate InForce(s: State, id: string) {
    id in s.grants && s.grants[id].notBefore <= s.now < s.grants[id].expires
  }

  predicate Enabled(s: State, step: Step) {
    match step
    case Tick(t) => t >= s.now
    case IssueGrant(c) => c.id !in s.grants && Stored(c.expires) == c.expires
    case ChangeAssignment(_) => true
    case CreatePod(n, p) => n !in s.pods && p.uid !in s.podUids
    case WearPod(n, deleting, failed) => n in s.pods && (s.pods[n].deleting ==> deleting)
        && (s.pods[n].failed ==> failed)
    case RemovePod(n) => n in s.pods
    case BeginVerify(v, id) => v !in s.verifies && InForce(s, id)
    case FetchRecord(v) => v in s.verifies && s.verifies[v].Parsed?
    case Judge(v) => v in s.verifies && s.verifies[v].Fetched?
    case BindAssignment(v) => v in s.verifies && s.verifies[v].Unrevoked? && s.verifies[v].id in s.grants
    case CheckPod(v) => v in s.verifies && s.verifies[v].Bound? && s.verifies[v].id in s.grants
    case BeginRevoke(r, id) => r !in s.revokes && InForce(s, id)
    case StoreRevocation(r) => r in s.revokes && s.revokes[r] in s.grants
  }

  function Lookup(records: map<string, Time>, id: string): Option<Time> {
    if id in records then Some(records[id]) else None
  }

  predicate OfVerify(step: Step) {
    step.BeginVerify? || step.FetchRecord? || step.Judge? || step.BindAssignment? || step.CheckPod?
  }

  function PodName(a: Option<Assignment>): string {
    if a.Some? && a.value.status.podRef.Some? then a.value.status.podRef.value.name else ""
  }

  /** The record IsRevoked fetched is still in force on the clock it reads. */
  predicate StillRevoked(record: Option<Time>, now: Time) { record.Some? && record.value > now }

  /** verify: parse, fetch the revocation record, judge it, read the assignment, read the Pod. */
  function Next(s: State, step: Step): Verify
    requires Enabled(s, step) && OfVerify(step)
  {
    if step.BeginVerify? then Parsed(step.id, s.now, step.id in s.revoked)
    else
      var p := s.verifies[step.v];
      match step
      case FetchRecord(_) => Fetched(p.id, p.at, p.late, Lookup(s.records, p.id))
      case Judge(_) => if StillRevoked(p.record, s.now) then Refused(p.id) else Unrevoked(p.id, p.at, p.late, s.now)
      case BindAssignment(_) =>
        if Binds(s.assignment, s.grants[p.id]) then Bound(p.id, p.at, p.late, p.judged, PodName(s.assignment))
            else Refused(p.id)
      case CheckPod(_) =>
        if p.podName in s.pods && PodServes(s.pods[p.podName], s.grants[p.id].podUid)
        then Valid(p.id, p.at, p.late, p.judged) else Refused(p.id)
  }

  /** What a step changes besides the verification that takes it. Judging an expired record
      deletes it. */
  function Effect(s: State, step: Step): State
    requires Enabled(s, step)
  {
    match step
    case Tick(t) => s.(now := t)
    case IssueGrant(c) => s.(grants := s.grants[c.id := c])
    case ChangeAssignment(a) => s.(assignment := a)
    case CreatePod(n, p) => s.(pods := s.pods[n := p], podUids := s.podUids + {p.uid})
    case WearPod(n, deleting, failed) => s.(pods := s.pods[n := s.pods[n].(deleting := deleting, failed := failed)])
    case RemovePod(n) => s.(pods := s.pods - {n})
    case Judge(v) =>
      var p := s.verifies[v];
      if p.record.Some? && !StillRevoked(p.record, s.now) then s.(records := s.records - {p.id}) else s
    case BeginRevoke(r, id) => s.(revokes := s.revokes[r := id])
    case StoreRevocation(r) =>
      var id := s.revokes[r];
      s.(records := if id in s.records then s.records else s.records[id := Stored(s.grants[id].expires)],
         revoked := s.revoked + {id}, revokes := s.revokes - {r})
    case _ => s
  }

  function Do(s: State, step: Step): State
    requires Enabled(s, step)
  {
    if OfVerify(step) then Effect(s, step).(verifies := s.verifies[step.v := Next(s, step)]) else Effect(s, step)
  }

  ghost predicate IsRun(states: seq<State>, steps: seq<Step>) {
    && |states| == |steps| + 1
    && forall i :: 0 <= i < |steps| ==> Enabled(states[i], steps[i]) && states[i + 1] == Do(states[i], steps[i])
  }

  predicate Start(s: State) {
    s.grants == map[] && s.records == map[] && s.revoked == {} && s.verifies == map[] && s.revokes == map[]
    && s.pods == map[] && s.podUids == {}
  }

  // ---- revocation and its garbage collection ---------------------------------------------

  predicate VerifyOk(s: State, p: Verify) {
    && p.id in s.grants
    && (p.Refused? || p.at < s.grants[p.id].expires)
    && (p.Parsed? && p.late ==> p.id in s.revoked)
    && (p.Fetched? ==>
          && (p.record.Some? ==> p.record.value == s.grants[p.id].expires)
          && (p.late && p.record.None? ==> s.grants[p.id].expires <= s.now))
    && ((p.Unrevoked? || p.Bound? || p.Valid?) ==> p.judged <= s.now && (p.late ==> s.grants[p.id].expires <= p.judged))
  }

  predicate Inv(s: State) {
    && GrantsOk(s) && RecordsOk(s) && RevokedOk(s) && PodsOk(s)
    && (forall v :: v in s.verifies ==> VerifyOk(s, s.verifies[v]))
  }

  /** Nothing a verification relies on is taken back: grants, revocations and the clock only grow. */
  predicate Grows(s: State, s': State) {
    && s.now <= s'.now && s.revoked <= s'.revoked
    && (forall g :: g in s.grants ==> g in s'.grants && s'.grants[g] == s.grants[g])
  }

  lemma StepGrows(s: State, step: Step)
    requires Enabled(s, step)
    ensures Grows(s, Do(s, step))
  {}

  predicate GrantsOk(s: State) { forall g :: g in s.grants ==> Stored(s.grants[g].expires) == s.grants[g].expires }

  predicate RecordsOk(s: State) { forall g :: g in s.records ==> g in s.grants && s.records[g] == s.grants[g].expires }

  predicate RevokedOk(s: State) {
    forall g :: g in s.revoked ==> g in s.grants && (g in s.records || s.grants[g].expires <= s.now)
  }

  predicate PodsOk(s: State) { forall n :: n in s.pods ==> s.pods[n].uid in s.podUids }

  lemma GrantsInductive(s: State, step: Step)
    requires GrantsOk(s) && Enabled(s, step)
    ensures GrantsOk(Do(s, step))
  {}

  lemma RecordsInductive(s: State, step: Step)
    requires GrantsOk(s) && RecordsOk(s) && Enabled(s, step)
    ensures RecordsOk(Do(s, step))
  {
    var s' := Do(s, step);
    forall g | g in s'.records ensures g in s'.grants && s'.records[g] == s'.grants[g].expires {
      if g in s.records { assert s.records[g] == s.grants[g].expires; }
    }
  }

  lemma RevokedInductive(s: State, step: Step)
    requires Inv(s) && Enabled(s, step)
    ensures RevokedOk(Do(s, step))
  {
    if step.Judge? {
      assert VerifyOk(s, s.verifies[step.v]);
      CollectionKeepsRevoked(s, step.v);
    } else {
      OtherStepsKeepRevoked(s, step);
    }
  }

  /** Only a record that has expired is collected. */
  lemma CollectionKeepsRevoked(s: State, v: nat)
    requires RevokedOk(s) && Enabled(s, Judge(v)) && VerifyOk(s, s.verifies[v])
    ensures RevokedOk(Effect(s, Judge(v)))
  {}

  lemma OtherStepsKeepRevoked(s: State, step: Step)
    requires RevokedOk(s) && Enabled(s, step) && !step.Judge?
    ensures RevokedOk(Effect(s, step))
  {}

  lemma PodsInductive(s: State, step: Step)
    requires PodsOk(s) && Enabled(s, step)
    ensures PodsOk(Do(s, step))
  {}

  lemma NextOk(s: State, step: Step)
    requires Inv(s) && Enabled(s, step) && OfVerify(step)
    ensures VerifyOk(Do(s, step), Next(s, step))
  {
    if !step.BeginVerify? { assert VerifyOk(s, s.verifies[step.v]); }
  }

  lemma VerifyInductive(s: State, step: Step, v: nat)
    requires Inv(s) && Enabled(s, step) && v in Do(s, step).verifies
    ensures VerifyOk(Do(s, step), Do(s, step).verifies[v])
  {
    if OfVerify(step) && v == step.v {
      NextOk(s, step);
    } else {
      var p, s' := s.verifies[v], Do(s, step);
      assert s'.verifies[v] == p;
      StepGrows(s, step);
      GrowthKeepsVerifyOk(s, s', p);
    }
  }

  lemma GrowthKeepsVerifyOk(s: State, s': State, p: Verify)
    requires Grows(s, s') && VerifyOk(s, p)
    ensures VerifyOk(s', p)
  {}

  lemma InvInductive(s: State, step: Step)
    requires Inv(s) && Enabled(s, step)
    ensures Inv(Do(s, step))
  {
    GrantsInductive(s, step);
    RecordsInductive(s, step);
    RevokedInductive(s, step);
    PodsInductive(s, step);
    forall v | v in Do(s, step).verifies ensures VerifyOk(Do(s, step), Do(s, step).verifies[v]) {
      VerifyInductive(s, step, v);
    }
  }

  lemma {:induction false} RunKeepsInv(states: seq<State>, steps: seq<Step>, i: nat)
    requires IsRun(states, steps) && Start(states[0]) && i < |states|
    ensures Inv(states[i])
  {
    if i > 0 {
      RunKeepsInv(states, steps, i - 1);
      InvInductive(states[i - 1], steps[i - 1]);
    }
  }

  /** A verification of a grant that was revoked before it began succeeds only if the clock passes
      the expiry between the instant the token is parsed and the instant IsRevoked reads the
      clock. In particular it never succeeds when both see the same instant. */
  lemma RevokedVerifiesOnlyAcrossExpiry(states: seq<State>, steps: seq<Step>, i: nat, v: nat)
    requires IsRun(states, steps) && Start(states[0]) && i < |states|
    requires v in states[i].verifies && states[i].verifies[v].Valid? && states[i].verifies[v].late
    ensures var p := states[i].verifies[v];
            p.id in states[i].grants && p.at < states[i].grants[p.id].expires <= p.judged
  {
    RunKeepsInv(states, steps, i);
    assert VerifyOk(states[i], states[i].verifies[v]);
  }

  /** And whenever the clock does pass the expiry in between, it succeeds: from any state in which
      a grant is revoked and bound, there is a run of the verification alone that answers valid. */
  lemma RevokedVerifiesAcrossExpiry(s: State, v: nat, id: string, t1: Time, t2: Time)
    returns (states: seq<State>, steps: seq<Step>)
    requires Inv(s) && v !in s.verifies && id in s.revoked
    requires s.grants[id].notBefore <= t1 && s.now <= t1 < s.grants[id].expires <= t2
    requires Binds(s.assignment, s.grants[id]) && s.assignment.value.status.podRef.Some?
    requires var n := s.assignment.value.status.podRef.value.name;
             n in s.pods && PodServes(s.pods[n], s.grants[id].podUid)
    ensures IsRun(states, steps) && states[0] == s && |steps| == 7 && steps[1] == BeginVerify(v, id)
    ensures v in states[7].verifies && states[7].verifies[v] == Valid(id, t1, true, t2)
  {
    states, steps := VerifyAlone(s, v, id, t1, t2);
  }

  /** A verification with nothing around it but the clock. */
  lemma VerifyAlone(s: State, v: nat, id: string, t1: Time, t2: Time) returns (states: seq<State>, steps: seq<Step>)
    requires v !in s.verifies && id in s.revoked && id in s.grants && id in s.records
    requires s.grants[id].notBefore <= t1 && s.now <= t1 < s.grants[id].expires && t1 <= t2 && s.records[id] <= t2
    requires Binds(s.assignment, s.grants[id])
    requires PodName(s.assignment) in s.pods && PodServes(s.pods[PodName(s.assignment)], s.grants[id].podUid)
    ensures IsRun(states, steps) && states[0] == s && |steps| == 7 && steps[1] == BeginVerify(v, id)
    ensures v in states[7].verifies && states[7].verifies[v] == Valid(id, t1, true, t2)
  {
    var s1 := s.(now := t1);
    var s2 := s1.(verifies := s.verifies[v := Parsed(id, t1, true)]);
    var s3 := s1.(verifies := s.verifies[v := Fetched(id, t1, true, Some(s.records[id]))]);
    var s4 := s3.(now := t2);
    var s5 := s4.(records := s.records - {id}, verifies := s4.verifies[v := Unrevoked(id, t1, true, t2)]);
    var s6 := s5.(verifies := s5.verifies[v := Bound(id, t1, true, t2, PodName(s.assignment))]);
    var s7 := s5.(verifies := s5.verifies[v := Valid(id, t1, true, t2)]);
    steps := [Tick(t1), BeginVerify(v, id), FetchRecord(v), Tick(t2), Judge(v), BindAssignment(v), CheckPod(v)];
    Ticks(s, t1);
    FirstReads(s, v, id, t1, s2, s3);
    Ticks(s3, t2);
    ExpiredRecordIsCollected(s4, v, id, t1, s.records[id], s5);
    LastReads(s5, v, id, true, t1, t2, s6, s7);
    states := SevenSteps(s, s1, s2, s3, s4, s5, s6, s7, steps);
  }

  lemma Ticks(s: State, t: Time)
    requires s.now <= t
    ensures Enabled(s, Tick(t)) && Do(s, Tick(t)) == s.(now := t)
  {}

  lemma SevenSteps(s: State, s1: State, s2: State, s3: State, s4: State, s5: State, s6: State, s7: State,
                   steps: seq<Step>)
    returns (states: seq<State>)
    requires |steps| == 7
    requires Enabled(s, steps[0]) && s1 == Do(s, steps[0])
    requires Enabled(s1, steps[1]) && s2 == Do(s1, steps[1])
    requires Enabled(s2, steps[2]) && s3 == Do(s2, steps[2])
    requires Enabled(s3, steps[3]) && s4 == Do(s3, steps[3])
    requires Enabled(s4, steps[4]) && s5 == Do(s4, steps[4])
    requires Enabled(s5, steps[5]) && s6 == Do(s5, steps[5])
    requires Enabled(s6, steps[6]) && s7 == Do(s6, steps[6])
    ensures IsRun(states, steps) && states[0] == s && states[7] == s7
  {
    states := [s, s1, s2, s3, s4, s5, s6, s7];
  }

  lemma FirstReads(s: State, v: nat, id: string, t: Time, s2: State, s3: State)
    requires v !in s.verifies && id in s.revoked && id in s.grants && id in s.records
    requires s.grants[id].notBefore <= t < s.grants[id].expires
    requires s2 == s.(now := t, verifies := s.verifies[v := Parsed(id, t, true)])
    requires s3 == s.(now := t, verifies := s.verifies[v := Fetched(id, t, true, Some(s.records[id]))])
    ensures Enabled(s.(now := t), BeginVerify(v, id)) && s2 == Do(s.(now := t), BeginVerify(v, id))
    ensures Enabled(s2, FetchRecord(v)) && s3 == Do(s2, FetchRecord(v))
  {
    assert s3.verifies == s2.verifies[v := s3.verifies[v]];
  }

  lemma ExpiredRecordIsCollected(s: State, v: nat, id: string, t: Time, expires: Time, s': State)
    requires v in s.verifies && s.verifies[v] == Fetched(id, t, true, Some(expires)) && expires <= s.now
    requires s' == s.(records := s.records - {id}, verifies := s.verifies[v := Unrevoked(id, t, true, s.now)])
    ensures Enabled(s, Judge(v)) && s' == Do(s, Judge(v))
  {}

  lemma LastReads(s: State, v: nat, id: string, late: bool, t1: Time, t2: Time, s6: State, s7: State)
    requires v in s.verifies && s.verifies[v] == Unrevoked(id, t1, late, t2) && id in s.grants
             && Binds(s.assignment, s.grants[id])
    requires PodName(s.assignment) in s.pods && PodServes(s.pods[PodName(s.assignment)], s.grants[id].podUid)
    requires s6 == s.(verifies := s.verifies[v := Bound(id, t1, late, t2, PodName(s.assignment))])
    requires s7 == s.(verifies := s.verifies[v := Valid(id, t1, late, t2)])
    ensures Enabled(s, BindAssignment(v)) && s6 == Do(s, BindAssignment(v))
    ensures Enabled(s6, CheckPod(v)) && s7 == Do(s6, CheckPod(v))
  {
    assert s7.verifies == s6.verifies[v := s7.verifies[v]];
  }

  /** Looking for a revocation record that is not there. */
  lemma NoRecordReads(s: State, v: nat, id: string, late: bool, t: Time, s1: State, s2: State)
    requires v in s.verifies && s.verifies[v] == Parsed(id, t, late) && id !in s.records
    requires s1 == s.(verifies := s.verifies[v := Fetched(id, t, late, None)])
    requires s2 == s.(verifies := s.verifies[v := Unrevoked(id, t, late, s.now)])
    ensures Enabled(s, FetchRecord(v)) && s1 == Do(s, FetchRecord(v))
    ensures Enabled(s1, Judge(v)) && s2 == Do(s1, Judge(v))
  {
    assert s2.verifies == s1.verifies[v := s2.verifies[v]];
  }

  // ---- authority rotation ----------------------------------------------------------------

  /** Some Pod object with this UID is serving. */
  predicate Serving(s: State, uid: string) {
    exists n :: n in s.pods && PodServes(s.pods[n], uid)
  }

  /** Within states i+1 to j there was an instant at which the assignment was bound, with its Pod
      under this name. */
  ghost predicate BoundBetween(states: seq<State>, i: nat, j: nat, c: Claims, podName: string) {
    exists k :: i < k <= j < |states| && Binds(states[k].assignment, c) && PodName(states[k].assignment) == podName
  }

  /** And one, no earlier, at which the Pod with that name was serving. */
  ghost predicate ServingBetween(states: seq<State>, i: nat, j: nat, c: Claims, podName: string) {
    exists k :: i < k <= j < |states| && podName in states[k].pods && PodServes(states[k].pods[podName], c.podUid)
                && BoundBetween(states, i, k, c, podName)
  }

  /** One step of anybody, seen from one verification: it stays where it is or makes its next
      read, and the reads that admit it see what they demand in the state after the step. */
  lemma StepSeenFrom(s: State, step: Step, v: nat)
    requires Inv(s) && Enabled(s, step) && v in s.verifies
    ensures var s' := Do(s, step);
            var id := s.verifies[v].id;
            && v in s'.verifies && s'.verifies[v].id == id && id in s.grants && id in s'.grants
            && s'.grants[id] == s.grants[id]
            && (s'.verifies[v] == s.verifies[v] || Admitted(s', s.verifies[v], s'.verifies[v], s.grants[id]))
  {
    assert VerifyOk(s, s.verifies[v]);
    StepGrows(s, step);
    if OfVerify(step) && step.v == v { OwnStep(s, step); } else { BystandingVerify(s, step, v); }
  }

  /** A read lets a verification on only if it sees, in this state, what it demands. */
  predicate Admitted(s: State, p: Verify, p': Verify, c: Claims) {
    && (p'.Bound? ==> Binds(s.assignment, c) && p'.podName == PodName(s.assignment))
    && (p'.Valid? ==> p.Bound? && p.podName in s.pods && PodServes(s.pods[p.podName], c.podUid))
  }

  lemma BystandingVerify(s: State, step: Step, v: nat)
    requires Enabled(s, step) && v in s.verifies && (OfVerify(step) ==> step.v != v)
    ensures v in Do(s, step).verifies && Do(s, step).verifies[v] == s.verifies[v]
  {
    assert Effect(s, step).verifies == s.verifies;
  }

  lemma OwnStep(s: State, step: Step)
    requires Enabled(s, step) && OfVerify(step) && step.v in s.verifies && s.verifies[step.v].id in s.grants
    ensures Next(s, step).id == s.verifies[step.v].id
    ensures Admitted(Do(s, step), s.verifies[step.v], Next(s, step), s.grants[s.verifies[step.v].id])
  {}

  /** A verification that has got past a read saw, after it began, what the read demands. */
  lemma {:induction false} VerificationSawAuthority(
      states: seq<State>, steps: seq<Step>, i: nat, j: nat, v: nat, id: string)
    requires IsRun(states, steps) && Start(states[0]) && i < j < |states| && steps[i] == BeginVerify(v, id)
    ensures id in states[i].grants && Tracked(states, i, j, v, id, states[i].grants[id])
  {
    if j == i + 1 {
      JustBegun(states, steps, i, v, id);
    } else {
      VerificationSawAuthority(states, steps, i, j - 1, v, id);
      TrackedStep(states, steps, i, j - 1, v, id, states[i].grants[id]);
    }
  }

  /** In state j the verification begun at step i is of these claims, and saw what it needed. */
  ghost predicate Tracked(states: seq<State>, i: nat, j: nat, v: nat, id: string, c: Claims) {
    && j < |states| && id in states[j].grants && states[j].grants[id] == c
    && v in states[j].verifies && states[j].verifies[v].id == id && Saw(states, i, j, c, states[j].verifies[v])
  }

  lemma JustBegun(states: seq<State>, steps: seq<Step>, i: nat, v: nat, id: string)
    requires IsRun(states, steps) && i < |steps| && steps[i] == BeginVerify(v, id)
    ensures id in states[i].grants && Tracked(states, i, i + 1, v, id, states[i].grants[id])
  {
    assert states[i + 1] == Do(states[i], steps[i]);
  }

  lemma TrackedStep(states: seq<State>, steps: seq<Step>, i: nat, m: nat, v: nat, id: string, c: Claims)
    requires IsRun(states, steps) && Start(states[0]) && i <= m < |steps| && Tracked(states, i, m, v, id, c)
    ensures Tracked(states, i, m + 1, v, id, c)
  {
    RunKeepsInv(states, steps, m);
    StepSeenFrom(states[m], steps[m], v);
    SawOneMore(states, i, m, c, states[m].verifies[v], states[m + 1].verifies[v]);
  }

  /** What a verification has seen so far, given where it is. */
  ghost predicate Saw(states: seq<State>, i: nat, j: nat, c: Claims, p: Verify) {
    (p.Bound? ==> BoundBetween(states, i, j, c, p.podName)) && (p.Valid? ==> Served(states, i, j, c))
  }

  ghost predicate Served(states: seq<State>, i: nat, j: nat, c: Claims) {
    exists n :: ServingBetween(states, i, j, c, n)
  }

  lemma SawOneMore(states: seq<State>, i: nat, m: nat, c: Claims, p: Verify, p': Verify)
    requires i <= m && m + 1 < |states| && (p' == p || Admitted(states[m + 1], p, p', c)) && Saw(states, i, m, c, p)
    ensures Saw(states, i, m + 1, c, p')
  {
    if p.Bound? { BoundLater(states, i, m + 1, c, p.podName); }
    if p'.Valid? && p' == p {
      ServedLater(states, i, m, c);
    } else if p'.Valid? {
      assert ServingBetween(states, i, m + 1, c, p.podName);
    }
  }

  lemma ServedLater(states: seq<State>, i: nat, m: nat, c: Claims)
    requires m + 1 < |states| && Served(states, i, m, c)
    ensures Served(states, i, m + 1, c)
  {
    var n :| ServingBetween(states, i, m, c, n);
    var k :| i < k <= m && n in states[k].pods && PodServes(states[k].pods[n], c.podUid)
             && BoundBetween(states, i, k, c, n);
    assert ServingBetween(states, i, m + 1, c, n);
  }

  lemma ServedWitness(states: seq<State>, i: nat, j: nat, c: Claims) returns (k: nat, k': nat, n: string)
    requires Served(states, i, j, c)
    ensures i < k <= k' <= j < |states| && Binds(states[k].assignment, c) && PodName(states[k].assignment) == n
    ensures n in states[k'].pods && PodServes(states[k'].pods[n], c.podUid)
  {
    n :| ServingBetween(states, i, j, c, n);
    k' :| i < k' <= j && n in states[k'].pods && PodServes(states[k'].pods[n], c.podUid)
          && BoundBetween(states, i, k', c, n);
    k :| i < k <= k' && Binds(states[k].assignment, c) && PodName(states[k].assignment) == n;
  }

  lemma BoundLater(states: seq<State>, i: nat, j: nat, c: Claims, n: string)
    requires i < j < |states| && BoundBetween(states, i, j - 1, c, n)
    ensures BoundBetween(states, i, j, c, n)
  {
    var k :| i < k <= j - 1 && Binds(states[k].assignment, c) && PodName(states[k].assignment) == n;
  }

  lemma ValidWasBound(states: seq<State>, steps: seq<Step>, i: nat, j: nat, v: nat, id: string) returns (k: nat)
    requires IsRun(states, steps) && Start(states[0]) && i < j < |states| && steps[i] == BeginVerify(v, id)
    requires v in states[j].verifies && states[j].verifies[v].Valid?
    ensures id in states[i].grants && i < k <= j && Binds(states[k].assignment, states[i].grants[id])
  {
    VerificationSawAuthority(states, steps, i, j, v, id);
    var k', n;
    k, k', n := ServedWitness(states, i, j, states[i].grants[id]);
  }

  /** What a successful verification rests on, in terms of the stored objects: at some instant after
      it began the assignment was the one named, live, not paused, Ready, with the sandbox ID, the
      Pod UID and the bundle revision of the claims, and at a later one the Pod under the name in
      that assignment had that UID and was neither being deleted nor failed. The credential was in
      force when it began. */
  lemma ValidSawObjects(states: seq<State>, steps: seq<Step>, i: nat, j: nat, v: nat, id: string)
    returns (k: nat, k': nat)
    requires IsRun(states, steps) && Start(states[0]) && i < j < |states| && steps[i] == BeginVerify(v, id)
    requires v in states[j].verifies && states[j].verifies[v].Valid?
    ensures id in states[i].grants && states[i].grants[id].notBefore <= states[i].now < states[i].grants[id].expires
    ensures i < k <= k' <= j && states[k].assignment.Some?
    ensures var c, a := states[i].grants[id], states[k].assignment.value;
            && a.name == c.assignmentName && a.uid == c.assignmentUid && !a.deleting && !a.paused
            && a.sandboxId == c.sandboxId
            && (exists x :: x in a.status.conditions && x.kind == Ready && x.holds)
            && PodUid(a.status) == c.podUid
            && (a.status.resolved.Some? ==> a.status.resolved.value.name == c.bundleName
                                            && a.status.resolved.value.revision == c.bundleRevision)
            && (a.status.resolved.None? ==> c.bundleName == "" && c.bundleRevision == "")
            && var n := if a.status.podRef.Some? then a.status.podRef.value.name else "";
            && n in states[k'].pods
            && states[k'].pods[n].uid == c.podUid && !states[k'].pods[n].deleting && !states[k'].pods[n].failed
  {
    VerificationSawAuthority(states, steps, i, j, v, id);
    var n;
    k, k', n := ServedWitness(states, i, j, states[i].grants[id]);
  }

  /** Deletion: in a run in which no incarnation of the assignment takes a requested deletion back, no
      verification begun after the deletion was requested of a credential of that incarnation
      succeeds, although its finalizer keeps the object and its Pod may still run. */
  lemma DeletionEndsAuthority(states: seq<State>, steps: seq<Step>, d: nat, i: nat, j: nat, v: nat, id: string)
    requires IsRun(states, steps) && Start(states[0]) && d <= i < j < |states| && steps[i] == BeginVerify(v, id)
    requires DeletionsStand(states) && id in states[i].grants
    requires DeletingAt(states[d], states[i].grants[id].assignmentUid)
    ensures v in states[j].verifies && !states[j].verifies[v].Valid?
  {
    VerificationSawAuthority(states, steps, i, j, v, id);
    if states[j].verifies[v].Valid? {
      var k, k' := ValidSawObjects(states, steps, i, j, v, id);
    }
  }

  predicate DeletingAt(s: State, uid: string) {
    s.assignment.Some? && s.assignment.value.uid == uid && s.assignment.value.deleting
  }

  /** An incarnation with this UID is stored and its deletion has not been requested. */
  predicate LiveAt(s: State, uid: string) {
    s.assignment.Some? && s.assignment.value.uid == uid && !s.assignment.value.deleting
  }

  /** A deletion that was requested is never taken back. */
  ghost predicate DeletionsStand(states: seq<State>) {
    forall k, l, uid :: 0 <= k <= l < |states| && DeletingAt(states[k], uid) ==> !LiveAt(states[l], uid)
  }

  /** A verification whose claims name another assignment or another sandbox than every state it can
      read never succeeds, and neither does one whose Pod is failed or being deleted in all of them. */
  lemma MisdirectedVerificationFails(states: seq<State>, steps: seq<Step>, i: nat, j: nat, v: nat, id: string)
    requires IsRun(states, steps) && Start(states[0]) && i < j < |states| && steps[i] == BeginVerify(v, id)
    requires id in states[i].grants
    requires var c := states[i].grants[id];
             || (forall k :: i < k <= j ==> NamesOther(states[k], c))
             || (forall k :: i < k <= j ==> PodIsBroken(states[k], c.podUid))
    ensures v in states[j].verifies && !states[j].verifies[v].Valid?
  {
    VerificationSawAuthority(states, steps, i, j, v, id);
    if states[j].verifies[v].Valid? {
      var k, k' := ValidSawObjects(states, steps, i, j, v, id);
    }
  }

  predicate NamesOther(s: State, c: Claims) {
    s.assignment.Some? ==> s.assignment.value.name != c.assignmentName || s.assignment.value.uid != c.assignmentUid
                           || s.assignment.value.sandboxId != c.sandboxId
  }

  predicate PodIsBroken(s: State, uid: string) {
    forall n :: n in s.pods && s.pods[n].uid == uid ==> s.pods[n].deleting || s.pods[n].failed
  }

  /** The UID was used, and no Pod with it is serving. */
  predicate Gone(s: State, uid: string) { uid in s.podUids && !Serving(s, uid) }

  /** What every step keeps, every run keeps. */
  lemma {:induction false} RunKeeps(states: seq<State>, steps: seq<Step>, m: nat, k: nat, kept: State -> bool)
    requires IsRun(states, steps) && m <= k < |states| && kept(states[m])
    requires forall s, step :: Enabled(s, step) && kept(s) ==> kept(Do(s, step))
    ensures kept(states[k])
  {
    if m < k { RunKeeps(states, steps, m, k - 1, kept); }
  }

  /** A Pod that is gone never serves again, because UIDs are not reused. */
  lemma GonePodStaysGone(states: seq<State>, steps: seq<Step>, m: nat, k: nat, uid: string)
    requires IsRun(states, steps) && m <= k < |states| && Gone(states[m], uid)
    ensures Gone(states[k], uid)
  {
    var kept := (s: State) => Gone(s, uid);
    forall s, step | Enabled(s, step) && kept(s) ensures kept(Do(s, step)) { StepKeepsGone(s, step, uid); }
    RunKeeps(states, steps, m, k, kept);
  }

  lemma StepKeepsGone(s: State, step: Step, uid: string)
    requires Enabled(s, step)
    ensures Gone(s, uid) ==> Gone(Do(s, step), uid)
  {
    var s' := Do(s, step);
    if Gone(s, uid) {
      forall n | n in s'.pods ensures !PodServes(s'.pods[n], uid) {
        if n in s.pods { assert !PodServes(s.pods[n], uid); }
      }
    }
  }

  /** Once a Pod is gone, no verification begun afterwards of any credential bound to it succeeds. */
  lemma CredentialDiesWithItsPod(states: seq<State>, steps: seq<Step>, m: nat, i: nat, j: nat, v: nat, id: string)
    requires IsRun(states, steps) && Start(states[0]) && m <= i < j < |states| && steps[i] == BeginVerify(v, id)
    requires id in states[i].grants
    requires Gone(states[m], states[i].grants[id].podUid)
    ensures v in states[j].verifies && !states[j].verifies[v].Valid?
  {
    VerificationSawAuthority(states, steps, i, j, v, id);
    if states[j].verifies[v].Valid? {
      var k, k' := ValidSawObjects(states, steps, i, j, v, id);
      GonePodStaysGone(states, steps, m, k', states[i].grants[id].podUid);
    }
  }
}
