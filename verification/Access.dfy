/** Temporary access requests (cmd/aks-sandbox-dashboard/governance.go,
    internal/assignment/authz/audit.go, internal/assignment/authz/checker.go): the stored
    objects and the decisions taken on them. */
module Access {
  import opened Kube
  import opened Text
  import opened Targets
  import opened Durations

  const MAX_ACCESS: Time := 8 * HOUR

  /** An authenticated administrator or requester; `valid` is the verdict of ValidateIdentity. */
  datatype Person = Person(displayName: string, valid: bool)

  /** `textOk` is the verdict of ValidateAccessRequestSpec on the assignment name, the UIDs, the
      revision, the reason and the requester. */
  datatype Spec = Spec(
    assignmentName: string, assignmentUid: string, podUid: string, revision: string,
    target: Target, textOk: bool, requestedSeconds: int)

  datatype Phase = Unset | Pending | Approved | Denied | Expired

  datatype AccessStatus = AccessStatus(
    phase: Phase, approver: Option<Person>, decisionReason: string,
    approvedAt: Option<Time>, expiresAt: Option<Time>)

  const NO_STATUS := AccessStatus(Unset, None, "", None, None)

  datatype Request = Request(name: string, version: nat, deleting: bool, spec: Spec, status: AccessStatus)

  /** requestState: a request without a state is pending. */
  predicate IsPending(s: AccessStatus) { s.phase.Unset? || s.phase.Pending? }

  /** ValidateAccessRequestSpec. requestedSeconds is a 32-bit integer, so its product with a
      second does not wrap. */
  predicate ValidSpec(v6: AddressParser, s: Spec) {
    s.textOk && CanonicalTarget(v6, s.target) && MINUTE <= s.requestedSeconds * SECOND <= MAX_ACCESS
  }

  /** Whether ValidateAccessRequestSpec accepts a specification. */
  type Verdict = Spec -> bool

  /** parseDurationMinutes, from the parsed 64-bit number on: the product wraps before it is
      compared. */
  function AccessDuration(minutes: int): Option<Time>
  {
    var d := Wrap(minutes * MINUTE);
    if d < MINUTE || d > MAX_ACCESS then None else Some(d)
  }

  predicate GoodReason(reason: string) { ByteLen(TrimSpace(reason)) >= 3 && ByteLen(reason) <= 512 }

  /** approveAccessRequest up to the write, given the verdict on the specification: the status it
      is going to store, if it accepts. */
  function Judged(valid: bool, r: Request, minutes: int, budgetSeconds: int, admin: Person, reason: string,
                  now: Time): Option<AccessStatus> {
    var d := AccessDuration(minutes);
    if d.None? || !GoodReason(reason) || !IsPending(r.status) || !valid then None
    else if d.value > r.spec.requestedSeconds * SECOND || d.value > budgetSeconds * SECOND || !admin.valid then None
    else Some(AccessStatus(Approved, Some(admin), reason, Some(Stored(now)), Some(Stored(now + d.value))))
  }

  function Approval(v6: AddressParser, r: Request, minutes: int, budgetSeconds: int, admin: Person, reason: string,
                    now: Time): Option<AccessStatus> {
    Judged(ValidSpec(v6, r.spec), r, minutes, budgetSeconds, admin, reason, now)
  }

  function Denial(r: Request, admin: Person, reason: string): Option<AccessStatus> {
    if !GoodReason(reason) || !IsPending(r.status) || !admin.valid then None
    else Some(AccessStatus(Denied, Some(admin), reason, None, None))
  }

  /** How long an approval lasts. */
  function Lifetime(s: AccessStatus): Time
    requires s.approvedAt.Some? && s.expiresAt.Some?
  {
    s.expiresAt.value - s.approvedAt.value
  }

  /** A positive lifetime within the requested duration, the tenant budget and eight hours. */
  predicate Bounded(s: AccessStatus, requestedSeconds: int, budgetSeconds: int) {
    && s.approvedAt.Some? && s.expiresAt.Some?
    && 0 < Lifetime(s) <= MAX_ACCESS
    && Lifetime(s) <= requestedSeconds * SECOND && Lifetime(s) <= budgetSeconds * SECOND
  }

  /** Whatever number of minutes an administrator submits, including numbers whose product wraps
      into range, an approval is bounded. */
  lemma ApprovalIsBounded(v6: AddressParser, r: Request, minutes: int, budgetSeconds: int, admin: Person,
                          reason: string, now: Time)
    ensures var s := Approval(v6, r, minutes, budgetSeconds, admin, reason, now);
            s.Some? ==> Bounded(s.value, r.spec.requestedSeconds, budgetSeconds)
  {
    JudgedIsBounded(ValidSpec(v6, r.spec), r, minutes, budgetSeconds, admin, reason, now);
  }

  lemma JudgedIsBounded(valid: bool, r: Request, minutes: int, budgetSeconds: int, admin: Person, reason: string,
                        now: Time)
    ensures var s := Judged(valid, r, minutes, budgetSeconds, admin, reason, now);
            s.Some? ==> Bounded(s.value, r.spec.requestedSeconds, budgetSeconds)
  {
    var d := AccessDuration(minutes);
    if d.Some? && d.value <= r.spec.requestedSeconds * SECOND && d.value <= budgetSeconds * SECOND {
      LifetimeIsBounded(now, d.value, r.spec.requestedSeconds, budgetSeconds);
    }
  }

  lemma LifetimeIsBounded(now: Time, d: Time, requestedSeconds: int, budgetSeconds: int)
    requires MINUTE <= d <= MAX_ACCESS && d <= requestedSeconds * SECOND && d <= budgetSeconds * SECOND
    ensures var lifetime := Stored(now + d) - Stored(now);
            0 < lifetime <= MAX_ACCESS && lifetime <= requestedSeconds * SECOND && lifetime <= budgetSeconds * SECOND
  {
    StoredLifetime(now, d, requestedSeconds);
    StoredLifetime(now, d, budgetSeconds);
    StoredLifetime(now, d, 8 * 3600);
    StoredLifetime(now, d, 60);
  }

  /** What the checker will ask of an approval is recorded in it. */
  lemma ApprovalRecords(v6: AddressParser, r: Request, minutes: int, budgetSeconds: int, admin: Person, reason: string,
                        now: Time)
    ensures var s := Approval(v6, r, minutes, budgetSeconds, admin, reason, now);
            s.Some? ==>
              && s.value.phase.Approved? && s.value.approver == Some(admin) && admin.valid
              && s.value.decisionReason == reason && TrimSpace(reason) != ""
              && ValidSpec(v6, r.spec) && s.value.approvedAt == Some(Stored(now))
  {
    JudgedRecords(ValidSpec(v6, r.spec), r, minutes, budgetSeconds, admin, reason, now);
  }

  lemma JudgedRecords(valid: bool, r: Request, minutes: int, budgetSeconds: int, admin: Person, reason: string,
                      now: Time)
    ensures var s := Judged(valid, r, minutes, budgetSeconds, admin, reason, now);
            s.Some? ==>
              && s.value.phase.Approved? && s.value.approver == Some(admin) && admin.valid
              && s.value.decisionReason == reason && TrimSpace(reason) != ""
              && valid && s.value.approvedAt == Some(Stored(now))
  {}

  /** What an approval of m minutes, m small enough not to wrap, is: it is given exactly for 1 to 480
      minutes within the requested time and the budget, for a pending valid request, by a valid
      administrator with a reason of at least three bytes once trimmed and at most 512; and it then
      runs from now for m minutes, both ends stored in whole seconds. */
  lemma ApprovalExactly(
      v6: AddressParser, r: Request, minutes: int, budgetSeconds: int, admin: Person, reason: string, now: Time)
    requires -153_722_867 <= minutes <= 153_722_867
    ensures var s := Approval(v6, r, minutes, budgetSeconds, admin, reason, now);
            && (s.Some? <==>
                  && 1 <= minutes <= 480 && minutes * 60 <= r.spec.requestedSeconds && minutes * 60 <= budgetSeconds
                  && (r.status.phase == Unset || r.status.phase == Pending) && ValidSpec(v6, r.spec) && admin.valid
                  && ByteLen(TrimSpace(reason)) >= 3 && ByteLen(reason) <= 512)
            && (s.Some? ==> s.value == AccessStatus(Approved, Some(admin), reason, Some(Stored(now)),
                                                    Some(Stored(now + minutes * 60 * SECOND))))
  {
    MinutesAcceptedExactly(minutes);
    JudgedExactly(ValidSpec(v6, r.spec), r, minutes, budgetSeconds, admin, reason, now);
  }

  lemma JudgedExactly(
      valid: bool, r: Request, minutes: int, budgetSeconds: int, admin: Person, reason: string, now: Time)
    requires AccessDuration(minutes) == if 1 <= minutes <= 480 then Some(minutes * MINUTE) else None
    ensures var s := Judged(valid, r, minutes, budgetSeconds, admin, reason, now);
            && (s.Some? <==>
                  && 1 <= minutes <= 480 && minutes * 60 <= r.spec.requestedSeconds && minutes * 60 <= budgetSeconds
                  && (r.status.phase == Unset || r.status.phase == Pending) && valid && admin.valid
                  && ByteLen(TrimSpace(reason)) >= 3 && ByteLen(reason) <= 512)
            && (s.Some? ==> s.value == AccessStatus(Approved, Some(admin), reason, Some(Stored(now)),
                                                    Some(Stored(now + minutes * 60 * SECOND))))
  {}

  /** What a denial is: given for a pending request by a valid administrator with a reason, and
      recording both. */
  lemma DenialExactly(r: Request, admin: Person, reason: string)
    ensures var s := Denial(r, admin, reason);
            && (s.Some? <==>
                  && (r.status.phase == Unset || r.status.phase == Pending) && admin.valid
                  && ByteLen(TrimSpace(reason)) >= 3 && ByteLen(reason) <= 512)
            && (s.Some? ==> s.value == AccessStatus(Denied, Some(admin), reason, None, None))
  {}

  /** A request may ask for one minute to eight hours, for a target that is canonical. */
  lemma ValidSpecExactly(v6: AddressParser, s: Spec)
    ensures ValidSpec(v6, s) <==>
              s.textOk && 60 <= s.requestedSeconds <= 28_800
              && NormalizeTarget(v6, s.target.backend, s.target.verb, s.target.host, s.target.path) == Ok(s.target)
  {}

  /** Which numbers of minutes are accepted: those from 1 to 480, and among all others exactly the
      ones whose product with a minute wraps, which takes more than 153722867 of them, and wraps
      into the accepted range. */
  lemma MinutesAcceptedExactly(minutes: int)
    ensures Int64(minutes * MINUTE) <==> -153_722_867 <= minutes <= 153_722_867
    ensures Int64(minutes * MINUTE) ==> (AccessDuration(minutes).Some? <==> 1 <= minutes <= 480)
    ensures AccessDuration(minutes).Some? ==>
              (AccessDuration(minutes) == Some(minutes * MINUTE) <==> Int64(minutes * MINUTE))
    ensures AccessDuration(minutes).Some? <==>
              exists k :: MINUTE <= minutes * MINUTE - k * TWO_64 <= MAX_ACCESS
  {
    WrapIs(minutes * MINUTE, MINUTE, MAX_ACCESS);
  }

  /** Such numbers exist: this one passes for a minute and a bit. */
  lemma WrappedMinutesAreAccepted(minutes: int)
    requires minutes == 3_749_353_613_647_812
    ensures Int64(minutes) && !Int64(minutes * MINUTE) && AccessDuration(minutes) == Some(60_000_002_048)
  {
    assert minutes * MINUTE == 12_195_172 * TWO_64 + 60_000_002_048;
  }
}
