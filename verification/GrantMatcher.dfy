/** Matching one egress decision against the indexed access requests
    (internal/assignment/authz/checker.go). */
module GrantMatcher {
  import opened Kube
  import opened Seqs
  import opened Text
  import opened Targets
  import opened Access

  /** An object of the informer index. Foreign is not an unstructured object at all; Broken does
      not convert to an access request. */
  datatype Raw = Foreign | Broken(deleting: bool) | Good(request: Request)

  /** The part of an authorization decision a request is compared with. */
  datatype Subject = Subject(assignmentName: string, assignmentUid: string, podUid: string, revision: string,
                             target: Target)

  datatype Refusal = NoMatch | Malformed | Ambiguous

  datatype Outcome = Granted(name: string) | Refused(why: Refusal) | Failed

  /** validApproval. */
  predicate ValidApproval(r: Request, now: Time) {
    && r.status.approver.Some? && r.status.approver.value.valid
    && TrimSpace(r.status.decisionReason) != ""
    && r.status.approvedAt.Some? && r.status.expiresAt.Some?
    && r.status.approvedAt.value <= now < r.status.expiresAt.value
    && 0 < Lifetime(r.status) <= r.spec.requestedSeconds * SECOND
    && Lifetime(r.status) <= MAX_ACCESS
  }

  /** An approved request for this very incarnation of the assignment, Pod and policy. */
  predicate Concerns(r: Request, s: Subject) {
    && !r.deleting && r.status.phase.Approved?
    && r.spec.assignmentUid == s.assignmentUid && r.spec.assignmentName == s.assignmentName
    && r.spec.podUid == s.podUid && r.spec.revision == s.revision
  }

  predicate Matches(valid: Verdict, raw: Raw, s: Subject, now: Time) {
    && raw.Good? && Concerns(raw.request, s) && valid(raw.request.spec)
    && raw.request.spec.target == s.target && ValidApproval(raw.request, now)
  }

  /** A request that would match but for a malformed specification or an approval that is not
      in force. */
  predicate Unusable(valid: Verdict, raw: Raw, s: Subject, now: Time) {
    && raw.Good? && Concerns(raw.request, s)
    && (!valid(raw.request.spec) || (raw.request.spec.target == s.target && !ValidApproval(raw.request, now)))
  }

  /** An object that makes the matcher return an error. */
  predicate Fatal(raw: Raw) { raw.Foreign? || (raw.Broken? && !raw.deleting) }

  /** The objects that match. */
  function Hits(valid: Verdict, raws: seq<Raw>, s: Subject, now: Time): seq<Raw> {
    Keep(raws, raw => Matches(valid, raw, s, now))
  }

  predicate AnyFatal(raws: seq<Raw>) { exists i :: 0 <= i < |raws| && Fatal(raws[i]) }

  predicate AnyUnusable(valid: Verdict, raws: seq<Raw>, s: Subject, now: Time) {
    exists i :: 0 <= i < |raws| && Unusable(valid, raws[i], s, now)
  }

  /** The name of the request behind an object. */
  function NameOf(raw: Raw): string { if raw.Good? then raw.request.name else "" }

  /** The answer, as a property of the collection of objects: any fatal object is an error;
      otherwise access is granted when exactly one object matches, in the name of that object. */
  function Answer(valid: Verdict, raws: seq<Raw>, s: Subject, now: Time): Outcome {
    var hits := Hits(valid, raws, s, now);
    if AnyFatal(raws) then Failed
    else if |hits| == 1 then Granted(NameOf(hits[0]))
    else if |hits| > 1 then Refused(Ambiguous)
    else if AnyUnusable(valid, raws, s, now) then Refused(Malformed)
    else Refused(NoMatch)
  }

  /** matchAccessGrantObjects. */
  method MatchAccessGrantObjects(valid: Verdict, raws: seq<Raw>, s: Subject, now: Time) returns (r: Outcome)
    ensures r == Answer(valid, raws, s, now)
  {
    var matches: seq<string> := [];
    var invalidExact := false;
    for i := 0 to |raws|
      invariant forall k :: 0 <= k < i ==> !Fatal(raws[k])
      invariant matches == Names(Hits(valid, raws[..i], s, now))
      invariant invalidExact <==> exists k :: 0 <= k < i && Unusable(valid, raws[k], s, now)
    {
      var raw := raws[i];
      HitsStep(valid, raws, i, s, now);
      if raw.Foreign? { return Failed; }
      if raw.Broken? {
        if raw.deleting { continue; }
        return Failed;
      }
      var q := raw.request;
      if q.deleting { continue; }
      if !q.status.phase.Approved? || q.spec.assignmentUid != s.assignmentUid { continue; }
      if q.spec.assignmentName != s.assignmentName || q.spec.podUid != s.podUid || q.spec.revision != s.revision {
        continue;
      }
      if !valid(q.spec) {
        invalidExact := true;
        continue;
      }
      if q.spec.target != s.target { continue; }
      if !ValidApproval(q, now) {
        invalidExact := true;
        continue;
      }
      matches := matches + [q.name];
    }
    assert raws[..|raws|] == raws;
    r := if |matches| == 1 then Granted(matches[0])
         else if |matches| > 1 then Refused(Ambiguous)
         else if invalidExact then Refused(Malformed) else Refused(NoMatch);
  }

  function Names(raws: seq<Raw>): (names: seq<string>)
    ensures |names| == |raws| && forall i :: 0 <= i < |raws| ==> names[i] == NameOf(raws[i])
  {
    seq(|raws|, i requires 0 <= i < |raws| => NameOf(raws[i]))
  }

  lemma HitsStep(valid: Verdict, raws: seq<Raw>, i: nat, s: Subject, now: Time)
    requires i < |raws|
    ensures var before, after := Names(Hits(valid, raws[..i], s, now)), Names(Hits(valid, raws[..i + 1], s, now));
            after == if Matches(valid, raws[i], s, now) then before + [NameOf(raws[i])] else before
  {
    KeepStep(raws, i, raw => Matches(valid, raw, s, now));
  }

  /** The matching objects are the same in any order and among any objects that do not match. */
  lemma HitsIgnoreOrderAndNoise(valid: Verdict, raws: seq<Raw>, noise: seq<Raw>, all: seq<Raw>, s: Subject, now: Time)
    requires multiset(all) == multiset(raws) + multiset(noise)
    requires forall x :: x in noise ==> !Matches(valid, x, s, now)
    ensures |Hits(valid, all, s, now)| == |Hits(valid, raws, s, now)|
    ensures |Hits(valid, raws, s, now)| <= 1 ==> Hits(valid, all, s, now) == Hits(valid, raws, s, now)
  {
    var f := raw => Matches(valid, raw, s, now);
    assert multiset(all) == multiset(raws + noise);
    KeepIgnoresOrder(all, raws + noise, f);
    KeepAppend(raws, noise, f);
    KeepNone(noise, f);
    assert Hits(valid, raws, s, now) == Keep(raws, f);
    assert Hits(valid, all, s, now) == Keep(all, f);
  }

  lemma AnyIgnoresOrder(valid: Verdict, raws: seq<Raw>, noise: seq<Raw>, all: seq<Raw>, s: Subject, now: Time)
    requires multiset(all) == multiset(raws) + multiset(noise)
    ensures AnyFatal(all) <==> AnyFatal(raws) || AnyFatal(noise)
    ensures AnyUnusable(valid, all, s, now) <==> AnyUnusable(valid, raws, s, now) || AnyUnusable(valid, noise, s, now)
  {
    assert multiset(all) == multiset(raws + noise);
    forall x ensures x in all <==> x in raws || x in noise {
      assert x in all <==> x in multiset(all);
      assert x in raws + noise <==> x in multiset(raws + noise);
    }
    AnyByElement(valid, all, s, now);
    AnyByElement(valid, raws, s, now);
    AnyByElement(valid, noise, s, now);
  }

  lemma AnyByElement(valid: Verdict, raws: seq<Raw>, s: Subject, now: Time)
    ensures AnyFatal(raws) <==> exists x :: x in raws && Fatal(x)
    ensures AnyUnusable(valid, raws, s, now) <==> exists x :: x in raws && Unusable(valid, x, s, now)
  {}

  /** Putting the objects in another order and adding objects that do not match leaves the answer
      as it is, if and only if it was an error anyway or none of the additions is fatal and, where
      the answer was that nothing matches, none of them is unusable. In particular one broken
      object that is not being deleted blocks every grant of its assignment. */
  lemma GrantIgnoresOrderAndNoise(valid: Verdict, raws: seq<Raw>, noise: seq<Raw>, all: seq<Raw>, s: Subject, now: Time)
    requires multiset(all) == multiset(raws) + multiset(noise)
    requires forall x :: x in noise ==> !Matches(valid, x, s, now)
    ensures Answer(valid, all, s, now) == Answer(valid, raws, s, now) <==>
              || AnyFatal(raws)
              || (!AnyFatal(noise)
                  && (Answer(valid, raws, s, now) == Refused(NoMatch) ==> !AnyUnusable(valid, noise, s, now)))
    ensures !AnyFatal(raws) && AnyFatal(noise) ==> Answer(valid, all, s, now) == Failed
  {
    HitsIgnoreOrderAndNoise(valid, raws, noise, all, s, now);
    AnyIgnoresOrder(valid, raws, noise, all, s, now);
  }

  /** An answer is an error if and only if some object is foreign, or does not convert and is not
      being deleted. */
  lemma ErrorExactly(valid: Verdict, raws: seq<Raw>, s: Subject, now: Time)
    ensures Answer(valid, raws, s, now) == Failed <==> Foreign in raws || Broken(false) in raws
  {
    AnyByElement(valid, raws, s, now);
  }

  /** Objects that are being deleted never matter, whether they convert or not. */
  lemma DeletedObjectsAreIgnored(
      valid: Verdict, raws: seq<Raw>, noise: seq<Raw>, all: seq<Raw>, s: Subject, now: Time)
    requires multiset(all) == multiset(raws) + multiset(noise)
    requires forall x :: x in noise ==> x == Broken(true) || (x.Good? && x.request.deleting)
    ensures Answer(valid, all, s, now) == Answer(valid, raws, s, now)
  {
    AnyByElement(valid, noise, s, now);
    GrantIgnoresOrderAndNoise(valid, raws, noise, all, s, now);
  }

  // ---- approval meets matcher ------------------------------------------------------------

  /** The subject a request asks access for. */
  function Own(r: Request): Subject {
    Subject(r.spec.assignmentName, r.spec.assignmentUid, r.spec.podUid, r.spec.revision, r.spec.target)
  }

  /** A stored request grants exactly its own subject, and only while it is live, approved by a valid
      administrator with a reason, valid, within its window, and no longer than asked or eight hours. */
  lemma MatchesExactly(valid: Verdict, r: Request, s: Subject, t: Time)
    ensures Matches(valid, Good(r), s, t) <==>
              && s == Own(r) && !r.deleting && r.status.phase == Approved && valid(r.spec)
              && (exists admin :: r.status.approver == Some(admin) && admin.valid)
              && TrimSpace(r.status.decisionReason) != ""
              && exists from, to :: r.status.approvedAt == Some(from) && r.status.expiresAt == Some(to)
                                    && from <= t < to && to - from <= r.spec.requestedSeconds * SECOND
                                    && to - from <= 8 * 3600 * SECOND
  {}

  /** What makes a refusal malformed: a live approved request that names this incarnation of the
      assignment, Pod and revision, and is invalid, or is for this target and not in force. */
  lemma UnusableExactly(valid: Verdict, r: Request, s: Subject, t: Time)
    ensures Unusable(valid, Good(r), s, t) <==>
              && s == Own(r).(target := s.target) && !r.deleting && r.status.phase == Approved
              && (!valid(r.spec) || (s == Own(r) && !Matches(valid, Good(r), s, t)))
  {}

  /** Once stored, an approval given by the dashboard matches a subject if and only if that is the
      request's own, from the recorded approval instant up to, and not including, the recorded
      expiry: it grants nothing to another Pod, revision, assignment or target. */
  lemma ApprovalMatchesExactlyItsWindow(
      v6: AddressParser, r: Request, minutes: int, budget: int, admin: Person, reason: string, now: Time,
      s: Subject, t: Time)
    requires !r.deleting
    ensures var status := Approval(v6, r, minutes, budget, admin, reason, now);
            status.Some? ==>
              && status.value.approvedAt.Some? && status.value.expiresAt.Some?
              && (Matches(spec => ValidSpec(v6, spec), Good(r.(status := status.value)), s, t)
                  <==> s == Own(r) && status.value.approvedAt.value <= t < status.value.expiresAt.value)
  {
    ApprovalIsBounded(v6, r, minutes, budget, admin, reason, now);
    ApprovalRecords(v6, r, minutes, budget, admin, reason, now);
    var status := Approval(v6, r, minutes, budget, admin, reason, now);
    if status.Some? {
      var r' := r.(status := status.value);
      assert Own(r') == Own(r);
      WindowMatches(spec => ValidSpec(v6, spec), r', budget, s, t);
    }
  }

  /** Whatever is stored, access is granted only in the name of an object whose own subject is the one
      that asks, and whose window contains the instant. */
  lemma GrantIsForItsOwnSubject(valid: Verdict, raws: seq<Raw>, s: Subject, t: Time)
    requires Answer(valid, raws, s, t).Granted?
    ensures exists raw ::
              && raw in raws && raw.Good? && raw.request.name == Answer(valid, raws, s, t).name
              && Own(raw.request) == s && !raw.request.deleting && raw.request.status.phase == Approved
              && raw.request.status.approvedAt.Some? && raw.request.status.expiresAt.Some?
              && raw.request.status.approvedAt.value <= t < raw.request.status.expiresAt.value
  {
    var hits := Hits(valid, raws, s, t);
    assert hits[0] in hits;
    MatchesExactly(valid, hits[0].request, s, t);
  }

  lemma WindowMatches(valid: Verdict, r: Request, budget: int, s: Subject, t: Time)
    requires !r.deleting && r.status.phase.Approved? && valid(r.spec)
    requires r.status.approver.Some? && r.status.approver.value.valid && TrimSpace(r.status.decisionReason) != ""
    requires Bounded(r.status, r.spec.requestedSeconds, budget)
    ensures Matches(valid, Good(r), s, t)
       <==> s == Own(r) && r.status.approvedAt.value <= t < r.status.expiresAt.value
  {}
}
