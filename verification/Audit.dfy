/** Authorization checks that record their decision before they answer, and the counters they
    leave behind (internal/assignment/authz/checker.go, internal/assignment/authz/audit.go).
    Any number of checks run at once; every counter update and every store is a step of its own. */
module Audit {
  import opened Counting

  /** `complete` says that no field an audit record requires is empty once sanitized. */
  datatype Decision = Decision(allow: bool, assignmentUid: string, complete: bool)

  /** What became of the audit record of a check. */
  datatype Fate = Skipped | Dropped | Failed | Written

  /** A check in progress: the body has decided, Record passed its guards, it counted the record,
      it stored the event or failed to, Record returned, the error was counted, the check is over. */
  datatype Check =
    | Running
    | Decided(d: Decision, err: bool)
    | Admitted(d: Decision, err: bool)
    | Queued(d: Decision, err: bool)
    | Stored(d: Decision, err: bool)
    | Lost(d: Decision, err: bool)
    | Recorded(d: Decision, err: bool, fate: Fate)
    | Erring(d: Decision, fate: Fate)
    | Finished(d: Decision, fate: Fate, allow: bool, err: bool)

  datatype Counters = Counters(allows: nat, denies: nat, errors: nat, enqueued: nat, written: nat, dropped: nat)

  /** `events` holds the stored audit event of a check under the check's number. */
  datatype State = State(sink: bool, accepting: bool, checks: seq<Check>, events: map<nat, Decision>, n: Counters)

  datatype Step =
    | Shutdown
    | Decide(i: nat, d: Decision, err: bool)
    | SkipRecord(i: nat)
    | Drop(i: nat)
    | Admit(i: nat)
    | CountEnqueued(i: nat)
    | Store(i: nat, ok: bool)
    | CountWritten(i: nat)
    | Fail(i: nat)
    | CountError(i: nat)
    | Finish(i: nat)

  /** A decision is recorded when a sink is installed and an assignment was identified. */
  predicate ToRecord(s: State, d: Decision) { s.sink && d.assignmentUid != "" }

  /** Record refuses incomplete decisions, and everything once the sink is shutting down. */
  predicate Refuses(s: State, d: Decision) { !d.complete || !s.accepting }

  predicate AuditFailed(fate: Fate) { fate == Dropped || fate == Failed }

  /** The named results of Check after its deferred function has seen the audit error. */
  predicate FinalErr(d: Decision, err: bool, fate: Fate) { err || (AuditFailed(fate) && d.allow) }

  predicate FinalAllow(d: Decision, fate: Fate) { d.allow && !AuditFailed(fate) }

  predicate Enabled(s: State, step: Step) {
    step.Shutdown? ||
    (step.i < |s.checks| &&
     var c := s.checks[step.i];
     match step
     // the body allows only without an error, and only after it has read the assignment
     case Decide(_, d, err) => c.Running? && (d.allow ==> !err && d.assignmentUid != "")
     case SkipRecord(_) => c.Decided? && !ToRecord(s, c.d)
     case Drop(_) => c.Decided? && ToRecord(s, c.d) && Refuses(s, c.d)
     case Admit(_) => c.Decided? && ToRecord(s, c.d) && !Refuses(s, c.d)
     case CountEnqueued(_) => c.Admitted?
     case Store(_, _) => c.Queued?
     case CountWritten(_) => c.Stored?
     case Fail(_) => c.Lost?
     case CountError(_) => c.Recorded? && FinalErr(c.d, c.err, c.fate)
     case Finish(_) => c.Erring? || (c.Recorded? && !FinalErr(c.d, c.err, c.fate)))
  }

  /** The next state of the check that moves. */
  function Next(s: State, step: Step): Check
    requires Enabled(s, step) && !step.Shutdown?
  {
    var c := s.checks[step.i];
    match step
    case Decide(_, d, err) => Decided(d, err)
    case SkipRecord(_) => Recorded(c.d, c.err, Skipped)
    case Drop(_) => Recorded(c.d, c.err, Dropped)
    case Admit(_) => Admitted(c.d, c.err)
    case CountEnqueued(_) => Queued(c.d, c.err)
    case Store(_, ok) => if ok then Stored(c.d, c.err) else Lost(c.d, c.err)
    case CountWritten(_) => Recorded(c.d, c.err, Written)
    case Fail(_) => Recorded(c.d, c.err, Failed)
    case CountError(_) => Erring(c.d, c.fate)
    case Finish(_) =>
      if c.Erring? then Finished(c.d, c.fate, false, true)
      else Finished(c.d, c.fate, FinalAllow(c.d, c.fate), false)
  }

  /** The counter a step increments. */
  function Bump(s: State, step: Step): Counters
    requires Enabled(s, step) && !step.Shutdown?
  {
    var n := s.n;
    match step
    case Drop(_) => n.(dropped := n.dropped + 1)
    case CountEnqueued(_) => n.(enqueued := n.enqueued + 1)
    case CountWritten(_) => n.(written := n.written + 1)
    case CountError(_) => n.(errors := n.errors + 1)
    case Finish(_) => if Next(s, step).allow then n.(allows := n.allows + 1) else n.(denies := n.denies + 1)
    case _ => n
  }

  function Do(s: State, step: Step): State
    requires Enabled(s, step)
  {
    if step.Shutdown? then s.(accepting := false)
    else
      var events := if step.Store? && step.ok then s.events[step.i := s.checks[step.i].d] else s.events;
      s.(checks := s.checks[step.i := Next(s, step)], events := events, n := Bump(s, step))
  }

  ghost predicate IsRun(states: seq<State>, steps: seq<Step>) {
    && |states| == |steps| + 1
    && forall i :: 0 <= i < |steps| ==> Enabled(states[i], steps[i]) && states[i + 1] == Do(states[i], steps[i])
  }

  predicate Start(s: State) {
    s.events == map[] && s.n == Counters(0, 0, 0, 0, 0, 0) && forall i :: 0 <= i < |s.checks| ==> s.checks[i] == Running
  }

  // ---- what the counters count -----------------------------------------------------------

  predicate HasFate(c: Check, fate: Fate) { (c.Recorded? || c.Erring? || c.Finished?) && c.fate == fate }

  predicate CountedAllow(c: Check) { c.Finished? && c.allow }
  predicate CountedDeny(c: Check) { c.Finished? && !c.allow }
  predicate CountedError(c: Check) { c.Erring? || (c.Finished? && c.err) }
  predicate CountedEnqueued(c: Check) { c.Queued? || c.Stored? || c.Lost? || HasFate(c, Failed) || HasFate(c, Written) }
  predicate CountedWritten(c: Check) { HasFate(c, Written) }
  predicate CountedDropped(c: Check) { HasFate(c, Dropped) }

  ghost predicate CountersOk(s: State) {
    && s.n.allows == Count(s.checks, CountedAllow) && s.n.denies == Count(s.checks, CountedDeny)
    && s.n.errors == Count(s.checks, CountedError) && s.n.enqueued == Count(s.checks, CountedEnqueued)
    && s.n.written == Count(s.checks, CountedWritten) && s.n.dropped == Count(s.checks, CountedDropped)
  }

  /** What is known of a single check: an allow rests on a decision that allows, and, with a sink,
      on a stored event with that very decision. */
  predicate CheckOk(s: State, i: nat)
    requires i < |s.checks|
  {
    var c := s.checks[i];
    && (c.Running? || (c.d.allow ==> c.d.assignmentUid != ""))
    && ((c.Decided? || c.Admitted? || c.Queued? || c.Stored? || c.Lost? || c.Recorded?) ==> c.d.allow ==> !c.err)
    && ((c.Stored? || HasFate(c, Written)) ==> i in s.events && s.events[i] == c.d)
    && (s.sink && HasFate(c, Skipped) ==> c.d.assignmentUid == "")
    && (CountedEnqueued(c) || c.Admitted? ==> c.d.complete && c.d.assignmentUid != "")
    && (CountedDropped(c) ==> c.d.assignmentUid != "")
    && (c.Erring? ==> c.d.allow ==> AuditFailed(c.fate))
    && (c.Finished? ==> (c.allow <==> c.d.allow && !AuditFailed(c.fate)) && (c.err ==> !c.allow))
    && (c.Finished? && c.d.allow && !c.allow ==> c.err)
  }

  ghost predicate Inv(s: State) {
    CountersOk(s) && forall i :: 0 <= i < |s.checks| ==> CheckOk(s, i)
  }

  lemma ChecksInductive(s: State, step: Step)
    requires Inv(s) && Enabled(s, step)
    ensures forall i :: 0 <= i < |s.checks| ==> CheckOk(Do(s, step), i)
  {
    forall i | 0 <= i < |s.checks| ensures CheckOk(Do(s, step), i) {
      assert CheckOk(s, i);
      if !step.Shutdown? && step.i == i { MoverOk(s, step); } else { BystanderOk(s, step, i); }
    }
  }

  lemma MoverOk(s: State, step: Step)
    requires Enabled(s, step) && !step.Shutdown? && CheckOk(s, step.i)
    ensures CheckOk(Do(s, step), step.i)
  {}

  lemma BystanderOk(s: State, step: Step, i: nat)
    requires Enabled(s, step) && i < |s.checks| && CheckOk(s, i) && (step.Shutdown? || step.i != i)
    ensures CheckOk(Do(s, step), i)
  {}

  lemma CountersInductive(s: State, step: Step)
    requires CountersOk(s) && Enabled(s, step)
    ensures CountersOk(Do(s, step))
  {
    if !step.Shutdown? {
      var c := Next(s, step);
      CountUpdate(s.checks, step.i, c, CountedAllow);
      CountUpdate(s.checks, step.i, c, CountedDeny);
      CountUpdate(s.checks, step.i, c, CountedError);
      CountUpdate(s.checks, step.i, c, CountedEnqueued);
      CountUpdate(s.checks, step.i, c, CountedWritten);
      CountUpdate(s.checks, step.i, c, CountedDropped);
      BumpMatches(s, step);
    }
  }

  function Bit(b: bool): nat { if b then 1 else 0 }

  /** A step increments exactly the counters its check newly counts towards. */
  lemma BumpMatches(s: State, step: Step)
    requires Enabled(s, step) && !step.Shutdown?
    ensures var c, c', n, n' := s.checks[step.i], Next(s, step), s.n, Bump(s, step);
            && n'.allows + Bit(CountedAllow(c)) == n.allows + Bit(CountedAllow(c'))
            && n'.denies + Bit(CountedDeny(c)) == n.denies + Bit(CountedDeny(c'))
            && n'.errors + Bit(CountedError(c)) == n.errors + Bit(CountedError(c'))
            && n'.enqueued + Bit(CountedEnqueued(c)) == n.enqueued + Bit(CountedEnqueued(c'))
            && n'.written + Bit(CountedWritten(c)) == n.written + Bit(CountedWritten(c'))
            && n'.dropped + Bit(CountedDropped(c)) == n.dropped + Bit(CountedDropped(c'))
  {}

  lemma InvInductive(s: State, step: Step)
    requires Inv(s) && Enabled(s, step)
    ensures Inv(Do(s, step))
  {
    ChecksInductive(s, step);
    CountersInductive(s, step);
  }

  lemma StartOk(s: State)
    requires Start(s)
    ensures Inv(s)
  {
    CountNone(s.checks, CountedAllow);
    CountNone(s.checks, CountedDeny);
    CountNone(s.checks, CountedError);
    CountNone(s.checks, CountedEnqueued);
    CountNone(s.checks, CountedWritten);
    CountNone(s.checks, CountedDropped);
  }

  lemma {:induction false} RunKeepsInv(states: seq<State>, steps: seq<Step>, k: nat)
    requires IsRun(states, steps) && Start(states[0]) && k < |states|
    ensures Inv(states[k])
  {
    if k == 0 {
      StartOk(states[0]);
    } else {
      RunKeepsInv(states, steps, k - 1);
      InvInductive(states[k - 1], steps[k - 1]);
    }
  }

  // ---- conservation ----------------------------------------------------------------------

  predicate Over(c: Check) { c.Finished? }
  predicate CalledRecord(c: Check) {
    c.Admitted? || c.Queued? || c.Stored? || c.Lost? || ((c.Recorded? || c.Erring? || c.Finished?) && c.fate != Skipped)
  }
  predicate BetweenGuardAndCount(c: Check) { c.Admitted? }
  predicate Writing(c: Check) { c.Queued? || c.Stored? || c.Lost? }
  predicate WriteFailed(c: Check) { HasFate(c, Failed) }
  predicate BetweenErrorAndDeny(c: Check) { c.Erring? }
  predicate PlainDeny(c: Check) { c.Finished? && !c.allow && !c.err }

  /** At every instant of every run, each counter plus the checks that are about to increment it
      accounts for every check exactly once. */
  lemma CountersBalance(states: seq<State>, steps: seq<Step>, k: nat)
    requires IsRun(states, steps) && Start(states[0]) && k < |states|
    ensures var s := states[k];
            && s.n.allows + s.n.denies == Count(s.checks, Over)
            && s.n.enqueued + s.n.dropped + Count(s.checks, BetweenGuardAndCount) == Count(s.checks, CalledRecord)
            && s.n.enqueued == s.n.written + Count(s.checks, WriteFailed) + Count(s.checks, Writing)
            && s.n.denies + Count(s.checks, BetweenErrorAndDeny) == s.n.errors + Count(s.checks, PlainDeny)
  {
    var cs := states[k].checks;
    RunKeepsInv(states, steps, k);
    forall i | 0 <= i < |cs| ensures cs[i].Finished? && cs[i].err ==> !cs[i].allow { assert CheckOk(states[k], i); }
    CountSplit(cs, Over, CountedAllow, CountedDeny);
    RecordsBalance(cs);
    CountSplit(cs, DenyOrErring, CountedDeny, BetweenErrorAndDeny);
    CountSplit(cs, DenyOrErring, CountedError, PlainDeny);
  }

  predicate DenyOrErring(c: Check) { c.Erring? || (c.Finished? && !c.allow) }

  lemma RecordsBalance(cs: seq<Check>)
    ensures Count(cs, CountedEnqueued) + Count(cs, CountedDropped) + Count(cs, BetweenGuardAndCount)
            == Count(cs, CalledRecord)
    ensures Count(cs, CountedEnqueued) == Count(cs, CountedWritten) + Count(cs, WriteFailed) + Count(cs, Writing)
  {
    CountSplit(cs, Counted, CountedEnqueued, CountedDropped);
    CountSplit(cs, CalledRecord, Counted, BetweenGuardAndCount);
    CountSplit(cs, Answered, CountedWritten, WriteFailed);
    CountSplit(cs, CountedEnqueued, Answered, Writing);
  }

  predicate Counted(c: Check) { CountedEnqueued(c) || CountedDropped(c) }
  predicate Answered(c: Check) { HasFate(c, Written) || HasFate(c, Failed) }

  /** Whenever no check is in progress the plain equations hold. */
  lemma QuiescentCountersBalance(states: seq<State>, steps: seq<Step>, k: nat)
    requires IsRun(states, steps) && Start(states[0]) && k < |states|
    requires forall i :: 0 <= i < |states[k].checks| ==> states[k].checks[i].Running? || states[k].checks[i].Finished?
    ensures var s := states[k];
            && s.n.allows + s.n.denies == Count(s.checks, Over)
            && s.n.errors <= s.n.denies
            && s.n.enqueued + s.n.dropped == Count(s.checks, CalledRecord)
            && s.n.enqueued == s.n.written + Count(s.checks, WriteFailed)
  {
    var cs := states[k].checks;
    CountersBalance(states, steps, k);
    CountNone(cs, BetweenGuardAndCount);
    CountNone(cs, Writing);
    CountNone(cs, BetweenErrorAndDeny);
  }

  /** With a sink installed, every allow that was returned was preceded by its own stored allow
      event, and so there are never more allows than written events. */
  lemma EveryAllowWasRecorded(states: seq<State>, steps: seq<Step>, k: nat)
    requires IsRun(states, steps) && Start(states[0]) && k < |states| && states[k].sink
    ensures forall i :: 0 <= i < |states[k].checks| && CountedAllow(states[k].checks[i]) ==>
              i in states[k].events && states[k].events[i] == states[k].checks[i].d && states[k].events[i].allow
    ensures states[k].n.allows <= states[k].n.written
  {
    var s := states[k];
    RunKeepsInv(states, steps, k);
    forall i | 0 <= i < |s.checks| && CountedAllow(s.checks[i])
      ensures HasFate(s.checks[i], Written) && i in s.events && s.events[i] == s.checks[i].d && s.events[i].allow
    {
      assert CheckOk(s, i);
    }
    CountMonotone(s.checks, CountedAllow, CountedWritten);
  }

  /** What a finished check answered: an allow exactly when its body allowed and its record was not
      dropped and did not fail, and otherwise, if the body allowed, an error. Only complete records
      of identified assignments are stored, and with a sink such a decision is never skipped. */
  lemma AnswersAreExact(states: seq<State>, steps: seq<Step>, k: nat, i: nat)
    requires IsRun(states, steps) && Start(states[0]) && k < |states| && i < |states[k].checks|
    requires states[k].checks[i].Finished?
    ensures var c := states[k].checks[i];
            && (c.allow <==> c.d.allow && c.fate != Dropped && c.fate != Failed)
            && (c.d.allow && !c.allow ==> c.err)
            && (c.fate == Written ==> i in states[k].events && c.d.complete && c.d.assignmentUid != "")
            && (c.fate == Failed ==> c.d.complete && c.d.assignmentUid != "")
            && (states[k].sink ==> (c.fate == Skipped <==> c.d.assignmentUid == ""))
  {
    RunKeepsInv(states, steps, k);
    assert CheckOk(states[k], i);
  }

  /** A decided check is dropped exactly when it is to be recorded and is incomplete or the sink is
      shutting down; and a recorded one counts an error exactly when its body failed or its allow
      could not be recorded. */
  lemma NextMoveIsExact(s: State, i: nat)
    requires i < |s.checks|
    ensures var c := s.checks[i];
            && (c.Decided? ==>
                  && (Enabled(s, SkipRecord(i)) <==> !s.sink || c.d.assignmentUid == "")
                  && (Enabled(s, Drop(i)) <==> s.sink && c.d.assignmentUid != "" && (!c.d.complete || !s.accepting))
                  && (Enabled(s, Admit(i)) <==> s.sink && c.d.assignmentUid != "" && c.d.complete && s.accepting))
            && (c.Recorded? ==>
                  && (Enabled(s, CountError(i)) <==> c.err || (c.d.allow && (c.fate == Dropped || c.fate == Failed)))
                  && (Enabled(s, Finish(i)) <==> !Enabled(s, CountError(i))))
  {}

  /** Shutting down is final: from then on nothing is admitted. */
  lemma {:induction false} ShutdownIsFinal(states: seq<State>, steps: seq<Step>, i: nat, k: nat)
    requires IsRun(states, steps) && i < k < |states| && steps[i] == Shutdown
    ensures !states[k].accepting && (k < |steps| ==> !steps[k].Admit?)
  {
    if k > i + 1 { ShutdownIsFinal(states, steps, i, k - 1); }
    assert states[k] == Do(states[k - 1], steps[k - 1]);
    if k < |steps| { assert Enabled(states[k], steps[k]); }
  }

  /** The error counter is incremented before the deny counter, so while a check is between the
      two the errors can exceed the denies. */
  lemma ErrorsCanRunAhead() returns (states: seq<State>, steps: seq<Step>)
    ensures IsRun(states, steps) && Start(states[0]) && states[|steps|].n.errors > states[|steps|].n.denies
  {
    var d := Decision(false, "", false);
    var s0 := State(true, true, [Running], map[], Counters(0, 0, 0, 0, 0, 0));
    var s1 := s0.(checks := [Decided(d, true)]);
    var s2 := s0.(checks := [Recorded(d, true, Skipped)]);
    var s3 := s0.(checks := [Erring(d, Skipped)], n := s0.n.(errors := 1));
    steps := [Decide(0, d, true), SkipRecord(0), CountError(0)];
    states := [s0, s1, s2, s3];
    assert Enabled(s0, steps[0]) && Do(s0, steps[0]) == s1;
    assert Enabled(s1, steps[1]) && Do(s1, steps[1]) == s2;
    assert Enabled(s2, steps[2]) && Do(s2, steps[2]) == s3;
  }

  // ---- the sink and the deferred function, one call at a time ----------------------------

  /** The sink. The counters are its fields; the ghost fields say what they count. */
  class AuditSink {
    var accepting: bool
    var enqueued: nat
    var written: nat
    var dropped: nat
    var errors: nat
    /** The stored events, the number of failed stores and the number of Record calls. */
    ghost var events: seq<Decision>
    ghost var failures: nat
    ghost var calls: nat

    constructor ()
      ensures Valid() && accepting && events == [] && failures == 0 && calls == 0
    {
      accepting, enqueued, written, dropped, errors := true, 0, 0, 0, 0;
      events, failures, calls := [], 0, 0;
    }

    ghost predicate Valid()
      reads this
    {
      && calls == enqueued + dropped && enqueued == written + failures && written == |events|
      && failures <= errors <= failures + dropped
    }

    /** Record: `stores` is whether the API server takes the event. */
    method Record(d: Decision, stores: bool) returns (ok: bool)
      requires Valid()
      modifies this
      ensures Valid() && accepting == old(accepting) && calls == old(calls) + 1
      ensures ok <==> d.complete && accepting && stores
      ensures events == if ok then old(events) + [d] else old(events)
      ensures failures == if d.complete && accepting && !stores then old(failures) + 1 else old(failures)
    {
      calls := calls + 1;
      if !d.complete {
        errors := errors + 1;
        dropped := dropped + 1;
        return false;
      }
      if !accepting {
        dropped := dropped + 1;
        return false;
      }
      enqueued := enqueued + 1;
      if !stores {
        failures := failures + 1;
        errors := errors + 1;
        return false;
      }
      events := events + [d];
      written := written + 1;
      return true;
    }

    /** Shutdown: from now on every record is dropped. */
    method Shutdown()
      requires Valid()
      modifies this
      ensures Valid() && !accepting && events == old(events) && calls == old(calls) && failures == old(failures)
    {
      accepting := false;
    }
  }

  class Checker {
    const audit: AuditSink
    var allows: nat
    var denies: nat
    var errors: nat
    ghost var checks: nat

    constructor (audit: AuditSink)
      requires audit.Valid()
      ensures Valid() && this.audit == audit && checks == 0
    {
      this.audit := audit;
      allows, denies, errors, checks := 0, 0, 0, 0;
    }

    ghost predicate Valid()
      reads this, audit
    {
      audit.Valid() && allows + denies == checks && errors <= denies && allows <= audit.written
    }

    /** The deferred function of Check, on the results its body returned. An allow is answered
        only if the body allowed and the event was stored, and then that event is the last one. */
    method Conclude(d: Decision, err: bool, stores: bool) returns (allow: bool, err': bool)
      requires Valid() && (d.allow ==> !err && d.assignmentUid != "")
      modifies this, audit
      ensures Valid() && checks == old(checks) + 1
      ensures allow <==> d.allow && d.complete && old(audit.accepting) && stores
      ensures allow ==> !err' && audit.events == old(audit.events) + [d]
      ensures err' <==> err || (d.allow && !allow)
    {
      allow, err' := d.allow, err;
      if d.assignmentUid != "" {
        var recorded := audit.Record(d, stores);
        if !recorded && allow { allow, err' := false, true; }
      }
      if err' {
        errors := errors + 1;
        denies := denies + 1;
      } else if allow {
        allows := allows + 1;
      } else {
        denies := denies + 1;
      }
      checks := checks + 1;
    }
  }
}
