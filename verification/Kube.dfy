/** The stored objects every component of the control plane reads and writes.

    The API server is a collection of objects carrying a `uid`, which is never
    reused, and a `version` (resourceVersion), which changes on every write.
    Update and UpdateStatus compare the version of the submitted copy with the
    stored one. Annotations, labels and finalizers that the control plane looks
    at are fields of their own. */
module Kube {
  datatype Option<+T> = None | Some(value: T)

  datatype Result<+T, +E> = Ok(value: T) | Err(error: E)

  /** An instant in nanoseconds since the epoch, or a length of time in nanoseconds. */
  type Time = int

  const SECOND: Time := 1_000_000_000

  datatype ObjectRef = ObjectRef(kind: string, name: string, uid: string)

  datatype ResolvedBundle = ResolvedBundle(name: string, uid: string, revision: string)

  datatype ConditionKind = BundleResolved | PodBound | IdentityReady | Ready

  /** Why a condition has its value. The message of a condition is a function of its
      reason; the three reasons whose message is an error text carry that text. */
  datatype Reason =
    | BundleValid | FreshPodObserved | AssignmentReady
    | IdentityNotRequired | ExternalMediatorConfigured | EgressIdentityConfigured
    | TemplateNotFound | TemplateReplaced | TemplateRevisionMismatch | TemplateInvalid
    | BundleNotFound | BundleInvalid(detail: string) | TemplateBoundaryMismatch
    | Paused
    | WorkloadPending | MultipleWorkloads | InvalidReplicaCount | StaleWorkload
    | PodPending | MultiplePods
    | ServiceAccountNotReady(detail: string)
    | ResumePending | StalePod | RuntimeNotAllowed | PodNotReady
    | IdentityNotReady(detail: string)

  datatype Condition = Condition(kind: ConditionKind, holds: bool, reason: Reason, generation: int, transition: Time)

  datatype Status = Status(
    conditions: seq<Condition>,
    resolved: Option<ResolvedBundle>,
    workloadRef: Option<ObjectRef>,
    podRef: Option<ObjectRef>)

  const EMPTY_STATUS := Status([], None, None, None)

  /** Some condition of the given kind is True. */
  predicate ConditionTrue(status: Status, kind: ConditionKind) {
    exists c :: c in status.conditions && c.kind == kind && c.holds
  }

  predicate IsReady(status: Status) {
    ConditionTrue(status, Ready)
  }

  /** The Pod UID recorded in the status, empty when there is no Pod reference. */
  function PodUid(status: Status): string {
    if status.podRef.Some? then status.podRef.value.uid else ""
  }

  datatype TemplateRef = TemplateRef(name: string, uid: string, revision: string)

  datatype Assignment = Assignment(
    name: string, uid: string, version: nat, generation: int, created: Time,
    deleting: bool, finalizers: set<string>,
    sandboxId: string, paused: bool, resumeAfter: string,
    idempotencyKey: string, requestHash: string,
    template: TemplateRef, tenant: string, bundle: string,
    status: Status)

  /** Update: a compare-and-swap of everything but the status, which is a subresource. */
  function Update(stored: Assignment, copy: Assignment, version: nat): Option<Assignment> {
    if copy.version != stored.version then None else Some(copy.(status := stored.status, version := version))
  }

  /** UpdateStatus: a compare-and-swap of the status alone. */
  function UpdateStatus(stored: Assignment, copy: Assignment, version: nat): Option<Assignment> {
    if copy.version != stored.version then None else Some(stored.(status := copy.status, version := version))
  }

  /** `rejected` holds the error text of every backend whose allow expression is missing or does
      not compile. Each text names its backend, so they are distinct. */
  datatype Bundle = Bundle(
    name: string, uid: string, version: nat, deleting: bool, finalizers: set<string>,
    revision: string, tenant: Option<string>, rejected: seq<string>, mediated: bool)

  const ASSIGNMENT_FINALIZER := "aks-sandbox.azure.com/revoke-assignment"
  const BUNDLE_FINALIZER := "aks-sandbox.azure.com/in-use-protection"
}
