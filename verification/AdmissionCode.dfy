/** The loops of internal/assignment/admission/admission.go, run against a Lease that other
    replicas change between any two calls. */
module AdmissionCode {
  import opened Kube
  import opened Admission

  /** What happens around one turn of the loop: the clock when the turn starts, what other
      replicas do before the Get, the clock when availability is checked, and what they do
      before the write. */
  datatype Turn = Turn(now: Time, beforeGet: Interference, check: Time, beforeWrite: Interference)

  /** Other replicas leave the Lease alone, delete it, or store one with a new version. */
  datatype Interference = Nothing | Deleted | Stored(lease: Lease)

  /** Failed is an error of the API server that the loop does not retry. */
  datatype Acquisition = Acquired(hold: Hold) | Cancelled | Failed

  datatype UpdateResult = Updated | VersionChanged | NotFound

  class LeaseServer {
    var lease: Option<Lease>
    var tick: nat

    constructor ()
      ensures Valid() && lease == None
    {
      lease, tick := None, 0;
    }

    ghost predicate Valid()
      reads this
    {
      lease.Some? ==> lease.value.version < tick
    }

    method Interfere(i: Interference)
      requires Valid()
      modifies this
      ensures Valid() && tick == old(tick) + 1
      ensures lease == match i
                       case Nothing => old(lease)
                       case Deleted => None
                       case Stored(l) => Some(l.(version := old(tick)))
    {
      match i {
        case Nothing =>
        case Deleted => lease := None;
        case Stored(l) => lease := Some(l.(version := tick));
      }
      tick := tick + 1;
    }

    method Create(holder: nat, t: Time) returns (created: bool)
      requires Valid()
      modifies this
      ensures Valid() && created == old(lease).None? && (!created ==> tick == old(tick))
      ensures lease == if created then Some(Lease(old(tick), old(tick), Some(holder), Some(LEASE_SECONDS), Some(t)))
              else old(lease)
    {
      created := lease.None?;
      if created {
        lease := Some(Lease(tick, tick, Some(holder), Some(LEASE_SECONDS), Some(t)));
        tick := tick + 1;
      }
    }

    method Update(copy: Lease, holder: nat, t: Time) returns (r: UpdateResult)
      requires Valid()
      modifies this
      ensures Valid() && (!r.Updated? ==> tick == old(tick))
      ensures r == if old(lease).None? then NotFound else if old(lease).value.version == copy.version then Updated
              else VersionChanged
      ensures lease == if r.Updated? then Some(Lease(copy.uid, old(tick), Some(holder), Some(LEASE_SECONDS), Some(t)))
              else old(lease)
    {
      if lease.None? { return NotFound; }
      if lease.value.version != copy.version { return VersionChanged; }
      lease := Some(Lease(copy.uid, tick, Some(holder), Some(LEASE_SECONDS), Some(t)));
      tick := tick + 1;
      return Updated;
    }

    /** Delete, conditioned on the UID if one is given. */
    method Delete(uid: Option<nat>)
      requires Valid()
      modifies this
      ensures Valid() && tick == old(tick)
      ensures lease == if old(lease).Some? && (uid.Some? ==> old(lease).value.uid == uid.value) then None
              else old(lease)
    {
      if lease.Some? && (uid.None? || lease.value.uid == uid.value) { lease := None; }
    }
  }

  /** The Lease a holder records. */
  predicate RecordedBy(l: Option<Lease>, holder: nat, renew: Time) {
    l.Some? && l.value.holder == Some(holder) && l.value.renew == Some(renew) && l.value.seconds == Some(LEASE_SECONDS)
  }

  predicate Foreign(turns: seq<Turn>, holder: nat) {
    forall t :: t in turns ==>
      && (t.beforeGet.Stored? ==> t.beforeGet.lease.holder != Some(holder))
      && (t.beforeWrite.Stored? ==> t.beforeWrite.lease.holder != Some(holder))
  }

  /** The Lease after an interference. */
  function Disturbed(lease: Option<Lease>, tick: nat, i: Interference): Option<Lease> {
    match i
    case Nothing => lease
    case Deleted => None
    case Stored(l) => Some(l.(version := tick))
  }

  /** What a turn comes to when it starts with this Lease. */
  datatype Fate = Wins | Vanishes | GoesOn

  function FateOf(lease: Option<Lease>, tick: nat, t: Turn): Fate {
    var seen := Disturbed(lease, tick, t.beforeGet);
    var prior := Disturbed(seen, tick + 1, t.beforeWrite);
    if seen.None? then if prior.None? then Wins else GoesOn
    else if !Available(seen.value, t.check) then GoesOn
    else if prior.None? then Vanishes
    else if prior.value.version == seen.value.version then Wins
    else GoesOn
  }

  /** The Lease before turn k, as long as no turn has won. */
  function LeaseBefore(lease: Option<Lease>, tick: nat, turns: seq<Turn>, k: nat): Option<Lease>
    requires k <= |turns|
  {
    if k == 0 then lease
    else
      var t, n := turns[k - 1], tick + 2 * (k - 1);
      Disturbed(Disturbed(LeaseBefore(lease, tick, turns, k - 1), n, t.beforeGet), n + 1, t.beforeWrite)
  }

  function FateAt(lease: Option<Lease>, tick: nat, turns: seq<Turn>, k: nat): Fate
    requires k < |turns|
  {
    FateOf(LeaseBefore(lease, tick, turns, k), tick + 2 * k, turns[k])
  }

  /** acquireTenantLease. `prior` is the Lease found at the instant of the winning write. The
      loop wins by creating an absent Lease or by replacing the very version it saw available,
      records the clock of that turn, and otherwise leaves the Lease to the others. The first turn
      that does not just go on decides: the loop acquires exactly when that turn wins, and fails
      exactly when the Lease it saw available is gone by the time of its update. */
  method AcquireTenantLease(server: LeaseServer, holder: nat, turns: seq<Turn>)
    returns (r: Acquisition, ghost turn: nat, ghost prior: Option<Lease>)
    requires server.Valid() && Foreign(turns, holder)
    requires server.lease.Some? ==> server.lease.value.holder != Some(holder)
    modifies server
    ensures server.Valid()
    ensures r.Acquired? ==>
              && turn < |turns| && r.hold.renew == turns[turn].now
              && RecordedBy(server.lease, holder, r.hold.renew)
              && (r.hold.uid.None? <==> prior.None?)
              && (prior.Some? ==>
                    && Available(prior.value, turns[turn].check) && prior.value.holder != Some(holder)
                    && r.hold.uid == Some(prior.value.uid) == Some(server.lease.value.uid))
    ensures r.Failed? ==> turn < |turns| && prior.None? && server.lease.None? && turns[turn].beforeWrite == Deleted
    ensures r.Acquired? ==> turn < |turns| && FateAt(old(server.lease), old(server.tick), turns, turn) == Wins
    ensures r.Failed? ==> turn < |turns| && FateAt(old(server.lease), old(server.tick), turns, turn) == Vanishes
    ensures forall k :: 0 <= k < |turns| && (k < turn || r.Cancelled?) ==>
              FateAt(old(server.lease), old(server.tick), turns, k) == GoesOn
    ensures r.Cancelled? ==> server.lease.Some? ==> server.lease.value.holder != Some(holder)
  {
    var i := 0;
    turn, prior := 0, None;
    while i < |turns|
      invariant i <= |turns|
      invariant server.Valid()
      invariant server.lease.Some? ==> server.lease.value.holder != Some(holder)
      invariant server.lease == LeaseBefore(old(server.lease), old(server.tick), turns, i)
      invariant server.tick == old(server.tick) + 2 * i
      invariant forall k :: 0 <= k < i ==> FateAt(old(server.lease), old(server.tick), turns, k) == GoesOn
    {
      var t := turns[i];
      assert t in turns;
      turn := i;
      server.Interfere(t.beforeGet);
      var seen := server.lease;
      server.Interfere(t.beforeWrite);
      prior := server.lease;
      if seen.None? {
        var created := server.Create(holder, t.now);
        if created {
          return Acquired(Hold(t.now, None)), turn, prior;
        }
      } else if Available(seen.value, t.check) {
        var updated := server.Update(seen.value, holder, t.now);
        match updated {
          case Updated =>
            assert prior == seen;
            return Acquired(Hold(t.now, Some(seen.value.uid))), turn, prior;
          case NotFound =>
            return Failed, turn, prior;
          case VersionChanged =>
        }
      }
      i := i + 1;
    }
    r := Cancelled;
  }

  /** A release directly after an acquisition, with nobody in between, leaves no Lease. */
  method AcquireAndRelease(server: LeaseServer, holder: nat, turns: seq<Turn>) returns (r: Acquisition)
    requires server.Valid() && Foreign(turns, holder)
    requires server.lease.Some? ==> server.lease.value.holder != Some(holder)
    modifies server
    ensures server.Valid()
    ensures r.Acquired? ==> server.lease.None?
    ensures server.lease.Some? ==> server.lease.value.holder != Some(holder)
  {
    ghost var turn, prior;
    r, turn, prior := AcquireTenantLease(server, holder, turns);
    if r.Acquired? { server.Delete(r.hold.uid); }
  }

  // ---- counting --------------------------------------------------------------------------

  /** `items` is a listing of the stored assignments, in whatever order. */
  ghost predicate Lists(items: seq<Assignment>, assignments: map<string, Assignment>) {
    && (forall a :: a in items <==> a.name in assignments && assignments[a.name] == a)
    && (forall i, j :: 0 <= i < j < |items| ==> items[i].name != items[j].name)
    && (forall n :: n in assignments ==> assignments[n].name == n)
  }

  /** AuthorizeCreate's first loop: the names of the tenant's bundles. */
  method TenantBundles(bundles: seq<(string, string)>, tenant: string) returns (names: set<string>)
    ensures forall n :: n in names <==> (n, tenant) in bundles
  {
    names := {};
    for k := 0 to |bundles|
      invariant forall n :: n in names <==> (n, tenant) in bundles[..k]
    {
      if bundles[k].1 == tenant { names := names + {bundles[k].0}; }
      assert bundles[..k + 1] == bundles[..k] + [bundles[k]];
    }
    assert bundles[..|bundles|] == bundles;
  }

  predicate ChargedTo(cfg: Config, a: Assignment, tenant: string) {
    !a.deleting && a.bundle in cfg.bundleTenant && cfg.bundleTenant[a.bundle] == tenant
  }

  /** AuthorizeCreate's second loop: the count is the number of stored assignments charged to
      the tenant. */
  method CountActive(cfg: Config, bundles: seq<(string, string)>, items: seq<Assignment>, tenant: string,
                     ghost assignments: map<string, Assignment>)
    returns (active: nat)
    requires Lists(items, assignments)
    requires forall b :: b in bundles <==> b.0 in cfg.bundleTenant && cfg.bundleTenant[b.0] == b.1
    ensures active == |Charged(cfg, assignments, tenant)|
  {
    var mine := TenantBundles(bundles, tenant);
    active := 0;
    ghost var counted: set<string> := {};
    for k := 0 to |items|
      invariant counted == ChargedNames(cfg, items[..k], tenant) && active == |counted|
    {
      var a := items[k];
      assert a.bundle in mine <==> (a.bundle, tenant) in bundles;
      ChargedNamesStep(cfg, items, k, tenant);
      if !a.deleting && a.bundle in mine {
        active, counted := active + 1, counted + {a.name};
      }
    }
    assert items[..|items|] == items;
    ListingCharges(cfg, items, tenant, assignments);
  }

  ghost function ChargedNames(cfg: Config, items: seq<Assignment>, tenant: string): set<string> {
    set i | 0 <= i < |items| && ChargedTo(cfg, items[i], tenant) :: items[i].name
  }

  lemma ChargedNamesStep(cfg: Config, items: seq<Assignment>, k: nat, tenant: string)
    requires k < |items| && forall i, j :: 0 <= i < j < |items| ==> items[i].name != items[j].name
    ensures items[k].name !in ChargedNames(cfg, items[..k], tenant)
    ensures ChargedNames(cfg, items[..k + 1], tenant)
            == ChargedNames(cfg, items[..k], tenant)
               + (if ChargedTo(cfg, items[k], tenant) then {items[k].name} else {})
  {
    var before, after := items[..k], items[..k + 1];
    assert forall i :: 0 <= i < k ==> after[i] == before[i] == items[i];
    assert after[k] == items[k];
  }

  lemma ListingCharges(cfg: Config, items: seq<Assignment>, tenant: string, assignments: map<string, Assignment>)
    requires Lists(items, assignments)
    ensures ChargedNames(cfg, items, tenant) == Charged(cfg, assignments, tenant)
  {
    forall n | n in Charged(cfg, assignments, tenant) ensures n in ChargedNames(cfg, items, tenant) {
      assert assignments[n] in items;
    }
    forall n | n in ChargedNames(cfg, items, tenant) ensures n in Charged(cfg, assignments, tenant) {
      var i :| 0 <= i < |items| && ChargedTo(cfg, items[i], tenant) && items[i].name == n;
      assert items[i] in items;
    }
  }
}
