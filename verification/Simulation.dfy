/** The impact of candidate targets on past denials (internal/assignment/governance/simulation.go). */
module Simulation {
  import opened Seqs
  import opened Targets
  import opened Sorting
  import opened Egress

  datatype Event = Event(
    name: string, assignment: string, sandboxId: string, tenant: string, team: string,
    allowed: bool, source: string, target: Target)

  datatype Match = Match(event: string, assignment: string, sandboxId: string, tenant: string, team: string,
                         target: Target)

  datatype Impact = Impact(denied: nat, newlyAllowed: nat, tenants: seq<string>, teams: seq<string>,
                           matches: seq<Match>)

  predicate IsDenied(e: Event) { !e.allowed && e.source == "deny" }

  /** The denied events. */
  function Denied(): Event -> bool { (e: Event) => !e.allowed && e.source == "deny" }

  /** The denied events the candidate targets list. */
  function Listed(targets: seq<Target>): Event -> bool { (e: Event) => IsDenied(e) && e.target in targets }

  /** The denied events a policy allows. */
  function NowAllowed(policy: map<string, string>): Event -> bool {
    (e: Event) => IsDenied(e) && PolicyAllows(policy, e.target)
  }

  function MatchOf(e: Event): Match { Match(e.name, e.assignment, e.sandboxId, e.tenant, e.team, e.target) }

  function MatchesOf(events: seq<Event>): (ms: seq<Match>)
    ensures |ms| == |events| && forall i :: 0 <= i < |ms| ==> ms[i] == MatchOf(events[i])
  {
    seq(|events|, i requires 0 <= i < |events| => MatchOf(events[i]))
  }

  function EventName(): Match -> string { (m: Match) => m.event }

  function Tenants(events: seq<Event>): set<string> { set e | e in events && e.tenant != "" :: e.tenant }

  function Teams(events: seq<Event>): set<string> { set e | e in events && e.team != "" :: e.team }

  /** What the report says about a selection of events: how many, each of them once by name, and
      each tenant and team among them once in ascending order. */
  ghost predicate Reports(r: Impact, selected: seq<Event>) {
    && r.newlyAllowed == |selected|
    && multiset(r.matches) == multiset(MatchesOf(selected)) && Ascending(r.matches, EventName())
    && (forall x :: x in r.tenants <==> x in Tenants(selected)) && Ascending(r.tenants, Itself())
        && |r.tenants| == |Tenants(selected)|
    && (forall x :: x in r.teams <==> x in Teams(selected)) && Ascending(r.teams, Itself())
        && |r.teams| == |Teams(selected)|
  }

  method SimulatePolicyImpact(events: seq<Event>, targets: seq<Target>) returns (r: Impact)
    ensures r.denied == |Keep(events, Denied())|
    ensures Reports(r, Keep(events, Listed(targets)))
  {
    var denied, newlyAllowed := 0, 0;
    var matches: seq<Match> := [];
    var tenants: set<string> := {};
    var teams: set<string> := {};
    for i := 0 to |events|
      invariant denied == |Keep(events[..i], Denied())|
      invariant var k := Keep(events[..i], Listed(targets));
                newlyAllowed == |k| && matches == MatchesOf(k) && tenants == Tenants(k) && teams == Teams(k)
    {
      var event := events[i];
      KeepStep(events, i, Denied());
      KeepStep(events, i, Listed(targets));
      if IsDenied(event) {
        denied := denied + 1;
        if event.target in targets {
          OneMore(Keep(events[..i], Listed(targets)), event);
          newlyAllowed := newlyAllowed + 1;
          matches := matches + [Match(event.name, event.assignment, event.sandboxId, event.tenant, event.team,
                                      event.target)];
          if event.tenant != "" { tenants := tenants + {event.tenant}; }
          if event.team != "" { teams := teams + {event.team}; }
        }
      }
    }
    assert events[..|events|] == events;
    var tenantList := ListOf(tenants);
    var teamList := ListOf(teams);
    r := Impact(denied, newlyAllowed, tenantList, teamList, SortBy(matches, EventName()));
    SortFacts(matches, EventName());
  }

  lemma OneMore(selected: seq<Event>, e: Event)
    ensures MatchesOf(selected + [e]) == MatchesOf(selected) + [MatchOf(e)]
    ensures Tenants(selected + [e]) == Tenants(selected) + (if e.tenant != "" then {e.tenant} else {})
    ensures Teams(selected + [e]) == Teams(selected) + (if e.team != "" then {e.team} else {})
  {
    assert forall x :: x in selected + [e] <==> x in selected || x == e;
  }

  /** Collecting the keys of a map in any order and sorting them. */
  method ListOf(labels: set<string>) returns (r: seq<string>)
    ensures (forall x :: x in r <==> x in labels) && |r| == |labels| && Ascending(r, Itself())
  {
    var listed: seq<string> := [];
    var remaining := labels;
    while remaining != {}
      invariant remaining <= labels && |listed| + |remaining| == |labels|
      invariant forall x :: x in listed <==> x in labels && x !in remaining
    {
      var l :| l in remaining;
      listed := listed + [l];
      remaining := remaining - {l};
    }
    SortFacts(listed, Itself());
    assert |SortStrings(listed)| == |multiset(SortStrings(listed))| == |multiset(listed)|;
    return SortStrings(listed);
  }

  /** The simulator and the compiled policy select the same events: what a simulation reports is
      exactly what the policy compiled from the same targets would have allowed. */
  lemma SimulationAgreesWithPolicy(events: seq<Event>, targets: seq<Target>)
    ensures Keep(events, Listed(targets)) == Keep(events, NowAllowed(Compiled(targets)))
  {
    forall e | e in events ensures Listed(targets)(e) == NowAllowed(Compiled(targets))(e) {
      CompilationPreservesMeaning(targets, e.target);
    }
    KeepExt(events, Listed(targets), NowAllowed(Compiled(targets)));
  }
}
