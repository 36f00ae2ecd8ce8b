/** Exact egress rules (cmd/aks-sandbox-dashboard/capabilities.go), compiled to one boolean
    expression per backend. */
module Egress {
  import opened Kube
  import opened Text
  import opened Targets
  import opened Distinct
  import opened Sorting
  import opened Cel

  const MAXIMUM_RULES := 32

  /** Reading an exact HTTPS URL without port, user, query or fragment: its host, and its path in
      escaped form. */
  type UrlParser = string -> Option<(string, string)>

  // ---- parseExactEgressTargets -----------------------------------------------------------

  /** What one line means. */
  type LineReader = string -> Option<Target>

  /** Lines of the form `backend METHOD url`. */
  function LineTarget(url: UrlParser, v6: AddressParser, line: string): Option<Target> {
    var fields := Fields(line);
    if |fields| != 3 then None
    else
      var parsed := url(fields[2]);
      if parsed.None? then None
      else
        var t := NormalizeTarget(v6, fields[0], fields[1], parsed.value.0, parsed.value.1);
        if t.Ok? then Some(t.value) else None
  }

  function Reader(url: UrlParser, v6: AddressParser): LineReader { line => LineTarget(url, v6, line) }

  predicate LineAccepted(read: LineReader, line: string) { ByteLen(line) <= 2048 && read(line).Some? }

  function TargetOf(read: LineReader, line: string): Target
    requires LineAccepted(read, line)
  {
    read(line).value
  }

  /** Every line counts towards the limit, a repeated one included. */
  predicate TargetsAccepted(read: LineReader, entries: seq<string>) {
    |entries| <= MAXIMUM_RULES && forall i :: 0 <= i < |entries| ==> LineAccepted(read, entries[i])
  }

  function LineTargets(read: LineReader, entries: seq<string>): (ts: seq<Target>)
    requires forall i :: 0 <= i < |entries| ==> LineAccepted(read, entries[i])
    ensures |ts| == |entries| && forall i :: 0 <= i < |ts| ==> ts[i] == TargetOf(read, entries[i])
  {
    seq(|entries|, i requires 0 <= i < |entries| => TargetOf(read, entries[i]))
  }

  /** The distinct targets of the lines, or nothing if a line is refused. */
  function TargetsIn(read: LineReader, entries: seq<string>): Option<seq<Target>> {
    if TargetsAccepted(read, entries) then Some(Dedup(LineTargets(read, entries))) else None
  }

  method ParseExactEgressTargets(url: UrlParser, v6: AddressParser, value: string) returns (r: Option<seq<Target>>)
    ensures r == TargetsIn(Reader(url, v6), EntriesOf(value))
  {
    r := ParseTargetLines(Reader(url, v6), value);
  }

  method ParseTargetLines(read: LineReader, value: string) returns (r: Option<seq<Target>>)
    ensures r == TargetsIn(read, EntriesOf(value))
  {
    var targets: seq<Target> := [];
    var ruleCount := 0;
    var lines := Split(value, '\n');
    for i := 0 to |lines|
      invariant TargetsIn(read, Entries(lines[..i])) == Some(targets) && ruleCount == |Entries(lines[..i])|
    {
      var line := TrimSpace(lines[i]);
      EntriesStep(lines, i);
      if line != "" {
        ruleCount := ruleCount + 1;
        NextLine(read, Entries(lines[..i]), line);
        if ruleCount > MAXIMUM_RULES || ByteLen(line) > 2048 || read(line).None? {
          RefusedPrefix(read, lines, i + 1);
          return None;
        }
        if read(line).value !in targets { targets := targets + [read(line).value]; }
      }
    }
    assert lines[..|lines|] == lines;
    return Some(targets);
  }

  lemma NextLine(read: LineReader, done: seq<string>, line: string)
    requires TargetsAccepted(read, done)
    ensures TargetsAccepted(read, done + [line]) <==> |done| + 1 <= MAXIMUM_RULES && LineAccepted(read, line)
    ensures TargetsAccepted(read, done + [line]) ==>
              var ts := Dedup(LineTargets(read, done));
              TargetsIn(read, done + [line]) == Some(if read(line).value in ts then ts else ts + [read(line).value])
  {
    var e := done + [line];
    assert forall i :: 0 <= i < |done| ==> e[i] == done[i];
    assert e[|done|] == line;
    if TargetsAccepted(read, e) {
      assert LineTargets(read, e) == LineTargets(read, done) + [read(line).value];
      DedupStep(LineTargets(read, done), read(line).value);
    }
  }

  lemma RefusedPrefix(read: LineReader, lines: seq<string>, i: nat)
    requires i <= |lines| && TargetsIn(read, Entries(lines[..i])).None?
    ensures TargetsIn(read, Entries(lines)).None?
  {
    EntriesGrow(lines, i);
    AcceptedPrefix(read, Entries(lines), |Entries(lines[..i])|);
  }

  lemma AcceptedPrefix(read: LineReader, entries: seq<string>, n: nat)
    requires n <= |entries|
    ensures TargetsAccepted(read, entries) ==> TargetsAccepted(read, entries[..n])
  {}

  // ---- parseExactEgressRules -------------------------------------------------------------

  function RequestOf(t: Target): Request { Request(t.verb, t.host, t.path) }

  /** The requests listed for one backend, in order. */
  function Group(targets: seq<Target>, backend: string): seq<Request> {
    if targets == [] then []
    else
      var last := targets[|targets| - 1];
      Group(targets[..|targets| - 1], backend) + (if last.backend == backend then [RequestOf(last)] else [])
  }

  function Backends(targets: seq<Target>): set<string> { set i | 0 <= i < |targets| :: targets[i].backend }

  function Expression(): Request -> string { (q: Request) => Exactly(q) }

  /** The allow expression of a backend: its clauses in ascending order, joined. */
  function AllowText(requests: seq<Request>): string { JoinOr(Clauses(SortBy(requests, Expression()))) }

  function AllowFor(targets: seq<Target>, backend: string): string { AllowText(Group(targets, backend)) }

  function Compiled(targets: seq<Target>): map<string, string> {
    map b | b in Backends(targets) :: AllowFor(targets, b)
  }

  method ParseExactEgressRules(url: UrlParser, v6: AddressParser, value: string)
    returns (r: Option<map<string, string>>)
    ensures r == if TargetsIn(Reader(url, v6), EntriesOf(value)).Some?
            then Some(Compiled(TargetsIn(Reader(url, v6), EntriesOf(value)).value)) else None
  {
    var targets := ParseExactEgressTargets(url, v6, value);
    if targets.None? { return None; }
    var policy := CompileTargets(targets.value);
    return Some(policy);
  }

  /** Grouping and then compiling each group, in whatever order the map yields the backends. */
  method CompileTargets(targets: seq<Target>) returns (policy: map<string, string>)
    ensures policy == Compiled(targets)
  {
    var byBackend := GroupByBackend(targets);
    policy := map[];
    var remaining := byBackend.Keys;
    while remaining != {}
      invariant remaining <= byBackend.Keys && PartlyCompiled(policy, byBackend.Keys - remaining, targets)
    {
      var backend :| backend in remaining;
      var text := CompileBackend(byBackend[backend], targets, backend);
      CompiledOneMore(policy, byBackend.Keys - remaining, targets, backend);
      assert byBackend.Keys - (remaining - {backend}) == byBackend.Keys - remaining + {backend};
      policy := policy[backend := text];
      remaining := remaining - {backend};
    }
    assert byBackend.Keys - remaining == Backends(targets);
    WhollyCompiled(policy, targets);
  }

  lemma WhollyCompiled(policy: map<string, string>, targets: seq<Target>)
    requires PartlyCompiled(policy, Backends(targets), targets)
    ensures policy == Compiled(targets)
  {}

  /** The policy holds the expressions of these backends. */
  ghost predicate PartlyCompiled(policy: map<string, string>, backends: set<string>, targets: seq<Target>) {
    policy.Keys == backends && forall b :: b in policy ==> policy[b] == AllowFor(targets, b)
  }

  lemma CompiledOneMore(policy: map<string, string>, backends: set<string>, targets: seq<Target>, backend: string)
    requires PartlyCompiled(policy, backends, targets)
    ensures PartlyCompiled(policy[backend := AllowFor(targets, backend)], backends + {backend}, targets)
  {}

  method CompileBackend(texts: seq<string>, ghost targets: seq<Target>, ghost backend: string) returns (allow: string)
    requires texts == Texts(targets, backend)
    ensures allow == AllowFor(targets, backend)
  {
    allow := CompileGroup(texts, Group(targets, backend));
  }

  /** The expressions of one backend, in the order of its lines. */
  function Texts(targets: seq<Target>, backend: string): seq<string> { Keys(Group(targets, backend), Expression()) }

  method GroupByBackend(targets: seq<Target>) returns (byBackend: map<string, seq<string>>)
    ensures byBackend.Keys == Backends(targets)
    ensures forall b :: b in byBackend ==> byBackend[b] == Texts(targets, b)
  {
    byBackend := map[];
    for i := 0 to |targets|
      invariant Grouped(byBackend, targets[..i])
    {
      var t := targets[i];
      NextTarget(byBackend, targets, i);
      var before := if t.backend in byBackend then byBackend[t.backend] else [];
      byBackend := byBackend[t.backend := before + [Exactly(RequestOf(t))]];
    }
    assert targets[..|targets|] == targets;
  }

  ghost predicate Grouped(byBackend: map<string, seq<string>>, targets: seq<Target>) {
    byBackend.Keys == Backends(targets) && forall b :: b in byBackend ==> byBackend[b] == Texts(targets, b)
  }

  lemma NextTarget(byBackend: map<string, seq<string>>, targets: seq<Target>, i: nat)
    requires i < |targets| && Grouped(byBackend, targets[..i])
    ensures var t := targets[i];
            var before := if t.backend in byBackend then byBackend[t.backend] else [];
            Grouped(byBackend[t.backend := before + [Exactly(RequestOf(t))]], targets[..i + 1])
  {
    BackendsStep(targets, i);
    NextText(byBackend, targets, i);
    var t := targets[i];
    forall b | b in byBackend && b != t.backend ensures byBackend[b] == Texts(targets[..i + 1], b) {
      TextsStep(targets, i, b);
    }
  }

  lemma NextText(byBackend: map<string, seq<string>>, targets: seq<Target>, i: nat)
    requires i < |targets| && Grouped(byBackend, targets[..i])
    ensures var t := targets[i];
            var before := if t.backend in byBackend then byBackend[t.backend] else [];
            Texts(targets[..i + 1], t.backend) == before + [Exactly(RequestOf(t))]
  {
    var t := targets[i];
    if t.backend !in byBackend { NoTexts(targets[..i], t.backend); }
    TextsStep(targets, i, t.backend);
  }

  lemma {:induction false} NoTexts(targets: seq<Target>, b: string)
    requires b !in Backends(targets)
    ensures Texts(targets, b) == []
  {
    if targets != [] {
      BackendsStep(targets, |targets| - 1);
      assert targets[..|targets|] == targets;
      NoTexts(targets[..|targets| - 1], b);
    }
  }

  lemma BackendsStep(targets: seq<Target>, i: nat)
    requires i < |targets|
    ensures Backends(targets[..i + 1]) == Backends(targets[..i]) + {targets[i].backend}
  {
    var a, c := targets[..i], targets[..i + 1];
    forall b | b in Backends(a) ensures b in Backends(c) {
      var k :| 0 <= k < |a| && a[k].backend == b;
      assert c[k] == a[k];
    }
    assert c[i] == targets[i];
    forall b | b in Backends(c) && b != targets[i].backend ensures b in Backends(a) {
      var k :| 0 <= k < |c| && c[k].backend == b;
      assert c[k] == a[k];
    }
  }

  lemma TextsStep(targets: seq<Target>, i: nat, b: string)
    requires i < |targets|
    ensures Texts(targets[..i + 1], b) ==
              if targets[i].backend == b then Texts(targets[..i], b) + [Exactly(RequestOf(targets[i]))]
                  else Texts(targets[..i], b)
  {
    assert targets[..i + 1][..i] == targets[..i];
  }

  /** Sorting the expressions, wrapping each in parentheses in place, and joining them. */
  method CompileGroup(texts: seq<string>, ghost requests: seq<Request>) returns (allow: string)
    requires texts == Keys(requests, Expression())
    ensures allow == AllowText(requests)
  {
    var expressions := SortStrings(texts);
    ghost var inOrder := SortBy(requests, Expression());
    SortCommutes(requests, Expression());
    for i := 0 to |expressions|
      invariant |expressions| == |inOrder|
      invariant forall k :: 0 <= k < |inOrder| ==>
                  expressions[k] == if k < i then Wrapped(Exactly(inOrder[k])) else Exactly(inOrder[k])
    {
      expressions := expressions[i := "(" + expressions[i] + ")"];
    }
    assert expressions == Clauses(inOrder);
    return JoinOr(expressions);
  }

  // ---- what the compiled policy means ----------------------------------------------------

  /** The checker's use of a backend policy: a missing, empty or failing expression allows nothing. */
  predicate PolicyAllows(policy: map<string, string>, t: Target) {
    t.backend in policy && policy[t.backend] != "" && Evaluate(policy[t.backend], RequestOf(t)) == Some(true)
  }

  lemma {:induction false} GroupMember(targets: seq<Target>, b: string, q: Request)
    ensures q in Group(targets, b) <==> Target(b, q.verb, q.host, q.path) in targets
  {
    if targets != [] {
      var n := |targets| - 1;
      GroupMember(targets[..n], b, q);
      assert targets == targets[..n] + [targets[n]];
    }
  }

  lemma GroupNotEmpty(targets: seq<Target>, b: string)
    requires b in Backends(targets)
    ensures Group(targets, b) != []
  {
    var i :| 0 <= i < |targets| && targets[i].backend == b;
    GroupMember(targets, b, RequestOf(targets[i]));
  }

  lemma AllowTextMeans(requests: seq<Request>, q: Request)
    requires requests != []
    ensures AllowText(requests) != "" && Evaluate(AllowText(requests), q) == Some(q in requests)
  {
    var sorted := SortBy(requests, Expression());
    SortFacts(requests, Expression());
    assert requests[0] in sorted;
    JoinedMeans(sorted, q);
  }

  /** The compiled policy allows exactly the listed targets, and no expression of it ever fails. */
  lemma CompilationPreservesMeaning(targets: seq<Target>, t: Target)
    ensures PolicyAllows(Compiled(targets), t) <==> t in targets
    ensures t.backend in Compiled(targets) ==> Evaluate(Compiled(targets)[t.backend], RequestOf(t)).Some?
  {
    if t in targets { var i :| 0 <= i < |targets| && targets[i] == t; }
    if t.backend in Backends(targets) {
      GroupNotEmpty(targets, t.backend);
      GroupMember(targets, t.backend, RequestOf(t));
      AllowTextMeans(Group(targets, t.backend), RequestOf(t));
    }
  }

  /** From the text an administrator submits to what the checker allows: exactly the targets of
      its lines. */
  lemma AuthoredPolicyAllowsItsLines(read: LineReader, entries: seq<string>, t: Target)
    requires TargetsAccepted(read, entries)
    ensures PolicyAllows(Compiled(TargetsIn(read, entries).value), t) <==>
              exists i :: 0 <= i < |entries| && read(entries[i]) == Some(t)
  {
    var listed := LineTargets(read, entries);
    CompilationPreservesMeaning(Dedup(listed), t);
    DedupFacts(listed);
    if t in listed {
      var i :| 0 <= i < |listed| && listed[i] == t;
      assert LineAccepted(read, entries[i]);
    }
    if i :| 0 <= i < |entries| && read(entries[i]) == Some(t) { assert listed[i] == t; }
  }

  // ---- the policy text is canonical ------------------------------------------------------

  lemma {:induction false} GroupMultiset(targets: seq<Target>, b: string, q: Request)
    ensures multiset(Group(targets, b))[q] == multiset(targets)[Target(b, q.verb, q.host, q.path)]
  {
    if targets != [] {
      var n := |targets| - 1;
      GroupMultiset(targets[..n], b, q);
      assert targets == targets[..n] + [targets[n]];
    }
  }

  lemma ExpressionInjective()
    ensures Injective(Expression())
  {
    forall x, y | Expression()(x) == Expression()(y) ensures x == y { ExactlyInjective(x, y); }
  }

  /** The order of the targets does not show in the policy. */
  lemma CompilationIgnoresOrder(a: seq<Target>, b: seq<Target>)
    requires multiset(a) == multiset(b)
    ensures Compiled(a) == Compiled(b)
  {
    assert forall t :: t in a <==> t in multiset(a);
    assert forall t :: t in b <==> t in multiset(b);
    SameBackends(a, b);
    ExpressionInjective();
    forall k | k in Backends(a) ensures AllowText(Group(a, k)) == AllowText(Group(b, k)) {
      forall q ensures multiset(Group(a, k))[q] == multiset(Group(b, k))[q] {
        GroupMultiset(a, k, q);
        GroupMultiset(b, k, q);
      }
      SortIgnoresOrder(Group(a, k), Group(b, k), Expression());
    }
  }

  lemma SameBackends(a: seq<Target>, b: seq<Target>)
    requires forall t :: t in a <==> t in b
    ensures Backends(a) == Backends(b)
  {
    forall k | k in Backends(a) ensures k in Backends(b) {
      var i :| 0 <= i < |a| && a[i].backend == k;
      assert a[i] in b;
    }
    forall k | k in Backends(b) ensures k in Backends(a) {
      var i :| 0 <= i < |b| && b[i].backend == k;
      assert b[i] in a;
    }
  }

  lemma {:induction false} NoRepeatsMultiset(s: seq<Target>, t: Target)
    requires NoRepeats(s)
    ensures multiset(s)[t] == if t in s then 1 else 0
  {
    if s != [] {
      var n := |s| - 1;
      NoRepeatsMultiset(s[..n], t);
      assert s == s[..n] + [s[n]];
    }
  }

  /** Two lists without repetitions compile to the same policy text exactly when they list the
      same targets: neither the order of the lines nor the map order shows in the specification
      that the policy revision hashes. */
  lemma PolicyTextIsCanonical(a: seq<Target>, b: seq<Target>)
    requires NoRepeats(a) && NoRepeats(b)
    ensures Compiled(a) == Compiled(b) <==> forall t :: t in a <==> t in b
  {
    if Compiled(a) == Compiled(b) {
      forall t ensures t in a <==> t in b {
        CompilationPreservesMeaning(a, t);
        CompilationPreservesMeaning(b, t);
      }
    }
    if forall t :: t in a <==> t in b {
      forall t ensures multiset(a)[t] == multiset(b)[t] {
        NoRepeatsMultiset(a, t);
        NoRepeatsMultiset(b, t);
      }
      CompilationIgnoresOrder(a, b);
    }
  }

  // ---- the targets need no further escaping ----------------------------------------------

  /** Both readers deliver printable text. */
  ghost predicate PlainReaders(url: UrlParser, v6: AddressParser) {
    && Canonical(v6) && (forall h :: v6(h).Some? ==> Printable(v6(h).value))
    && (forall u :: url(u).Some? ==> Printable(url(u).value.1))
  }

  lemma PrintableHost(v6: AddressParser, raw: string)
    requires Canonical(v6) && (forall h :: v6(h).Some? ==> Printable(v6(h).value)) && NormalizeHost(v6, raw).Ok?
    ensures Printable(NormalizeHost(v6, raw).value)
  {
    AcceptedHost(v6, raw);
    var h := NormalizeHost(v6, raw).value;
    if ':' !in h {
      forall i | 0 <= i < |h| ensures ' ' <= h[i] <= '~' { HostChars(h, i); }
    }
  }

  lemma PrintableParts(v6: AddressParser, backend: string, verb: string, host: string, path: string)
    requires NormalizeTarget(v6, backend, verb, host, path).Ok? && Printable(NormalizeHost(v6, host).value)
             && Printable(path)
    ensures var t := NormalizeTarget(v6, backend, verb, host, path).value;
            Printable(t.verb) && Printable(t.host) && Printable(t.path)
  {
    AssembledParts(TrimSpace(backend), ToUpper(TrimSpace(verb)), NormalizeHost(v6, host), NormalizePath(path));
    PrintableMethod(ToUpper(TrimSpace(verb)));
    PrintablePath(path);
  }

  lemma PrintableMethod(m: string)
    requires MethodToken(m)
    ensures Printable(m)
  {
    assert forall i :: 0 <= i < |m| ==> MethodChar(m[i]);
  }

  lemma PrintablePath(path: string)
    requires Printable(path) && NormalizePath(path).Ok?
    ensures Printable(NormalizePath(path).value)
  {}

  /** Every accepted target is printable, so its quoted form is the one modelled here. */
  lemma AcceptedTargetsArePrintable(url: UrlParser, v6: AddressParser, line: string)
    requires PlainReaders(url, v6)
    ensures var t := LineTarget(url, v6, line); t.Some? ==>
              Printable(t.value.verb) && Printable(t.value.host) && Printable(t.value.path)
  {
    if LineTarget(url, v6, line).Some? {
      var fields := Fields(line);
      var parsed := url(fields[2]).value;
      PrintableHost(v6, parsed.0);
      PrintableParts(v6, fields[0], fields[1], parsed.0, parsed.1);
    }
  }

  // ---- how a line is read ----------------------------------------------------------------

  /** A line names, in this order, the backend, the method and the URL. */
  lemma LineReadsItsFields(url: UrlParser, v6: AddressParser, backend: string, verb: string, address: string)
    requires IsWord(backend) && IsWord(verb) && IsWord(address)
    ensures var line := backend + (" " + (verb + (" " + address)));
            LineTarget(url, v6, line) ==
              if url(address).None? then None
              else
                var t := NormalizeTarget(v6, backend, verb, url(address).value.0, url(address).value.1);
                if t.Ok? then Some(t.value) else None
  {
    FieldsOfThree(backend, verb, address);
  }

  /** A text is accepted exactly when it has at most 32 lines that are not blank, each of at most 2048
      bytes and each naming a target. */
  lemma AcceptedLinesExactly(read: LineReader, entries: seq<string>)
    ensures TargetsIn(read, entries).Some? <==>
              |entries| <= 32 && forall line :: line in entries ==> ByteLen(line) <= 2048 && read(line).Some?
  {
    if |entries| <= 32 && forall line :: line in entries ==> ByteLen(line) <= 2048 && read(line).Some? {
      forall i | 0 <= i < |entries| ensures LineAccepted(read, entries[i]) { assert entries[i] in entries; }
    }
    if TargetsIn(read, entries).Some? {
      forall line | line in entries ensures ByteLen(line) <= 2048 && read(line).Some? {
        var i :| 0 <= i < |entries| && entries[i] == line;
        assert LineAccepted(read, entries[i]);
      }
    }
  }
}
