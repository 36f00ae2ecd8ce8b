/** Commands and validation rules, as the dashboard authors them
    (cmd/aks-sandbox-dashboard/capabilities.go) and as the harness selects them (harness/server.py). */
module Harness {
  import opened Kube
  import opened Text
  import opened Commands
  import opened Distinct

  datatype CommandRule = CommandRule(pattern: string, decision: string)

  /** A validation rule as decoded from JSON: None is a value that is not a string. */
  datatype ValidationRule = ValidationRule(pathPrefix: Option<string>, command: Option<string>)

  const MAXIMUM_RULES := 32

  // ---- parseAllowedCommands --------------------------------------------------------------

  function Allow(command: string): CommandRule { CommandRule(Pattern(command), "allow") }

  predicate CommandFits(command: string) { ByteLen(command) <= 2048 && !HasControl(command) }

  /** The bound is checked on every line, a repeated one included. */
  predicate CommandEntryOk(entries: seq<string>, i: nat)
    requires i < |entries|
  {
    CommandFits(entries[i]) && |Dedup(entries[..i])| < MAXIMUM_RULES
  }

  predicate CommandEntriesOk(entries: seq<string>) { forall i :: 0 <= i < |entries| ==> CommandEntryOk(entries, i) }

  predicate CommandsAccepted(value: string) { CommandEntriesOk(EntriesOf(value)) }

  /** The commands an accepted text allows, in the order of their first lines. */
  function CommandsIn(value: string): seq<string> { Dedup(EntriesOf(value)) }

  function PolicyFor(commands: seq<string>): (p: seq<CommandRule>)
    ensures |p| == |commands| && forall i :: 0 <= i < |p| ==> p[i] == Allow(commands[i])
  {
    seq(|commands|, i requires 0 <= i < |commands| => Allow(commands[i]))
  }

  /** What parsing makes of the entries: nothing, if one of them is refused. */
  function CommandsFrom(entries: seq<string>): Option<seq<CommandRule>> {
    if CommandEntriesOk(entries) then Some(PolicyFor(Dedup(entries))) else None
  }

  method ParseAllowedCommands(value: string) returns (r: Option<seq<CommandRule>>)
    ensures r == if CommandsAccepted(value) then Some(PolicyFor(CommandsIn(value))) else None
  {
    var result: seq<CommandRule> := [];
    var lines := Split(value, '\n');
    for i := 0 to |lines|
      invariant CommandsFrom(Entries(lines[..i])) == Some(result)
    {
      var command := TrimSpace(lines[i]);
      EntriesStep(lines, i);
      if command != "" {
        var taken := TakeCommand(Entries(lines[..i]), result, command);
        if taken.None? {
          RejectedPrefix(lines, i + 1);
          return None;
        }
        result := taken.value;
      }
    }
    assert lines[..|lines|] == lines;
    return Some(result);
  }

  /** One line of the loop, which appends the command's rule unless the pattern is there already. */
  method TakeCommand(ghost done: seq<string>, result: seq<CommandRule>, command: string)
    returns (r: Option<seq<CommandRule>>)
    requires CommandsFrom(done) == Some(result)
    ensures r == CommandsFrom(done + [command])
  {
    NextCommand(done, command);
    if |result| >= MAXIMUM_RULES || ByteLen(command) > 2048 || HasControl(command) { return None; }
    if exists k :: 0 <= k < |result| && result[k].pattern == Pattern(command) { return Some(result); }
    return Some(result + [Allow(command)]);
  }

  lemma RejectedPrefix(lines: seq<string>, i: nat)
    requires i <= |lines| && CommandsFrom(Entries(lines[..i])).None?
    ensures CommandsFrom(Entries(lines)).None?
  {
    EntriesGrow(lines, i);
    if CommandEntriesOk(Entries(lines)) { CommandPrefixOk(Entries(lines), |Entries(lines[..i])|); }
  }

  lemma CommandPrefixOk(entries: seq<string>, n: nat)
    requires n <= |entries| && CommandEntriesOk(entries)
    ensures CommandEntriesOk(entries[..n])
  {
    forall i | 0 <= i < n ensures CommandEntryOk(entries[..n], i) {
      assert CommandEntryOk(entries, i) && entries[..n][..i] == entries[..i];
    }
  }

  /** Taking one more command: when it is accepted, and how the list then grows. */
  lemma NextCommand(done: seq<string>, command: string)
    requires CommandEntriesOk(done)
    ensures CommandEntriesOk(done + [command]) <==> CommandFits(command) && |PolicyFor(Dedup(done))| < MAXIMUM_RULES
    ensures PolicyFor(Dedup(done + [command])) == PolicyFor(Dedup(done)) +
              (if exists k :: 0 <= k < |Dedup(done)| && PolicyFor(Dedup(done))[k].pattern == Pattern(command)
               then [] else [Allow(command)])
  {
    var e := done + [command];
    assert e[..|done|] == done;
    forall i | 0 <= i < |done| ensures CommandEntryOk(e, i) {
      assert CommandEntryOk(done, i) && e[..i] == done[..i];
    }
    assert CommandEntryOk(e, |done|) <==> CommandFits(command) && |Dedup(done)| < MAXIMUM_RULES;
    DedupStep(done, command);
    SamePatternSameCommand(Dedup(done), command);
  }

  /** The loop compares patterns; that finds exactly the repeated commands. */
  lemma SamePatternSameCommand(commands: seq<string>, command: string)
    ensures (exists k :: 0 <= k < |commands| && PolicyFor(commands)[k].pattern == Pattern(command)) <==>
              command in commands
  {
    if k :| 0 <= k < |commands| && PolicyFor(commands)[k].pattern == Pattern(command) {
      PatternInjective(commands[k], command);
    }
    if command in commands {
      var k :| 0 <= k < |commands| && commands[k] == command;
      assert PolicyFor(commands)[k].pattern == Pattern(command);
    }
  }

  // ---- parseValidationRules --------------------------------------------------------------

  datatype LineProblem = Unbounded | NotARule | BadPrefix | CommandNotAllowed

  predicate PrefixOk(prefix: string) {
    || prefix == "*"
    || (!(prefix != "" && prefix[0] == '/') && '\\' !in prefix && !Contains(prefix, "..") && !HasControl(prefix)
        && ByteLen(prefix) <= 512)
  }

  /** `path-prefix => command`, both trimmed; both are empty when there is no separator. */
  function RuleFields(line: string): (string, string) {
    var cut := Cut(line, '=', '>');
    if cut.None? then ("", "") else (TrimSpace(cut.value.0), TrimSpace(cut.value.1))
  }

  function RuleOf(line: string): ValidationRule { ValidationRule(Some(RuleFields(line).0), Some(RuleFields(line).1)) }

  function RulesFrom(entries: seq<string>): (rules: seq<ValidationRule>)
    ensures |rules| == |entries| && forall i :: 0 <= i < |rules| ==> rules[i] == RuleOf(entries[i])
  {
    seq(|entries|, i requires 0 <= i < |entries| => RuleOf(entries[i]))
  }

  predicate AllowedBy(policy: seq<CommandRule>, command: string) {
    exists k :: 0 <= k < |policy| && policy[k].decision == "allow" && policy[k].pattern == Pattern(command)
  }

  /** What is wrong with a line, given how many rules come before it. */
  function LineProblemOf(rules: nat, line: string, policy: seq<CommandRule>): Option<LineProblem> {
    var (prefix, command) := RuleFields(line);
    if rules >= MAXIMUM_RULES || ByteLen(line) > 2560 then Some(Unbounded)
    else if prefix == "" || command == "" then Some(NotARule)
    else if !PrefixOk(prefix) then Some(BadPrefix)
    else if !AllowedBy(policy, command) then Some(CommandNotAllowed)
    else None
  }

  function EntryProblem(entries: seq<string>, i: nat, policy: seq<CommandRule>): Option<LineProblem>
    requires i < |entries|
  {
    LineProblemOf(|Dedup(RulesFrom(entries[..i]))|, entries[i], policy)
  }

  /** The problem of the first entry that has one. */
  function FirstProblem(entries: seq<string>, policy: seq<CommandRule>): Option<LineProblem> {
    if entries == [] then None
    else
      var n := |entries| - 1;
      var earlier := FirstProblem(entries[..n], policy);
      if earlier.Some? then earlier else EntryProblem(entries, n, policy)
  }

  predicate RulesAccepted(value: string, policy: seq<CommandRule>) { FirstProblem(EntriesOf(value), policy).None? }

  function RulesIn(value: string): seq<ValidationRule> { Dedup(RulesFrom(EntriesOf(value))) }

  function RulesOrProblem(entries: seq<string>, policy: seq<CommandRule>): Result<seq<ValidationRule>, LineProblem> {
    var problem := FirstProblem(entries, policy);
    if problem.Some? then Err(problem.value) else Ok(Dedup(RulesFrom(entries)))
  }

  /** Accepts a text exactly when none of its entries has a problem; otherwise reports the first. */
  method ParseValidationRules(value: string, policy: seq<CommandRule>)
    returns (r: Result<seq<ValidationRule>, LineProblem>)
    ensures r == RulesOrProblem(EntriesOf(value), policy)
  {
    var allowedPatterns := AllowedPatterns(policy);
    var result: seq<ValidationRule> := [];
    var lines := Split(value, '\n');
    for i := 0 to |lines|
      invariant RulesOrProblem(Entries(lines[..i]), policy) == Ok(result)
    {
      var line := TrimSpace(lines[i]);
      EntriesStep(lines, i);
      if line != "" {
        var taken := TakeRule(Entries(lines[..i]), result, line, allowedPatterns, policy);
        if taken.Err? {
          EntriesGrow(lines, i + 1);
          ProblemStays(Entries(lines), |Entries(lines[..i + 1])|, policy);
          return taken;
        }
        result := taken.value;
      }
    }
    assert lines[..|lines|] == lines;
    return Ok(result);
  }

  /** One line of the loop. */
  method TakeRule(ghost done: seq<string>, result: seq<ValidationRule>, line: string, allowedPatterns: set<string>,
                  ghost policy: seq<CommandRule>)
    returns (r: Result<seq<ValidationRule>, LineProblem>)
    requires RulesOrProblem(done, policy) == Ok(result)
    requires forall c :: Pattern(c) in allowedPatterns <==> AllowedBy(policy, c)
    ensures r == RulesOrProblem(done + [line], policy)
  {
    NextRule(done, result, line, policy);
    var (prefix, command) := RuleFields(line);
    if |result| >= MAXIMUM_RULES || ByteLen(line) > 2560 { return Err(Unbounded); }
    if prefix == "" || command == "" { return Err(NotARule); }
    if !PrefixOk(prefix) { return Err(BadPrefix); }
    if Pattern(command) !in allowedPatterns { return Err(CommandNotAllowed); }
    if RuleOf(line) in result { return Ok(result); }
    return Ok(result + [RuleOf(line)]);
  }

  lemma NextRule(done: seq<string>, result: seq<ValidationRule>, line: string, policy: seq<CommandRule>)
    requires RulesOrProblem(done, policy) == Ok(result)
    ensures RulesOrProblem(done + [line], policy) ==
              match LineProblemOf(|result|, line, policy)
              case Some(problem) => Err(problem)
              case None => Ok(if RuleOf(line) in result then result else result + [RuleOf(line)])
  {
    assert (done + [line])[..|done|] == done;
    assert RulesFrom(done + [line]) == RulesFrom(done) + [RuleOf(line)];
    DedupStep(RulesFrom(done), RuleOf(line));
  }

  lemma {:induction false} ProblemStays(entries: seq<string>, n: nat, policy: seq<CommandRule>)
    requires n <= |entries| && FirstProblem(entries[..n], policy).Some?
    ensures FirstProblem(entries, policy) == FirstProblem(entries[..n], policy)
  {
    if n == |entries| { assert entries[..n] == entries; }
    else { assert entries[..|entries| - 1][..n] == entries[..n]; ProblemStays(entries[..|entries| - 1], n, policy); }
  }

  /** An entry's problem is noticed when the entry is reached. */
  lemma ProblemIsNoticed(entries: seq<string>, i: nat, policy: seq<CommandRule>)
    requires i < |entries| && EntryProblem(entries, i, policy).Some?
    ensures FirstProblem(entries[..i + 1], policy).Some?
  {
    assert entries[..i + 1][..i] == entries[..i];
  }

  /** An accepted text has no entry with a problem. */
  lemma NoProblemAnywhere(entries: seq<string>, policy: seq<CommandRule>, i: nat)
    requires FirstProblem(entries, policy).None? && i < |entries|
    ensures EntryProblem(entries, i, policy).None?
  {
    if EntryProblem(entries, i, policy).Some? {
      ProblemIsNoticed(entries, i, policy);
      ProblemStays(entries, i + 1, policy);
    }
  }

  method AllowedPatterns(policy: seq<CommandRule>) returns (patterns: set<string>)
    ensures forall c :: Pattern(c) in patterns <==> AllowedBy(policy, c)
  {
    patterns := {};
    for k := 0 to |policy|
      invariant forall p :: p in patterns <==>
                  exists i :: 0 <= i < k && policy[i].decision == "allow" && policy[i].pattern == p
    {
      if policy[k].decision == "allow" { patterns := patterns + {policy[k].pattern}; }
    }
  }

  // ---- the harness -----------------------------------------------------------------------

  datatype Verdict = Permitted | NoPolicy | NonExactPattern | CommandUnbounded | NeedsApproval | Denied | NotAllowed

  ghost predicate IsExact(pattern: string) { exists c :: pattern == Pattern(c) }

  predicate CommandBounded(command: string) {
    |command| <= 2048 && forall i :: 0 <= i < |command| ==>
          command[i] != '\r' && command[i] != '\n' && command[i] != '\0'
  }

  function ByDecision(decision: string): Verdict {
    if decision == "allow" then Permitted else if decision == "require_approval" then NeedsApproval else Denied
  }

  /** The rule that governs a command is the first whose pattern is the command's own. */
  predicate Governs(policy: seq<CommandRule>, i: nat, command: string) {
    i < |policy| && policy[i].pattern == Pattern(command) && forall j :: 0 <= j < i ==>
          policy[j].pattern != Pattern(command)
  }

  ghost predicate PolicyExact(policy: seq<CommandRule>) { forall i :: 0 <= i < |policy| ==> IsExact(policy[i].pattern) }

  /** enforce_command_policy: on the empty command a check of the policy itself, otherwise the
      decision of the governing rule. */
  ghost predicate VerdictOn(policy: seq<CommandRule>, command: string, v: Verdict) {
    if command == ""
    then v == (if policy == [] then NoPolicy else if PolicyExact(policy) then Permitted else NonExactPattern)
    else if !CommandBounded(command) then v == CommandUnbounded
    else
      && (forall i: nat :: Governs(policy, i, command) ==> v == ByDecision(policy[i].decision))
      && ((forall i: nat :: !Governs(policy, i, command)) ==> v == NotAllowed)
  }

  method EnforceCommandPolicy(policy: seq<CommandRule>, command: string) returns (v: Verdict)
    ensures VerdictOn(policy, command, v)
  {
    if command == "" {
      if policy == [] { return NoPolicy; }
      var exact := AllExact(policy);
      return if exact then Permitted else NonExactPattern;
    }
    if !CommandBounded(command) { return CommandUnbounded; }
    for i := 0 to |policy|
      invariant forall j :: 0 <= j < i ==> policy[j].pattern != Pattern(command)
    {
      var decoded := ExactCommand(policy[i].pattern);
      if decoded == Some(command) {
        assert Governs(policy, i, command);
        assert forall k: nat :: Governs(policy, k, command) ==> k == i;
        var decision := policy[i].decision;
        if decision == "allow" { return Permitted; }
        if decision == "require_approval" { return NeedsApproval; }
        return Denied;
      }
    }
    return NotAllowed;
  }

  method AllExact(policy: seq<CommandRule>) returns (exact: bool)
    ensures exact == PolicyExact(policy)
  {
    for i := 0 to |policy|
      invariant forall j :: 0 <= j < i ==> IsExact(policy[j].pattern)
    {
      var decoded := ExactCommand(policy[i].pattern);
      if decoded.None? { return false; }
    }
    return true;
  }

  predicate ChangedPathOk(p: string) {
    && p != "" && |p| <= 512 && p[0] != '/' && '\\' !in p && ".." !in Split(p, '/')
    && forall i :: 0 <= i < |p| ==> p[i] >= ' '
  }

  predicate PathsOk(paths: seq<string>, n: nat)
    requires n <= |paths|
  {
    forall i :: 0 <= i < n ==> ChangedPathOk(paths[i])
  }

  predicate ChangedPathsOk(paths: seq<string>) { 1 <= |paths| <= 256 && PathsOk(paths, |paths|) }

  lemma PathsOkStep(paths: seq<string>, i: nat)
    requires i < |paths|
    ensures PathsOk(paths, i + 1) <==> PathsOk(paths, i) && ChangedPathOk(paths[i])
    ensures PathsOk(paths, |paths|) ==> PathsOk(paths, i + 1)
  {}

  method NormalizeChangedPaths(paths: seq<string>) returns (r: Option<seq<string>>)
    ensures r == if ChangedPathsOk(paths) then Some(Dedup(paths)) else None
  {
    if paths == [] || |paths| > 256 { return None; }
    var normalized: seq<string> := [];
    for i := 0 to |paths|
      invariant normalized == Dedup(paths[..i]) && PathsOk(paths, i)
    {
      var path := paths[i];
      PathsOkStep(paths, i);
      if !ChangedPathOk(path) { return None; }
      DedupNext(paths, i);
      if path !in normalized { normalized := normalized + [path]; }
    }
    assert paths[..|paths|] == paths;
    return Some(normalized);
  }

  lemma DedupNext(paths: seq<string>, i: nat)
    requires i < |paths|
    ensures Dedup(paths[..i + 1]) == if paths[i] in Dedup(paths[..i]) then Dedup(paths[..i])
            else Dedup(paths[..i]) + [paths[i]]
  {
    assert paths[..i + 1] == paths[..i] + [paths[i]];
    DedupStep(paths[..i], paths[i]);
  }

  datatype Refusal = BadChangedPaths | MalformedRule | InvalidPrefix | Blocked(verdict: Verdict) | NothingMatches

  predicate HarnessPrefixOk(prefix: string) {
    prefix == "*" || (prefix != "" && prefix[0] != '/' && '\\' !in prefix && !Contains(prefix, "..") && |prefix| <= 512)
  }

  predicate StartsWith(s: string, prefix: string) { |prefix| <= |s| && s[..|prefix|] == prefix }

  predicate Selects(rule: ValidationRule, paths: seq<string>) {
    rule.pathPrefix.Some?
        && (rule.pathPrefix.value == "*" || exists k :: 0 <= k < |paths| && StartsWith(paths[k], rule.pathPrefix.value))
  }

  /** The harness does not object to the rule, for these paths. */
  ghost predicate RuleClean(policy: seq<CommandRule>, rule: ValidationRule, paths: seq<string>) {
    && rule.pathPrefix.Some? && rule.command.Some? && HarnessPrefixOk(rule.pathPrefix.value)
    && (Selects(rule, paths) ==> VerdictOn(policy, rule.command.value, Permitted))
  }

  /** The harness objects to the rule, for this reason. */
  ghost predicate Objects(policy: seq<CommandRule>, rule: ValidationRule, paths: seq<string>, why: Refusal) {
    if rule.pathPrefix.None? || rule.command.None? then why == MalformedRule
    else if !HarnessPrefixOk(rule.pathPrefix.value) then why == InvalidPrefix
    else
      && Selects(rule, paths) && why.Blocked? && why.verdict != Permitted
      && VerdictOn(policy, rule.command.value, why.verdict)
  }

  /** The first rule the harness objects to, if there is one, decides the refusal. */
  ghost predicate FirstObjection(policy: seq<CommandRule>, rules: seq<ValidationRule>, paths: seq<string>,
                                 why: Refusal) {
    exists i :: 0 <= i < |rules| && RulesClean(policy, rules, i, paths) && Objects(policy, rules[i], paths, why)
  }

  ghost predicate RulesClean(policy: seq<CommandRule>, rules: seq<ValidationRule>, n: nat, paths: seq<string>)
    requires n <= |rules|
  {
    forall i :: 0 <= i < n ==> RuleClean(policy, rules[i], paths)
  }

  lemma RulesCleanStep(policy: seq<CommandRule>, rules: seq<ValidationRule>, i: nat, paths: seq<string>)
    requires i < |rules|
    ensures RulesClean(policy, rules, i + 1, paths) <==>
              RulesClean(policy, rules, i, paths) && RuleClean(policy, rules[i], paths)
    ensures RulesClean(policy, rules, |rules|, paths) ==> RulesClean(policy, rules, i + 1, paths)
  {}

  /** The commands of the rules that select one of the paths, in rule order with repetitions. */
  function SelectedCommands(rules: seq<ValidationRule>, paths: seq<string>): seq<string> {
    if rules == [] then []
    else
      var last := rules[|rules| - 1];
      SelectedCommands(rules[..|rules| - 1], paths)
      + (if Selects(last, paths) && last.command.Some? then [last.command.value] else [])
  }

  /** select_validation_commands. Whenever no rule is objected to, the answer is the selected
      commands without repetitions, or a refusal when there are none; otherwise it is a refusal
      that states what is wrong with the first rule that is objected to. */
  method SelectValidationCommands(policy: seq<CommandRule>, rules: seq<ValidationRule>, changed: seq<string>)
    returns (r: Result<seq<string>, Refusal>)
    ensures !ChangedPathsOk(changed) <==> r == Err(BadChangedPaths)
    ensures ChangedPathsOk(changed) && RulesClean(policy, rules, |rules|, changed) ==>
              r == if SelectedCommands(rules, changed) == [] then Err(NothingMatches)
                  else Ok(Dedup(SelectedCommands(rules, changed)))
    ensures r.Ok? || r == Err(NothingMatches) ==> RulesClean(policy, rules, |rules|, changed)
    ensures r.Err? && r.error != BadChangedPaths && r.error != NothingMatches ==>
              FirstObjection(policy, rules, changed, r.error)
  {
    var normalized := NormalizeChangedPaths(changed);
    if normalized.None? { return Err(BadChangedPaths); }
    var paths := normalized.value;
    var commands: seq<string> := [];
    for i := 0 to |rules|
      invariant commands == Dedup(SelectedCommands(rules[..i], changed))
      invariant RulesClean(policy, rules, i, changed)
    {
      var rule := rules[i];
      SelectedStep(rules, i, changed);
      RulesCleanStep(policy, rules, i, changed);
      var verdict := ConsiderRule(policy, rule, paths, changed);
      if verdict.Err? { return Err(verdict.error); }
      if verdict.value {
        DedupStep(SelectedCommands(rules[..i], changed), rule.command.value);
        if rule.command.value !in commands { commands := commands + [rule.command.value]; }
      }
    }
    assert rules[..|rules|] == rules;
    DedupFacts(SelectedCommands(rules, changed));
    if commands == [] { return Err(NothingMatches); }
    return Ok(commands);
  }

  lemma SelectedStep(rules: seq<ValidationRule>, i: nat, paths: seq<string>)
    requires i < |rules|
    ensures !Selects(rules[i], paths) ==> SelectedCommands(rules[..i + 1], paths) == SelectedCommands(rules[..i], paths)
    ensures Selects(rules[i], paths) && rules[i].command.Some? ==>
              SelectedCommands(rules[..i + 1], paths) == SelectedCommands(rules[..i], paths) + [rules[i].command.value]
  {
    assert rules[..i + 1][..i] == rules[..i];
  }

  /** One rule of the loop: whether it selects its command, or why the harness objects to it. */
  method ConsiderRule(policy: seq<CommandRule>, rule: ValidationRule, paths: seq<string>, ghost changed: seq<string>)
    returns (r: Result<bool, Refusal>)
    requires paths == Dedup(changed)
    ensures r.Ok? <==> RuleClean(policy, rule, changed)
    ensures r.Ok? ==> r.value == Selects(rule, changed)
    ensures r.Err? ==>
              r.error != BadChangedPaths && r.error != NothingMatches && Objects(policy, rule, changed, r.error)
  {
    SelectsDistinct(rule, changed);
    if rule.pathPrefix.None? || rule.command.None? { return Err(MalformedRule); }
    if !HarnessPrefixOk(rule.pathPrefix.value) { return Err(InvalidPrefix); }
    if !Selects(rule, paths) { return Ok(false); }
    var v := EnforceCommandPolicy(policy, rule.command.value);
    if v != Permitted {
      if VerdictOn(policy, rule.command.value, Permitted) { OneVerdict(policy, rule.command.value, v, Permitted); }
      return Err(Blocked(v));
    }
    return Ok(true);
  }

  lemma SelectsDistinct(rule: ValidationRule, paths: seq<string>)
    ensures Selects(rule, Dedup(paths)) == Selects(rule, paths)
  {
    DedupFacts(paths);
    var d := Dedup(paths);
    if Selects(rule, paths) && rule.pathPrefix.value != "*" {
      var k :| 0 <= k < |paths| && StartsWith(paths[k], rule.pathPrefix.value);
      assert paths[k] in d;
    }
    if Selects(rule, d) && rule.pathPrefix.value != "*" {
      var k :| 0 <= k < |d| && StartsWith(d[k], rule.pathPrefix.value);
      assert d[k] in paths;
    }
  }

  lemma OneVerdict(policy: seq<CommandRule>, command: string, v: Verdict, w: Verdict)
    requires VerdictOn(policy, command, v) && VerdictOn(policy, command, w)
    ensures v == w
  {}

  // ---- authoring implies execution -------------------------------------------------------

  /** A command on the dashboard's list is permitted by the policy the dashboard writes. */
  lemma ListedCommandIsPermitted(commands: seq<string>, command: string)
    requires command in commands && command != "" && CommandFits(command)
    ensures VerdictOn(PolicyFor(commands), command, Permitted)
  {
    var policy := PolicyFor(commands);
    assert CommandBounded(command) by {
      forall i | 0 <= i < |command| ensures !IsControl(command[i]) {}
    }
    FirstIndex(commands, command);
  }

  lemma {:induction false} FirstIndex(commands: seq<string>, command: string)
    requires command in commands
    ensures exists i: nat :: Governs(PolicyFor(commands), i, command)
  {
    var n := |commands| - 1;
    if command in commands[..n] {
      FirstIndex(commands[..n], command);
      var i: nat :| Governs(PolicyFor(commands[..n]), i, command);
      assert Governs(PolicyFor(commands), i, command);
    } else {
      forall j | 0 <= j < n ensures commands[j] != command { assert commands[j] in commands[..n]; }
      forall j | 0 <= j < n && Pattern(commands[j]) == Pattern(command) ensures false {
        PatternInjective(commands[j], command);
      }
      assert Governs(PolicyFor(commands), n, command);
    }
  }

  /** Every command that survives parsing is non-empty, bounded and free of control characters. */
  lemma ParsedCommandFits(value: string, command: string)
    requires CommandsAccepted(value) && command in CommandsIn(value)
    ensures command != "" && CommandFits(command)
  {
    var e := EntriesOf(value);
    DedupFacts(e);
    var i :| 0 <= i < |e| && e[i] == command;
    assert CommandEntryOk(e, i);
    EntriesNotBlank(Split(value, '\n'), i);
  }

  /** A bundle the dashboard accepts never makes the harness reject a rule as malformed or a
      selected command as not allowed, whatever the changed paths are; and the harness's check of
      the policy itself passes unless the policy is empty. */
  lemma AuthoringImpliesExecution(commands: string, rules: string, changed: seq<string>)
    ensures var policy, parsed := PolicyFor(CommandsIn(commands)), RulesIn(rules);
            CommandsAccepted(commands) && RulesAccepted(rules, policy) ==>
              && RulesClean(policy, parsed, |parsed|, changed)
              && VerdictOn(policy, "", if policy == [] then NoPolicy else Permitted)
  {
    var policy := PolicyFor(CommandsIn(commands));
    if CommandsAccepted(commands) && RulesAccepted(rules, policy) { AuthoredBundleIsClean(commands, rules, changed); }
  }

  lemma AuthoredBundleIsClean(commands: string, rules: string, changed: seq<string>)
    requires CommandsAccepted(commands) && RulesAccepted(rules, PolicyFor(CommandsIn(commands)))
    ensures var policy, parsed := PolicyFor(CommandsIn(commands)), RulesIn(rules);
            && RulesClean(policy, parsed, |parsed|, changed)
            && VerdictOn(policy, "", if policy == [] then NoPolicy else Permitted)
  {
    var policy, parsed := PolicyFor(CommandsIn(commands)), RulesIn(rules);
    forall i | 0 <= i < |parsed| ensures RuleClean(policy, parsed[i], changed) {
      AuthoredRuleIsClean(commands, EntriesOf(rules), parsed[i], changed);
    }
    forall i | 0 <= i < |policy| ensures IsExact(policy[i].pattern) {
      assert policy[i].pattern == Pattern(CommandsIn(commands)[i]);
    }
  }

  lemma AuthoredRuleIsClean(commands: string, e: seq<string>, rule: ValidationRule, changed: seq<string>)
    requires CommandsAccepted(commands) && FirstProblem(e, PolicyFor(CommandsIn(commands))).None?
             && rule in Dedup(RulesFrom(e))
    ensures RuleClean(PolicyFor(CommandsIn(commands)), rule, changed)
  {
    var k := EntryOfRule(e, rule);
    AuthoredEntry(PolicyFor(CommandsIn(commands)), e, k);
    AcceptedEntryIsClean(commands, e[k], changed);
  }

  lemma EntryOfRule(e: seq<string>, rule: ValidationRule) returns (k: nat)
    requires rule in Dedup(RulesFrom(e))
    ensures k < |e| && RuleOf(e[k]) == rule
  {
    DedupFacts(RulesFrom(e));
    k :| 0 <= k < |e| && RulesFrom(e)[k] == rule;
  }

  lemma AuthoredEntry(policy: seq<CommandRule>, e: seq<string>, k: nat)
    requires FirstProblem(e, policy).None? && k < |e|
    ensures var f := RuleFields(e[k]); f.0 != "" && f.1 != "" && PrefixOk(f.0) && AllowedBy(policy, f.1)
  {
    NoProblemAnywhere(e, policy, k);
  }

  lemma AcceptedEntryIsClean(commands: string, line: string, changed: seq<string>)
    requires CommandsAccepted(commands)
    requires RuleFields(line).0 != "" && RuleFields(line).1 != "" && PrefixOk(RuleFields(line).0)
    requires AllowedBy(PolicyFor(CommandsIn(commands)), RuleFields(line).1)
    ensures RuleClean(PolicyFor(CommandsIn(commands)), RuleOf(line), changed)
  {
    var listed, command := CommandsIn(commands), RuleFields(line).1;
    var k :| 0 <= k < |listed| && PolicyFor(listed)[k].pattern == Pattern(command);
    PatternInjective(listed[k], command);
    ParsedCommandFits(commands, command);
    ListedCommandIsPermitted(listed, command);
  }

  /** The answer is exactly the commands of the selecting rules, without repetitions and in the
      order in which the rules first mention them. */
  lemma {:induction false} SelectionIsExact(rules: seq<ValidationRule>, paths: seq<string>, command: string)
    ensures command in Dedup(SelectedCommands(rules, paths))
       <==> exists i :: 0 <= i < |rules| && Selects(rules[i], paths) && rules[i].command == Some(command)
    ensures NoRepeats(Dedup(SelectedCommands(rules, paths)))
            && InOrderOf(Dedup(SelectedCommands(rules, paths)), SelectedCommands(rules, paths))
  {
    DedupFacts(SelectedCommands(rules, paths));
    DedupInOrder(SelectedCommands(rules, paths));
    SelectedMember(rules, paths, command);
  }

  lemma {:induction false} SelectedMember(rules: seq<ValidationRule>, paths: seq<string>, command: string)
    ensures command in SelectedCommands(rules, paths)
       <==> exists i :: 0 <= i < |rules| && Selects(rules[i], paths) && rules[i].command == Some(command)
  {
    if rules != [] {
      var n := |rules| - 1;
      SelectedMember(rules[..n], paths, command);
      assert forall i :: 0 <= i < n ==> rules[..n][i] == rules[i];
    }
  }

  // ---- what accepted input looks like ----------------------------------------------------

  /** An accepted list of commands: at most 32, each of at most 2048 bytes, not blank and without
      control characters; and any at most 32 such lines are accepted. */
  lemma AcceptedCommandsAreBounded(value: string)
    ensures CommandsAccepted(value) ==>
              |CommandsIn(value)| <= 32 && forall c :: c in CommandsIn(value) ==> c != "" && ShortAndPlain(c)
    ensures (|EntriesOf(value)| <= 32 && forall c :: c in EntriesOf(value) ==> ShortAndPlain(c)) ==>
              CommandsAccepted(value)
  {
    var e := EntriesOf(value);
    if CommandsAccepted(value) {
      FewDistinct(e);
      forall c | c in CommandsIn(value) ensures c != "" && ShortAndPlain(c) { ParsedCommandFits(value, c); }
    }
    if |e| <= 32 && forall c :: c in e ==> ShortAndPlain(c) {
      forall i | 0 <= i < |e| ensures CommandEntryOk(e, i) {
        assert e[i] in e;
        DedupFacts(e[..i]);
      }
    }
  }

  predicate ShortAndPlain(c: string) { ByteLen(c) <= 2048 && forall i :: 0 <= i < |c| ==> !IsControl(c[i]) }

  lemma FewDistinct(e: seq<string>)
    requires CommandEntriesOk(e)
    ensures |Dedup(e)| <= MAXIMUM_RULES
  {
    if e != [] {
      var n := |e| - 1;
      assert CommandEntryOk(e, n);
      assert e == e[..n] + [e[n]];
      DedupStep(e[..n], e[n]);
    }
  }

  /** A repository-relative prefix, or the star: not empty, not absolute, without backslash and
      without two dots in a row. */
  predicate RelativePrefix(prefix: string) {
    || prefix == "*"
    || (prefix != "" && prefix[0] != '/' && (forall i :: 0 <= i < |prefix| ==> prefix[i] != '\\')
        && forall i :: 0 <= i < |prefix| - 1 ==> !(prefix[i] == '.' && prefix[i + 1] == '.'))
  }

  /** Both sides let exactly such prefixes through: the dashboard into a bundle, if they are short and
      plain, and the harness past it, if they are short. */
  lemma PrefixesExactly(prefix: string)
    ensures prefix != "" && PrefixOk(prefix) <==>
              && RelativePrefix(prefix)
              && (prefix == "*" || (ByteLen(prefix) <= 512 && forall i :: 0 <= i < |prefix| ==> !IsControl(prefix[i])))
    ensures HarnessPrefixOk(prefix) <==> RelativePrefix(prefix) && (prefix == "*" || |prefix| <= 512)
  {
    DotsExactly(prefix);
  }

  lemma DotsExactly(s: string)
    ensures Contains(s, "..") <==> exists i :: 0 <= i < |s| - 1 && s[i] == '.' && s[i + 1] == '.'
  {
    if Contains(s, "..") {
      var i: nat :| i <= |s| && OccursAt(s, "..", i);
      assert s[i..i + 2][0] == '.' && s[i..i + 2][1] == '.';
    }
    if i :| 0 <= i < |s| - 1 && s[i] == '.' && s[i + 1] == '.' {
      assert s[i..i + 2] == "..";
      assert OccursAt(s, "..", i);
    }
  }

  /** Changed paths are accepted exactly when there are 1 to 256 of them, each not empty, of at most
      512 characters, not absolute, without backslash or control characters, and without a part that
      is two dots. */
  lemma ChangedPathsExactly(paths: seq<string>)
    ensures ChangedPathsOk(paths) <==>
              && 1 <= |paths| <= 256
              && forall p :: p in paths ==>
                   && 1 <= |p| <= 512 && p[0] != '/' && ".." !in Split(p, '/')
                   && forall i :: 0 <= i < |p| ==> p[i] >= ' ' && p[i] != '\\'
  {
    if ChangedPathsOk(paths) {
      forall p | p in paths ensures ChangedPathOk(p) { var k :| 0 <= k < |paths| && paths[k] == p; }
    }
  }

  /** A line `prefix => command` is read as that prefix and that command. */
  lemma RuleReadsItsParts(prefix: string, command: string)
    requires prefix != "" && Trimmed(prefix) && command != "" && Trimmed(command)
    requires forall i :: 0 <= i < |prefix| - 1 ==> !(prefix[i] == '=' && prefix[i + 1] == '>')
    ensures RuleFields(prefix + " " + ['=', '>'] + (" " + command)) == (prefix, command)
  {
    var p := prefix + " ";
    forall i | 0 <= i < |p| - 1 ensures !(p[i] == '=' && p[i + 1] == '>') {}
    CutAtFirst(p, '=', '>', " " + command);
    PaddedTrims(prefix);
    PaddedTrims(command);
  }

  lemma PaddedTrims(s: string)
    requires s != "" && Trimmed(s)
    ensures TrimSpace(s + " ") == s && TrimSpace(" " + s) == s
  {
    assert TrimLeft(s + " ") == s + " ";
    assert (s + " ")[..|s|] == s;
    assert TrimRight(s + " ") == TrimRight(s) == s;
    assert (" " + s)[1..] == s;
    assert TrimLeft(" " + s) == TrimLeft(s) == s;
  }
}
