/** Exact command patterns: quoted by the dashboard (cmd/aks-sandbox-dashboard/capabilities.go),
    decoded by the harness (harness/server.py). */
module Commands {
  import opened Kube

  /** The characters regexp.QuoteMeta escapes; exact_command lists the same set. */
  predicate Meta(c: char) { 
    || c == '\\' || c == '.' || c == '+' || c == '*' || c == '?' || c == '(' || c == ')' || c == '|'
    || c == '[' || c == ']' || c == '{' || c == '}' || c == '^' || c == '$'
  }

  function QuoteMeta(s: string): string {
    if s == "" then "" else if Meta(s[0]) then ['\\', s[0]] + QuoteMeta(s[1..]) else [s[0]] + QuoteMeta(s[1..])
  }

  /** The pattern the dashboard stores for a command. */
  function Pattern(command: string): string { "^" + QuoteMeta(command) + "$" }

  lemma {:induction false} QuoteAppend(s: string, c: char)
    ensures QuoteMeta(s + [c]) == QuoteMeta(s) + (if Meta(c) then ['\\', c] else [c])
  {
    if s == "" {
      assert s + [c] == [c] && [c][1..] == "";
    } else {
      assert (s + [c])[1..] == s[1..] + [c];
      QuoteAppend(s[1..], c);
    }
  }

  /** A quotation that begins with the quotation of `read` is one of a text that begins with `read`. */
  lemma {:induction false} QuotedContinuation(read: string, rest: string, c: string)
    requires QuoteMeta(read) + rest == QuoteMeta(c)
    ensures |read| <= |c| && c[..|read|] == read && rest == QuoteMeta(c[|read|..])
  {
    if read == "" {
      assert QuoteMeta(read) + rest == rest && c[0..] == c;
    } else {
      var q := QuoteMeta(read) + rest;
      assert c != "";
      assert q[0] == QuoteMeta(read)[0];
      var n := if Meta(read[0]) then 2 else 1;
      assert Meta(read[0]) ==> q[1] == read[0] && q[0] == '\\';
      assert read[0] == c[0];
      assert QuoteMeta(read)[n..] == QuoteMeta(read[1..]);
      assert QuoteMeta(c)[n..] == QuoteMeta(c[1..]);
      assert q[n..] == QuoteMeta(read[1..]) + rest;
      QuotedContinuation(read[1..], rest, c[1..]);
      assert c == [c[0]] + c[1..] && read == [read[0]] + read[1..];
      assert c[1..][|read| - 1..] == c[|read|..];
      assert c[..|read|] == [c[0]] + c[1..][..|read| - 1];
    }
  }

  /** Different commands have different patterns. */
  lemma PatternInjective(a: string, b: string)
    requires Pattern(a) == Pattern(b)
    ensures a == b
  {
    var p := Pattern(a);
    assert QuoteMeta(a) == p[1..|p| - 1] == QuoteMeta(b);
    QuotedContinuation(a, "", b);
    assert b[|a|..] == "";
  }

  /** exact_command: accepts exactly the patterns the dashboard can write, and returns the command
      each was written for. */
  method ExactCommand(pattern: string) returns (r: Option<string>)
    ensures r.Some? ==> pattern == Pattern(r.value)
    ensures forall c :: pattern == Pattern(c) ==> r == Some(c)
  {
    if |pattern| < 2 || pattern[0] != '^' || pattern[|pattern| - 1] != '$' {
      return None;
    }
    var body := pattern[1..|pattern| - 1];
    var literal := DecodeBody(body);
    assert pattern == "^" + body + "$";
    if literal.Some? {
      forall c | pattern == Pattern(c) ensures c == literal.value { PatternInjective(c, literal.value); }
    }
    return literal;
  }

  /** The loop of exact_command, between the anchors. */
  method DecodeBody(body: string) returns (r: Option<string>)
    ensures r.Some? ==> body == QuoteMeta(r.value)
    ensures r.None? ==> forall c :: body != QuoteMeta(c)
  {
    var literal := "";
    var index := 0;
    while index < |body|
      invariant 0 <= index <= |body|
      invariant body[..index] == QuoteMeta(literal)
    {
      var character := body[index];
      ghost var rest := body[index..];
      assert body == QuoteMeta(literal) + rest;
      if character == '\\' {
        index := index + 1;
        if index >= |body| || !Meta(body[index]) {
          NotQuoted(literal, rest, body);
          return None;
        }
        character := body[index];
      } else if Meta(character) {
        NotQuoted(literal, rest, body);
        return None;
      }
      QuoteAppend(literal, character);
      literal := literal + [character];
      index := index + 1;
    }
    return Some(literal);
  }

  /** Text that is no quotation and begins none is never the rest of one. */
  lemma NotQuoted(read: string, rest: string, body: string)
    requires body == QuoteMeta(read) + rest && rest != ""
    requires if rest[0] == '\\' then |rest| < 2 || !Meta(rest[1]) else Meta(rest[0])
    ensures forall c :: body != QuoteMeta(c)
  {
    forall c ensures body != QuoteMeta(c) {
      if body == QuoteMeta(c) { QuotedContinuation(read, rest, c); }
    }
  }

  // ---- what a pattern matches ------------------------------------------------------------

  /** One element of a regular expression without repetition, groups or classes. */
  datatype Atom = Literal(c: char) | AnyCharacter

  /** The characters that are operators in a regular expression unless they are escaped. */
  predicate Operator(c: char) { c in {'\\', '.', '+', '*', '?', '(', ')', '|', '[', ']', '{', '}', '^', '$'} }

  /** ASCII punctuation: a backslash makes it a literal, while before a letter or a digit the backslash
      means something else. */
  predicate Punctuation(c: char) { '!' <= c <= '/' || ':' <= c <= '@' || '[' <= c <= '`' || '{' <= c <= '~' }

  /** Reading such an expression; None is one that uses other operators. */
  function Atoms(body: string): Option<seq<Atom>> {
    if body == "" then Some([])
    else if body[0] == '\\' then
      if |body| < 2 || !Punctuation(body[1]) then None else Prepend(Literal(body[1]), Atoms(body[2..]))
    else if body[0] == '.' then Prepend(AnyCharacter, Atoms(body[1..]))
    else if Operator(body[0]) then None
    else Prepend(Literal(body[0]), Atoms(body[1..]))
  }

  function Prepend(a: Atom, rest: Option<seq<Atom>>): Option<seq<Atom>> {
    if rest.None? then None else Some([a] + rest.value)
  }

  /** The expression between the anchors matches the whole text, line ends excepted for the dot. */
  predicate MatchesAll(atoms: seq<Atom>, s: string) {
    && |atoms| == |s|
    && forall i :: 0 <= i < |s| ==> if atoms[i].Literal? then s[i] == atoms[i].c else s[i] != '\n'
  }

  /** An anchored pattern of this kind matches the text. */
  predicate PatternMatches(pattern: string, s: string) {
    && |pattern| >= 2 && pattern[0] == '^' && pattern[|pattern| - 1] == '$'
    && Atoms(pattern[1..|pattern| - 1]).Some? && MatchesAll(Atoms(pattern[1..|pattern| - 1]).value, s)
  }

  lemma {:induction false} QuotedAtoms(c: string)
    ensures Atoms(QuoteMeta(c)).Some? && |Atoms(QuoteMeta(c)).value| == |c|
    ensures forall i :: 0 <= i < |c| ==> Atoms(QuoteMeta(c)).value[i] == Literal(c[i])
  {
    if c != "" {
      QuotedAtoms(c[1..]);
      var rest := QuoteMeta(c[1..]);
      if Meta(c[0]) { assert (['\\', c[0]] + rest)[2..] == rest; } else { assert ([c[0]] + rest)[1..] == rest; }
    }
  }

  /** The pattern of a command, as a regular expression, matches that command and nothing else. */
  lemma PatternMatchesExactly(c: string, s: string)
    ensures PatternMatches(Pattern(c), s) <==> s == c
  {
    var p := Pattern(c);
    assert p[1..|p| - 1] == QuoteMeta(c);
    QuotedAtoms(c);
  }
}
