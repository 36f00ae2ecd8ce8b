/** The fragment of the Common Expression Language that the dashboard writes: a disjunction of
    parenthesized conjunctions of comparisons of a request field with a string literal. */
module Cel {
  import opened Kube

  datatype Request = Request(verb: string, host: string, path: string)

  /** The fields of the `request` variable; any other name is an evaluation error. */
  function Value(r: Request, field: string): Option<string> {
    if field == "method" then Some(r.verb)
    else if field == "host" then Some(r.host)
    else if field == "path" then Some(r.path)
    else None
  }

  // ---- reading ---------------------------------------------------------------------------

  function Strip(s: string, prefix: string): (r: Option<string>)
    ensures r.Some? ==> s == prefix + r.value && |s| == |prefix| + |r.value|
  {
    if |prefix| <= |s| && s[..|prefix|] == prefix then Some(s[|prefix|..]) else None
  }

  predicate Letter(c: char) { 'a' <= c <= 'z' }

  /** The leading letters, and what follows them. */
  function Word(s: string): (r: (string, string))
    ensures s == r.0 + r.1
  {
    if s == "" || !Letter(s[0]) then ("", s) else var rest := Word(s[1..]); ([s[0]] + rest.0, rest.1)
  }

  /** The characters of a string literal up to its closing quote. */
  function Characters(s: string): (r: Option<(string, string)>)
    ensures r.Some? ==> |r.value.1| < |s|
  {
    if s == "" then None
    else if s[0] == '"' then Some(("", s[1..]))
    else if s[0] != '\\' then
      var rest := Characters(s[1..]);
      if rest.None? then None else Some(([s[0]] + rest.value.0, rest.value.1))
    else if |s| >= 2 && (s[1] == '"' || s[1] == '\\') then
      var rest := Characters(s[2..]);
      if rest.None? then None else Some(([s[1]] + rest.value.0, rest.value.1))
    else None
  }

  function Literal(s: string): (r: Option<(string, string)>)
    ensures r.Some? ==> |r.value.1| < |s|
  {
    var body := Strip(s, "\"");
    if body.None? then None else Characters(body.value)
  }

  /** Each reader returns the truth value of what it read, and the text after it. */
  type Reading = Option<(bool, string)>

  function Comparison(s: string, q: Request): (r: Reading)
    ensures r.Some? ==> |r.value.1| < |s|
  {
    var a := Strip(s, "request.");
    if a.None? then None
    else
      var (field, b) := Word(a.value);
      var c := Strip(b, " == ");
      if c.None? then None
      else
        var d := Literal(c.value);
        if d.None? || Value(q, field).None? then None
        else Some((Value(q, field).value == d.value.0, d.value.1))
  }

  function Conjunction(s: string, q: Request): (r: Reading)
    ensures r.Some? ==> |r.value.1| < |s|
    decreases |s|
  {
    var first := Comparison(s, q);
    if first.None? then None
    else
      var more := Strip(first.value.1, " && ");
      if more.None? then first
      else
        var rest := Conjunction(more.value, q);
        if rest.None? then None else Some((first.value.0 && rest.value.0, rest.value.1))
  }

  function Clause(s: string, q: Request): (r: Reading)
    ensures r.Some? ==> |r.value.1| < |s|
  {
    var body := Strip(s, "(");
    if body.None? then None
    else
      var inner := Conjunction(body.value, q);
      if inner.None? then None
      else
        var closed := Strip(inner.value.1, ")");
        if closed.None? then None else Some((inner.value.0, closed.value))
  }

  function Disjunction(s: string, q: Request): (r: Reading)
    ensures r.Some? ==> |r.value.1| < |s|
    decreases |s|
  {
    var first := Clause(s, q);
    if first.None? then None
    else
      var more := Strip(first.value.1, " || ");
      if more.None? then first
      else
        var rest := Disjunction(more.value, q);
        if rest.None? then None else Some((first.value.0 || rest.value.0, rest.value.1))
  }

  /** The value of an expression, or None if it is not in the fragment or names no field. */
  function Evaluate(text: string, q: Request): Option<bool> {
    var r := Disjunction(text, q);
    if r.Some? && r.value.1 == "" then Some(r.value.0) else None
  }

  // ---- writing ---------------------------------------------------------------------------

  predicate Printable(s: string) { forall i :: 0 <= i < |s| ==> ' ' <= s[i] <= '~' }

  function Escaped(s: string): string {
    if s == "" then ""
    else if s[0] == '"' || s[0] == '\\' then ['\\', s[0]] + Escaped(s[1..])
    else [s[0]] + Escaped(s[1..])
  }

  /** The %q verb. This is what it writes for printable text; other characters it would escape. */
  function Quoted(s: string): string { "\"" + Escaped(s) + "\"" }

  function Compare(field: string, value: string): string { "request." + field + " == " + Quoted(value) }

  function And(a: string, b: string): string { a + " && " + b }

  /** The expression for one exact request. */
  function Exactly(t: Request): string {
    And(Compare("method", t.verb), And(Compare("host", t.host), Compare("path", t.path)))
  }

  function Wrapped(e: string): string { "(" + e + ")" }

  /** strings.Join with " || ". */
  function JoinOr(parts: seq<string>): string {
    if parts == [] then "" else if |parts| == 1 then parts[0] else parts[0] + " || " + JoinOr(parts[1..])
  }

  // ---- reading what was written ----------------------------------------------------------

  lemma StripConcat(p: string, rest: string)
    ensures Strip(p + rest, p) == Some(rest)
  {}

  lemma Assoc(a: string, b: string, c: string)
    ensures a + b + c == a + (b + c)
  {}

  /** Reading one more character of a literal, plain or escaped. */
  lemma PlainStep(c: char, tail: string)
    requires c != '"' && c != '\\' && Characters(tail).Some?
    ensures Characters([c] + tail) == Some(([c] + Characters(tail).value.0, Characters(tail).value.1))
  {
    assert ([c] + tail)[1..] == tail;
  }

  lemma EscapedStep(c: char, tail: string)
    requires (c == '"' || c == '\\') && Characters(tail).Some?
    ensures Characters(['\\', c] + tail) == Some(([c] + Characters(tail).value.0, Characters(tail).value.1))
  {
    assert (['\\', c] + tail)[2..] == tail;
  }

  lemma {:induction false} EscapedReadsBack(v: string, end: string, rest: string)
    requires end == "\""
    ensures Characters(Escaped(v) + (end + rest)) == Some((v, rest))
  {
    var tail := end + rest;
    if v == "" {
      assert Escaped(v) + tail == tail && tail[1..] == rest;
    } else {
      var c, more := v[0], Escaped(v[1..]);
      EscapedReadsBack(v[1..], end, rest);
      assert v == [c] + v[1..];
      if c == '"' || c == '\\' {
        EscapedStep(c, more + tail);
        Assoc(['\\', c], more, tail);
      } else {
        PlainStep(c, more + tail);
        Assoc([c], more, tail);
      }
    }
  }

  lemma QuotedReadsBack(v: string, rest: string)
    ensures Literal(Quoted(v) + rest) == Some((v, rest))
  {
    var q := "\"";
    Assoc(q + Escaped(v), q, rest);
    Assoc(q, Escaped(v), q + rest);
    StripConcat(q, Escaped(v) + (q + rest));
    EscapedReadsBack(v, q, rest);
  }

  lemma {:induction false} WordReadsBack(w: string, rest: string)
    requires forall i :: 0 <= i < |w| ==> Letter(w[i])
    requires rest != "" && !Letter(rest[0])
    ensures Word(w + rest) == (w, rest)
  {
    if w == "" {
      assert w + rest == rest;
    } else {
      assert (w + rest)[1..] == w[1..] + rest;
      WordReadsBack(w[1..], rest);
      assert w == [w[0]] + w[1..];
    }
  }

  /** Reading a field name and what follows it. */
  lemma ComparisonReads(head: string, field: string, equals: string, v: string, rest: string, q: Request)
    requires head == "request." && equals == " == "
    requires (forall i :: 0 <= i < |field| ==> Letter(field[i])) && Value(q, field).Some?
    requires Literal(v + rest).Some?
    ensures var d := Literal(v + rest).value;
            Comparison(head + (field + (equals + (v + rest))), q) == Some((Value(q, field).value == d.0, d.1))
  {
    var b := equals + (v + rest);
    StripConcat(head, field + b);
    WordReadsBack(field, b);
    StripConcat(equals, v + rest);
  }

  lemma CompareReadsBack(field: string, v: string, rest: string, q: Request)
    requires (forall i :: 0 <= i < |field| ==> Letter(field[i])) && Value(q, field).Some?
    ensures Comparison(Compare(field, v) + rest, q) == Some((Value(q, field).value == v, rest))
  {
    var head, equals, quoted := "request.", " == ", Quoted(v);
    QuotedReadsBack(v, rest);
    ComparisonReads(head, field, equals, quoted, rest, q);
    FourParts(head, field, equals, quoted, rest);
  }

  lemma FourParts(a: string, b: string, c: string, d: string, rest: string)
    ensures a + b + c + d + rest == a + (b + (c + (d + rest)))
  {
    Assoc(a + b + c, d, rest);
    Assoc(a + b, c, d + rest);
    Assoc(a, b, c + (d + rest));
  }

  lemma OneReads(m: string, rest: string, q: Request, b: bool)
    requires Comparison(m + (")" + rest), q) == Some((b, ")" + rest))
    ensures Conjunction(m + (")" + rest), q) == Some((b, ")" + rest))
  {
    assert (")" + rest)[0] != " && "[0];
  }

  /** Reading a conjunction whose first comparison and whose remainder read as given. */
  lemma AndReads(m: string, x: string, rest: string, q: Request, b: bool, c: bool)
    requires Comparison(m + (" && " + (x + rest)), q) == Some((b, " && " + (x + rest)))
    requires Conjunction(x + rest, q) == Some((c, rest))
    ensures Conjunction(And(m, x) + rest, q) == Some((b && c, rest))
  {
    AndConcat(m, x, rest);
    StripConcat(" && ", x + rest);
  }

  lemma AndConcat(m: string, x: string, rest: string)
    ensures And(m, x) + rest == m + (" && " + (x + rest))
  {
    var sep := " && ";
    Assoc(m + sep, x, rest);
    Assoc(m, sep, x + rest);
  }

  /** The comparison of a field in front of more comparisons. */
  lemma FieldAndMore(field: string, v: string, x: string, rest: string, q: Request, c: bool)
    requires (forall i :: 0 <= i < |field| ==> Letter(field[i])) && Value(q, field).Some?
    requires Conjunction(x + rest, q) == Some((c, rest))
    ensures Conjunction(And(Compare(field, v), x) + rest, q) == Some((Value(q, field).value == v && c, rest))
  {
    CompareReadsBack(field, v, " && " + (x + rest), q);
    AndReads(Compare(field, v), x, rest, q, Value(q, field).value == v, c);
  }

  /** The comparison of the last field. */
  lemma LastField(field: string, v: string, rest: string, q: Request)
    requires (forall i :: 0 <= i < |field| ==> Letter(field[i])) && Value(q, field).Some?
    ensures Conjunction(Compare(field, v) + (")" + rest), q) == Some((Value(q, field).value == v, ")" + rest))
  {
    CompareReadsBack(field, v, ")" + rest, q);
    OneReads(Compare(field, v), rest, q, Value(q, field).value == v);
  }

  predicate Names(field: string, q: Request, value: string) {
    (forall i :: 0 <= i < |field| ==> Letter(field[i])) && Value(q, field) == Some(value)
  }

  lemma ThreeFields(m: string, h: string, p: string, t: Request, rest: string, q: Request)
    requires Names(m, q, q.verb) && Names(h, q, q.host) && Names(p, q, q.path)
    ensures Conjunction(And(Compare(m, t.verb), And(Compare(h, t.host), Compare(p, t.path))) + (")" + rest), q)
         == Some((q == t, ")" + rest))
  {
    LastField(p, t.path, rest, q);
    FieldAndMore(h, t.host, Compare(p, t.path), ")" + rest, q, q.path == t.path);
    FieldAndMore(m, t.verb, And(Compare(h, t.host), Compare(p, t.path)), ")" + rest, q,
                 q.host == t.host && q.path == t.path);
  }

  /** The expression for an exact request is true of that request and of no other. */
  lemma ExactlyMeans(t: Request, rest: string, q: Request)
    ensures Conjunction(Exactly(t) + (")" + rest), q) == Some((q == t, ")" + rest))
  {
    ThreeFields("method", "host", "path", t, rest, q);
  }

  /** Different requests have different expressions. */
  lemma ExactlyInjective(a: Request, b: Request)
    requires Exactly(a) == Exactly(b)
    ensures a == b
  {
    ExactlyMeans(a, "", a);
    ExactlyMeans(b, "", a);
  }

  lemma WrappedReads(e: string, rest: string, q: Request, b: bool)
    requires Conjunction(e + (")" + rest), q) == Some((b, ")" + rest))
    ensures Clause(Wrapped(e) + rest, q) == Some((b, rest))
  {
    var open, close := "(", ")";
    Assoc(open + e, close, rest);
    Assoc(open, e, close + rest);
    StripConcat(open, e + (close + rest));
    StripConcat(close, rest);
  }

  lemma DisjunctionReads(first: string, rest: string, q: Request, b: bool, c: bool)
    requires Clause(first + (" || " + rest), q) == Some((b, " || " + rest)) && Disjunction(rest, q) == Some((c, ""))
    ensures Disjunction(first + " || " + rest, q) == Some((b || c, ""))
  {
    var or := " || ";
    Assoc(first, or, rest);
    StripConcat(or, rest);
  }

  lemma LastReads(first: string, q: Request, b: bool)
    requires Clause(first + "", q) == Some((b, ""))
    ensures Disjunction(first, q) == Some((b, ""))
  {
    assert first + "" == first;
  }

  /** The clauses of a list of exact requests. */
  function Clauses(ts: seq<Request>): (cs: seq<string>)
    ensures |cs| == |ts| && forall i :: 0 <= i < |ts| ==> cs[i] == Wrapped(Exactly(ts[i]))
  {
    seq(|ts|, i requires 0 <= i < |ts| => Wrapped(Exactly(ts[i])))
  }

  lemma ClauseMeans(ts: seq<Request>, i: nat, after: string, q: Request)
    requires i < |ts|
    ensures Clause(Clauses(ts)[i] + after, q) == Some((q == ts[i], after))
  {
    ExactlyMeans(ts[i], after, q);
    WrappedReads(Exactly(ts[i]), after, q, q == ts[i]);
  }

  /** Putting one more clause in front. */
  lemma JoinReads(parts: seq<string>, q: Request, b: bool, c: bool)
    requires |parts| > 1 && Disjunction(JoinOr(parts[1..]), q) == Some((c, ""))
    requires var after := " || " + JoinOr(parts[1..]); Clause(parts[0] + after, q) == Some((b, after))
    ensures Disjunction(JoinOr(parts), q) == Some((b || c, ""))
  {
    DisjunctionReads(parts[0], JoinOr(parts[1..]), q, b, c);
  }

  lemma ClausesTail(ts: seq<Request>)
    requires ts != []
    ensures Clauses(ts)[1..] == Clauses(ts[1..])
  {}

  /** Evaluating the joined text asks whether the request is on the list. */
  lemma {:induction false} JoinedMeans(ts: seq<Request>, q: Request)
    requires ts != []
    ensures Disjunction(JoinOr(Clauses(ts)), q) == Some((q in ts, ""))
  {
    var cs := Clauses(ts);
    assert q in ts <==> q == ts[0] || q in ts[1..];
    if |ts| == 1 {
      ClauseMeans(ts, 0, "", q);
      LastReads(cs[0], q, q == ts[0]);
    } else {
      JoinedMeans(ts[1..], q);
      ClausesTail(ts);
      ClauseMeans(ts, 0, " || " + JoinOr(cs[1..]), q);
      JoinReads(cs, q, q == ts[0], q in ts[1..]);
    }
  }
}
