/** The string operations of Go's strings and unicode packages that the parsers use. */
module Text {
  import opened Kube

  /** unicode.IsSpace. */
  predicate IsSpace(c: char) {
    || c == ' ' || '\t' <= c <= '\r' || c == '\U{0085}' || c == '\U{00A0}' || c == '\U{1680}'
    || '\U{2000}' <= c <= '\U{200A}' || c == '\U{2028}' || c == '\U{2029}' || c == '\U{202F}' || c == '\U{205F}'
        || c == '\U{3000}'
  }

  /** unicode.IsControl. */
  predicate IsControl(c: char) {
    c < ' ' || '\U{007F}' <= c <= '\U{009F}'
  }

  predicate HasControl(s: string) { exists i :: 0 <= i < |s| && IsControl(s[i]) }

  function TrimLeft(s: string): (r: string)
    ensures |r| <= |s| && r == s[|s| - |r|..]
    ensures r != "" ==> !IsSpace(r[0])
  {
    if s == "" then "" else if IsSpace(s[0]) then TrimLeft(s[1..]) else s
  }

  function TrimRight(s: string): (r: string)
    ensures |r| <= |s| && r == s[..|r|]
    ensures r != "" ==> !IsSpace(r[|r| - 1])
  {
    if s == "" then "" else if IsSpace(s[|s| - 1]) then TrimRight(s[..|s| - 1]) else s
  }

  /** No white space at either end. */
  predicate Trimmed(s: string) { s != "" ==> !IsSpace(s[0]) && !IsSpace(s[|s| - 1]) }

  function TrimSpace(s: string): (r: string)
    ensures Trimmed(r)
    ensures Trimmed(s) ==> r == s
  {
    var l := TrimLeft(s);
    var r := TrimRight(l);
    assert r != "" ==> r[0] == l[0];
    r
  }

  /** The UTF-8 length of a character, and of a string: what Go's len counts. */
  function CharBytes(c: char): nat {
    if c < '\U{0080}' then 1 else if c < '\U{0800}' then 2 else if c < '\U{10000}' then 3 else 4
  }

  function ByteLen(s: string): (n: nat)
    ensures |s| <= n
  {
    if s == "" then 0 else CharBytes(s[0]) + ByteLen(s[1..])
  }

  predicate Ascii(s: string) { forall i :: 0 <= i < |s| ==> s[i] < '\U{0080}' }

  lemma {:induction false} AsciiByteLen(s: string)
    requires Ascii(s)
    ensures ByteLen(s) == |s|
  {
    if s != "" { AsciiByteLen(s[1..]); }
  }

  /** strings.Split for a one-character separator. */
  function Split(s: string, sep: char): (parts: seq<string>)
    ensures |parts| >= 1
    ensures forall p, c :: p in parts && c in p ==> c in s && c != sep
  {
    if s == "" then [""]
    else
      var rest := Split(s[1..], sep);
      if s[0] == sep then [""] + rest else [[s[0]] + rest[0]] + rest[1..]
  }

  predicate OccursAt(s: string, sub: string, i: nat) { i + |sub| <= |s| && s[i..i + |sub|] == sub }

  predicate Contains(s: string, sub: string) {
    exists i: nat :: i <= |s| && OccursAt(s, sub, i)
  }

  function TrimSuffixDot(s: string): string {
    if s != "" && s[|s| - 1] == '.' then s[..|s| - 1] else s
  }

  /** unicode.ToUpper. Only the characters whose upper case is ASCII matter to the callers,
      which reject everything else; the two such characters outside ASCII are the dotless i
      and the long s. */
  function Upper(c: char): char {
    if 'a' <= c <= 'z' then c - 'a' + 'A' else if c == '\U{0131}' then 'I' else if c == '\U{017F}' then 'S' else c
  }

  /** unicode.ToLower, likewise: the dotted capital I and the Kelvin sign have ASCII lower case. */
  function Lower(c: char): char {
    if 'A' <= c <= 'Z' then c - 'A' + 'a' else if c == '\U{0130}' then 'i' else if c == '\U{212A}' then 'k' else c
  }

  function ToUpper(s: string): (r: string)
    ensures |r| == |s| && forall i :: 0 <= i < |s| ==> r[i] == Upper(s[i])
  {
    seq(|s|, i requires 0 <= i < |s| => Upper(s[i]))
  }

  function ToLower(s: string): (r: string)
    ensures |r| == |s| && forall i :: 0 <= i < |s| ==> r[i] == Lower(s[i])
  {
    seq(|s|, i requires 0 <= i < |s| => Lower(s[i]))
  }

  /** The first occurrence of a two-character separator, as strings.Cut finds it. */
  function Cut(s: string, a: char, b: char): (r: Option<(string, string)>)
    ensures r.Some? ==> s == r.value.0 + [a, b] + r.value.1
  {
    if |s| < 2 then None
    else if s[0] == a && s[1] == b then
      assert s == "" + [a, b] + s[2..];
      Some(("", s[2..]))
    else
      var rest := Cut(s[1..], a, b);
      if rest.None? then None
      else
        assert s == [s[0]] + s[1..];
        Some(([s[0]] + rest.value.0, rest.value.1))
  }

  /** The leading characters that are not white space. */
  function FirstField(s: string): (f: string)
    ensures |f| <= |s| && f == s[..|f|]
    ensures s != "" && !IsSpace(s[0]) ==> f != ""
  {
    if s == "" || IsSpace(s[0]) then "" else [s[0]] + FirstField(s[1..])
  }

  /** strings.Fields. */
  function Fields(s: string): seq<string>
    decreases |s|
  {
    var t := TrimLeft(s);
    if t == "" then [] else [FirstField(t)] + Fields(t[|FirstField(t)|..])
  }

  /** The trimmed lines that are not blank. */
  function Entries(lines: seq<string>): seq<string> {
    if lines == [] then []
    else
      var line := TrimSpace(lines[|lines| - 1]);
      Entries(lines[..|lines| - 1]) + (if line == "" then [] else [line])
  }

  function EntriesOf(value: string): seq<string> { Entries(Split(value, '\n')) }

  lemma EntriesStep(lines: seq<string>, i: nat)
    requires i < |lines|
    ensures TrimSpace(lines[i]) == "" ==> Entries(lines[..i + 1]) == Entries(lines[..i])
    ensures TrimSpace(lines[i]) != "" ==> Entries(lines[..i + 1]) == Entries(lines[..i]) + [TrimSpace(lines[i])]
  {
    assert lines[..i + 1][..i] == lines[..i];
  }

  lemma {:induction false} EntriesGrow(lines: seq<string>, i: nat)
    requires i <= |lines|
    ensures var e, d := Entries(lines), Entries(lines[..i]); |d| <= |e| && d == e[..|d|]
  {
    if i < |lines| {
      var front := lines[..|lines| - 1];
      EntriesGrow(front, i);
      assert front[..i] == lines[..i];
      EntriesFront(lines);
      PrefixOfPrefix(Entries(front[..i]), Entries(front), Entries(lines));
    } else {
      assert lines[..i] == lines;
    }
  }

  lemma EntriesFront(lines: seq<string>)
    requires lines != []
    ensures Entries(lines[..|lines| - 1]) <= Entries(lines)
  {}

  lemma PrefixOfPrefix(a: seq<string>, b: seq<string>, c: seq<string>)
    requires |a| <= |b| && a == b[..|a|] && b <= c
    ensures |a| <= |c| && a == c[..|a|]
  {}

  lemma {:induction false} EntriesNotBlank(lines: seq<string>, i: nat)
    requires i < |Entries(lines)|
    ensures Entries(lines)[i] != ""
  {
    if i < |Entries(lines[..|lines| - 1])| { EntriesNotBlank(lines[..|lines| - 1], i); }
  }

  /** A word: not empty and without white space. */
  predicate IsWord(s: string) { s != "" && forall i :: 0 <= i < |s| ==> !IsSpace(s[i]) }

  lemma {:induction false} FirstFieldOf(w: string, rest: string)
    requires forall i :: 0 <= i < |w| ==> !IsSpace(w[i])
    requires rest == "" || IsSpace(rest[0])
    ensures FirstField(w + rest) == w
  {
    if w == "" {
      assert w + rest == rest;
    } else {
      assert (w + rest)[1..] == w[1..] + rest;
      FirstFieldOf(w[1..], rest);
      assert w == [w[0]] + w[1..];
    }
  }

  lemma FieldsCons(w: string, rest: string)
    requires IsWord(w) && (rest == "" || IsSpace(rest[0]))
    ensures Fields(w + rest) == [w] + Fields(rest)
  {
    assert TrimLeft(w + rest) == w + rest;
    FirstFieldOf(w, rest);
    assert (w + rest)[|w|..] == rest;
  }

  lemma FieldsSkip(rest: string)
    ensures Fields(" " + rest) == Fields(rest)
  {
    assert (" " + rest)[1..] == rest;
    assert TrimLeft(" " + rest) == TrimLeft(rest);
  }

  /** Three words with blanks between them are three fields. */
  lemma FieldsOfThree(a: string, b: string, c: string)
    requires IsWord(a) && IsWord(b) && IsWord(c)
    ensures Fields(a + (" " + (b + (" " + c)))) == [a, b, c]
  {
    FieldsOfTwo(b, c);
    ConsTwo(a, b + (" " + c), b, c);
  }

  lemma ConsTwo(a: string, rest: string, b: string, c: string)
    requires IsWord(a) && Fields(rest) == [b, c]
    ensures Fields(a + (" " + rest)) == [a, b, c]
  {
    FieldsWord(a, rest);
  }

  lemma FieldsOfTwo(b: string, c: string)
    requires IsWord(b) && IsWord(c)
    ensures Fields(b + (" " + c)) == [b, c]
  {
    FieldsLast(c);
    FieldsWord(b, c);
  }

  lemma FieldsWord(w: string, rest: string)
    requires IsWord(w)
    ensures Fields(w + (" " + rest)) == [w] + Fields(rest)
  {
    FieldsCons(w, " " + rest);
    FieldsSkip(rest);
  }

  lemma FieldsLast(w: string)
    requires IsWord(w)
    ensures Fields(w) == [w]
  {
    assert w + "" == w;
    FieldsCons(w, "");
  }

  /** The separator is cut at its first occurrence. */
  lemma {:induction false} CutAtFirst(p: string, a: char, b: char, rest: string)
    requires a != b && (forall i :: 0 <= i < |p| - 1 ==> !(p[i] == a && p[i + 1] == b)) && (p != "" ==> p[|p| - 1] != a)
    ensures Cut(p + [a, b] + rest, a, b) == Some((p, rest))
  {
    var s := p + [a, b] + rest;
    if p == "" {
      assert s == [a, b] + rest && s[2..] == rest;
    } else {
      assert s[1..] == p[1..] + [a, b] + rest;
      CutAtFirst(p[1..], a, b, rest);
      assert p == [p[0]] + p[1..];
      if |p| == 1 { assert s[1] == a; } else { assert s[1] == p[1]; }
    }
  }
}
