/** Normalized egress targets (internal/assignment/governance/validation.go). */
module Targets {
  import opened Kube
  import opened Text

  datatype Target = Target(backend: string, verb: string, host: string, path: string)

  datatype Problem = BadBackend | BadMethod | BadHost | BadPath

  predicate LowerAlnum(c: char) { 'a' <= c <= 'z' || '0' <= c <= '9' }

  /** The lower-case DNS label shared by backends and host labels. */
  predicate DnsLabel(s: string) {
    && 1 <= |s| <= 63
    && LowerAlnum(s[0]) && LowerAlnum(s[|s| - 1])
    && forall i :: 0 <= i < |s| ==> LowerAlnum(s[i]) || s[i] == '-'
  }

  predicate MethodChar(c: char) { 'A' <= c <= 'Z' || '0' <= c <= '9' || c == '_' || c == '-' }

  predicate MethodToken(s: string) {
    1 <= |s| <= 32 && 'A' <= s[0] <= 'Z' && forall i :: 0 <= i < |s| ==> MethodChar(s[i])
  }

  /** Characters an authority must not contain. */
  predicate NotInHost(c: char) {
    c == '/' || c == '?' || c == '#' || c == '@' || c == '\\' || c == '\r' || c == '\n' || c == '\t' || c == ' '
  }

  /** Characters a path must not contain. */
  predicate NotInPath(c: char) { c == '?' || c == '#' || c == '\r' || c == '\n' || c == '\0' }

  /** Reading an address that contains a colon. The result, if it is an address, is its
      canonical text; an IPv4-mapped address becomes dotted IPv4 text. */
  type AddressParser = string -> Option<string>

  /** A host name or dotted IPv4 address in canonical form. */
  predicate HostText(s: string) {
    1 <= |s| <= 253 && forall l :: l in Split(s, '.') ==> DnsLabel(l)
  }

  /** IPv6 text begins with a hexadecimal digit or a colon, whatever its zone contains. */
  predicate AddressText(s: string) {
    ':' in s && ('0' <= s[0] <= '9' || 'a' <= s[0] <= 'f' || s[0] == ':')
  }

  /** Canonical address text is IPv6 text, or dotted IPv4 text when it has no colon. */
  ghost predicate Canonical(v6: AddressParser) {
    forall h :: v6(h).Some? ==> if ':' in v6(h).value then AddressText(v6(h).value) else HostText(v6(h).value)
  }

  /** NormalizeHost. An authority with a colon is an explicit port or malformed unless it is in
      brackets, since a string ending in a bracket never splits into host and port. An address
      without a colon is IPv4, whose canonical text is the text itself, and satisfies the label
      syntax; so only text with a colon goes to the address parser. */
  function NormalizeHost(v6: AddressParser, raw: string): Result<string, Problem> {
    var authority := TrimSpace(raw);
    if authority == "" || ByteLen(authority) > 512 || (exists i :: 0 <= i < |authority| && NotInHost(authority[i]))
    then Err(BadHost)
    else
      var bracketed := authority[0] == '[' && authority[|authority| - 1] == ']';
      if ':' in authority && !bracketed then Err(BadHost)
      else
        var inner := if bracketed then authority[1..|authority| - 1] else authority;
        var host := TrimSuffixDot(ToLower(inner));
        if host == "" || ByteLen(host) > 253 then Err(BadHost)
        else if ':' in host then
          var parsed := v6(host);
          if parsed.Some? then Ok(parsed.value) else Err(BadHost)
        else if forall l :: l in Split(host, '.') ==> DnsLabel(l) then Ok(host)
        else Err(BadHost)
  }

  predicate PathText(p: string) {
    && p != "" && p[0] == '/' && Trimmed(p) && ByteLen(p) <= 2048
    && forall i :: 0 <= i < |p| ==> !NotInPath(p[i])
  }

  /** NormalizePath. */
  function NormalizePath(value: string): Result<string, Problem> {
    var path := if value == "" then "/" else value;
    if PathText(path) then Ok(path) else Err(BadPath)
  }

  /** The checks of NormalizeTarget in their order, once each part has been transformed. */
  function Assemble(b: string, m: string, h: Result<string, Problem>, p: Result<string, Problem>)
    : Result<Target, Problem>
  {
    if !DnsLabel(b) then Err(BadBackend)
    else if !MethodToken(m) then Err(BadMethod)
    else if h.Err? then Err(h.error)
    else if p.Err? then Err(p.error)
    else Ok(Target(b, m, h.value, p.value))
  }

  /** NormalizeTarget. */
  function NormalizeTarget(v6: AddressParser, backend: string, verb: string, host: string,
                           path: string): Result<Target, Problem> {
    Assemble(TrimSpace(backend), ToUpper(TrimSpace(verb)), NormalizeHost(v6, host), NormalizePath(path))
  }

  /** A target that normalization returns unchanged: what grants and requests are required to be. */
  predicate CanonicalTarget(v6: AddressParser, t: Target) {
    NormalizeTarget(v6, t.backend, t.verb, t.host, t.path) == Ok(t)
  }

  // ---- fixed points ----------------------------------------------------------------------

  predicate HostChar(c: char) { LowerAlnum(c) || c == '-' || c == '.' }

  /** Each character of a string is the separator or lies in one of the parts. */
  lemma {:induction false} SplitCovers(s: string, sep: char, i: nat)
    requires i < |s| && s[i] != sep
    ensures exists p, k :: p in Split(s, sep) && 0 <= k < |p| && p[k] == s[i]
  {
    var parts := Split(s, sep);
    if i == 0 {
      assert parts[0] in parts && parts[0][0] == s[0];
    } else {
      SplitCovers(s[1..], sep, i - 1);
      var p, k :| p in Split(s[1..], sep) && 0 <= k < |p| && p[k] == s[1..][i - 1];
      SplitKeeps(s, sep, p, k);
    }
  }

  /** A character of a part stays in a part when a character is put in front. */
  lemma SplitKeeps(s: string, sep: char, p: string, k: nat)
    requires s != "" && p in Split(s[1..], sep) && k < |p|
    ensures exists p', k' :: p' in Split(s, sep) && 0 <= k' < |p'| && p'[k'] == p[k]
  {
    var rest, parts := Split(s[1..], sep), Split(s, sep);
    var n :| 0 <= n < |rest| && rest[n] == p;
    if s[0] == sep {
      assert parts[n + 1] in parts && parts[n + 1][k] == p[k];
    } else if n == 0 {
      assert parts[0] in parts && parts[0][k + 1] == p[k];
    } else {
      assert parts[n] in parts && parts[n][k] == p[k];
    }
  }

  lemma {:induction false} TrailingSeparator(s: string, sep: char)
    requires s != "" && s[|s| - 1] == sep
    ensures |Split(s, sep)| >= 2 && Split(s, sep)[|Split(s, sep)| - 1] == ""
  {
    if |s| > 1 { TrailingSeparator(s[1..], sep); } else { assert s[1..] == ""; }
  }

  lemma HostChars(s: string, i: nat)
    requires HostText(s) && i < |s|
    ensures HostChar(s[i])
  {
    if s[i] != '.' {
      SplitCovers(s, '.', i);
      var p, k :| p in Split(s, '.') && 0 <= k < |p| && p[k] == s[i];
      assert DnsLabel(p);
    }
  }

  lemma HostCharFacts(c: char)
    requires HostChar(c)
    ensures c < '\U{0080}' && !IsSpace(c) && Lower(c) == c && !NotInHost(c) && c != '[' && c != ':'
  {}

  lemma NoTrailingDot(s: string)
    requires HostText(s)
    ensures s[|s| - 1] != '.'
  {
    var parts := Split(s, '.');
    var last := parts[|parts| - 1];
    assert last in parts && DnsLabel(last);
    if s[|s| - 1] == '.' { TrailingSeparator(s, '.'); }
  }

  /** Canonical host text survives every transformation of NormalizeHost. */
  lemma HostTextIsPlain(s: string)
    requires HostText(s)
    ensures Trimmed(s) && ToLower(s) == s && TrimSuffixDot(s) == s && ByteLen(s) == |s|
    ensures forall i :: 0 <= i < |s| ==> !NotInHost(s[i]) && s[i] != '[' && s[i] != ':'
  {
    forall i | 0 <= i < |s| ensures HostChar(s[i]) { HostChars(s, i); }
    PlainChars(s);
    NoTrailingDot(s);
  }

  lemma PlainChars(s: string)
    requires forall i :: 0 <= i < |s| ==> HostChar(s[i])
    ensures Trimmed(s) && ToLower(s) == s && ByteLen(s) == |s|
    ensures forall i :: 0 <= i < |s| ==> !NotInHost(s[i]) && s[i] != '[' && s[i] != ':'
  {
    forall i | 0 <= i < |s|
      ensures s[i] < '\U{0080}' && !IsSpace(s[i]) && Lower(s[i]) == s[i] && !NotInHost(s[i]) && s[i] != '['
              && s[i] != ':'
    {
      HostCharFacts(s[i]);
    }
    AsciiByteLen(s);
  }

  /** A canonical host normalizes to itself. */
  lemma HostTextIsFixed(v6: AddressParser, s: string)
    requires HostText(s)
    ensures NormalizeHost(v6, s) == Ok(s)
  {
    HostTextIsPlain(s);
    assert TrimSpace(s) == s;
    assert ':' !in s;
  }

  /** Every accepted host is either canonical or IPv6 text. */
  lemma AcceptedHost(v6: AddressParser, raw: string)
    requires Canonical(v6) && NormalizeHost(v6, raw).Ok?
    ensures var h := NormalizeHost(v6, raw).value;
            if ':' in h then AddressText(h) else HostText(h)
  {}

  lemma MethodIsFixed(m: string)
    requires MethodToken(m)
    ensures TrimSpace(m) == m && ToUpper(m) == m
  {
    assert forall i :: 0 <= i < |m| ==> MethodChar(m[i]) && Upper(m[i]) == m[i];
    assert MethodChar(m[0]) && MethodChar(m[|m| - 1]);
  }

  lemma LabelIsTrimmed(b: string)
    requires DnsLabel(b)
    ensures TrimSpace(b) == b
  {}

  /** IPv6 text without its brackets is never accepted. */
  lemma ColonIsRejected(v6: AddressParser, h: string)
    requires AddressText(h)
    ensures NormalizeHost(v6, h).Err?
  {
    TrimKeeps(h, ':');
    FirstStays(h);
  }

  lemma FirstStays(s: string)
    requires s != "" && !IsSpace(s[0]) && TrimSpace(s) != ""
    ensures TrimSpace(s)[0] == s[0]
  {
    assert TrimLeft(s) == s;
  }

  lemma TrimKeeps(s: string, c: char)
    requires c in s && !IsSpace(c)
    ensures c in TrimSpace(s)
  {
    TrimLeftKeeps(s, c);
    TrimRightKeeps(TrimLeft(s), c);
  }

  lemma {:induction false} TrimLeftKeeps(s: string, c: char)
    requires c in s && !IsSpace(c)
    ensures c in TrimLeft(s)
  {
    if IsSpace(s[0]) { TrimLeftKeeps(s[1..], c); }
  }

  lemma {:induction false} TrimRightKeeps(s: string, c: char)
    requires c in s && !IsSpace(c)
    ensures c in TrimRight(s)
  {
    if IsSpace(s[|s| - 1]) { TrimRightKeeps(s[..|s| - 1], c); }
  }

  /** Normalization is idempotent exactly on results whose host has no colon: a bracketed IPv6
      address loses its brackets and is then rejected. */
  lemma NormalizeIsIdempotentExactly(v6: AddressParser, backend: string, verb: string, host: string, path: string)
    requires Canonical(v6)
    ensures var t := NormalizeTarget(v6, backend, verb, host, path);
            t.Ok? ==> (CanonicalTarget(v6, t.value) <==> ':' !in t.value.host)
  {
    if NormalizeTarget(v6, backend, verb, host, path).Ok? {
      var t := NormalizeTarget(v6, backend, verb, host, path).value;
      AcceptedParts(v6, backend, verb, host, path);
      RenormalizedParts(v6, t);
      if ':' in t.host { ColonIsRejected(v6, t.host); } else { HostTextIsFixed(v6, t.host); }
    }
  }

  /** What every accepted target satisfies. */
  lemma AcceptedParts(v6: AddressParser, backend: string, verb: string, host: string, path: string)
    requires Canonical(v6) && NormalizeTarget(v6, backend, verb, host, path).Ok?
    ensures var t := NormalizeTarget(v6, backend, verb, host, path).value;
            && DnsLabel(t.backend) && MethodToken(t.verb) && PathText(t.path)
            && (if ':' in t.host then AddressText(t.host) else HostText(t.host))
  {
    AcceptedHost(v6, host);
    AssembledParts(TrimSpace(backend), ToUpper(TrimSpace(verb)), NormalizeHost(v6, host), NormalizePath(path));
  }

  lemma AssembledParts(b: string, m: string, h: Result<string, Problem>, p: Result<string, Problem>)
    requires Assemble(b, m, h, p).Ok?
    ensures h.Ok? && p.Ok? && Assemble(b, m, h, p) == Ok(Target(b, m, h.value, p.value)) && DnsLabel(b)
            && MethodToken(m)
  {}

  /** Normalizing an accepted target again depends on its host alone. */
  lemma RenormalizedParts(v6: AddressParser, t: Target)
    ensures AcceptedShape(t) ==> (CanonicalTarget(v6, t) <==> NormalizeHost(v6, t.host) == Ok(t.host))
  {
    if AcceptedShape(t) {
      Reassembled(v6, t);
      AssembledAgain(t, NormalizeHost(v6, t.host));
    }
  }

  predicate AcceptedShape(t: Target) { DnsLabel(t.backend) && MethodToken(t.verb) && PathText(t.path) }

  lemma Reassembled(v6: AddressParser, t: Target)
    ensures AcceptedShape(t) ==>
              NormalizeTarget(v6, t.backend, t.verb, t.host, t.path)
                  == Assemble(t.backend, t.verb, NormalizeHost(v6, t.host), Ok(t.path))
  {
    if AcceptedShape(t) {
      MethodIsFixed(t.verb);
      LabelIsTrimmed(t.backend);
    }
  }

  lemma AssembledAgain(t: Target, h: Result<string, Problem>)
    ensures AcceptedShape(t) ==> (Assemble(t.backend, t.verb, h, Ok(t.path)) == Ok(t) <==> h == Ok(t.host))
  {}

  // ---- spellings of one target -----------------------------------------------------------

  /** Another spelling of a host: in any case of ASCII letters, with or without a final dot, with
      white space around it. */
  predicate Spells(raw: string, host: string) {
    var authority := TrimSpace(raw);
    Ascii(authority) && (ToLower(authority) == host || ToLower(authority) == host + ".")
  }

  /** Every spelling of a canonical host normalizes to it. */
  lemma SpellingsNormalize(v6: AddressParser, raw: string, host: string)
    requires HostText(host) && Spells(raw, host)
    ensures NormalizeHost(v6, raw) == Ok(host)
  {
    var authority := TrimSpace(raw);
    HostTextIsPlain(host);
    SpelledCharacters(authority, host);
    AsciiByteLen(authority);
  }

  lemma SpelledCharacters(authority: string, host: string)
    requires HostText(host) && Ascii(authority)
    requires ToLower(authority) == host || ToLower(authority) == host + "."
    ensures forall i :: 0 <= i < |authority| ==> !NotInHost(authority[i]) && authority[i] != '[' && authority[i] != ':'
    ensures TrimSuffixDot(ToLower(authority)) == host
  {
    HostTextIsPlain(host);
    var lower := ToLower(authority);
    forall i | 0 <= i < |authority|
      ensures !NotInHost(authority[i]) && authority[i] != '[' && authority[i] != ':'
    {
      assert lower[i] == Lower(authority[i]);
      if i < |host| { HostChars(host, i); }
    }
  }

  /** And every spelling of a canonical target normalizes to it: white space around backend, method
      and host, the case of method and host, a final dot, and an empty path for the root. */
  lemma TargetSpellingsNormalize(v6: AddressParser, t: Target, backend: string, verb: string, host: string,
                                 path: string)
    requires DnsLabel(t.backend) && MethodToken(t.verb) && HostText(t.host) && PathText(t.path)
    requires TrimSpace(backend) == t.backend && ToUpper(TrimSpace(verb)) == t.verb && Spells(host, t.host)
    requires path == t.path || (path == "" && t.path == "/")
    ensures NormalizeTarget(v6, backend, verb, host, path) == Ok(t)
  {
    SpellingsNormalize(v6, host, t.host);
    AssembledWhole(t);
  }

  lemma AssembledWhole(t: Target)
    requires DnsLabel(t.backend) && MethodToken(t.verb)
    ensures Assemble(t.backend, t.verb, Ok(t.host), Ok(t.path)) == Ok(t)
  {}

  /** What every accepted target looks like: a lower-case label, an upper-case method, and a path from
      the root without query, fragment, line ends or NUL; the host is made of lower-case labels
      unless it is IPv6 text. */
  lemma AcceptedTargetIsPlain(v6: AddressParser, backend: string, verb: string, host: string, path: string)
    requires Canonical(v6)
    ensures var t := NormalizeTarget(v6, backend, verb, host, path);
            t.Ok? ==>
              && 1 <= |t.value.backend| <= 63
              && (forall i :: 0 <= i < |t.value.backend| ==>
                    LowerAlnum(t.value.backend[i]) || t.value.backend[i] == '-')
              && 1 <= |t.value.verb| <= 32 && 'A' <= t.value.verb[0] <= 'Z'
              && t.value.path != "" && t.value.path[0] == '/' && ByteLen(t.value.path) <= 2048
              && (forall i :: 0 <= i < |t.value.path| ==>
                    t.value.path[i] != '?' && t.value.path[i] != '#' && t.value.path[i] != '\r'
                    && t.value.path[i] != '\n' && t.value.path[i] != '\0')
              && (':' !in t.value.host ==> forall i :: 0 <= i < |t.value.host| ==> HostChar(t.value.host[i]))
  {
    if NormalizeTarget(v6, backend, verb, host, path).Ok? {
      AcceptedParts(v6, backend, verb, host, path);
      PlainTarget(NormalizeTarget(v6, backend, verb, host, path).value);
    }
  }

  lemma PlainTarget(t: Target)
    requires DnsLabel(t.backend) && MethodToken(t.verb) && PathText(t.path)
    requires ':' !in t.host ==> HostText(t.host)
    ensures forall i :: 0 <= i < |t.backend| ==> LowerAlnum(t.backend[i]) || t.backend[i] == '-'
    ensures forall i :: 0 <= i < |t.path| ==>
              t.path[i] != '?' && t.path[i] != '#' && t.path[i] != '\r' && t.path[i] != '\n' && t.path[i] != '\0'
    ensures ':' !in t.host ==> forall i :: 0 <= i < |t.host| ==> HostChar(t.host[i])
  {
    forall i | 0 <= i < |t.path| ensures !NotInPath(t.path[i]) {}
    if ':' !in t.host {
      forall i | 0 <= i < |t.host| ensures HostChar(t.host[i]) { HostChars(t.host, i); }
    }
  }
}
