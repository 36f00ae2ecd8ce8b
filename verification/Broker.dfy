/** Issuing and parsing brokered credentials (internal/assignment/credentialbroker/broker.go).
    Time claims follow sections 4.1.4 and 4.1.5 of RFC 7519, the key id section 4.1.4 of RFC 7515. */
module Broker {
  import opened Kube
  import opened Text
  import opened Targets
  import opened Durations

  const MIN_TTL: Time := MINUTE
  const MAX_TTL: Time := 15 * MINUTE

  datatype Claims = Claims(
    assignmentName: string, assignmentUid: string, sandboxId: string, podUid: string,
    bundleName: string, bundleRevision: string, taskId: string, target: Target,
    issuer: string, audience: string, id: string, notBefore: Time, expires: Time)

  /** A token verifies under a key exactly when it was signed with that key. */
  datatype Token = Token(keyId: string, signedWith: string, claims: Claims)

  datatype Config = Config(keyId: string, key: string, previous: map<string, string>, issuer: string, audience: string)

  /** The key ring consulted for a key id. */
  function KeyFor(cfg: Config, keyId: string): Option<string> {
    if keyId == cfg.keyId then Some(cfg.key)
    else if keyId in cfg.previous then Some(cfg.previous[keyId]) else None
  }

  predicate TaskChar(c: char) { 'a' <= c <= 'z' || 'A' <= c <= 'Z' || '0' <= c <= '9' }

  /** validTaskID. */
  predicate ValidTaskId(s: string) {
    && 1 <= ByteLen(s) <= 128
    && forall i :: 0 <= i < |s| ==> TaskChar(s[i]) || (i > 0 && (s[i] == '.' || s[i] == '_' || s[i] == '-'))
  }

  /** A task identifier is a letter or digit followed by at most 127 letters, digits, dots, underscores
      and dashes. */
  lemma TaskIdExactly(s: string)
    ensures ValidTaskId(s) <==>
              && 1 <= |s| <= 128 && TaskChar(s[0])
              && forall i :: 1 <= i < |s| ==> TaskChar(s[i]) || s[i] == '.' || s[i] == '_' || s[i] == '-'
  {
    if ValidTaskId(s) {
      assert Ascii(s);
      AsciiByteLen(s);
    }
    if 1 <= |s| && TaskChar(s[0])
       && forall i :: 1 <= i < |s| ==> TaskChar(s[i]) || s[i] == '.' || s[i] == '_' || s[i] == '-'
    {
      assert Ascii(s);
      AsciiByteLen(s);
    }
  }

  /** An allowing decision of the authorization check. */
  datatype Decision = Decision(
    assignmentName: string, assignmentUid: string, sandboxId: string, podUid: string,
    bundleName: string, bundleRevision: string)

  datatype IssueRequest = IssueRequest(backend: string, verb: string, host: string, path: string, taskId: string,
                                       ttlSeconds: int)

  /** The lifetime asked for: a 64-bit product that wraps before it is compared. */
  function Ttl(r: IssueRequest): Time { Wrap(r.ttlSeconds * SECOND) }

  predicate TtlAccepted(r: IssueRequest) { MIN_TTL <= Ttl(r) <= MAX_TTL }

  /** issue, once the check has allowed the normalized target and the identifier is drawn. */
  function IssueFor(cfg: Config, r: IssueRequest, target: Result<Target, Problem>, d: Decision, id: string,
                    now: Time): Option<Token> {
    if !ValidTaskId(r.taskId) || !TtlAccepted(r) || target.Err? then None
    else
      Some(Token(cfg.keyId, cfg.key,
                 Claims(d.assignmentName, d.assignmentUid, d.sandboxId, d.podUid, d.bundleName, d.bundleRevision,
                        r.taskId, target.value, cfg.issuer, cfg.audience, id, Stored(now), Stored(now + Ttl(r)))))
  }

  function Issue(v6: AddressParser, cfg: Config, r: IssueRequest, d: Decision, id: string, now: Time): Option<Token> {
    IssueFor(cfg, r, NormalizeTarget(v6, r.backend, r.verb, r.host, r.path), d, id, now)
  }

  /** parseAuthorization on the bearer token, if there is one. */
  function Parse(v6: AddressParser, cfg: Config, bearer: Option<Token>, now: Time): Option<Claims> {
    if bearer.None? then None
    else
      var token := bearer.value;
      var c := token.claims;
      if KeyFor(cfg, token.keyId) != Some(token.signedWith) then None
      else if c.audience != cfg.audience || c.issuer != cfg.issuer then None
      else if !(now < c.expires) || now < c.notBefore then None
      else if c.id == "" || c.assignmentUid == "" || c.podUid == "" || c.bundleRevision == "" || !ValidTaskId(c.taskId)
      then None
      else if !CanonicalTarget(v6, c.target) then None
      else Some(c)
  }

  lemma RoundedWindow(now: Time, ttl: Time)
    requires MIN_TTL <= ttl <= MAX_TTL
    ensures MIN_TTL <= Stored(now + ttl) - Stored(now) <= MAX_TTL
    ensures Stored(now) <= now < Stored(now + ttl) && Stored(Stored(now + ttl)) == Stored(now + ttl)
  {
    StoredLifetime(now, ttl, 60);
    StoredLifetime(now, ttl, 900);
    StoredIsWhole(now + ttl);
  }

  /** Every issued credential lives between one and fifteen minutes, whatever 64-bit number was
      asked for and although both ends are rounded to seconds. */
  lemma IssuedLifetime(cfg: Config, r: IssueRequest, target: Result<Target, Problem>, d: Decision, id: string,
                       now: Time)
    requires IssueFor(cfg, r, target, d, id, now).Some?
    ensures var c := IssueFor(cfg, r, target, d, id, now).value.claims;
            MIN_TTL <= c.expires - c.notBefore <= MAX_TTL && c.notBefore <= now < c.expires
                && Stored(c.expires) == c.expires
  {
    RoundedWindow(now, Ttl(r));
  }

  /** What a credential says: the decision's own values, the task and the normalized target of the
      request, the broker's issuer and audience, the drawn identifier; in force from now for the
      seconds asked for, when their product does not wrap, in whole seconds; signed with the
      current key. It is issued exactly for a valid task, a lifetime in range and a valid target. */
  lemma IssuedExactly(
      cfg: Config, r: IssueRequest, target: Result<Target, Problem>, d: Decision, id: string, now: Time)
    requires -9_223_372_036 <= r.ttlSeconds <= 9_223_372_036
    ensures var t := IssueFor(cfg, r, target, d, id, now);
            && (t.Some? <==> ValidTaskId(r.taskId) && 60 <= r.ttlSeconds <= 900 && target.Ok?)
            && (t.Some? ==>
                  t.value == Token(cfg.keyId, cfg.key, Claims(
                    d.assignmentName, d.assignmentUid, d.sandboxId, d.podUid, d.bundleName, d.bundleRevision,
                    r.taskId, target.value, cfg.issuer, cfg.audience, id,
                    Stored(now), Stored(now + r.ttlSeconds * SECOND))))
  {
    TtlAcceptedExactly(r);
    IssuedFor(cfg, r, target, d, id, now);
  }

  /** The target of an issued credential is the normalization of the request's own four parts. */
  lemma IssuedTarget(v6: AddressParser, cfg: Config, r: IssueRequest, d: Decision, id: string, now: Time)
    ensures var t := Issue(v6, cfg, r, d, id, now);
            t.Some? ==> NormalizeTarget(v6, r.backend, r.verb, r.host, r.path) == Ok(t.value.claims.target)
  {
    IssuedFor(cfg, r, NormalizeTarget(v6, r.backend, r.verb, r.host, r.path), d, id, now);
  }

  lemma IssuedFor(cfg: Config, r: IssueRequest, target: Result<Target, Problem>, d: Decision, id: string, now: Time)
    ensures var t := IssueFor(cfg, r, target, d, id, now);
            && (t.Some? <==> ValidTaskId(r.taskId) && TtlAccepted(r) && target.Ok?)
            && (t.Some? ==>
                  t.value == Token(cfg.keyId, cfg.key, Claims(
                    d.assignmentName, d.assignmentUid, d.sandboxId, d.podUid, d.bundleName, d.bundleRevision,
                    r.taskId, target.value, cfg.issuer, cfg.audience, id, Stored(now), Stored(now + Ttl(r)))))
  {}

  /** Issue then parse: a credential issued by one broker and presented to any other, such as the
      same service after key rotations, parses back to its own claims if and only if the other
      still maps its key id to its key, has the same issuer and audience, and is asked within the
      credential's window; the identifiers must not be empty and the host must have no colon. */
  lemma IssueParseRoundTrip(
      v6: AddressParser, cfg: Config, later: Config, r: IssueRequest, d: Decision, id: string, now: Time, t: Time)
    requires Canonical(v6)
    ensures var issued := Issue(v6, cfg, r, d, id, now);
            issued.Some? ==>
              var c := issued.value.claims;
              Parse(v6, later, issued, t)
              == if KeyFor(later, cfg.keyId) == Some(cfg.key) && later.issuer == cfg.issuer
                    && later.audience == cfg.audience && c.notBefore <= t < c.expires
                    && d.assignmentUid != "" && d.podUid != "" && d.bundleRevision != "" && id != ""
                    && ':' !in c.target.host
                 then Some(c) else None
  {
    var target := NormalizeTarget(v6, r.backend, r.verb, r.host, r.path);
    IssuedFor(cfg, r, target, d, id, now);
    if Issue(v6, cfg, r, d, id, now).Some? {
      NormalizeIsIdempotentExactly(v6, r.backend, r.verb, r.host, r.path);
      ParseExactly(v6, later, Issue(v6, cfg, r, d, id, now).value, t);
    }
  }

  lemma ParseExactly(v6: AddressParser, cfg: Config, t: Token, now: Time)
    ensures Parse(v6, cfg, Some(t), now)
            == if KeyFor(cfg, t.keyId) == Some(t.signedWith) && Addressed(cfg, t.claims)
                  && t.claims.notBefore <= now < t.claims.expires && CanonicalTarget(v6, t.claims.target)
               then Some(t.claims) else None
  {}

  /** What parsing asks of the claims besides time, key and target. */
  predicate Addressed(cfg: Config, c: Claims) {
    && c.audience == cfg.audience && c.issuer == cfg.issuer
    && c.id != "" && c.assignmentUid != "" && c.podUid != "" && c.bundleRevision != "" && ValidTaskId(c.taskId)
  }

  /** Rotation as New accepts it: the old signing key moves to the previous keys under its own
      id, and the new id differs from every previous one. */
  function Rotate(cfg: Config, keyId: string, key: string): (rotated: Config)
    requires keyId != cfg.keyId && keyId !in cfg.previous
    ensures forall k :: KeyFor(cfg, k).Some? ==> KeyFor(rotated, k) == KeyFor(cfg, k)
    ensures KeyFor(rotated, keyId) == Some(key)
  {
    cfg.(keyId := keyId, key := key, previous := cfg.previous[cfg.keyId := cfg.key])
  }

  /** Which lifetimes are accepted: 60 to 900 seconds, and among all other numbers exactly the ones
      whose product with a second wraps, which takes more than 9223372036 of them, and wraps into
      the accepted range. */
  lemma TtlAcceptedExactly(r: IssueRequest)
    ensures Int64(r.ttlSeconds * SECOND) <==> -9_223_372_036 <= r.ttlSeconds <= 9_223_372_036
    ensures Int64(r.ttlSeconds * SECOND) ==> (TtlAccepted(r) <==> 60 <= r.ttlSeconds <= 900)
    ensures Ttl(r) == r.ttlSeconds * SECOND <==> Int64(r.ttlSeconds * SECOND)
    ensures TtlAccepted(r) <==> exists k :: MIN_TTL <= r.ttlSeconds * SECOND - k * TWO_64 <= MAX_TTL
  {
    WrapIs(r.ttlSeconds * SECOND, MIN_TTL, MAX_TTL);
  }

  /** Such numbers exist: this one is out of range by fourteen orders of magnitude. */
  lemma WrappedTtlIsAccepted(r: IssueRequest)
    requires r.ttlSeconds == 36_028_797_018_963_968 + 60
    ensures Int64(r.ttlSeconds) && !Int64(r.ttlSeconds * SECOND) && Ttl(r) == MINUTE
  {
    assert 36_028_797_018_963_968 * SECOND == 1_953_125 * TWO_64;
  }
}
