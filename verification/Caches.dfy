/** The two caches of the authorization checker (internal/assignment/authz/checker.go). Each call
    takes the cache's lock twice, so other calls run in between. */
module Caches {
  import opened Kube

  // ---- compiled programs -----------------------------------------------------------------

  const MAX_PROGRAMS := 1024

  /** The expression a bundle revision holds for a backend: the revision is a hash of the bundle's
      specification. */
  type Specification = (string, string) -> string

  /** Compiling and type-checking an expression. */
  type Compiler<P> = string -> Option<P>

  predicate NulFree(s: string) { '\0' !in s }

  function Key(uid: string, revision: string, backend: string): string { uid + "\0" + revision + "\0" + backend }

  lemma {:induction false} SameHead(a: string, b: string, x: string, y: string)
    requires NulFree(a) && NulFree(b) && a + "\0" + x == b + "\0" + y
    ensures a == b && x == y
  {
    var s := a + "\0" + x;
    assert s[|a|] == '\0' && s[|b|] == '\0';
    assert a == s[..|a|] && b == s[..|b|];
    assert x == s[|a| + 1..] && y == s[|b| + 1..];
  }

  /** Keys are unambiguous as soon as UIDs and revisions contain no NUL. */
  lemma KeyInjective(uid: string, revision: string, backend: string, uid': string, revision': string, backend': string)
    requires NulFree(uid) && NulFree(revision) && NulFree(uid') && NulFree(revision')
    requires Key(uid, revision, backend) == Key(uid', revision', backend')
    ensures uid == uid' && revision == revision' && backend == backend'
  {
    assert Key(uid, revision, backend) == uid + "\0" + (revision + "\0" + backend);
    assert Key(uid', revision', backend') == uid' + "\0" + (revision' + "\0" + backend');
    SameHead(uid, uid', revision + "\0" + backend, revision' + "\0" + backend');
    SameHead(revision, revision', backend, backend');
  }

  /** One completed compilation about to be stored. */
  datatype Put<P> = Put(uid: string, revision: string, backend: string, program: P)

  ghost predicate Genuine<P>(compile: Compiler<P>, spec: Specification, put: Put<P>) {
    NulFree(put.uid) && NulFree(put.revision) && compile(spec(put.revision, put.backend)) == Some(put.program)
  }

  /** Every cached program is what compiling the expression of its key gives. */
  ghost predicate ProgramsOk<P>(compile: Compiler<P>, spec: Specification, values: map<string, P>) {
    && |values| <= MAX_PROGRAMS
    && forall uid, revision, backend :: NulFree(uid) && NulFree(revision) && Key(uid, revision, backend) in values ==>
         compile(spec(revision, backend)) == Some(values[Key(uid, revision, backend)])
  }

  function Stored<P>(values: map<string, P>, put: Put<P>): map<string, P> {
    (if |values| >= MAX_PROGRAMS then map[] else values)[Key(put.uid, put.revision, put.backend) := put.program]
  }

  lemma StoringKeepsProgramsOk<P>(compile: Compiler<P>, spec: Specification, values: map<string, P>, put: Put<P>)
    requires ProgramsOk(compile, spec, values) && Genuine(compile, spec, put)
    ensures ProgramsOk(compile, spec, Stored(values, put))
  {
    var kept := if |values| >= MAX_PROGRAMS then map[] else values;
    var k, after := Key(put.uid, put.revision, put.backend), Stored(values, put);
    assert after.Keys == kept.Keys + {k};
    forall uid, revision, backend | NulFree(uid) && NulFree(revision) && Key(uid, revision, backend) in after
      ensures compile(spec(revision, backend)) == Some(after[Key(uid, revision, backend)])
    {
      if Key(uid, revision, backend) == k { KeyInjective(uid, revision, backend, put.uid, put.revision, put.backend); }
      else { assert Key(uid, revision, backend) in values; }
    }
  }

  class ProgramCache<P> {
    const compile: Compiler<P>
    ghost const spec: Specification
    var values: map<string, P>

    constructor (compile: Compiler<P>, ghost spec: Specification)
      ensures Valid() && this.compile == compile && this.spec == spec && values == map[]
    {
      this.compile, this.spec, this.values := compile, spec, map[];
    }

    ghost predicate Valid()
      reads this
    {
      ProgramsOk(compile, spec, values)
    }

    /** The section of `program` under the write lock. */
    method Install(put: Put<P>)
      requires Valid() && Genuine(compile, spec, put)
      modifies this
      ensures Valid() && values == Stored(old(values), put)
    {
      StoringKeepsProgramsOk(compile, spec, values, put);
      if |values| >= MAX_PROGRAMS { values := map[]; }
      values := values[Key(put.uid, put.revision, put.backend) := put.program];
    }

    /** Other calls storing what they compiled. */
    method Others(puts: seq<Put<P>>)
      requires Valid() && forall i :: 0 <= i < |puts| ==> Genuine(compile, spec, puts[i])
      modifies this
      ensures Valid()
    {
      for i := 0 to |puts|
        invariant Valid()
      {
        Install(puts[i]);
      }
    }

    /** program: whatever is cached, and whatever other calls store meanwhile, the answer is that
        of compiling the expression afresh. */
    method Program(uid: string, revision: string, backend: string, expression: string, meanwhile: seq<Put<P>>)
      returns (r: Option<P>)
      requires Valid() && NulFree(uid) && NulFree(revision) && expression == spec(revision, backend)
      requires forall i :: 0 <= i < |meanwhile| ==> Genuine(compile, spec, meanwhile[i])
      modifies this
      ensures Valid() && r == compile(expression)
    {
      var key := Key(uid, revision, backend);
      if key in values { return Some(values[key]); }
      r := compile(expression);
      Others(meanwhile);
      if r.Some? { Install(Put(uid, revision, backend, r.value)); }
    }
  }

  // ---- reviewed tokens -------------------------------------------------------------------

  const MAX_TOKENS := 4096
  const TOKEN_TTL: Time := 30 * SECOND

  datatype Cached = Cached(identity: string, expiresAt: Time)

  /** A TokenReview the API server answered at an instant. */
  datatype Review = Review(token: string, identity: string, at: Time)

  /** The two locked sections of reviewToken: looking a token up, and storing a review that was
      made after the clock reading `now`. */
  datatype Section = Look(token: string, now: Time) | Install(review: Review, now: Time)

  /** The exp claim of a token, if it has one. */
  type Expiry = string -> Option<Time>

  function ExpiresAt(exp: Expiry, token: string, now: Time): Time {
    var limit := now + TOKEN_TTL;
    if exp(token).Some? && exp(token).value < limit then exp(token).value else limit
  }

  predicate Hit(values: map<string, Cached>, token: string, now: Time) {
    token in values && now < values[token].expiresAt
  }

  function After(exp: Expiry, values: map<string, Cached>, section: Section): map<string, Cached> {
    match section
    case Look(token, now) => if Hit(values, token, now) then values else values - {token}
    case Install(review, now) =>
      var e := ExpiresAt(exp, review.token, now);
      if e > now then (if |values| >= MAX_TOKENS then map[] else values)[review.token := Cached(review.identity, e)]
          else values
  }

  function ReviewsOf(section: Section): set<Review> { if section.Install? then {section.review} else {} }

  /** A cached identity comes from a review of the token, and lapses with the earlier of the
      review's thirty seconds and the token's own expiry. */
  ghost predicate Backed(exp: Expiry, reviews: set<Review>, token: string, c: Cached) {
    && (exp(token).Some? ==> c.expiresAt <= exp(token).value)
    && exists v :: v in reviews && v.token == token && v.identity == c.identity && c.expiresAt <= v.at + TOKEN_TTL
  }

  ghost predicate TokensOk(exp: Expiry, reviews: set<Review>, values: map<string, Cached>) {
    |values| <= MAX_TOKENS && forall t :: t in values ==> Backed(exp, reviews, t, values[t])
  }

  lemma SectionKeepsTokensOk(exp: Expiry, reviews: set<Review>, values: map<string, Cached>, section: Section)
    requires TokensOk(exp, reviews, values) && (section.Install? ==> section.now <= section.review.at)
    ensures TokensOk(exp, reviews + ReviewsOf(section), After(exp, values, section))
  {
    var after, known := After(exp, values, section), reviews + ReviewsOf(section);
    if section.Install? {
      var kept := if |values| >= MAX_TOKENS then map[] else values;
      assert after.Keys <= kept.Keys + {section.review.token} || after == values;
    } else if !Hit(values, section.token, section.now) && section.token in values {
      assert after.Keys == values.Keys - {section.token};
    }
    forall t | t in after ensures Backed(exp, known, t, after[t]) {
      if section.Install? && t == section.review.token && after != values {
        assert section.review in known;
      } else {
        assert Backed(exp, reviews, t, values[t]);
        var v :| v in reviews && v.token == t && v.identity == values[t].identity
            && values[t].expiresAt <= v.at + TOKEN_TTL;
        assert v in known;
      }
    }
  }

  /** What a cached answer at an instant guarantees. */
  ghost predicate FreshAnswer(exp: Expiry, reviews: set<Review>, token: string, identity: string, now: Time) {
    && (exp(token).Some? ==> now < exp(token).value)
    && exists v :: v in reviews && v.token == token && v.identity == identity && now - v.at < TOKEN_TTL
  }

  lemma HitIsFresh(exp: Expiry, reviews: set<Review>, values: map<string, Cached>, token: string, now: Time)
    requires TokensOk(exp, reviews, values) && Hit(values, token, now)
    ensures FreshAnswer(exp, reviews, token, values[token].identity, now)
  {
    assert Backed(exp, reviews, token, values[token]);
    var v :| v in reviews && v.token == token && v.identity == values[token].identity
        && values[token].expiresAt <= v.at + TOKEN_TTL;
    assert now - v.at < TOKEN_TTL;
  }

  /** The cache and all reviews after any interleaving of sections of any number of calls. */
  function AfterAll(exp: Expiry, sections: seq<Section>): (map<string, Cached>, set<Review>) {
    if sections == [] then (map[], {})
    else
      var n := |sections| - 1;
      var (values, reviews) := AfterAll(exp, sections[..n]);
      (After(exp, values, sections[n]), reviews + ReviewsOf(sections[n]))
  }

  /** Over any interleaving, flushes included, a hit is fresh and the cache stays bounded. */
  lemma {:induction false} EveryHitIsFresh(exp: Expiry, sections: seq<Section>, token: string, now: Time)
    requires forall i :: 0 <= i < |sections| && sections[i].Install? ==> sections[i].now <= sections[i].review.at
    ensures var (values, reviews) := AfterAll(exp, sections);
            && TokensOk(exp, reviews, values)
            && (Hit(values, token, now) ==> FreshAnswer(exp, reviews, token, values[token].identity, now))
  {
    var (values, reviews) := AfterAll(exp, sections);
    if sections != [] {
      var n := |sections| - 1;
      EveryHitIsFresh(exp, sections[..n], token, now);
      var before := AfterAll(exp, sections[..n]);
      SectionKeepsTokensOk(exp, before.1, before.0, sections[n]);
    }
    if Hit(values, token, now) { HitIsFresh(exp, reviews, values, token, now); }
  }

  /** The answer of the API server to a review. */
  datatype Outcome = Failed | Rejected(reason: string) | Reviewed(identity: string)

  class TokenCache {
    const exp: Expiry
    var values: map<string, Cached>
    ghost var reviews: set<Review>

    constructor (exp: Expiry)
      ensures Valid() && this.exp == exp && values == map[] && reviews == {}
    {
      this.exp, values, reviews := exp, map[], {};
    }

    ghost predicate Valid()
      reads this
    {
      TokensOk(exp, reviews, values)
    }

    method LookUp(token: string, now: Time) returns (hit: Option<string>)
      requires Valid()
      modifies this
      ensures Valid() && values == After(exp, old(values), Look(token, now)) && reviews == old(reviews)
      ensures hit == if Hit(old(values), token, now) then Some(old(values)[token].identity) else None
    {
      SectionKeepsTokensOk(exp, reviews, values, Look(token, now));
      assert ReviewsOf(Look(token, now)) == {} && reviews + {} == reviews;
      if token in values && now < values[token].expiresAt { return Some(values[token].identity); }
      values := values - {token};
      return None;
    }

    method Store(review: Review, now: Time)
      requires Valid() && now <= review.at
      modifies this
      ensures Valid() && values == After(exp, old(values), Install(review, now)) && reviews == old(reviews) + {review}
    {
      SectionKeepsTokensOk(exp, reviews, values, Install(review, now));
      var expiresAt := now + TOKEN_TTL;
      var tokenExpiry := exp(review.token);
      if tokenExpiry.Some? && tokenExpiry.value < expiresAt { expiresAt := tokenExpiry.value; }
      reviews := reviews + {review};
      if expiresAt > now {
        if |values| >= MAX_TOKENS { values := map[]; }
        values := values[review.token := Cached(review.identity, expiresAt)];
      }
    }

    method Others(sections: seq<Section>)
      requires Valid() && forall i :: 0 <= i < |sections| && sections[i].Install? ==>
                 sections[i].now <= sections[i].review.at
      modifies this
      ensures Valid() && old(reviews) <= reviews
    {
      for i := 0 to |sections|
        invariant Valid() && old(reviews) <= reviews
      {
        match sections[i] {
          case Look(token, now) => var _ := LookUp(token, now);
          case Install(review, now) => Store(review, now);
        }
      }
    }

    /** reviewToken. Without a cached answer it gives the API server's own; a cached answer is
        one the server gave for this token less than thirty seconds before, and is never used at
        or past the token's expiry. */
    method ReviewToken(token: string, now: Time, meanwhile: seq<Section>, outcome: Outcome, at: Time)
      returns (r: Outcome, cached: bool)
      requires Valid() && now <= at
      requires forall i :: 0 <= i < |meanwhile| && meanwhile[i].Install? ==> meanwhile[i].now <= meanwhile[i].review.at
      modifies this
      ensures Valid() && old(reviews) <= reviews
      ensures cached ==> r.Reviewed? && FreshAnswer(exp, old(reviews), token, r.identity, now)
      ensures !cached ==> r == outcome && (r.Reviewed? ==> Review(token, r.identity, at) in reviews)
    {
      if Hit(values, token, now) { HitIsFresh(exp, reviews, values, token, now); }
      var hit := LookUp(token, now);
      if hit.Some? { return Reviewed(hit.value), true; }
      Others(meanwhile);
      if outcome.Reviewed? { Store(Review(token, outcome.identity, at), now); }
      return outcome, false;
    }
  }

  // ---- the caches do cache ---------------------------------------------------------------

  /** A stored program is found again, and only a full cache forgets others. */
  lemma StoredProgramIsFound<P>(values: map<string, P>, put: Put<P>, key: string)
    ensures var after, k := Stored(values, put), Key(put.uid, put.revision, put.backend);
            && k in after && after[k] == put.program
            && (|values| < MAX_PROGRAMS && key in values && key != k ==> key in after && after[key] == values[key])
  {}

  /** A review is answered from the cache from then on for thirty seconds after the clock reading
      that preceded it, or until the token expires, whichever comes first; only a full cache forgets
      others, and looking up drops nothing that is still good. */
  lemma StoredReviewIsFound(exp: Expiry, values: map<string, Cached>, review: Review, now: Time, t: Time, other: string)
    requires now <= t
    ensures var after := After(exp, values, Install(review, now));
            var until := if exp(review.token).Some? && exp(review.token).value < now + 30 * SECOND
                         then exp(review.token).value else now + 30 * SECOND;
            && (now < until ==> (Hit(after, review.token, t) <==> t < until))
            && (t < until ==> after[review.token].identity == review.identity)
            && (|values| < MAX_TOKENS && other in values && other != review.token ==>
                  other in after && after[other] == values[other])
    ensures var after := After(exp, values, Look(other, now));
            && (forall k :: k in values && (k != other || now < values[k].expiresAt) ==>
                  k in after && after[k] == values[k])
            && (other in values && values[other].expiresAt <= now ==> other !in after)
  {}
}
