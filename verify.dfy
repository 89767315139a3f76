/**
 * The magic-link landing route (`GET /api/auth/verify`). It trims the `token` parameter and
 * looks the login token up by its hash. It rejects a token that is unknown, already used or
 * expired. Otherwise it marks the token used and then signs the user in to the organisation
 * of their earliest membership.
 */
module Verify {
  import opened Options
  import opened Strings
  import opened Store

  /** Where the route redirects: `/login?e=…` for the four failures, `/dashboard` with a session. */
  datatype VerifyOutcome = Invalid | Used | Expired | NoMember | SignedIn(session: Session)

  /** The prefix of the route that only reads: the guard's verdict, or the token to consume. */
  datatype Guarded = Rejected(outcome: VerifyOutcome) | Accepted(index: nat)

  /** `findUnique({ where: { tokenHash } })`. */
  function TokenByHash(ts: seq<LoginToken>, h: string): (r: Option<nat>)
    ensures r.Some? ==> r.value < |ts| && ts[r.value].tokenHash == h
    ensures r.None? ==> forall j :: 0 <= j < |ts| ==> ts[j].tokenHash != h
  {
    FindFirst(ts, (t: LoginToken) => t.tokenHash == h)
  }

  /** The guards in order: a blank token, an unknown hash, a used token, an expired token. */
  function Guard(ts: seq<LoginToken>, rawToken: Option<string>, hash: string -> string, now: int): (g: Guarded)
    ensures g.Rejected? ==> g.outcome in {Invalid, Used, Expired}
    ensures g.Accepted? ==> g.index < |ts|
  {
    var token := Trim(rawToken.GetOr(""));
    if token == [] then Rejected(Invalid)
    else match TokenByHash(ts, hash(token))
      case None => Rejected(Invalid)
      case Some(i) =>
        if ts[i].usedAt.Some? then Rejected(Used)
        else if ts[i].expiresAt < now then Rejected(Expired)
        else Accepted(i)
  }

  /** `findFirst({ where: { userId }, orderBy: { createdAt: "asc" } })`; ties go to the earlier row. */
  function EarliestMembership(ms: seq<Membership>, userId: Id): (r: Option<nat>)
    ensures r.Some? ==> r.value < |ms| && ms[r.value].userId == userId
    ensures r.Some? ==> forall j :: 0 <= j < |ms| && ms[j].userId == userId ==> ms[r.value].createdAt <= ms[j].createdAt
    ensures r.None? <==> forall j :: 0 <= j < |ms| ==> ms[j].userId != userId
  {
    if ms == [] then None
    else
      var rest := EarliestMembership(ms[..|ms| - 1], userId);
      var last := ms[|ms| - 1];
      if last.userId == userId && (rest.None? || last.createdAt < ms[rest.value].createdAt) then Some(|ms| - 1)
      else rest
  }

  /** Marking token `i` used at `now`. */
  function Consume(ts: seq<LoginToken>, i: nat, now: int): (r: seq<LoginToken>)
    requires i < |ts|
    ensures |r| == |ts| && r[i] == ts[i].(usedAt := Some(now))
    ensures forall j :: 0 <= j < |ts| && j != i ==> r[j] == ts[j]
  {
    ts[i := ts[i].(usedAt := Some(now))]
  }

  /** What the route leaves behind: its redirect and the login-token table. */
  datatype VerifyStep = VerifyStep(outcome: VerifyOutcome, tokens: seq<LoginToken>)

  /** The whole route as a function of the tables it reads. */
  function VerifyOf(ts: seq<LoginToken>, ms: seq<Membership>, rawToken: Option<string>,
                    hash: string -> string, now: int): VerifyStep
  {
    match Guard(ts, rawToken, hash, now)
    case Rejected(o) => VerifyStep(o, ts)
    case Accepted(i) =>
      var tokens := Consume(ts, i, now);
      match EarliestMembership(ms, ts[i].userId)
      case None => VerifyStep(NoMember, tokens)
      case Some(k) => VerifyStep(SignedIn(Session(ts[i].userId, ms[k].organizationId, ms[k].role)), tokens)
  }

  /** A failed guard writes nothing; past the guards the token is consumed, even when the user has no membership. */
  lemma GuardsWriteNothing(ts: seq<LoginToken>, ms: seq<Membership>, rawToken: Option<string>,
                           hash: string -> string, now: int)
    ensures var r := VerifyOf(ts, ms, rawToken, hash, now);
      && (r.outcome in {Invalid, Used, Expired} ==> r.tokens == ts)
      && (r.outcome == NoMember || r.outcome.SignedIn? ==>
            var i := TokenByHash(ts, hash(Trim(rawToken.GetOr(""))));
            i.Some? && r.tokens == Consume(ts, i.value, now)
            && (r.outcome == NoMember <==> forall j :: 0 <= j < |ms| ==> ms[j].userId != ts[i.value].userId))
  {
  }

  /** The outcomes in guard order, each guard stated on the token it inspects. */
  lemma GuardOrder(ts: seq<LoginToken>, ms: seq<Membership>, rawToken: Option<string>,
                   hash: string -> string, now: int)
    ensures var token := Trim(rawToken.GetOr(""));
      var r := VerifyOf(ts, ms, rawToken, hash, now).outcome;
      && (token == [] ==> r == Invalid)
      && (token != [] ==>
            match TokenByHash(ts, hash(token))
            case None => r == Invalid
            case Some(i) =>
              && (ts[i].usedAt.Some? ==> r == Used)
              && (ts[i].usedAt.None? && ts[i].expiresAt < now ==> r == Expired)
              && (ts[i].usedAt.None? && now <= ts[i].expiresAt ==> r == NoMember || r.SignedIn?))
  {
  }

  /** A token expiring at exactly `now` is still accepted: the comparison is strict. */
  lemma ExpiryInstantIsAccepted(ts: seq<LoginToken>, ms: seq<Membership>, token: string,
                                hash: string -> string, now: int)
    requires Trim(token) != []
    requires var i := TokenByHash(ts, hash(Trim(token)));
      i.Some? && ts[i.value].usedAt.None? && ts[i.value].expiresAt == now
    ensures VerifyOf(ts, ms, Some(token), hash, now).outcome !in {Invalid, Used, Expired}
  {
  }

  /** A link works once: following it again, at any time, redirects with `used`. */
  lemma {:induction false} SecondVerifyIsUsed(ts: seq<LoginToken>, ms: seq<Membership>, rawToken: Option<string>,
                                              hash: string -> string, now: int, later: int)
    requires VerifyOf(ts, ms, rawToken, hash, now).outcome !in {Invalid, Used, Expired}
    ensures VerifyOf(VerifyOf(ts, ms, rawToken, hash, now).tokens, ms, rawToken, hash, later).outcome == Used
  {
    var token := Trim(rawToken.GetOr(""));
    var i := TokenByHash(ts, hash(token)).value;
    var t2 := Consume(ts, i, now);
    assert VerifyOf(ts, ms, rawToken, hash, now).tokens == t2;
    assert forall j :: 0 <= j < i ==> t2[j].tokenHash != hash(token);
    assert TokenByHash(t2, hash(token)) == Some(i);
  }

  /** The session carries the token's user and the organisation and role of their earliest membership. */
  lemma SessionIsEarliestMembership(ts: seq<LoginToken>, ms: seq<Membership>, rawToken: Option<string>,
                                    hash: string -> string, now: int)
    requires VerifyOf(ts, ms, rawToken, hash, now).outcome.SignedIn?
    ensures var s := VerifyOf(ts, ms, rawToken, hash, now).outcome.session;
      var i := TokenByHash(ts, hash(Trim(rawToken.GetOr("")))).value;
      && s.userId == ts[i].userId
      && exists k :: 0 <= k < |ms| && ms[k].userId == s.userId
           && ms[k].organizationId == s.organizationId && ms[k].role == s.role
           && forall j :: 0 <= j < |ms| && ms[j].userId == s.userId ==> ms[k].createdAt <= ms[j].createdAt
  {
    var i := TokenByHash(ts, hash(Trim(rawToken.GetOr("")))).value;
    var k := EarliestMembership(ms, ts[i].userId).value;
    assert ms[k].userId == ts[i].userId;
  }

  /** Consuming a token changes no hash, so the hashes stay unique. */
  lemma ConsumeKeepsHashesUnique(ts: seq<LoginToken>, i: nat, now: int)
    requires i < |ts|
    ensures LoginTokenHashesUnique(ts) ==> LoginTokenHashesUnique(Consume(ts, i, now))
  {
  }

  /** The route: the guards, then the `usedAt` update, then the membership lookup. */
  method VerifyLink(db: Db, rawToken: Option<string>, hash: string -> string, now: int)
    returns (outcome: VerifyOutcome)
    modifies db`loginTokens
    ensures var r := VerifyOf(old(db.loginTokens), db.memberships, rawToken, hash, now);
      outcome == r.outcome && db.loginTokens == r.tokens
    ensures old(db.Valid()) ==> db.Valid()
  {
    var token := Trim(rawToken.GetOr(""));
    if token == [] {
      return Invalid;
    }
    var found := TokenByHash(db.loginTokens, hash(token));
    if found.None? {
      return Invalid;
    }
    var i := found.value;
    var loginToken := db.loginTokens[i];
    if loginToken.usedAt.Some? {
      return Used;
    }
    if loginToken.expiresAt < now {
      return Expired;
    }
    ConsumeKeepsHashesUnique(db.loginTokens, i, now);
    db.loginTokens := Consume(db.loginTokens, i, now);
    var membership := EarliestMembership(db.memberships, loginToken.userId);
    if membership.None? {
      return NoMember;
    }
    var m := db.memberships[membership.value];
    outcome := SignedIn(Session(loginToken.userId, m.organizationId, m.role));
  }
}
