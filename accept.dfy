/**
 * The invitation landing route (`GET /api/invitations/accept`). It looks the invitation up by
 * the hash of the trimmed `token` parameter and rejects one that is unknown, already accepted or
 * expired. Otherwise it finds or creates the user with the invited address, upserts their
 * membership with the invited role, marks the invitation accepted and signs the user in.
 */
module Accept {
  import opened Options
  import opened Strings
  import opened Store

  /** Where the route redirects: `/login?e=…` for the three failures, `/dashboard` with a session. */
  datatype AcceptOutcome = InvalidInvite | InviteUsed | InviteExpired | Joined(session: Session)

  /** `findUnique({ where: { tokenHash } })` on invitations. */
  function InviteByHash(vs: seq<Invitation>, h: string): (r: Option<nat>)
    ensures r.Some? ==> r.value < |vs| && vs[r.value].tokenHash == h
    ensures r.None? ==> forall j :: 0 <= j < |vs| ==> vs[j].tokenHash != h
  {
    FindFirst(vs, (v: Invitation) => v.tokenHash == h)
  }

  /** The guards' verdict, or the invitation to accept. */
  datatype Guarded = Rejected(outcome: AcceptOutcome) | Admitted(index: nat)

  function Guard(vs: seq<Invitation>, rawToken: Option<string>, hash: string -> string, now: int): (g: Guarded)
    ensures g.Rejected? ==> g.outcome in {InvalidInvite, InviteUsed, InviteExpired}
    ensures g.Admitted? ==> g.index < |vs|
  {
    var token := Trim(rawToken.GetOr(""));
    if token == [] then Rejected(InvalidInvite)
    else match InviteByHash(vs, hash(token))
      case None => Rejected(InvalidInvite)
      case Some(i) =>
        if vs[i].acceptedAt.Some? then Rejected(InviteUsed)
        else if vs[i].expiresAt < now then Rejected(InviteExpired)
        else Admitted(i)
  }

  datatype UserUpsert = UserUpsert(users: seq<User>, userId: Id)

  /** `user.upsert` with an empty update: the user with `email`, or a new ACTIVE one. */
  function UpsertUser(us: seq<User>, email: string, newId: Id): (r: UserUpsert)
    ensures UserByEmail(us, email).Some? ==> r.users == us && r.userId == us[UserByEmail(us, email).value].id
    ensures UserByEmail(us, email).None? ==>
      r.users == us + [User(newId, email, None, "ACTIVE")] && r.userId == newId
    ensures UserEmailsUnique(us) ==> UserEmailsUnique(r.users)
  {
    match UserByEmail(us, email)
    case Some(i) => UserUpsert(us, us[i].id)
    case None =>
      var t := us + [User(newId, email, None, "ACTIVE")];
      assert forall j :: 0 <= j < |us| ==> t[j] == us[j];
      UserUpsert(t, newId)
  }

  /** `findUnique` on the compound key `organizationId_userId`. */
  function MembershipOf(ms: seq<Membership>, org: Id, userId: Id): (r: Option<nat>)
    ensures r.Some? ==> r.value < |ms| && ms[r.value].organizationId == org && ms[r.value].userId == userId
    ensures r.None? ==> forall j :: 0 <= j < |ms| ==> ms[j].organizationId != org || ms[j].userId != userId
  {
    FindFirst(ms, (m: Membership) => m.organizationId == org && m.userId == userId)
  }

  predicate Keyed(m: Membership, org: Id, userId: Id) {
    m.organizationId == org && m.userId == userId
  }

  /** `membership.upsert`: the existing row gets the new role, or a row is created at `now`. */
  function UpsertMembership(ms: seq<Membership>, org: Id, userId: Id, role: Role, now: int): (r: seq<Membership>)
    ensures MembershipOf(ms, org, userId).Some? ==>
      var k := MembershipOf(ms, org, userId).value;
      r == ms[k := ms[k].(role := role)]
    ensures MembershipOf(ms, org, userId).None? ==> r == ms + [Membership(org, userId, role, now)]
  {
    match MembershipOf(ms, org, userId)
    case Some(k) => ms[k := ms[k].(role := role)]
    case None => ms + [Membership(org, userId, role, now)]
  }

  /**
   * After the upsert the pair has exactly one membership, holding `role`; keys stay unique and
   * every other pair's row is untouched.
   */
  lemma {:induction false} UpsertMembershipExactlyOne(ms: seq<Membership>, org: Id, userId: Id, role: Role, now: int)
    requires MembershipsUnique(ms)
    ensures var r := UpsertMembership(ms, org, userId, role, now);
      && MembershipsUnique(r)
      && (exists k :: 0 <= k < |r| && r[k].organizationId == org && r[k].userId == userId && r[k].role == role)
      && (forall j, k :: 0 <= j < |r| && 0 <= k < |r| && Keyed(r[j], org, userId) && Keyed(r[k], org, userId) ==> j == k)
      && (forall j :: 0 <= j < |ms| && (ms[j].organizationId != org || ms[j].userId != userId) ==> r[j] == ms[j])
  {
    var r := UpsertMembership(ms, org, userId, role, now);
    match MembershipOf(ms, org, userId)
    case Some(k) =>
      assert r[k].organizationId == org && r[k].userId == userId && r[k].role == role;
      assert forall j :: 0 <= j < |r| ==> r[j].organizationId == ms[j].organizationId && r[j].userId == ms[j].userId;
    case None =>
      assert r[|ms|].organizationId == org && r[|ms|].userId == userId && r[|ms|].role == role;
      assert forall j :: 0 <= j < |ms| ==> r[j] == ms[j];
  }

  /** Marking invitation `i` accepted at `now`. */
  function MarkAccepted(vs: seq<Invitation>, i: nat, now: int): (r: seq<Invitation>)
    requires i < |vs|
    ensures |r| == |vs| && r[i] == vs[i].(acceptedAt := Some(now))
    ensures forall j :: 0 <= j < |vs| && j != i ==> r[j] == vs[j]
    ensures InvitationHashesUnique(vs) ==> InvitationHashesUnique(r)
  {
    vs[i := vs[i].(acceptedAt := Some(now))]
  }

  /** What the route leaves behind: its redirect and the three tables it writes. */
  datatype AcceptStep = AcceptStep(
    outcome: AcceptOutcome, users: seq<User>, memberships: seq<Membership>, invitations: seq<Invitation>)

  /** The whole route as a function of the tables it reads; `newUserId` is the id a created user gets. */
  function AcceptOf(us: seq<User>, ms: seq<Membership>, vs: seq<Invitation>, rawToken: Option<string>,
                    hash: string -> string, now: int, newUserId: Id): AcceptStep
  {
    match Guard(vs, rawToken, hash, now)
    case Rejected(o) => AcceptStep(o, us, ms, vs)
    case Admitted(i) =>
      var invite := vs[i];
      var u := UpsertUser(us, invite.email, newUserId);
      AcceptStep(
        Joined(Session(u.userId, invite.organizationId, invite.role)),
        u.users,
        UpsertMembership(ms, invite.organizationId, u.userId, invite.role, now),
        MarkAccepted(vs, i, now))
  }

  /** The guards in order, each stated on the invitation it inspects; a failed guard writes nothing. */
  lemma GuardOrder(us: seq<User>, ms: seq<Membership>, vs: seq<Invitation>, rawToken: Option<string>,
                   hash: string -> string, now: int, newUserId: Id)
    ensures var token := Trim(rawToken.GetOr(""));
      var r := AcceptOf(us, ms, vs, rawToken, hash, now, newUserId);
      && (token == [] ==> r.outcome == InvalidInvite)
      && (token != [] ==>
            match InviteByHash(vs, hash(token))
            case None => r.outcome == InvalidInvite
            case Some(i) =>
              && (vs[i].acceptedAt.Some? ==> r.outcome == InviteUsed)
              && (vs[i].acceptedAt.None? && vs[i].expiresAt < now ==> r.outcome == InviteExpired)
              && (vs[i].acceptedAt.None? && now <= vs[i].expiresAt ==> r.outcome.Joined?))
      && (!r.outcome.Joined? ==> r.users == us && r.memberships == ms && r.invitations == vs)
  {
  }

  /** The user with the invited address is reused unchanged; only a missing one is created, ACTIVE. */
  lemma JoinedUser(us: seq<User>, ms: seq<Membership>, vs: seq<Invitation>, rawToken: Option<string>,
                   hash: string -> string, now: int, newUserId: Id)
    requires AcceptOf(us, ms, vs, rawToken, hash, now, newUserId).outcome.Joined?
    ensures var r := AcceptOf(us, ms, vs, rawToken, hash, now, newUserId);
      var invite := vs[InviteByHash(vs, hash(Trim(rawToken.GetOr("")))).value];
      var s := r.outcome.session;
      && s.organizationId == invite.organizationId && s.role == invite.role
      && match UserByEmail(us, invite.email)
         case Some(k) => r.users == us && s.userId == us[k].id
         case None => r.users == us + [User(newUserId, invite.email, None, "ACTIVE")] && s.userId == newUserId
  {
  }

  /** After joining, the signed-in user has exactly one membership in the invite's organisation, with the invite's role. */
  lemma {:induction false} JoinedMembership(us: seq<User>, ms: seq<Membership>, vs: seq<Invitation>,
                                            rawToken: Option<string>, hash: string -> string, now: int, newUserId: Id)
    requires MembershipsUnique(ms)
    requires AcceptOf(us, ms, vs, rawToken, hash, now, newUserId).outcome.Joined?
    ensures var r := AcceptOf(us, ms, vs, rawToken, hash, now, newUserId);
      var s := r.outcome.session;
      && MembershipsUnique(r.memberships)
      && (exists k :: 0 <= k < |r.memberships| && r.memberships[k].organizationId == s.organizationId
            && r.memberships[k].userId == s.userId && r.memberships[k].role == s.role)
      && (forall j, k :: 0 <= j < |r.memberships| && 0 <= k < |r.memberships|
            && Keyed(r.memberships[j], s.organizationId, s.userId) && Keyed(r.memberships[k], s.organizationId, s.userId)
            ==> j == k)
  {
    var i := Guard(vs, rawToken, hash, now).index;
    var u := UpsertUser(us, vs[i].email, newUserId);
    UpsertMembershipExactlyOne(ms, vs[i].organizationId, u.userId, vs[i].role, now);
  }

  /** An invitation works once: following the link again, at any time, redirects with `invite_used`. */
  lemma {:induction false} SecondAcceptIsUsed(us: seq<User>, ms: seq<Membership>, vs: seq<Invitation>,
                                              rawToken: Option<string>, hash: string -> string, now: int,
                                              newUserId: Id, later: int, laterUserId: Id)
    requires AcceptOf(us, ms, vs, rawToken, hash, now, newUserId).outcome.Joined?
    ensures var r := AcceptOf(us, ms, vs, rawToken, hash, now, newUserId);
      AcceptOf(r.users, r.memberships, r.invitations, rawToken, hash, later, laterUserId).outcome == InviteUsed
  {
    var token := Trim(rawToken.GetOr(""));
    var i := InviteByHash(vs, hash(token)).value;
    var v2 := MarkAccepted(vs, i, now);
    assert AcceptOf(us, ms, vs, rawToken, hash, now, newUserId).invitations == v2;
    assert forall j :: 0 <= j < i ==> v2[j].tokenHash != hash(token);
    assert InviteByHash(v2, hash(token)) == Some(i);
  }

  /** The route: guards, user upsert, membership upsert, `acceptedAt` update, session. */
  method AcceptInvite(db: Db, rawToken: Option<string>, hash: string -> string, now: int, newUserId: Id)
    returns (outcome: AcceptOutcome)
    modifies db`users, db`memberships, db`invitations
    ensures var r := AcceptOf(old(db.users), old(db.memberships), old(db.invitations), rawToken, hash, now, newUserId);
      outcome == r.outcome && db.users == r.users && db.memberships == r.memberships && db.invitations == r.invitations
    ensures old(db.Valid()) ==> db.Valid()
  {
    var token := Trim(rawToken.GetOr(""));
    if token == [] {
      return InvalidInvite;
    }
    var found := InviteByHash(db.invitations, hash(token));
    if found.None? {
      return InvalidInvite;
    }
    var i := found.value;
    var invite := db.invitations[i];
    if invite.acceptedAt.Some? {
      return InviteUsed;
    }
    if invite.expiresAt < now {
      return InviteExpired;
    }
    var u := UpsertUser(db.users, invite.email, newUserId);
    db.users := u.users;
    if MembershipsUnique(db.memberships) {
      UpsertMembershipExactlyOne(db.memberships, invite.organizationId, u.userId, invite.role, now);
    }
    db.memberships := UpsertMembership(db.memberships, invite.organizationId, u.userId, invite.role, now);
    db.invitations := MarkAccepted(db.invitations, i, now);
    outcome := Joined(Session(u.userId, invite.organizationId, invite.role));
  }
}
