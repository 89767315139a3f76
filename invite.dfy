/**
 * Invitation creation (`POST /api/invitations/create`): only an administrator may invite. The
 * address is normalised and must hold an `@`. The role is EDITOR only when EDITOR is asked for.
 * The invitation stores the hash of a fresh token and expires 24 hours later.
 */
module Invite {
  import opened Options
  import opened Store
  import opened Emails

  /** 24 hours in milliseconds. */
  const InviteLifetime: int := 24 * 60 * 60 * 1000

  /** The JSON body; absent fields, and a body that is not JSON, read as `None`. */
  datatype InviteBody = InviteBody(email: Option<string>, role: Option<string>)

  /** A response of the route; `Thrown` is the unique-constraint failure of the insert. */
  datatype InviteResponse = InviteForbidden | InvalidEmail | Invited | Thrown

  /** `body?.role === "EDITOR" ? "EDITOR" : "VIEWER"`: an exact comparison, never ADMIN. */
  function InviteRole(v: Option<string>): (r: Role)
    ensures r == EDITOR <==> v == Some("EDITOR")
    ensures r == VIEWER <==> v != Some("EDITOR")
  {
    if v == Some("EDITOR") then EDITOR else VIEWER
  }

  /** The record the route inserts. */
  function NewInvitation(id: Id, s: Session, email: string, role: Role, tokenHash: string, now: int): (v: Invitation)
    ensures v.id == id && v.organizationId == s.organizationId && v.createdByUserId == s.userId
    ensures v.email == email && v.role == role && v.tokenHash == tokenHash
    ensures v.expiresAt - now == 86400000 && v.acceptedAt.None?
  {
    Invitation(id, s.organizationId, email, role, tokenHash, now + InviteLifetime, None, s.userId)
  }

  /** Whether the table already holds this hash, which `tokenHash`'s unique constraint refuses. */
  predicate HashTaken(vs: seq<Invitation>, h: string) {
    exists j :: 0 <= j < |vs| && vs[j].tokenHash == h
  }

  /**
   * The route: 403 unless an administrator is signed in, 400 for an implausible address,
   * otherwise one invitation for the session's organisation holding `hash(token)`.
   */
  method CreateInvite(db: Db, session: Option<Session>, body: InviteBody, token: string,
                      hash: string -> string, now: int, newId: Id)
    returns (r: InviteResponse)
    modifies db`invitations
    ensures session.None? || session.value.role != ADMIN ==> r == InviteForbidden && unchanged(db)
    ensures session.Some? && session.value.role == ADMIN ==>
      var email := NormalAddress(body.email);
      && (!Plausible(email) ==> r == InvalidEmail && unchanged(db))
      && (Plausible(email) && HashTaken(old(db.invitations), hash(token)) ==> r == Thrown && unchanged(db))
      && (Plausible(email) && !HashTaken(old(db.invitations), hash(token)) ==>
            r == Invited
            && db.invitations == old(db.invitations) +
                 [NewInvitation(newId, session.value, email, InviteRole(body.role), hash(token), now)])
    ensures old(db.Valid()) ==> db.Valid()
  {
    if session.None? || session.value.role != ADMIN {
      return InviteForbidden;
    }
    var s := session.value;
    var email := NormalAddress(body.email);
    var role := InviteRole(body.role);
    if !Plausible(email) {
      return InvalidEmail;
    }
    var tokenHash := hash(token);
    if HashTaken(db.invitations, tokenHash) {
      return Thrown;
    }
    var v := NewInvitation(newId, s, email, role, tokenHash, now);
    AppendKeepsHashesUnique(db.invitations, v);
    db.invitations := db.invitations + [v];
    r := Invited;
  }

  lemma AppendKeepsHashesUnique(vs: seq<Invitation>, v: Invitation)
    requires !HashTaken(vs, v.tokenHash)
    ensures InvitationHashesUnique(vs) ==> InvitationHashesUnique(vs + [v])
  {
    var t := vs + [v];
    assert forall j :: 0 <= j < |vs| ==> t[j] == vs[j];
  }

  /** An invited address is normal and plausible, and an invitation never grants ADMIN. */
  lemma InvitedRecord(s: Session, body: InviteBody, id: Id, tokenHash: string, now: int)
    requires Plausible(NormalAddress(body.email))
    ensures var v := NewInvitation(id, s, NormalAddress(body.email), InviteRole(body.role), tokenHash, now);
      && v.role != ADMIN
      && NormalAddress(Some(v.email)) == v.email
      && '@' in v.email
  {
    NormalAddressIdempotent(body.email);
  }
}
