/**
 * The magic-link request (`POST /api/auth/request-link`). The address is normalised first. For
 * a plausible address of a known user the route stores the hash of a fresh login token that
 * expires 15 minutes later, and mails the link. Every branch answers with the same
 * `{ ok: true }`, so the response says nothing about which addresses exist.
 */
module RequestLink {
  import opened Options
  import opened Store
  import opened Emails

  /** 15 minutes in milliseconds. */
  const LinkLifetime: int := 15 * 60 * 1000

  /** The one response of the route, and the unique-constraint failure of the insert. */
  datatype LinkResponse = OkResponse | Thrown

  /** The `sendMagicLink` call: the recipient and the raw token carried by the verify URL. */
  datatype MagicLink = MagicLink(to: string, token: string)

  predicate HashTaken(ts: seq<LoginToken>, h: string) {
    exists j :: 0 <= j < |ts| && ts[j].tokenHash == h
  }

  /** The login token stored for user `userId`. */
  function NewLoginToken(id: Id, userId: Id, tokenHash: string, now: int): (t: LoginToken)
    ensures t.id == id && t.userId == userId && t.tokenHash == tokenHash
    ensures t.expiresAt - now == 900000 && t.usedAt.None?
  {
    LoginToken(id, userId, tokenHash, now + LinkLifetime, None)
  }

  /** Whether the route creates a token: a plausible normalised address that belongs to a user. */
  predicate Issues(us: seq<User>, rawEmail: Option<string>) {
    Plausible(NormalAddress(rawEmail)) && UserByEmail(us, NormalAddress(rawEmail)).Some?
  }

  method RequestMagicLink(db: Db, rawEmail: Option<string>, token: string, hash: string -> string, now: int, newId: Id)
    returns (r: LinkResponse, sent: Option<MagicLink>)
    modifies db`loginTokens
    ensures !Issues(db.users, rawEmail) ==> r == OkResponse && sent.None? && unchanged(db)
    ensures Issues(db.users, rawEmail) && HashTaken(old(db.loginTokens), hash(token)) ==>
      r == Thrown && sent.None? && unchanged(db)
    ensures Issues(db.users, rawEmail) && !HashTaken(old(db.loginTokens), hash(token)) ==>
      var email := NormalAddress(rawEmail);
      && r == OkResponse
      && sent == Some(MagicLink(email, token))
      && db.loginTokens == old(db.loginTokens) +
           [NewLoginToken(newId, db.users[UserByEmail(db.users, email).value].id, hash(token), now)]
    ensures old(db.Valid()) ==> db.Valid()
  {
    var email := NormalAddress(rawEmail);
    if !Plausible(email) {
      return OkResponse, None;
    }
    var user := UserByEmail(db.users, email);
    if user.None? {
      return OkResponse, None;
    }
    var tokenHash := hash(token);
    if HashTaken(db.loginTokens, tokenHash) {
      return Thrown, None;
    }
    var t := NewLoginToken(newId, db.users[user.value].id, tokenHash, now);
    AppendKeepsHashesUnique(db.loginTokens, t);
    db.loginTokens := db.loginTokens + [t];
    r, sent := OkResponse, Some(MagicLink(email, token));
  }

  lemma AppendKeepsHashesUnique(ts: seq<LoginToken>, t: LoginToken)
    requires !HashTaken(ts, t.tokenHash)
    ensures LoginTokenHashesUnique(ts) ==> LoginTokenHashesUnique(ts + [t])
  {
    var s := ts + [t];
    assert forall j :: 0 <= j < |ts| ==> s[j] == ts[j];
  }

  /** A known user is found whatever the case and surrounding blanks of the address typed. */
  lemma IssuesIgnoresCase(us: seq<User>, rawEmail: Option<string>)
    ensures Issues(us, rawEmail) <==> Issues(us, Some(NormalAddress(rawEmail)))
  {
    NormalAddressIdempotent(rawEmail);
  }
}
