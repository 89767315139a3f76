/**
 * The contacts API (`/api/contacts`). `GET` lists the contacts of the session's organisation.
 * `POST` normalises a JSON body, requires a name, rejects an e-mail address the organisation
 * already has, and inserts one contact.
 */
module Contacts {
  import opened Options
  import opened Strings
  import opened Store
  import opened Emails
  import opened Ordering

  /** The JSON body; an absent field, and a body that is not JSON at all, read as `None`. */
  datatype ContactBody = ContactBody(
    name: Option<string>, companyName: Option<string>, email: Option<string>,
    phone: Option<string>, note: Option<string>)

  /** `x || null` on a string: the empty string is falsy. */
  function OrNull(s: string): (r: Option<string>)
    ensures r.None? <==> s == []
    ensures r.Some? ==> r.value == s
  {
    if s == [] then None else Some(s)
  }

  /** `(v ?? "").trim()`. */
  function TrimmedField(v: Option<string>): (r: string)
    ensures IsTrimmed(r)
    ensures v.None? ==> r == []
  {
    Trim(v.GetOr(""))
  }

  /** `(v ?? "").trim().toLowerCase() || null`. */
  function NormalEmail(v: Option<string>): (r: Option<string>)
    ensures r.None? <==> TrimmedField(v) == []
    ensures r.Some? ==> r.value == NormalAddress(v)
  {
    OrNull(NormalAddress(v))
  }

  /** The fields `POST` stores, after normalisation. */
  datatype ContactFields = ContactFields(
    name: string, companyName: Option<string>, email: Option<string>,
    phone: Option<string>, note: Option<string>)

  function Normalize(b: ContactBody): (f: ContactFields)
    ensures f.name == TrimmedField(b.name)
    ensures f.companyName == OrNull(TrimmedField(b.companyName))
    ensures f.email == NormalEmail(b.email)
    ensures f.phone == OrNull(TrimmedField(b.phone))
    ensures f.note == OrNull(TrimmedField(b.note))
  {
    ContactFields(
      TrimmedField(b.name), OrNull(TrimmedField(b.companyName)), NormalEmail(b.email),
      OrNull(TrimmedField(b.phone)), OrNull(TrimmedField(b.note)))
  }

  /** The body a contact's fields would be posted back as. */
  function AsBody(f: ContactFields): ContactBody {
    ContactBody(Some(f.name), f.companyName, f.email, f.phone, f.note)
  }

  /** An optional field posted back as it was stored is stored unchanged. */
  lemma OptionalFieldReadsBack(v: Option<string>)
    ensures OrNull(TrimmedField(OrNull(TrimmedField(v)))) == OrNull(TrimmedField(v))
  {
  }

  /** An e-mail address posted back as it was stored is stored unchanged. */
  lemma EmailReadsBack(v: Option<string>)
    ensures NormalEmail(NormalEmail(v)) == NormalEmail(v)
  {
    NormalAddressIdempotent(v);
  }

  /** Posting normalised fields again stores them unchanged: normalisation is idempotent. */
  lemma NormalizeIdempotent(b: ContactBody)
    ensures Normalize(AsBody(Normalize(b))) == Normalize(b)
  {
    OptionalFieldReadsBack(b.companyName);
    OptionalFieldReadsBack(b.phone);
    OptionalFieldReadsBack(b.note);
    EmailReadsBack(b.email);
    assert TrimmedField(Some(TrimmedField(b.name))) == TrimmedField(b.name);
  }

  /** No two contacts of one organisation share a non-null e-mail address. */
  ghost predicate EmailsUniquePerOrg(cs: seq<Contact>) {
    forall i, j :: 0 <= i < j < |cs| && cs[i].organizationId == cs[j].organizationId && cs[i].email.Some? ==>
      cs[i].email != cs[j].email
  }

  /** The `findFirst` duplicate lookup: a contact of `org` with exactly this e-mail address. */
  function DuplicateOf(cs: seq<Contact>, org: Id, email: string): (r: Option<nat>)
    ensures r.Some? ==> r.value < |cs| && cs[r.value].organizationId == org && cs[r.value].email == Some(email)
    ensures r.None? ==> forall j :: 0 <= j < |cs| ==> cs[j].organizationId != org || cs[j].email != Some(email)
  {
    FindFirst(cs, (c: Contact) => c.organizationId == org && c.email == Some(email))
  }

  /** A response of `POST /api/contacts`. */
  datatype PostResponse = Unauthorized | Forbidden | NameRequired | EmailAlreadyExists | Created(contact: Contact)

  /** The HTTP status each response carries. */
  function PostStatus(r: PostResponse): (code: nat)
    ensures code == 200 <==> r.Created?
  {
    match r
    case Unauthorized => 401
    case Forbidden => 403
    case NameRequired => 400
    case EmailAlreadyExists => 409
    case Created(_) => 200
  }

  /** The row `POST` inserts for normalised fields `f`; `now` is the creation time the database stamps. */
  function NewContact(id: Id, s: Session, f: ContactFields, now: int): (c: Contact)
    ensures c.id == id && c.organizationId == s.organizationId && c.createdAt == now
    ensures c.createdByUserId == s.userId && c.updatedByUserId == s.userId
    ensures (c.name, c.companyName, c.email, c.phone, c.note) == (f.name, f.companyName, f.email, f.phone, f.note)
  {
    Contact(id, s.organizationId, f.name, f.companyName, f.email, f.phone, f.note, now, s.userId, s.userId)
  }

  /**
   * `POST`: 401 without a session, 403 for a viewer, 400 for a blank name, 409 when the
   * organisation already has the (non-null) e-mail address; otherwise one new contact.
   */
  method PostContact(db: Db, session: Option<Session>, body: ContactBody, newId: Id, now: int)
    returns (r: PostResponse)
    modifies db`contacts
    ensures session.None? ==> r == Unauthorized && unchanged(db)
    ensures session.Some? && session.value.role == VIEWER ==> r == Forbidden && unchanged(db)
    ensures session.Some? && session.value.role != VIEWER ==>
      var s := session.value;
      var f := Normalize(body);
      && (f.name == [] ==> r == NameRequired && unchanged(db))
      && (f.name != [] && f.email.Some? && DuplicateOf(old(db.contacts), s.organizationId, f.email.value).Some? ==>
            r == EmailAlreadyExists && unchanged(db))
      && (f.name != [] && (f.email.None? || DuplicateOf(old(db.contacts), s.organizationId, f.email.value).None?) ==>
            r == Created(NewContact(newId, s, f, now)) && db.contacts == old(db.contacts) + [NewContact(newId, s, f, now)])
    ensures EmailsUniquePerOrg(old(db.contacts)) ==> EmailsUniquePerOrg(db.contacts)
  {
    if session.None? {
      return Unauthorized;
    }
    var s := session.value;
    if s.role == VIEWER {
      return Forbidden;
    }
    var f := Normalize(body);
    if f.name == [] {
      return NameRequired;
    }
    if f.email.Some? {
      var dup := DuplicateOf(db.contacts, s.organizationId, f.email.value);
      if dup.Some? {
        return EmailAlreadyExists;
      }
    }
    var c := NewContact(newId, s, f, now);
    AppendKeepsEmailsUnique(db.contacts, c);
    db.contacts := db.contacts + [c];
    r := Created(c);
  }

  /** Appending a contact whose e-mail address its organisation lacks keeps addresses unique. */
  lemma AppendKeepsEmailsUnique(cs: seq<Contact>, c: Contact)
    requires c.email.None? || DuplicateOf(cs, c.organizationId, c.email.value).None?
    ensures EmailsUniquePerOrg(cs) ==> EmailsUniquePerOrg(cs + [c])
  {
    if EmailsUniquePerOrg(cs) {
      var t := cs + [c];
      forall i, j | 0 <= i < j < |t| && t[i].organizationId == t[j].organizationId && t[i].email.Some?
        ensures t[i].email != t[j].email
      {
        if j == |cs| {
          assert t[i] == cs[i];
        } else {
          assert t[i] == cs[i] && t[j] == cs[j];
        }
      }
    }
  }

  /** Once a contact with an e-mail address exists, posting that address again in its organisation is a duplicate. */
  lemma {:induction false} RepostIsDuplicate(cs: seq<Contact>, c: Contact)
    requires c.email.Some?
    ensures DuplicateOf(cs + [c], c.organizationId, c.email.value).Some?
  {
    var t := cs + [c];
    assert t[|t| - 1] == c;
  }

  /** The rows of one organisation, in table order. */
  function OrgContacts(cs: seq<Contact>, org: Id): (r: seq<Contact>)
    ensures forall c :: c in r <==> c in cs && c.organizationId == org
    ensures |r| <= |cs|
  {
    if cs == [] then []
    else
      var rest := OrgContacts(cs[..|cs| - 1], org);
      assert cs == cs[..|cs| - 1] + [cs[|cs| - 1]];
      if cs[|cs| - 1].organizationId == org then rest + [cs[|cs| - 1]] else rest
  }

  /** Appending a row appends it to its organisation's rows and to no other. */
  lemma {:induction false} OrgContactsSnoc(cs: seq<Contact>, c: Contact, org: Id)
    ensures OrgContacts(cs + [c], org) == OrgContacts(cs, org) + if c.organizationId == org then [c] else []
  {
    var t := cs + [c];
    assert t[..|t| - 1] == cs;
  }

  /** Filtering by organisation keeps table order: it distributes over concatenation. */
  lemma {:induction false} OrgContactsKeepsOrder(a: seq<Contact>, b: seq<Contact>, org: Id)
    ensures OrgContacts(a + b, org) == OrgContacts(a, org) + OrgContacts(b, org)
    decreases |b|
  {
    if b == [] {
      assert a + b == a;
    } else {
      var b0, x := b[..|b| - 1], b[|b| - 1];
      var tail := if x.organizationId == org then [x] else [];
      assert b == b0 + [x];
      calc {
        OrgContacts(a + b, org);
        { assert a + b == (a + b0) + [x]; }
        OrgContacts((a + b0) + [x], org);
        { OrgContactsSnoc(a + b0, x, org); }
        OrgContacts(a + b0, org) + tail;
        { OrgContactsKeepsOrder(a, b0, org); }
        OrgContacts(a, org) + OrgContacts(b0, org) + tail;
        { OrgContactsSnoc(b0, x, org); }
        OrgContacts(a, org) + OrgContacts(b, org);
      }
    }
  }

  /** Each contact of the organisation is kept as often as the table holds it; no other contact is. */
  lemma {:induction false} OrgContactsCounts(cs: seq<Contact>, org: Id, c: Contact)
    ensures multiset(OrgContacts(cs, org))[c] == if c.organizationId == org then multiset(cs)[c] else 0
    decreases |cs|
  {
    if cs != [] {
      var cs0 := cs[..|cs| - 1];
      assert cs == cs0 + [cs[|cs| - 1]];
      OrgContactsCounts(cs0, org, c);
    }
  }

  function CreatedAt(c: Contact): int { c.createdAt }

  /** `findMany({ where: { organizationId: org }, orderBy: { createdAt: "desc" } })`. */
  function Listed(cs: seq<Contact>, org: Id): (r: seq<Contact>)
    ensures Descending(r, CreatedAt)
    ensures multiset(r) == multiset(OrgContacts(cs, org))
  {
    SortIsSortedPermutation(OrgContacts(cs, org), CreatedAt);
    SortDesc(OrgContacts(cs, org), CreatedAt)
  }

  /** A response of `GET /api/contacts`. */
  datatype GetResponse = GetUnauthorized | Listing(contacts: seq<Contact>)

  /** `GET`: 401 without a session; otherwise the contacts of the session's organisation, newest first. */
  method GetContacts(db: Db, session: Option<Session>) returns (r: GetResponse)
    ensures session.None? <==> r == GetUnauthorized
    ensures session.Some? ==> r == Listing(Listed(db.contacts, session.value.organizationId))
  {
    if session.None? {
      return GetUnauthorized;
    }
    r := Listing(Listed(db.contacts, session.value.organizationId));
  }

  /**
   * A contact created by `POST` after every other contact of its organisation is listed first by
   * a `GET` in that organisation, ahead of the previous listing.
   */
  lemma CreatedIsListed(cs: seq<Contact>, c: Contact)
    requires forall i :: 0 <= i < |cs| && cs[i].organizationId == c.organizationId ==> cs[i].createdAt < c.createdAt
    ensures Listed(cs + [c], c.organizationId) == [c] + Listed(cs, c.organizationId)
  {
    var p := OrgContacts(cs, c.organizationId);
    OrgContactsSnoc(cs, c, c.organizationId);
    forall i | 0 <= i < |p| ensures CreatedAt(p[i]) < CreatedAt(c) {
      assert p[i] in p;
    }
    NewestIsFirst(p, c, CreatedAt);
  }

  /** Creating a contact in one organisation leaves what every other organisation lists unchanged. */
  lemma {:induction false} CreatedElsewhereIsHidden(cs: seq<Contact>, c: Contact, org: Id)
    requires c.organizationId != org
    ensures Listed(cs + [c], org) == Listed(cs, org)
  {
    OrgContactsSnoc(cs, c, org);
  }
}
