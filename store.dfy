/**
 * The dashboard's database: one record type per table the core reads or writes, and a `Db`
 * object whose fields are the tables. Every query of the core becomes a function over these
 * sequences; the sequence order stands for the order the database returns rows in.
 */
module Store {
  import opened Options

  type Id = string

  datatype Role = ADMIN | EDITOR | VIEWER

  /** The payload of the signed session cookie (its expiry is not modelled). */
  datatype Session = Session(userId: Id, organizationId: Id, role: Role)

  datatype User = User(id: Id, email: string, name: Option<string>, status: string)

  datatype Membership = Membership(organizationId: Id, userId: Id, role: Role, createdAt: int)

  datatype LoginToken = LoginToken(id: Id, userId: Id, tokenHash: string, expiresAt: int, usedAt: Option<int>)

  datatype Invitation = Invitation(
    id: Id, organizationId: Id, email: string, role: Role,
    tokenHash: string, expiresAt: int, acceptedAt: Option<int>, createdByUserId: Id)

  datatype Contact = Contact(
    id: Id, organizationId: Id, name: string,
    companyName: Option<string>, email: Option<string>, phone: Option<string>, note: Option<string>,
    createdAt: int, createdByUserId: Id, updatedByUserId: Id)

  datatype Template = Template(
    id: Id, organizationId: Id, name: string, subject: string,
    textBody: string, htmlBody: Option<string>, isArchived: bool,
    createdByUserId: Id, updatedByUserId: Id)

  datatype CampaignStatus = DRAFT | SENDING | SENT | FAILED

  datatype Campaign = Campaign(
    id: Id, organizationId: Id, templateId: Option<Id>, templateNameSnapshot: Option<string>,
    subjectSnapshot: string, textBodySnapshot: string, htmlBodySnapshot: Option<string>,
    status: CampaignStatus, totalCount: nat, sentCount: nat, failedCount: nat, skippedCount: nat,
    createdAt: int, createdByUserId: Id)

  datatype RecipientStatus = PENDING | SENT | FAILED | SKIPPED

  /** A campaign recipient row; rows are identified by their position in `Db.recipients`. */
  datatype Recipient = Recipient(
    campaignId: Id, contactId: Option<Id>, emailSnapshot: Option<string>, contactNameSnapshot: string,
    status: RecipientStatus, errorMessage: Option<string>, providerMessageId: Option<string>)

  /** The first position whose element satisfies `p`, as `findFirst`/`findUnique` return it. */
  function FindFirst<T>(s: seq<T>, p: T -> bool): (r: Option<nat>)
    ensures r.Some? ==> r.value < |s| && p(s[r.value]) && forall j :: 0 <= j < r.value ==> !p(s[j])
    ensures r.None? ==> forall j :: 0 <= j < |s| ==> !p(s[j])
  {
    if s == [] then None
    else if p(s[0]) then Some(0)
    else match FindFirst(s[1..], p)
      case None => None
      case Some(k) => Some(k + 1)
  }

  /** `user.findUnique({ where: { email } })`: the user with this address. */
  function UserByEmail(us: seq<User>, email: string): (r: Option<nat>)
    ensures r.Some? ==> r.value < |us| && us[r.value].email == email
    ensures r.None? ==> forall j :: 0 <= j < |us| ==> us[j].email != email
  {
    FindFirst(us, (u: User) => u.email == email)
  }

  ghost predicate MembershipsUnique(ms: seq<Membership>) {
    forall i, j :: 0 <= i < j < |ms| ==>
      ms[i].organizationId != ms[j].organizationId || ms[i].userId != ms[j].userId
  }

  ghost predicate UserEmailsUnique(us: seq<User>) {
    forall i, j :: 0 <= i < j < |us| ==> us[i].email != us[j].email
  }

  ghost predicate LoginTokenHashesUnique(ts: seq<LoginToken>) {
    forall i, j :: 0 <= i < j < |ts| ==> ts[i].tokenHash != ts[j].tokenHash
  }

  ghost predicate InvitationHashesUnique(vs: seq<Invitation>) {
    forall i, j :: 0 <= i < j < |vs| ==> vs[i].tokenHash != vs[j].tokenHash
  }

  ghost predicate HasCampaign(cs: seq<Campaign>, id: Id) {
    exists c :: c in cs && c.id == id
  }

  /** Every recipient row refers to an existing campaign (the foreign key). */
  ghost predicate RecipientsReferToCampaigns(rs: seq<Recipient>, cs: seq<Campaign>) {
    forall i :: 0 <= i < |rs| ==> HasCampaign(cs, rs[i].campaignId)
  }

  ghost predicate Consistent(users: seq<User>, memberships: seq<Membership>, loginTokens: seq<LoginToken>,
                             invitations: seq<Invitation>, campaigns: seq<Campaign>, recipients: seq<Recipient>) {
    && MembershipsUnique(memberships)
    && UserEmailsUnique(users)
    && LoginTokenHashesUnique(loginTokens)
    && InvitationHashesUnique(invitations)
    && RecipientsReferToCampaigns(recipients, campaigns)
  }

  class Db {
    var users: seq<User>
    var memberships: seq<Membership>
    var loginTokens: seq<LoginToken>
    var invitations: seq<Invitation>
    var contacts: seq<Contact>
    var templates: seq<Template>
    var campaigns: seq<Campaign>
    var recipients: seq<Recipient>

    /** The unique and foreign-key constraints of the schema that the core relies on. */
    ghost predicate Valid()
      reads this
    {
      Consistent(users, memberships, loginTokens, invitations, campaigns, recipients)
    }

    constructor ()
      ensures Valid()
      ensures users == [] && memberships == [] && loginTokens == [] && invitations == []
      ensures contacts == [] && templates == [] && campaigns == [] && recipients == []
    {
      users, memberships, loginTokens, invitations := [], [], [], [];
      contacts, templates, campaigns, recipients := [], [], [], [];
    }
  }
}
