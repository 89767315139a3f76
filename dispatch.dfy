/**
 * The `sendAction` server action of the compose page: form validation, the snapshot of the
 * campaign, one recipient row per resolved contact, the delivery loop over the PENDING rows
 * and the final aggregate. The mail gateway is a parameter: `gateway(k)` is the outcome of the
 * k-th `sendEmail` call of the dispatch.
 */
module Dispatch {
  import opened Options
  import opened Strings
  import opened Store
  import opened Compose

  /** The argument of `sendEmail`; `html` absent stands for `undefined`. */
  datatype SendArgs = SendArgs(to: string, subject: string, text: string, html: Option<string>)

  /** What one `sendEmail` call does: resolve with a message id, or throw. */
  datatype SendOutcome = Delivered(messageId: string) | SendFailed(error: Thrown)

  /** The submitted form: each field is absent when `formData.get` returns null. */
  datatype ComposeForm = ComposeForm(
    ids: Option<string>, templateId: Option<string>, subject: Option<string>,
    textBody: Option<string>, htmlBody: Option<string>)

  /** The normalised form of a dispatch that passed validation. */
  datatype Draft = Draft(ids: seq<Id>, templateId: Option<Id>, subject: string, textBody: string, htmlBody: Option<string>)

  /** Where the action redirects (the query string values before percent-encoding). */
  datatype Outcome = ToLogin | ToContacts | ToCompose(ids: string, templateId: string, err: string) | ToResult(campaignId: Id)

  datatype Checked = Rejected(outcome: Outcome) | Accepted(session: Session, draft: Draft)

  /** `String(x ?? "") || null`: the empty string becomes null. */
  function NonEmpty(s: string): (r: Option<string>)
    ensures r.None? <==> s == ""
    ensures r.Some? ==> r.value == s
  {
    if s == "" then None else Some(s)
  }

  /** The guards of `sendAction`, in order, and the normalisation of the form fields. */
  function ValidateSend(session: Option<Session>, form: ComposeForm): (r: Checked)
    ensures r.Accepted? <==>
      && session.Some? && session.value.role != VIEWER
      && ParseIds(Some(form.ids.GetOr(""))) != []
      && Trim(form.subject.GetOr("")) != ""
      && Trim(form.textBody.GetOr("")) != ""
    ensures r == Rejected(ToLogin) <==> session.None?
    ensures r == Rejected(ToContacts) <==>
      session.Some? && (session.value.role == VIEWER || ParseIds(Some(form.ids.GetOr(""))) == [])
    ensures r.Rejected? && r.outcome.ToCompose? ==>
      && r.outcome.ids == JoinWith(ParseIds(Some(form.ids.GetOr(""))), ",")
      && r.outcome.templateId == form.templateId.GetOr("")
      && r.outcome.err == (if Trim(form.subject.GetOr("")) == "" then "subject" else "body")
    ensures r.Accepted? ==>
      && r.session == session.value
      && r.draft.ids == ParseIds(Some(form.ids.GetOr("")))
      && (r.draft.templateId.None? <==> form.templateId.GetOr("") == "")
      && (r.draft.templateId.Some? ==> r.draft.templateId.value == form.templateId.value)
      && r.draft.subject == Trim(form.subject.GetOr("")) && IsTrimmed(r.draft.subject) && r.draft.subject != ""
      && r.draft.textBody == form.textBody.GetOr("")
      && (r.draft.htmlBody.None? <==> form.htmlBody.GetOr("") == "")
      && (r.draft.htmlBody.Some? ==> r.draft.htmlBody.value == form.htmlBody.value)
    ensures r.Rejected? ==> !r.outcome.ToResult?
  {
    if session.None? then Rejected(ToLogin)
    else if session.value.role == VIEWER then Rejected(ToContacts)
    else
      var ids := ParseIds(Some(form.ids.GetOr("")));
      if ids == [] then Rejected(ToContacts)
      else
        var templateId := NonEmpty(form.templateId.GetOr(""));
        var subject := Trim(form.subject.GetOr(""));
        var textBody := form.textBody.GetOr("");
        var htmlBody := NonEmpty(form.htmlBody.GetOr(""));
        if subject == "" then Rejected(ToCompose(JoinWith(ids, ","), templateId.GetOr(""), "subject"))
        else if Trim(textBody) == "" then Rejected(ToCompose(JoinWith(ids, ","), templateId.GetOr(""), "body"))
        else Accepted(session.value, Draft(ids, templateId, subject, textBody, htmlBody))
  }

  /** The org-scoped re-fetch of the selected contacts (`organizationId` and `id in ids`). */
  function ScopedContacts(contacts: seq<Contact>, org: Id, ids: seq<Id>): (r: seq<Contact>)
    ensures forall c :: c in r <==> c in contacts && c.organizationId == org && c.id in ids
    ensures |r| <= |contacts|
  {
    if contacts == [] then []
    else
      var rest := ScopedContacts(contacts[1..], org, ids);
      assert forall c :: c in contacts <==> c == contacts[0] || c in contacts[1..];
      if contacts[0].organizationId == org && contacts[0].id in ids then [contacts[0]] + rest else rest
  }

  /** The re-fetch keeps table order: it distributes over concatenation. */
  lemma {:induction false} ScopedContactsKeepsOrder(a: seq<Contact>, b: seq<Contact>, org: Id, ids: seq<Id>)
    ensures ScopedContacts(a + b, org, ids) == ScopedContacts(a, org, ids) + ScopedContacts(b, org, ids)
    decreases |a|
  {
    if a == [] {
      assert a + b == b;
    } else {
      assert (a + b)[0] == a[0] && (a + b)[1..] == a[1..] + b;
      ScopedContactsKeepsOrder(a[1..], b, org, ids);
    }
  }

  /** Each selected contact of the organisation is kept as often as the table holds it; no other contact is. */
  lemma {:induction false} ScopedContactsCounts(contacts: seq<Contact>, org: Id, ids: seq<Id>, c: Contact)
    ensures multiset(ScopedContacts(contacts, org, ids))[c] ==
      if c.organizationId == org && c.id in ids then multiset(contacts)[c] else 0
    decreases |contacts|
  {
    if contacts != [] {
      assert contacts == [contacts[0]] + contacts[1..];
      ScopedContactsCounts(contacts[1..], org, ids, c);
    }
  }

  /** The name of the selected template when it exists in the org and is not archived. */
  function TemplateNameSnapshot(templates: seq<Template>, org: Id, templateId: Option<Id>): (r: Option<string>)
    ensures r.Some? <==> (templateId.Some? &&
      exists t :: t in templates && t.id == templateId.value && t.organizationId == org && !t.isArchived)
    ensures r.Some? ==> exists t :: t in templates && t.name == r.value && t.id == templateId.value && t.organizationId == org && !t.isArchived
  {
    match templateId
    case None => None
    case Some(tid) =>
      var k := FindFirst(templates, (t: Template) => t.id == tid && t.organizationId == org && !t.isArchived);
      match k
      case None => None
      case Some(i) => Some(templates[i].name)
  }

  /** The recipient row of one contact: SKIPPED when the trimmed email is empty or null, else PENDING. */
  function Classify(c: Contact, campaignId: Id): (r: Recipient)
    ensures r.campaignId == campaignId && r.contactId == Some(c.id) && r.contactNameSnapshot == c.name
    ensures r.providerMessageId.None?
    ensures r.status == SKIPPED <==> Trim(c.email.GetOr("")) == ""
    ensures r.status == SKIPPED ==> r.emailSnapshot.None? && r.errorMessage == Some("email is missing")
    ensures r.status != SKIPPED ==> r.status == PENDING && r.emailSnapshot == Some(Trim(c.email.GetOr(""))) && r.errorMessage.None?
  {
    var email := NonEmpty(Trim(c.email.GetOr("")));
    if email.None? then Recipient(campaignId, Some(c.id), None, c.name, SKIPPED, Some("email is missing"), None)
    else Recipient(campaignId, Some(c.id), email, c.name, PENDING, None, None)
  }

  /** The preview's "sendable" mark: the email is present and not the empty string, untrimmed. */
  predicate ShownSendable(c: Contact) {
    c.email.Some? && c.email.value != ""
  }

  /**
   * Every contact that gets a PENDING row is shown as sendable; the two disagree exactly on a
   * non-empty email made of whitespace only, which is shown as sendable but gets a SKIPPED row.
   */
  lemma PreviewVersusClassify(c: Contact, campaignId: Id)
    ensures Classify(c, campaignId).status == PENDING ==> ShownSendable(c)
    ensures (ShownSendable(c) && Classify(c, campaignId).status == SKIPPED) <==>
      (c.email.Some? && c.email.value != "" && Trim(c.email.value) == "")
  {
  }

  /** `recipientsData`: one row per contact, in the order of the contacts. */
  function RecipientRows(contacts: seq<Contact>, campaignId: Id): (rows: seq<Recipient>)
    ensures |rows| == |contacts|
    ensures forall i :: 0 <= i < |rows| ==> rows[i] == Classify(contacts[i], campaignId)
  {
    seq(|contacts|, i requires 0 <= i < |contacts| => Classify(contacts[i], campaignId))
  }

  /** A row the pending query returns: of this campaign and with status PENDING. */
  predicate IsPendingOf(r: Recipient, campaignId: Id) {
    r.campaignId == campaignId && r.status == PENDING
  }

  /** The pending query: the positions of the PENDING rows of the campaign, in table order. */
  function PendingOf(rows: seq<Recipient>, campaignId: Id): (p: seq<nat>)
    ensures forall k :: 0 <= k < |p| ==> p[k] < |rows| && IsPendingOf(rows[p[k]], campaignId)
  {
    if rows == [] then []
    else
      var init := PendingOf(rows[..|rows| - 1], campaignId);
      if IsPendingOf(rows[|rows| - 1], campaignId) then init + [|rows| - 1] else init
  }

  /** 1 for a row the pending query returns, else 0. */
  function Inc(r: Recipient, campaignId: Id): nat {
    if IsPendingOf(r, campaignId) then 1 else 0
  }

  function CountPending(rows: seq<Recipient>, campaignId: Id): nat {
    if rows == [] then 0 else Inc(rows[0], campaignId) + CountPending(rows[1..], campaignId)
  }

  function CountStatus(rows: seq<Recipient>, st: RecipientStatus): nat {
    if rows == [] then 0
    else (if rows[0].status == st then 1 else 0) + CountStatus(rows[1..], st)
  }

  /** The row after its send attempt: SENT with the message id, or FAILED with the error text. */
  function Settle(r: Recipient, o: SendOutcome): (s: Recipient)
    ensures s.campaignId == r.campaignId && s.contactId == r.contactId
    ensures s.emailSnapshot == r.emailSnapshot && s.contactNameSnapshot == r.contactNameSnapshot
    ensures o.Delivered? ==> s.status == RecipientStatus.SENT && s.providerMessageId == Some(o.messageId) && s.errorMessage.None?
    ensures o.SendFailed? ==>
      s.status == RecipientStatus.FAILED && s.providerMessageId == r.providerMessageId && s.errorMessage == Some(ToErrorMessage(o.error))
  {
    match o
    case Delivered(m) => r.(status := RecipientStatus.SENT, providerMessageId := Some(m), errorMessage := None)
    case SendFailed(e) => r.(status := RecipientStatus.FAILED, errorMessage := Some(ToErrorMessage(e)))
  }

  /**
   * The table after the delivery loop: the PENDING rows of the campaign are settled in table
   * order, the first of them with `gateway(k)`, the next with `gateway(k + 1)`, and so on.
   */
  function Dispatch(rows: seq<Recipient>, campaignId: Id, gateway: nat -> SendOutcome, k: nat): (out: seq<Recipient>)
    ensures |out| == |rows|
  {
    if rows == [] then []
    else [Step(rows[0], campaignId, gateway, k)] + Dispatch(rows[1..], campaignId, gateway, k + Inc(rows[0], campaignId))
  }

  /** A row of the table after the loop, given the index of the call that settles it if it is pending. */
  function Step(r: Recipient, campaignId: Id, gateway: nat -> SendOutcome, k: nat): Recipient {
    if IsPendingOf(r, campaignId) then Settle(r, gateway(k)) else r
  }

  /** The `k`-th call of the gateway; only a name, so that the counting lemmas have a term to trigger on. */
  function Call(gateway: nat -> SendOutcome, k: nat): SendOutcome {
    gateway(k)
  }

  /** The number of calls among `gateway(k)`, …, `gateway(k + n - 1)` that deliver. */
  function Successes(gateway: nat -> SendOutcome, k: nat, n: nat): (r: nat)
    ensures r <= n
    decreases n
  {
    if n == 0 then 0 else (if gateway(k).Delivered? then 1 else 0) + Successes(gateway, k + 1, n - 1)
  }

  /** The number of calls among `gateway(k)`, …, `gateway(k + n - 1)` that throw. */
  function Failures(gateway: nat -> SendOutcome, k: nat, n: nat): (r: nat)
    ensures r <= n
    decreases n
  {
    if n == 0 then 0 else (if gateway(k).SendFailed? then 1 else 0) + Failures(gateway, k + 1, n - 1)
  }

  // ---- Lemmas about the specification functions ---------------------------------------

  lemma {:induction false} SuccessesSnoc(gateway: nat -> SendOutcome, k: nat, n: nat)
    ensures Successes(gateway, k, n + 1) == Successes(gateway, k, n) + (if Call(gateway, k + n).Delivered? then 1 else 0)
    ensures Failures(gateway, k, n + 1) == Failures(gateway, k, n) + (if Call(gateway, k + n).SendFailed? then 1 else 0)
    decreases n
  {
    if n > 0 {
      SuccessesSnoc(gateway, k + 1, n - 1);
    }
  }

  /** Every call either delivers or throws. */
  lemma {:induction false} SuccessesAndFailures(gateway: nat -> SendOutcome, k: nat, n: nat)
    ensures Successes(gateway, k, n) + Failures(gateway, k, n) == n
    decreases n
  {
    if n > 0 {
      SuccessesAndFailures(gateway, k + 1, n - 1);
    }
  }

  lemma {:induction false} CountPendingAppend(a: seq<Recipient>, b: seq<Recipient>, campaignId: Id)
    ensures CountPending(a + b, campaignId) == CountPending(a, campaignId) + CountPending(b, campaignId)
    decreases |a|
  {
    if a != [] {
      assert (a + b)[0] == a[0];
      assert (a + b)[1..] == a[1..] + b;
      CountPendingAppend(a[1..], b, campaignId);
    } else {
      assert a + b == b;
    }
  }

  lemma {:induction false} DispatchAppend(a: seq<Recipient>, b: seq<Recipient>, campaignId: Id, gateway: nat -> SendOutcome, k: nat)
    ensures Dispatch(a + b, campaignId, gateway, k) ==
      Dispatch(a, campaignId, gateway, k) + Dispatch(b, campaignId, gateway, k + CountPending(a, campaignId))
    decreases |a|
  {
    if a == [] {
      assert a + b == b;
    } else {
      assert (a + b)[0] == a[0];
      assert (a + b)[1..] == a[1..] + b;
      DispatchAppend(a[1..], b, campaignId, gateway, k + Inc(a[0], campaignId));
    }
  }

  /** Rows with nothing pending for the campaign are left as they are. */
  lemma {:induction false} DispatchNothingPending(rows: seq<Recipient>, campaignId: Id, gateway: nat -> SendOutcome, k: nat)
    requires forall i :: 0 <= i < |rows| ==> !IsPendingOf(rows[i], campaignId)
    ensures Dispatch(rows, campaignId, gateway, k) == rows
    ensures CountPending(rows, campaignId) == 0
    decreases |rows|
  {
    if rows != [] {
      DispatchNothingPending(rows[1..], campaignId, gateway, k);
      assert [rows[0]] + rows[1..] == rows;
    }
  }

  lemma {:induction false} PendingOfCount(rows: seq<Recipient>, campaignId: Id)
    ensures |PendingOf(rows, campaignId)| == CountPending(rows, campaignId)
    decreases |rows|
  {
    if rows != [] {
      var init := rows[..|rows| - 1];
      PendingOfCount(init, campaignId);
      CountPendingAppend(init, [rows[|rows| - 1]], campaignId);
      assert init + [rows[|rows| - 1]] == rows;
    }
  }

  lemma {:induction false} NothingPendingOf(rows: seq<Recipient>, campaignId: Id)
    requires forall i :: 0 <= i < |rows| ==> rows[i].campaignId != campaignId
    ensures PendingOf(rows, campaignId) == []
    decreases |rows|
  {
    if rows != [] {
      NothingPendingOf(rows[..|rows| - 1], campaignId);
    }
  }

  /** The pending query over a table whose older rows belong to other campaigns. */
  lemma {:induction false} PendingOfShift(old_: seq<Recipient>, data: seq<Recipient>, campaignId: Id)
    requires forall i :: 0 <= i < |old_| ==> old_[i].campaignId != campaignId
    ensures var p := PendingOf(old_ + data, campaignId); var q := PendingOf(data, campaignId);
      |p| == |q| && forall k :: 0 <= k < |p| ==> p[k] == |old_| + q[k]
    decreases |data|
  {
    if data == [] {
      assert old_ + data == old_;
      assert PendingOf(data, campaignId) == [];
      NothingPendingOf(old_, campaignId);
    } else {
      var rows := old_ + data;
      assert rows[..|rows| - 1] == old_ + data[..|data| - 1];
      PendingOfShift(old_, data[..|data| - 1], campaignId);
    }
  }

  /** The row at position `i` after the loop: settled with the outcome of its own call. */
  lemma {:induction false} DispatchAt(rows: seq<Recipient>, campaignId: Id, gateway: nat -> SendOutcome, k: nat, i: nat)
    requires i < |rows|
    ensures Dispatch(rows, campaignId, gateway, k)[i] ==
      if IsPendingOf(rows[i], campaignId) then Settle(rows[i], gateway(k + CountPending(rows[..i], campaignId)))
      else rows[i]
    decreases i
  {
    if i > 0 {
      var k' := k + Inc(rows[0], campaignId);
      var front := rows[..i];
      assert front[0] == rows[0] && front[1..] == rows[1..][..i - 1];
      assert CountPending(front, campaignId) == Inc(rows[0], campaignId) + CountPending(rows[1..][..i - 1], campaignId);
      assert Dispatch(rows, campaignId, gateway, k)[i] == Dispatch(rows[1..], campaignId, gateway, k')[i - 1];
      DispatchAt(rows[1..], campaignId, gateway, k', i - 1);
      assert rows[1..][i - 1] == rows[i];
    }
  }

  /** Rows of one campaign that are PENDING or SKIPPED, as `recipientsData` builds them. */
  predicate FreshRows(rows: seq<Recipient>, campaignId: Id) {
    forall i :: 0 <= i < |rows| ==> rows[i].campaignId == campaignId && (rows[i].status == PENDING || rows[i].status == SKIPPED)
  }

  /**
   * After the loop no row is PENDING; the SENT rows are the calls that delivered, the FAILED
   * rows the calls that threw, and the SKIPPED rows are those of the input.
   */
  lemma DispatchCounts(rows: seq<Recipient>, campaignId: Id, gateway: nat -> SendOutcome, k: nat)
    requires FreshRows(rows, campaignId)
    ensures var out := Dispatch(rows, campaignId, gateway, k); var n := CountPending(rows, campaignId);
      && CountStatus(out, PENDING) == 0
      && CountStatus(out, RecipientStatus.SENT) == Successes(gateway, k, n)
      && CountStatus(out, RecipientStatus.FAILED) == Failures(gateway, k, n)
      && CountStatus(out, SKIPPED) == CountStatus(rows, SKIPPED)
      && |rows| == n + CountStatus(rows, SKIPPED)
  {
    DispatchSettles(rows, campaignId, gateway, k);
    DispatchSkips(rows, campaignId, gateway, k);
  }

  /** Fresh rows without their first row are fresh. */
  lemma FreshRowsTail(rows: seq<Recipient>, campaignId: Id)
    requires rows != [] && FreshRows(rows, campaignId)
    ensures FreshRows(rows[1..], campaignId) && rows[0].campaignId == campaignId
  {
    forall i | 0 <= i < |rows[1..]| ensures rows[1..][i] == rows[i + 1] { }
  }

  /** The PENDING rows become SENT or FAILED, one per call. */
  lemma {:induction false} DispatchSettles(rows: seq<Recipient>, campaignId: Id, gateway: nat -> SendOutcome, k: nat)
    requires FreshRows(rows, campaignId)
    ensures var out := Dispatch(rows, campaignId, gateway, k); var n := CountPending(rows, campaignId);
      && CountStatus(out, PENDING) == 0
      && CountStatus(out, RecipientStatus.SENT) == Successes(gateway, k, n)
      && CountStatus(out, RecipientStatus.FAILED) == Failures(gateway, k, n)
    decreases |rows|
  {
    if rows != [] {
      FreshRowsTail(rows, campaignId);
      var out := Dispatch(rows, campaignId, gateway, k);
      var j := k + Inc(rows[0], campaignId);
      assert out[0] == Step(rows[0], campaignId, gateway, k) && out[1..] == Dispatch(rows[1..], campaignId, gateway, j);
      DispatchSettles(rows[1..], campaignId, gateway, j);
    }
  }

  /** The SKIPPED rows stay SKIPPED, and every fresh row is PENDING or SKIPPED. */
  lemma {:induction false} DispatchSkips(rows: seq<Recipient>, campaignId: Id, gateway: nat -> SendOutcome, k: nat)
    requires FreshRows(rows, campaignId)
    ensures CountStatus(Dispatch(rows, campaignId, gateway, k), SKIPPED) == CountStatus(rows, SKIPPED)
    ensures |rows| == CountPending(rows, campaignId) + CountStatus(rows, SKIPPED)
    decreases |rows|
  {
    if rows != [] {
      FreshRowsTail(rows, campaignId);
      var out := Dispatch(rows, campaignId, gateway, k);
      var j := k + Inc(rows[0], campaignId);
      assert out[0] == Step(rows[0], campaignId, gateway, k) && out[1..] == Dispatch(rows[1..], campaignId, gateway, j);
      DispatchSkips(rows[1..], campaignId, gateway, j);
    }
  }

  lemma RecipientRowsFresh(contacts: seq<Contact>, campaignId: Id)
    ensures FreshRows(RecipientRows(contacts, campaignId), campaignId)
  {
  }

  // ---- Rendering of one send --------------------------------------------------------------

  /** `new Map(contacts2.map((c) => [c.id, c])).get(id)`: the last contact with that id. */
  function LookupContact(contacts: seq<Contact>, id: Id): (r: Option<Contact>)
    ensures r.Some? ==> r.value in contacts && r.value.id == id
    ensures r.None? <==> forall c :: c in contacts ==> c.id != id
  {
    if contacts == [] then None
    else if contacts[|contacts| - 1].id == id then Some(contacts[|contacts| - 1])
    else
      var r := LookupContact(contacts[..|contacts| - 1], id);
      assert forall c :: c in contacts <==> c in contacts[..|contacts| - 1] || c == contacts[|contacts| - 1] by {
        assert contacts == contacts[..|contacts| - 1] + [contacts[|contacts| - 1]];
      }
      r
  }

  /** The contact a PENDING row is rendered with: none when `contactId` is null or "". */
  function ContactOf(r: Recipient, contacts: seq<Contact>): (c: Option<Contact>)
    ensures c.Some? ==> r.contactId.Some? && c.value in contacts && c.value.id == r.contactId.value
    ensures c.None? <==>
      r.contactId.None? || r.contactId.value == "" || forall x :: x in contacts ==> x.id != r.contactId.value
  {
    if r.contactId.Some? && r.contactId.value != "" then LookupContact(contacts, r.contactId.value) else None
  }

  /** A text is rendered with the row's contact when there is one; it is sent as written otherwise. */
  function Render(text: string, c: Option<Contact>): (r: string)
    ensures c.None? || !HasPlaceholder(text) ==> r == text
  {
    match c
    case Some(x) => ApplyVars(text, x)
    case None => text
  }

  /** The `sendEmail` argument for one PENDING row. */
  function RenderArgs(r: Recipient, contacts: seq<Contact>, d: Draft): (a: SendArgs)
  {
    var c := ContactOf(r, contacts);
    SendArgs(
      r.emailSnapshot.GetOr(""),
      Render(d.subject, c),
      Render(d.textBody, c),
      if d.htmlBody.Some? then Some(Render(d.htmlBody.value, c)) else None)
  }

  /** Every PENDING row built from a contact is sent to its trimmed email and rendered with that contact. */
  lemma RenderClassified(c: Contact, contacts: seq<Contact>, campaignId: Id, d: Draft)
    requires c in contacts && c.id != ""
    requires forall x :: x in contacts && x.id == c.id ==> x == c
    requires Classify(c, campaignId).status == PENDING
    ensures var a := RenderArgs(Classify(c, campaignId), contacts, d);
      && a.to == Trim(c.email.GetOr("")) && a.to != ""
      && a.subject == ApplyVars(d.subject, c) && a.text == ApplyVars(d.textBody, c)
      && (a.html.None? <==> d.htmlBody.None?)
      && (a.html.Some? ==> a.html.value == ApplyVars(d.htmlBody.value, c))
  {
  }

  /** A row whose contact is not among the fetched ones is sent the draft as it was written. */
  lemma RenderUnresolved(r: Recipient, contacts: seq<Contact>, d: Draft)
    requires r.contactId.None? || r.contactId.value == "" || forall c :: c in contacts ==> c.id != r.contactId.value
    ensures var a := RenderArgs(r, contacts, d);
      a == SendArgs(r.emailSnapshot.GetOr(""), d.subject, d.textBody, d.htmlBody)
  {
  }

  /**
   * Where no field of the row's contact holds `$`, the subject, text and html sent are exactly what
   * the code as written renders.
   */
  lemma RenderAsWritten(r: Recipient, contacts: seq<Contact>, d: Draft)
    requires ContactOf(r, contacts).Some? ==> NoDollar(ContactOf(r, contacts).value)
    ensures var a := RenderArgs(r, contacts, d);
      var c := ContactOf(r, contacts);
      && (c.Some? ==> a.subject == ApplyVarsAsWritten(d.subject, c.value))
      && (c.Some? ==> a.text == ApplyVarsAsWritten(d.textBody, c.value))
      && (c.Some? && d.htmlBody.Some? ==> a.html == Some(ApplyVarsAsWritten(d.htmlBody.value, c.value)))
  {
  }

  // ---- The campaign aggregate ---------------------------------------------------------------

  /** The final update of the campaign: counts, and FAILED iff one send failed. */
  function Finish(c: Campaign, total: nat, sent: nat, failed: nat, skipped: nat): (f: Campaign)
    ensures f.status == (if failed > 0 then CampaignStatus.FAILED else CampaignStatus.SENT)
    ensures f.totalCount == total && f.sentCount == sent && f.failedCount == failed && f.skippedCount == skipped
    ensures f.id == c.id && f.organizationId == c.organizationId && f.createdByUserId == c.createdByUserId
    ensures f.templateId == c.templateId && f.templateNameSnapshot == c.templateNameSnapshot
    ensures f.subjectSnapshot == c.subjectSnapshot && f.textBodySnapshot == c.textBodySnapshot
    ensures f.htmlBodySnapshot == c.htmlBodySnapshot && f.createdAt == c.createdAt
  {
    c.(status := if failed > 0 then CampaignStatus.FAILED else CampaignStatus.SENT,
       totalCount := total, sentCount := sent, failedCount := failed, skippedCount := skipped)
  }

  /** The campaign row as it is created: the snapshots of the draft, status SENDING, counts 0. */
  function NewCampaign(campaignId: Id, s: Session, d: Draft, nameSnapshot: Option<string>, now: int): (c: Campaign)
    ensures c.id == campaignId && c.organizationId == s.organizationId && c.createdByUserId == s.userId
    ensures c.status == SENDING && c.totalCount == 0
    ensures c.subjectSnapshot == d.subject && c.textBodySnapshot == d.textBody && c.htmlBodySnapshot == d.htmlBody
    ensures c.templateId == d.templateId && c.templateNameSnapshot == nameSnapshot
  {
    Campaign(campaignId, s.organizationId, d.templateId, nameSnapshot, d.subject, d.textBody, d.htmlBody,
      SENDING, 0, 0, 0, 0, now, s.userId)
  }

  /**
   * The aggregate the action writes: `totalCount` is the number of rows and the sum of the
   * three counts, which are the numbers of SENT, FAILED and SKIPPED rows after the loop; the
   * status is FAILED exactly when one send failed.
   */
  lemma AggregateConsistent(contacts: seq<Contact>, c: Campaign, campaignId: Id, gateway: nat -> SendOutcome)
    ensures var data := RecipientRows(contacts, campaignId);
      var out := Dispatch(data, campaignId, gateway, 0);
      var n := CountPending(data, campaignId);
      var sent := Successes(gateway, 0, n);
      var f := Finish(c, |data|, sent, Failures(gateway, 0, n), CountStatus(data, SKIPPED));
      && f.totalCount == f.sentCount + f.failedCount + f.skippedCount
      && f.sentCount == CountStatus(out, RecipientStatus.SENT)
      && f.failedCount == CountStatus(out, RecipientStatus.FAILED)
      && f.skippedCount == CountStatus(out, SKIPPED)
      && CountStatus(out, PENDING) == 0
      && (f.status == CampaignStatus.FAILED <==> CountStatus(out, RecipientStatus.FAILED) > 0)
  {
    var data := RecipientRows(contacts, campaignId);
    RecipientRowsFresh(contacts, campaignId);
    DispatchCounts(data, campaignId, gateway, 0);
    SuccessesAndFailures(gateway, 0, CountPending(data, campaignId));
  }

  // ---- The delivery loop --------------------------------------------------------------------

  /**
   * The table after the first k iterations of the delivery loop over the positions `pending`:
   * each iteration settles the row at the current position with the outcome of its own call.
   */
  function Progress(t0: seq<Recipient>, gateway: nat -> SendOutcome, pending: seq<nat>, k: nat): (rows: seq<Recipient>)
    requires k <= |pending|
    ensures |rows| == |t0|
    decreases k
  {
    if k == 0 then t0
    else
      var rows := Progress(t0, gateway, pending, k - 1);
      var i := pending[k - 1];
      if i < |rows| then rows[i := Settle(rows[i], gateway(k - 1))] else rows
  }

  /** The `sendEmail` arguments of the first k iterations. */
  function Calls(t0: seq<Recipient>, contacts: seq<Contact>, d: Draft, pending: seq<nat>, k: nat): (calls: seq<SendArgs>)
    requires k <= |pending| && forall j :: 0 <= j < |pending| ==> pending[j] < |t0|
    ensures |calls| == k
    decreases k
  {
    if k == 0 then [] else Calls(t0, contacts, d, pending, k - 1) + [RenderArgs(t0[pending[k - 1]], contacts, d)]
  }

  lemma {:induction false} CallsAt(t0: seq<Recipient>, contacts: seq<Contact>, d: Draft, pending: seq<nat>, k: nat)
    requires k <= |pending| && forall j :: 0 <= j < |pending| ==> pending[j] < |t0|
    ensures forall j :: 0 <= j < k ==> Calls(t0, contacts, d, pending, k)[j] == RenderArgs(t0[pending[j]], contacts, d)
    decreases k
  {
    if k > 0 {
      CallsAt(t0, contacts, d, pending, k - 1);
    }
  }

  lemma UpdateLast<T>(s: seq<T>, x: T, v: T)
    ensures (s + [x])[|s| := v] == s + [v]
  {
  }

  lemma UpdateInPrefix<T>(s: seq<T>, x: T, i: nat, v: T)
    requires i < |s|
    ensures (s + [x])[i := v] == s[i := v] + [x]
  {
  }

  /** Iterations over positions of a prefix of the table leave the last row alone. */
  lemma {:induction false} ProgressOnPrefix(init: seq<Recipient>, x: Recipient, gateway: nat -> SendOutcome,
                                            pending: seq<nat>, pre: seq<nat>, k: nat)
    requires pre <= pending && k <= |pre|
    requires forall j :: 0 <= j < |pending| ==> pending[j] < |init| + 1
    requires forall j :: 0 <= j < |pre| ==> pre[j] < |init|
    ensures Progress(init + [x], gateway, pending, k) == Progress(init, gateway, pre, k) + [x]
    decreases k
  {
    if k > 0 {
      ProgressOnPrefix(init, x, gateway, pending, pre, k - 1);
      var base := Progress(init, gateway, pre, k - 1);
      var i := pre[k - 1];
      assert pending[k - 1] == i && i < |init|;
      UpdateInPrefix(base, x, i, Settle(base[i], gateway(k - 1)));
    }
  }

  /** Running the loop over the whole pending query yields `Dispatch` of the table. */
  lemma {:induction false} ProgressComplete(t0: seq<Recipient>, campaignId: Id, gateway: nat -> SendOutcome)
    ensures var pending := PendingOf(t0, campaignId);
      && Progress(t0, gateway, pending, |pending|) == Dispatch(t0, campaignId, gateway, 0)
      && |pending| == CountPending(t0, campaignId)
    decreases |t0|
  {
    PendingOfCount(t0, campaignId);
    if t0 != [] {
      var init := t0[..|t0| - 1];
      var x := t0[|t0| - 1];
      assert t0 == init + [x];
      ProgressComplete(init, campaignId, gateway);
      ProgressSnoc(init, x, campaignId, gateway);
    }
  }

  /** One iteration of the loop, unfolded. */
  lemma ProgressStep(t0: seq<Recipient>, gateway: nat -> SendOutcome, pending: seq<nat>, k: nat)
    requires k < |pending| && pending[k] < |t0|
    ensures var rows := Progress(t0, gateway, pending, k);
      Progress(t0, gateway, pending, k + 1) == rows[pending[k] := Settle(rows[pending[k]], gateway(k))]
  {
  }

  lemma DispatchOne(x: Recipient, campaignId: Id, gateway: nat -> SendOutcome, k: nat)
    ensures Dispatch([x], campaignId, gateway, k) == [if IsPendingOf(x, campaignId) then Settle(x, gateway(k)) else x]
  {
    assert [x][1..] == [];
  }

  /** The induction step of `ProgressComplete`: one more row at the end of the table. */
  lemma ProgressSnoc(init: seq<Recipient>, x: Recipient, campaignId: Id, gateway: nat -> SendOutcome)
    requires var pre := PendingOf(init, campaignId);
      Progress(init, gateway, pre, |pre|) == Dispatch(init, campaignId, gateway, 0)
    ensures var pending := PendingOf(init + [x], campaignId);
      Progress(init + [x], gateway, pending, |pending|) == Dispatch(init + [x], campaignId, gateway, 0)
  {
    DispatchSnoc(init, x, campaignId, gateway);
    ProgressSnocRow(init, x, campaignId, gateway);
  }

  /** `Dispatch` over a table with one more row at the end: the row gets the next call. */
  lemma DispatchSnoc(init: seq<Recipient>, x: Recipient, campaignId: Id, gateway: nat -> SendOutcome)
    ensures Dispatch(init + [x], campaignId, gateway, 0) ==
      Dispatch(init, campaignId, gateway, 0) + [Step(x, campaignId, gateway, |PendingOf(init, campaignId)|)]
  {
    PendingOfCount(init, campaignId);
    DispatchAppend(init, [x], campaignId, gateway, 0);
    DispatchOne(x, campaignId, gateway, CountPending(init, campaignId));
  }

  /** The loop over a table with one more row at the end: the row gets the next call. */
  lemma ProgressSnocRow(init: seq<Recipient>, x: Recipient, campaignId: Id, gateway: nat -> SendOutcome)
    ensures var pre := PendingOf(init, campaignId); var pending := PendingOf(init + [x], campaignId);
      Progress(init + [x], gateway, pending, |pending|) ==
      Progress(init, gateway, pre, |pre|) + [Step(x, campaignId, gateway, |pre|)]
  {
    var pre := PendingOf(init, campaignId);
    var pending := PendingOf(init + [x], campaignId);
    PendingOfSnoc(init, x, campaignId);
    ProgressOnPrefix(init, x, gateway, pending, pre, |pre|);
    if IsPendingOf(x, campaignId) {
      ProgressSnocPending(init, x, campaignId, gateway, pre, pending);
    }
  }

  lemma PendingOfSnoc(init: seq<Recipient>, x: Recipient, campaignId: Id)
    ensures PendingOf(init + [x], campaignId) ==
      if IsPendingOf(x, campaignId) then PendingOf(init, campaignId) + [|init|] else PendingOf(init, campaignId)
  {
    var t0 := init + [x];
    assert t0[..|t0| - 1] == init;
  }

  lemma ProgressSnocPending(init: seq<Recipient>, x: Recipient, campaignId: Id, gateway: nat -> SendOutcome,
                            pre: seq<nat>, pending: seq<nat>)
    requires IsPendingOf(x, campaignId)
    requires pending == pre + [|init|]
    requires Progress(init + [x], gateway, pending, |pre|) == Progress(init, gateway, pre, |pre|) + [x]
    ensures Progress(init + [x], gateway, pending, |pending|) == Progress(init, gateway, pre, |pre|) + [Settle(x, gateway(|pre|))]
  {
    var base := Progress(init, gateway, pre, |pre|);
    var v := Settle(x, gateway(|pre|));
    ProgressLastStep(init, x, gateway, pre, pending);
    UpdateLast(base, x, v);
  }

  lemma ProgressLastStep(init: seq<Recipient>, x: Recipient, gateway: nat -> SendOutcome, pre: seq<nat>, pending: seq<nat>)
    requires pending == pre + [|init|]
    requires Progress(init + [x], gateway, pending, |pre|) == Progress(init, gateway, pre, |pre|) + [x]
    ensures |Progress(init, gateway, pre, |pre|)| == |init| && |pending| == |pre| + 1
    ensures Progress(init + [x], gateway, pending, |pending|) ==
      (Progress(init, gateway, pre, |pre|) + [x])[|init| := Settle(x, gateway(|pre|))]
  {
    var n := |pre|;
    var rows := Progress(init + [x], gateway, pending, n);
    assert pending[n] == |init|;
    assert rows[|init|] == x;
    ProgressStep(init + [x], gateway, pending, n);
  }

  // ---- The action ---------------------------------------------------------------------------

  /**
   * The delivery loop: one `sendEmail` call per PENDING row of the campaign, in table order;
   * a failure is recorded on its row and the loop goes on.
   */
  method DeliverPending(db: Db, campaignId: Id, contacts: seq<Contact>, d: Draft, gateway: nat -> SendOutcome)
    returns (sent: nat, failed: nat, calls: seq<SendArgs>)
    modifies db`recipients
    ensures db.recipients == Dispatch(old(db.recipients), campaignId, gateway, 0)
    ensures var p := PendingOf(old(db.recipients), campaignId);
      && |calls| == |p| == CountPending(old(db.recipients), campaignId)
      && (forall k :: 0 <= k < |p| ==> calls[k] == RenderArgs(old(db.recipients)[p[k]], contacts, d))
      && sent == Successes(gateway, 0, |p|) && failed == Failures(gateway, 0, |p|)
  {
    var t0 := db.recipients;
    var pending := PendingOf(t0, campaignId);
    sent, failed, calls := SettlePending(db, pending, contacts, d, gateway);
    DeliveryComplete(t0, campaignId, contacts, d, gateway);
  }

  /** The loop itself: the k-th listed row is rendered, sent with `gateway(k)` and settled. */
  method SettlePending(db: Db, pending: seq<nat>, contacts: seq<Contact>, d: Draft, gateway: nat -> SendOutcome)
    returns (sent: nat, failed: nat, calls: seq<SendArgs>)
    requires forall j :: 0 <= j < |pending| ==> pending[j] < |db.recipients|
    modifies db`recipients
    ensures db.recipients == Progress(old(db.recipients), gateway, pending, |pending|)
    ensures calls == Calls(old(db.recipients), contacts, d, pending, |pending|)
    ensures sent == Successes(gateway, 0, |pending|) && failed == Failures(gateway, 0, |pending|)
  {
    var t0 := db.recipients;
    sent, failed, calls := 0, 0, [];
    for k := 0 to |pending|
      invariant db.recipients == Progress(t0, gateway, pending, k)
      invariant calls == Calls(t0, contacts, d, pending, k)
      invariant sent == Successes(gateway, 0, k) && failed == Failures(gateway, 0, k)
    {
      var o := Call(gateway, k);
      calls := calls + [RenderArgs(t0[pending[k]], contacts, d)];
      db.recipients := db.recipients[pending[k] := Settle(db.recipients[pending[k]], o)];
      SuccessesSnoc(gateway, 0, k);
      sent, failed := sent + (if o.Delivered? then 1 else 0), failed + (if o.SendFailed? then 1 else 0);
    }
  }

  /** What the delivery loop has done once every pending row is settled. */
  lemma DeliveryComplete(t0: seq<Recipient>, campaignId: Id, contacts: seq<Contact>, d: Draft, gateway: nat -> SendOutcome)
    ensures var p := PendingOf(t0, campaignId);
      && Progress(t0, gateway, p, |p|) == Dispatch(t0, campaignId, gateway, 0)
      && |p| == CountPending(t0, campaignId)
      && (forall k :: 0 <= k < |p| ==> Calls(t0, contacts, d, p, |p|)[k] == RenderArgs(t0[p[k]], contacts, d))
      && Successes(gateway, 0, |p|) + Failures(gateway, 0, |p|) == |p|
  {
    var p := PendingOf(t0, campaignId);
    ProgressComplete(t0, campaignId, gateway);
    CallsAt(t0, contacts, d, p, |p|);
    SuccessesAndFailures(gateway, 0, |p|);
  }

  /** Settling rows never moves a row to another campaign. */
  lemma DispatchKeepsCampaigns(rows: seq<Recipient>, campaignId: Id, gateway: nat -> SendOutcome)
    ensures var out := Dispatch(rows, campaignId, gateway, 0);
      forall i :: 0 <= i < |rows| ==> out[i].campaignId == rows[i].campaignId
  {
    forall i | 0 <= i < |rows|
      ensures Dispatch(rows, campaignId, gateway, 0)[i].campaignId == rows[i].campaignId
    {
      DispatchAt(rows, campaignId, gateway, 0, i);
    }
  }

  /** Rows of other campaigns in front of the new rows are neither sent nor counted. */
  lemma DispatchAfterOthers(old_: seq<Recipient>, data: seq<Recipient>, campaignId: Id, gateway: nat -> SendOutcome)
    requires forall i :: 0 <= i < |old_| ==> old_[i].campaignId != campaignId
    ensures Dispatch(old_ + data, campaignId, gateway, 0) == old_ + Dispatch(data, campaignId, gateway, 0)
    ensures CountPending(old_ + data, campaignId) == CountPending(data, campaignId)
  {
    DispatchAppend(old_, data, campaignId, gateway, 0);
    DispatchNothingPending(old_, campaignId, gateway, 0);
    CountPendingAppend(old_, data, campaignId);
  }

  /** The k-th call of the loop over the whole table is the k-th call over the new rows. */
  lemma CallsAfterOthers(old_: seq<Recipient>, data: seq<Recipient>, campaignId: Id, contacts: seq<Contact>, d: Draft,
                         calls: seq<SendArgs>)
    requires forall i :: 0 <= i < |old_| ==> old_[i].campaignId != campaignId
    requires var p := PendingOf(old_ + data, campaignId);
      |calls| == |p| && forall k :: 0 <= k < |p| ==> calls[k] == RenderArgs((old_ + data)[p[k]], contacts, d)
    ensures var q := PendingOf(data, campaignId);
      |calls| == |q| && forall k :: 0 <= k < |q| ==> calls[k] == RenderArgs(data[q[k]], contacts, d)
  {
    PendingOfShift(old_, data, campaignId);
    var p := PendingOf(old_ + data, campaignId);
    var q := PendingOf(data, campaignId);
    forall k | 0 <= k < |q| ensures calls[k] == RenderArgs(data[q[k]], contacts, d) {
      assert p[k] == |old_| + q[k];
      assert (old_ + data)[p[k]] == data[q[k]];
    }
  }

  /**
   * `sendAction`. A rejected form changes nothing. An accepted one appends the campaign and one
   * row per resolved contact, sends to every PENDING row, and records the aggregate. The id of
   * the new campaign and the clock are parameters; the id is one no campaign has yet.
   */
  method SendAction(db: Db, session: Option<Session>, form: ComposeForm, campaignId: Id, now: int, gateway: nat -> SendOutcome)
    returns (outcome: Outcome, calls: seq<SendArgs>)
    requires db.Valid() && !HasCampaign(db.campaigns, campaignId)
    modifies db`campaigns, db`recipients
    ensures db.Valid()
    ensures ValidateSend(session, form).Rejected? ==>
      outcome == ValidateSend(session, form).outcome && calls == [] && unchanged(db)
    ensures ValidateSend(session, form).Accepted? ==>
      var s := ValidateSend(session, form).session;
      var d := ValidateSend(session, form).draft;
      var contacts := ScopedContacts(old(db.contacts), s.organizationId, d.ids);
      var data := RecipientRows(contacts, campaignId);
      var q := PendingOf(data, campaignId);
      var c := NewCampaign(campaignId, s, d, TemplateNameSnapshot(old(db.templates), s.organizationId, d.templateId), now);
      && outcome == ToResult(campaignId)
      && db.recipients == old(db.recipients) + Dispatch(data, campaignId, gateway, 0)
      && db.campaigns == old(db.campaigns) + [Finish(c, |data|, Successes(gateway, 0, |q|), Failures(gateway, 0, |q|), CountStatus(data, SKIPPED))]
      && |calls| == |q| == CountPending(data, campaignId)
      && (forall k :: 0 <= k < |q| ==> calls[k] == RenderArgs(data[q[k]], contacts, d))
  {
    var checked := ValidateSend(session, form);
    if checked.Rejected? {
      return checked.outcome, [];
    }
    calls := Send(db, checked.session, checked.draft, campaignId, now, gateway);
    outcome := ToResult(campaignId);
  }

  /** The part of `sendAction` after validation: from the creation of the campaign to its final update. */
  method Send(db: Db, s: Session, d: Draft, campaignId: Id, now: int, gateway: nat -> SendOutcome)
    returns (calls: seq<SendArgs>)
    requires db.Valid() && !HasCampaign(db.campaigns, campaignId)
    modifies db`campaigns, db`recipients
    ensures db.Valid()
    ensures var contacts := ScopedContacts(old(db.contacts), s.organizationId, d.ids);
      var data := RecipientRows(contacts, campaignId);
      var q := PendingOf(data, campaignId);
      var c := NewCampaign(campaignId, s, d, TemplateNameSnapshot(old(db.templates), s.organizationId, d.templateId), now);
      && db.recipients == old(db.recipients) + Dispatch(data, campaignId, gateway, 0)
      && db.campaigns == old(db.campaigns) + [Finish(c, |data|, Successes(gateway, 0, |q|), Failures(gateway, 0, |q|), CountStatus(data, SKIPPED))]
      && |calls| == |q| == CountPending(data, campaignId)
      && (forall k :: 0 <= k < |q| ==> calls[k] == RenderArgs(data[q[k]], contacts, d))
  {
    var contacts := ScopedContacts(db.contacts, s.organizationId, d.ids);
    var nameSnapshot := TemplateNameSnapshot(db.templates, s.organizationId, d.templateId);
    var created := NewCampaign(campaignId, s, d, nameSnapshot, now);
    var data := RecipientRows(contacts, campaignId);
    RecipientRowsFresh(contacts, campaignId);
    calls := Publish(db, created, contacts, data, d, gateway);
  }

  /**
   * The store updates of `sendAction`: create the campaign `c` as SENDING, insert its rows
   * `data`, run the delivery loop, then write the counts and the final status.
   */
  method Publish(db: Db, c: Campaign, contacts: seq<Contact>, data: seq<Recipient>, d: Draft, gateway: nat -> SendOutcome)
    returns (calls: seq<SendArgs>)
    requires db.Valid() && !HasCampaign(db.campaigns, c.id) && FreshRows(data, c.id)
    modifies db`campaigns, db`recipients
    ensures db.Valid()
    ensures var q := PendingOf(data, c.id);
      && db.recipients == old(db.recipients) + Dispatch(data, c.id, gateway, 0)
      && db.campaigns == old(db.campaigns) + [Finish(c, |data|, Successes(gateway, 0, |q|), Failures(gateway, 0, |q|), CountStatus(data, SKIPPED))]
      && |calls| == |q| == CountPending(data, c.id)
      && (forall k :: 0 <= k < |q| ==> calls[k] == RenderArgs(data[q[k]], contacts, d))
  {
    ghost var users, memberships, loginTokens, invitations := db.users, db.memberships, db.loginTokens, db.invitations;
    ghost var oldRecipients, oldCampaigns := db.recipients, db.campaigns;
    assert Consistent(users, memberships, loginTokens, invitations, oldCampaigns, oldRecipients);

    var idx := |db.campaigns|;
    db.campaigns := db.campaigns + [c];
    db.recipients := db.recipients + data;

    assert forall i :: 0 <= i < |oldRecipients| ==> oldRecipients[i].campaignId != c.id;
    var sent, failed;
    sent, failed, calls := DeliverPending(db, c.id, contacts, d, gateway);
    assert db.users == users && db.memberships == memberships && db.loginTokens == loginTokens && db.invitations == invitations;
    assert db.campaigns == oldCampaigns + [c];
    assert db.recipients == oldRecipients + Dispatch(data, c.id, gateway, 0) by {
      DispatchAfterOthers(oldRecipients, data, c.id, gateway);
    }
    assert |calls| == |PendingOf(data, c.id)| == CountPending(data, c.id) by {
      CallsAfterOthers(oldRecipients, data, c.id, contacts, d, calls);
      PendingOfCount(data, c.id);
    }
    assert forall k :: 0 <= k < |calls| ==> calls[k] == RenderArgs(data[PendingOf(data, c.id)[k]], contacts, d) by {
      CallsAfterOthers(oldRecipients, data, c.id, contacts, d, calls);
    }

    var skipped := CountStatus(data, SKIPPED);
    var finished := Finish(db.campaigns[idx], |data|, sent, failed, skipped);
    UpdateLast(oldCampaigns, c, finished);
    db.campaigns := db.campaigns[idx := finished];

    assert Consistent(users, memberships, loginTokens, invitations, db.campaigns, db.recipients) by {
      ReferAfterSend(oldRecipients, data, oldCampaigns, finished, gateway);
    }
  }

  /** The foreign key after the action: old rows keep their campaigns, new rows point at the new one. */
  lemma ReferAfterSend(oldRows: seq<Recipient>, data: seq<Recipient>, oldCampaigns: seq<Campaign>, c: Campaign,
                       gateway: nat -> SendOutcome)
    requires RecipientsReferToCampaigns(oldRows, oldCampaigns)
    requires FreshRows(data, c.id)
    ensures RecipientsReferToCampaigns(Dispatch(oldRows + data, c.id, gateway, 0), oldCampaigns + [c])
  {
    var rows := oldRows + data;
    DispatchKeepsCampaigns(rows, c.id, gateway);
    var out := Dispatch(rows, c.id, gateway, 0);
    forall i | 0 <= i < |out| ensures HasCampaign(oldCampaigns + [c], out[i].campaignId) {
      if i < |oldRows| {
        assert out[i].campaignId == oldRows[i].campaignId;
        var x :| x in oldCampaigns && x.id == oldRows[i].campaignId;
        assert x in oldCampaigns + [c];
      } else {
        assert out[i].campaignId == data[i - |oldRows|].campaignId;
        assert c in oldCampaigns + [c];
      }
    }
  }
}
