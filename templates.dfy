/**
 * The template server actions: create, update, archive and restore. Each one checks the session
 * and the editing role, then validates the form where there is one, then makes one write. The
 * write's outcome (success, a unique-constraint violation, any other database error) is a
 * parameter, because the schema's constraints are not part of this model.
 */
module Templates {
  import opened Options
  import opened Strings
  import opened Store

  /** `norm(v)`: the form value as a string (`""` when absent), trimmed. */
  function Norm(v: Option<string>): (r: string)
    ensures IsTrimmed(r)
    ensures v.None? ==> r == ""
    ensures v.Some? && IsTrimmed(v.value) ==> r == v.value
  {
    Trim(v.GetOr(""))
  }

  /** `mustEditRole(role)`: only viewers may not edit templates. */
  function MustEditRole(role: Role): (ok: bool)
    ensures ok <==> role != VIEWER
  {
    role == ADMIN || role == EDITOR
  }

  datatype TemplateForm = TemplateForm(name: Option<string>, subject: Option<string>, textBody: Option<string>, htmlBody: Option<string>)

  /** The values a valid form stores. */
  datatype TemplateFields = TemplateFields(name: string, subject: string, textBody: string, htmlBody: Option<string>)

  datatype Field = NameField | SubjectField | BodyField

  datatype FormCheck = FormOk(fields: TemplateFields) | FormError(field: Field)

  /**
   * The validation of the create and update actions: name and subject trimmed, the text body kept as typed, a blank HTML body
   * dropped; the first blank field among name, subject and text body is the error.
   */
  function CheckForm(form: TemplateForm): (r: FormCheck)
    ensures r == FormError(NameField) <==> Norm(form.name) == ""
    ensures r == FormError(SubjectField) <==> Norm(form.name) != "" && Norm(form.subject) == ""
    ensures r == FormError(BodyField) <==>
      Norm(form.name) != "" && Norm(form.subject) != "" && Trim(form.textBody.GetOr("")) == ""
    ensures r.FormOk? ==>
      && r.fields.name == Norm(form.name) && r.fields.subject == Norm(form.subject)
      && r.fields.textBody == form.textBody.GetOr("")
      && (r.fields.htmlBody.None? <==> Trim(form.htmlBody.GetOr("")) == "")
      && (r.fields.htmlBody.Some? ==> r.fields.htmlBody.value == form.htmlBody.GetOr(""))
  {
    var name := Norm(form.name);
    var subject := Norm(form.subject);
    var textBody := form.textBody.GetOr("");
    var htmlBodyRaw := form.htmlBody.GetOr("");
    var htmlBody := if Trim(htmlBodyRaw) != "" then Some(htmlBodyRaw) else None;
    if name == "" then FormError(NameField)
    else if subject == "" then FormError(SubjectField)
    else if Trim(textBody) == "" then FormError(BodyField)
    else FormOk(TemplateFields(name, subject, textBody, htmlBody))
  }

  /** The edit page's form, pre-filled with a stored template (`htmlBody ?? ""`). */
  function EditForm(t: Template): TemplateForm {
    TemplateForm(Some(t.name), Some(t.subject), Some(t.textBody), Some(t.htmlBody.GetOr("")))
  }

  /** The template a successful write leaves: the stored fields agree with the form's values. */
  predicate Stores(t: Template, f: TemplateFields) {
    t.name == f.name && t.subject == f.subject && t.textBody == f.textBody && t.htmlBody == f.htmlBody
  }

  /** Saving a template's own edit form unchanged validates and stores the same values again. */
  lemma EditFormRoundTrip(form: TemplateForm, t: Template)
    requires CheckForm(form).FormOk? && Stores(t, CheckForm(form).fields)
    ensures CheckForm(EditForm(t)) == CheckForm(form)
  {
    var f := CheckForm(form).fields;
    var e := EditForm(t);
    assert Norm(e.name) == f.name && Norm(e.subject) == f.subject;
    assert e.textBody.GetOr("") == form.textBody.GetOr("");
    if f.htmlBody.Some? {
      assert e.htmlBody.GetOr("") == form.htmlBody.GetOr("");
    } else {
      assert Trim(e.htmlBody.GetOr("")) == "";
    }
  }

  /** The row `updateMany({ where: { id, organizationId } })` changes. */
  predicate Targets(t: Template, id: Id, org: Id) {
    t.id == id && t.organizationId == org
  }

  /** The fields neither archive nor restore touches. */
  predicate SameContent(a: Template, b: Template) {
    && a.id == b.id && a.organizationId == b.organizationId && a.name == b.name && a.subject == b.subject
    && a.textBody == b.textBody && a.htmlBody == b.htmlBody && a.createdByUserId == b.createdByUserId
  }

  /** The table after setting `isArchived := archived` and `updatedByUserId := user` on the target. */
  function WithArchived(ts: seq<Template>, id: Id, org: Id, archived: bool, user: Id): (r: seq<Template>)
    ensures |r| == |ts|
    ensures forall i :: 0 <= i < |ts| ==> SameContent(r[i], ts[i])
    ensures forall i :: 0 <= i < |ts| ==> r[i].isArchived == if Targets(ts[i], id, org) then archived else ts[i].isArchived
    ensures forall i :: 0 <= i < |ts| ==> r[i].updatedByUserId == if Targets(ts[i], id, org) then user else ts[i].updatedByUserId
  {
    seq(|ts|, i requires 0 <= i < |ts| =>
      if Targets(ts[i], id, org) then ts[i].(isArchived := archived, updatedByUserId := user) else ts[i])
  }

  /** The table after writing a valid form's values and `updatedByUserId := user` onto the target. */
  function WithFields(ts: seq<Template>, id: Id, org: Id, f: TemplateFields, user: Id): (r: seq<Template>)
    ensures |r| == |ts|
    ensures forall i :: 0 <= i < |ts| && Targets(ts[i], id, org) ==>
      && Stores(r[i], f) && r[i].updatedByUserId == user
      && r[i].id == id && r[i].organizationId == org
      && r[i].isArchived == ts[i].isArchived && r[i].createdByUserId == ts[i].createdByUserId
    ensures forall i :: 0 <= i < |ts| && !Targets(ts[i], id, org) ==> r[i] == ts[i]
  {
    seq(|ts|, i requires 0 <= i < |ts| =>
      if Targets(ts[i], id, org)
      then ts[i].(name := f.name, subject := f.subject, textBody := f.textBody, htmlBody := f.htmlBody, updatedByUserId := user)
      else ts[i])
  }

  /** Archiving twice is archiving once. */
  lemma ArchiveIdempotent(ts: seq<Template>, id: Id, org: Id, user: Id)
    ensures WithArchived(WithArchived(ts, id, org, true, user), id, org, true, user) == WithArchived(ts, id, org, true, user)
  {
    var once := WithArchived(ts, id, org, true, user);
    assert forall i :: 0 <= i < |ts| ==> Targets(once[i], id, org) == Targets(ts[i], id, org);
  }

  /**
   * Restoring after archiving leaves the table as restoring alone would: the target is back to
   * `isArchived == false`, and nothing else differs.
   */
  lemma RestoreAfterArchive(ts: seq<Template>, id: Id, org: Id, archiver: Id, restorer: Id)
    ensures WithArchived(WithArchived(ts, id, org, true, archiver), id, org, false, restorer) ==
      WithArchived(ts, id, org, false, restorer)
    ensures forall i :: 0 <= i < |ts| && Targets(ts[i], id, org) ==>
      !WithArchived(WithArchived(ts, id, org, true, archiver), id, org, false, restorer)[i].isArchived
  {
    var once := WithArchived(ts, id, org, true, archiver);
    assert forall i :: 0 <= i < |ts| ==> Targets(once[i], id, org) == Targets(ts[i], id, org);
  }

  /** An update aimed at no row of the organisation (another org's id, a missing id) changes nothing. */
  lemma UpdateElsewhereIsNoOp(ts: seq<Template>, id: Id, org: Id, f: TemplateFields, user: Id)
    requires forall i :: 0 <= i < |ts| ==> !Targets(ts[i], id, org)
    ensures WithFields(ts, id, org, f, user) == ts
    ensures WithArchived(ts, id, org, true, user) == ts && WithArchived(ts, id, org, false, user) == ts
  {
    assert forall i :: 0 <= i < |ts| ==> WithArchived(ts, id, org, true, user)[i] == ts[i];
    assert forall i :: 0 <= i < |ts| ==> WithArchived(ts, id, org, false, user)[i] == ts[i];
  }

  /** How the database write of an action ends. */
  datatype WriteStatus = Written | UniqueViolation | OtherFailure

  /** Where an action redirects, or that its error propagates. */
  datatype TemplateOutcome =
    | ToLogin
    | Forbidden
    | Missing(field: Field)
    | Duplicate
    | Saved(id: Id)
    | ArchivedDone
    | RestoredDone
    | Thrown

  /** `createTemplateAction`. */
  method CreateTemplate(db: Db, session: Option<Session>, form: TemplateForm, newId: Id, write: WriteStatus)
    returns (outcome: TemplateOutcome)
    modifies db`templates
    ensures session.None? ==> outcome == ToLogin && unchanged(db)
    ensures session.Some? && !MustEditRole(session.value.role) ==> outcome == Forbidden && unchanged(db)
    ensures session.Some? && MustEditRole(session.value.role) && CheckForm(form).FormError? ==>
      outcome == Missing(CheckForm(form).field) && unchanged(db)
    ensures session.Some? && MustEditRole(session.value.role) && CheckForm(form).FormOk? ==>
      var f := CheckForm(form).fields;
      var s := session.value;
      && (write == Written ==>
            outcome == Saved(newId)
            && db.templates == old(db.templates) + [Template(newId, s.organizationId, f.name, f.subject,
                                                             f.textBody, f.htmlBody, false, s.userId, s.userId)])
      && (write == UniqueViolation ==> outcome == Duplicate && unchanged(db))
      && (write == OtherFailure ==> outcome == Thrown && unchanged(db))
  {
    if session.None? {
      return ToLogin;
    }
    var s := session.value;
    if !MustEditRole(s.role) {
      return Forbidden;
    }
    match CheckForm(form)
    case FormError(field) =>
      outcome := Missing(field);
    case FormOk(f) =>
      match write
      case Written =>
        db.templates := db.templates + [Template(newId, s.organizationId, f.name, f.subject,
                                                 f.textBody, f.htmlBody, false, s.userId, s.userId)];
        outcome := Saved(newId);
      case UniqueViolation =>
        outcome := Duplicate;
      case OtherFailure =>
        outcome := Thrown;
  }

  /** `updateTemplateAction`: `updateMany` on the id within the session's organisation. */
  method UpdateTemplate(db: Db, session: Option<Session>, templateId: Id, form: TemplateForm, write: WriteStatus)
    returns (outcome: TemplateOutcome)
    modifies db`templates
    ensures session.None? ==> outcome == ToLogin && unchanged(db)
    ensures session.Some? && !MustEditRole(session.value.role) ==> outcome == Forbidden && unchanged(db)
    ensures session.Some? && MustEditRole(session.value.role) && CheckForm(form).FormError? ==>
      outcome == Missing(CheckForm(form).field) && unchanged(db)
    ensures session.Some? && MustEditRole(session.value.role) && CheckForm(form).FormOk? ==>
      && (write == Written ==>
            outcome == Saved(templateId)
            && db.templates == WithFields(old(db.templates), templateId, session.value.organizationId,
                                          CheckForm(form).fields, session.value.userId))
      && (write == UniqueViolation ==> outcome == Duplicate && unchanged(db))
      && (write == OtherFailure ==> outcome == Thrown && unchanged(db))
  {
    if session.None? {
      return ToLogin;
    }
    var s := session.value;
    if !MustEditRole(s.role) {
      return Forbidden;
    }
    match CheckForm(form)
    case FormError(field) =>
      outcome := Missing(field);
    case FormOk(f) =>
      match write
      case Written =>
        db.templates := WithFields(db.templates, templateId, s.organizationId, f, s.userId);
        outcome := Saved(templateId);
      case UniqueViolation =>
        outcome := Duplicate;
      case OtherFailure =>
        outcome := Thrown;
  }

  /** `archiveTemplateAction`: `updateMany` setting `isArchived` to true on the id within the session's organisation. */
  method ArchiveTemplate(db: Db, session: Option<Session>, templateId: Id, write: WriteStatus)
    returns (outcome: TemplateOutcome)
    modifies db`templates
    ensures session.None? ==> outcome == ToLogin && unchanged(db)
    ensures session.Some? && !MustEditRole(session.value.role) ==> outcome == Forbidden && unchanged(db)
    ensures session.Some? && MustEditRole(session.value.role) ==>
      && (write == Written ==>
            outcome == ArchivedDone
            && db.templates == WithArchived(old(db.templates), templateId, session.value.organizationId,
                                            true, session.value.userId))
      && (write != Written ==> outcome == Thrown && unchanged(db))
  {
    if session.None? {
      return ToLogin;
    }
    var s := session.value;
    if !MustEditRole(s.role) {
      return Forbidden;
    }
    if write != Written {
      return Thrown;
    }
    db.templates := WithArchived(db.templates, templateId, s.organizationId, true, s.userId);
    outcome := ArchivedDone;
  }

  /** `restoreTemplateAction`: `updateMany` setting `isArchived` to false on the id within the session's organisation. */
  method RestoreTemplate(db: Db, session: Option<Session>, templateId: Id, write: WriteStatus)
    returns (outcome: TemplateOutcome)
    modifies db`templates
    ensures session.None? ==> outcome == ToLogin && unchanged(db)
    ensures session.Some? && !MustEditRole(session.value.role) ==> outcome == Forbidden && unchanged(db)
    ensures session.Some? && MustEditRole(session.value.role) ==>
      && (write == Written ==>
            outcome == RestoredDone
            && db.templates == WithArchived(old(db.templates), templateId, session.value.organizationId,
                                            false, session.value.userId))
      && (write != Written ==> outcome == Thrown && unchanged(db))
  {
    if session.None? {
      return ToLogin;
    }
    var s := session.value;
    if !MustEditRole(s.role) {
      return Forbidden;
    }
    if write != Written {
      return Thrown;
    }
    db.templates := WithArchived(db.templates, templateId, s.organizationId, false, s.userId);
    outcome := RestoredDone;
  }
}
