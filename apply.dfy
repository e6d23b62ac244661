/** `submitApplication` (src/app/actions/apply.ts): the public application
    form. A chain of checks, then one pending participation and one
    confirmation mail job. */
module Apply {
  import opened Common
  import opened Schema

  /** The form's fields; `None` when the field is absent. */
  datatype ApplicationForm = ApplicationForm(
    eventCode: Option<string>,
    employeeId: Option<string>,
    name: Option<string>,
    email: Option<string>,
    phone: Option<string>,
    faxNumber: Option<string>)

  datatype ApplyResult =
    | Applied(token: string)
    | HoneypotFilled
    | MissingFields
    | InvalidEventCode
    | UnknownTenant
    | NotInRoster
    | AlreadyApplied
    | SaveFailed
  {
    /** The `error` of the answer; none for a success and for a filled honeypot. */
    function Error(): (e: Option<string>)
      ensures e.None? <==> this.Applied? || this == HoneypotFilled
    {
      match this
      case Applied(_) => None
      case HoneypotFilled => None
      case MissingFields => Some("必須項目が入力されていません。")
      case InvalidEventCode => Some("イベントコードが無効です。")
      case UnknownTenant => Some("システムエラー: テナント不明")
      case NotInRoster => Some("入力された社員IDは名簿に存在しません。")
      case AlreadyApplied => Some("既にこのイベントへの申し込みは完了しています。")
      case SaveFailed => Some("データ保存に失敗しました。")
    }
  }

  /** `events.eq('event_code', code).single()`: event codes are looked up
      across all tenants. */
  function EventOfCode(events: seq<Event>, code: string): (e: Option<Event>)
    ensures e.Some? ==> e.value in events && e.value.eventCode == code
  {
    Single(events, (e: Event) => e.eventCode == code)
  }

  /** The roster record of an employee id within a tenant. */
  function Employee(roster: seq<MasterRecord>, tenantId: Id, employeeId: string): (m: Option<MasterRecord>)
    ensures m.Some? ==> m.value in roster && m.value.tenantId == tenantId && m.value.employeeId == employeeId
  {
    Single(roster, (m: MasterRecord) => m.tenantId == tenantId && m.employeeId == employeeId)
  }

  predicate OfApplicant(p: Participation, eventId: Id, masterId: Id)
  {
    p.eventId == eventId && p.masterDataId == Some(masterId)
  }

  /** The duplicate check as written: `.single()` on the participations of
      (event, employee), which finds nothing when there are two or more. */
  predicate AlreadyAppliedAsWritten(ps: seq<Participation>, eventId: Id, masterId: Id)
    ensures AlreadyAppliedAsWritten(ps, eventId, masterId) <==>
      |Filter(ps, (p: Participation) => OfApplicant(p, eventId, masterId))| == 1
    ensures AlreadyAppliedAsWritten(ps, eventId, masterId) ==> HasApplied(ps, eventId, masterId)
  {
    Single(ps, (p: Participation) => OfApplicant(p, eventId, masterId)).Some?
  }

  /** The duplicate check as intended: some participation of (event, employee)
      exists. */
  predicate HasApplied(ps: seq<Participation>, eventId: Id, masterId: Id)
  {
    exists i :: 0 <= i < |ps| && OfApplicant(ps[i], eventId, masterId)
  }

  /** The check as written agrees with the intended one when at most one
      participation of the applicant exists. */
  lemma AsWrittenAgreesOnOne(ps: seq<Participation>, eventId: Id, masterId: Id)
    requires |Filter(ps, (p: Participation) => OfApplicant(p, eventId, masterId))| <= 1
    ensures AlreadyAppliedAsWritten(ps, eventId, masterId) <==> HasApplied(ps, eventId, masterId)
  {
    var f := Filter(ps, (p: Participation) => OfApplicant(p, eventId, masterId));
    if HasApplied(ps, eventId, masterId) {
      var i :| 0 <= i < |ps| && OfApplicant(ps[i], eventId, masterId);
      assert ps[i] in f;
    }
  }

  /** Two participations of the applicant, as a quantity-2 import of a roster
      member leaves behind, get past the check as written. */
  lemma TwoRowsPassAsWritten()
    ensures var p := BlankParticipation(1, Pending).(masterDataId := Some(7));
      var ps := [p.(id := 10), p.(id := 11)];
      HasApplied(ps, 1, 7) && !AlreadyAppliedAsWritten(ps, 1, 7)
  {
    var p := BlankParticipation(1, Pending).(masterDataId := Some(7));
    var ps := [p.(id := 10), p.(id := 11)];
    var m := (q: Participation) => OfApplicant(q, 1, 7);
    assert OfApplicant(ps[0], 1, 7);
    assert Filter(ps, m) == [ps[0]] + Filter(ps[1..], m);
    assert Filter(ps[1..], m) == [ps[1]] + Filter(ps[2..], m);
  }

  /** The participation an admitted application inserts. */
  function ApplicationRecord(event: Event, employee: MasterRecord, email: string, phone: Option<string>,
                             token: string): (p: Participation)
    ensures p.eventId == event.id && p.masterDataId == Some(employee.id) && p.status == Pending
    ensures p.email == Some(email) && p.phone == phone && p.checkinToken == Some(token)
    ensures p.name == None && !p.emailSent && p.checkedInAt == None
  {
    BlankParticipation(event.id, Pending).(
      masterDataId := Some(employee.id),
      email := Some(email),
      phone := phone,
      checkinToken := Some(token))
  }

  /** The confirmation mail: to the submitted email, with the ticket link
      built from the site address and the stored token. */
  function ConfirmationJob(tenant: Tenant, event: Event, employee: MasterRecord, email: string,
                           token: string, siteUrl: string): (j: MailJob)
    ensures j.tenantId == tenant.id && j.toEmail == Some(email) && j.status == JobPending
    ensures j.subject == "【" + event.name + "】受付完了のお知らせ"
    ensures j.body == ApplicationBody(employee.name, token, siteUrl)
  {
    MailJob(0, tenant.id, None, Some(email), "【" + event.name + "】受付完了のお知らせ",
            ApplicationBody(employee.name, token, siteUrl), JobPending, None, None, None)
  }

  /** An admitted application: the event of the code, its tenant and the
      roster record of the employee id all exist. */
  datatype Admission = Admission(event: Event, tenant: Tenant, employee: MasterRecord)

  /** The lookups of steps 2 to 4, in order; the first that fails decides. */
  function Admit(db: Database, eventCode: string, employeeId: string): (a: Result<Admission, ApplyResult>)
    reads db
    ensures a.Failure? ==> a.error in {InvalidEventCode, UnknownTenant, NotInRoster}
    ensures a.Success? ==>
      && EventOfCode(db.events, eventCode) == Some(a.value.event)
      && TenantById(db.tenants, a.value.event.tenantId) == Some(a.value.tenant)
      && Employee(db.masterData, a.value.tenant.id, employeeId) == Some(a.value.employee)
    ensures a == Failure(InvalidEventCode) <==> EventOfCode(db.events, eventCode).None?
    ensures a == Failure(UnknownTenant) <==>
      EventOfCode(db.events, eventCode).Some? && TenantById(db.tenants, EventOfCode(db.events, eventCode).value.tenantId).None?
  {
    match EventOfCode(db.events, eventCode)
    case None => Failure(InvalidEventCode)
    case Some(event) =>
      match TenantById(db.tenants, event.tenantId)
      case None => Failure(UnknownTenant)
      case Some(tenant) =>
        match Employee(db.masterData, tenant.id, employeeId)
        case None => Failure(NotInRoster)
        case Some(employee) => Success(Admission(event, tenant, employee))
  }

  /** All four required fields are filled; the phone is optional. */
  predicate Complete(f: ApplicationForm)
  {
    Present(f.eventCode) && Present(f.employeeId) && Present(f.name) && Present(f.email)
  }

  /** `submitApplication`, with the duplicate check as written. `token` is
      the `crypto.randomUUID()` draw; `publicUrl` is `NEXT_PUBLIC_URL`, the
      base of the ticket link; `create` and `mailInsert` are the database's
      answers to the two inserts. */
  method SubmitApplication(db: Database, form: ApplicationForm, token: string, publicUrl: Option<string>,
                           create: WriteOutcome, mailInsert: WriteOutcome)
    returns (r: ApplyResult)
    modifies db`participations, db`mailJobs, db`nextId
    ensures !r.Applied? ==> db.participations == old(db.participations) && db.mailJobs == old(db.mailJobs)
    ensures r == HoneypotFilled <==> Present(form.faxNumber)
    ensures r == MissingFields <==> !Present(form.faxNumber) && !Complete(form)
    ensures r in {InvalidEventCode, UnknownTenant, NotInRoster} <==>
      && !Present(form.faxNumber) && Complete(form)
      && Admit(db, form.eventCode.value, form.employeeId.value).Failure?
      && r == Admit(db, form.eventCode.value, form.employeeId.value).error
    ensures r == AlreadyApplied || r == SaveFailed || r.Applied? ==>
      && !Present(form.faxNumber) && Complete(form)
      && Admit(db, form.eventCode.value, form.employeeId.value).Success?
      && var a := Admit(db, form.eventCode.value, form.employeeId.value).value;
      && (r == AlreadyApplied <==> AlreadyAppliedAsWritten(old(db.participations), a.event.id, a.employee.id))
      && (r == SaveFailed <==> !AlreadyAppliedAsWritten(old(db.participations), a.event.id, a.employee.id) && create.WriteError?)
      && (r.Applied? ==>
            && r.token == token
            && Stored(old(db.participations), old(db.mailJobs), old(db.nextId), db.participations, db.mailJobs,
                      a, form.email.value, form.phone, token, OrElse(publicUrl, DefaultSiteUrl), mailInsert))
  {
    if Present(form.faxNumber) {
      return HoneypotFilled;
    }
    if !Complete(form) {
      return MissingFields;
    }
    var admitted := Admit(db, form.eventCode.value, form.employeeId.value);
    if admitted.Failure? {
      return admitted.error;
    }
    var a := admitted.value;
    if AlreadyAppliedAsWritten(db.participations, a.event.id, a.employee.id) {
      return AlreadyApplied;
    }
    if create.WriteError? {
      return SaveFailed;
    }
    StoreApplication(db, a, form.email.value, form.phone, token, OrElse(publicUrl, DefaultSiteUrl), mailInsert);
    r := Applied(token);
  }

  /** The tables after an admitted application is stored: its participation
      with the next id, then its confirmation mail with the id after that
      unless the mail-job insert failed. */
  predicate Stored(participations: seq<Participation>, mailJobs: seq<MailJob>, first: Id,
                   participations': seq<Participation>, mailJobs': seq<MailJob>,
                   a: Admission, email: string, phone: Option<string>, token: string, siteUrl: string,
                   mailInsert: WriteOutcome)
  {
    && participations' == participations + [ApplicationRecord(a.event, a.employee, email, phone, token).(id := first)]
    && mailJobs' == mailJobs
         + (if mailInsert.Written? then [ConfirmationJob(a.tenant, a.event, a.employee, email, token, siteUrl).(id := first + 1)] else [])
  }

  /** Steps 6 and 7: the participation insert, then the mail-job insert
      whose outcome is ignored. */
  method StoreApplication(db: Database, a: Admission, email: string, phone: Option<string>, token: string,
                          siteUrl: string, mailInsert: WriteOutcome)
    modifies db`participations, db`mailJobs, db`nextId
    ensures Stored(old(db.participations), old(db.mailJobs), old(db.nextId), db.participations, db.mailJobs,
                   a, email, phone, token, siteUrl, mailInsert)
  {
    var record := ApplicationRecord(a.event, a.employee, email, phone, token);
    var id := db.Allocate(1);
    db.participations := db.participations + [record.(id := id)];
    var jobId := db.Allocate(1);
    if mailInsert.Written? {
      db.mailJobs := db.mailJobs + [ConfirmationJob(a.tenant, a.event, a.employee, email, token, siteUrl).(id := jobId)];
    }
  }

  /** Once an application is stored, the applicant has applied, so the
      intended check refuses the same submission. */
  lemma StoredApplicationBlocks(ps: seq<Participation>, event: Event, employee: MasterRecord,
                                email: string, phone: Option<string>, token: string, id: Id)
    ensures HasApplied(ps + [ApplicationRecord(event, employee, email, phone, token).(id := id)], event.id, employee.id)
  {
    var ps' := ps + [ApplicationRecord(event, employee, email, phone, token).(id := id)];
    assert OfApplicant(ps'[|ps|], event.id, employee.id);
  }

  /** The first stored application of an applicant makes the check as
      written refuse the same submission with ALREADY_APPLIED. */
  lemma FirstApplicationBlocksAsWritten(ps: seq<Participation>, event: Event, employee: MasterRecord,
                                        email: string, phone: Option<string>, token: string, id: Id)
    requires !HasApplied(ps, event.id, employee.id)
    ensures AlreadyAppliedAsWritten(ps + [ApplicationRecord(event, employee, email, phone, token).(id := id)],
                                    event.id, employee.id)
  {
    SingleAfterAppend(ps, ApplicationRecord(event, employee, email, phone, token).(id := id),
                      (p: Participation) => OfApplicant(p, event.id, employee.id));
  }
}
