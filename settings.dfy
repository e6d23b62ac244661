/** The tenant administrator's settings actions (src/app/actions/settings.ts):
    creating an event, saving the SMTP settings, and deleting an event with
    its participations. */
module Settings {
  import opened Common
  import opened Text
  import opened Schema

  /** (tenant, event code) is unique among events: the table's unique key. */
  ghost predicate UniqueEventCodes(events: seq<Event>)
  {
    forall i, j :: 0 <= i < j < |events| ==>
      !(events[i].tenantId == events[j].tenantId && events[i].eventCode == events[j].eventCode)
  }

  predicate CodeTaken(events: seq<Event>, tenantId: Id, eventCode: string)
  {
    exists i :: 0 <= i < |events| && events[i].tenantId == tenantId && events[i].eventCode == eventCode
  }

  /** The answer Postgres gives to the event insert: the unique key is checked
      first (code 23505), then `other` stands for every other outcome. */
  function InsertAnswer(events: seq<Event>, tenantId: Id, eventCode: string, other: WriteOutcome): (w: WriteOutcome)
    ensures CodeTaken(events, tenantId, eventCode) ==> w.WriteError? && w.code == "23505"
    ensures !CodeTaken(events, tenantId, eventCode) ==> w == other
  {
    if CodeTaken(events, tenantId, eventCode) then
      WriteError("23505", "duplicate key value violates unique constraint")
    else other
  }

  datatype EventForm = EventForm(name: Option<string>, eventCode: Option<string>, staffPasscode: Option<string>)

  datatype CreateResult =
    | Created(event: Event)
    | CreateNotLoggedIn
    | CreateTenantNotFound
    | CreateMissingFields
    | EventCodeTaken
    | CreateFailed
  {
    /** The `error` of the answer; none for a success. */
    function Error(): (e: Option<string>)
      ensures e.None? <==> this.Created?
    {
      match this
      case Created(_) => None
      case CreateNotLoggedIn => Some("ログインしてください。")
      case CreateTenantNotFound => Some("テナントが見つかりません。設定を確認してください。")
      case CreateMissingFields => Some("必須項目が入力されていません。")
      case EventCodeTaken => Some("このイベントコードは既に使用されています。")
      case CreateFailed => Some("イベントの作成に失敗しました。")
    }
  }

  /** The row the insert stores; the columns the action leaves out are at
      their defaults. */
  function NewEvent(id: Id, tenantId: Id, name: string, eventCode: string, staffPasscode: string, now: Timestamp): (e: Event)
    ensures e.id == id && e.tenantId == tenantId && e.name == name
    ensures e.eventCode == eventCode && e.staffPasscode == staffPasscode
    ensures e.ticketConfig == None && e.emailTemplate == None
  {
    Event(id, tenantId, name, eventCode, staffPasscode, None, None, now)
  }

  /** `createEvent`. `other` is the database's answer to an insert that does
      not break the unique key; `now` is the clock. */
  method CreateEvent(db: Database, user: Option<User>, form: EventForm, other: WriteOutcome, now: Timestamp)
    returns (r: CreateResult)
    modifies db`events, db`nextId
    ensures !r.Created? ==> db.events == old(db.events)
    ensures r == CreateNotLoggedIn <==> user.None?
    ensures r == CreateTenantNotFound <==> user.Some? && TenantOf(db.tenants, user.value.id).None?
    ensures r == CreateMissingFields <==>
      user.Some? && TenantOf(db.tenants, user.value.id).Some?
      && !(Present(form.name) && Present(form.eventCode) && Present(form.staffPasscode))
    ensures r == EventCodeTaken || r == CreateFailed || r.Created? ==>
      && user.Some? && TenantOf(db.tenants, user.value.id).Some?
      && Present(form.name) && Present(form.eventCode) && Present(form.staffPasscode)
      && var tenantId := TenantOf(db.tenants, user.value.id).value.id;
      && var answer := InsertAnswer(old(db.events), tenantId, form.eventCode.value, other);
      && (r == EventCodeTaken <==> answer.WriteError? && answer.code == "23505")
      && (r == CreateFailed <==> answer.WriteError? && answer.code != "23505")
      && (r.Created? ==>
            && r.event == NewEvent(old(db.nextId), tenantId, form.name.value, form.eventCode.value,
                                   form.staffPasscode.value, now)
            && db.events == old(db.events) + [r.event])
  {
    if user.None? {
      return CreateNotLoggedIn;
    }
    var tenant := TenantOf(db.tenants, user.value.id);
    if tenant.None? {
      return CreateTenantNotFound;
    }
    if !Present(form.name) || !Present(form.eventCode) || !Present(form.staffPasscode) {
      return CreateMissingFields;
    }
    var answer := InsertAnswer(db.events, tenant.value.id, form.eventCode.value, other);
    if answer.WriteError? {
      if answer.code == "23505" {
        return EventCodeTaken;
      }
      return CreateFailed;
    }
    var id := db.Allocate(1);
    var event := NewEvent(id, tenant.value.id, form.name.value, form.eventCode.value, form.staffPasscode.value, now);
    db.events := db.events + [event];
    r := Created(event);
  }

  /** A created event never shares its tenant's event code with another: the
      key stays unique, and a code already in use is answered EventCodeTaken. */
  lemma CreateKeepsCodesUnique(events: seq<Event>, tenantId: Id, name: string, eventCode: string,
                               staffPasscode: string, other: WriteOutcome, id: Id, now: Timestamp)
    requires UniqueEventCodes(events)
    requires InsertAnswer(events, tenantId, eventCode, other).Written?
    ensures UniqueEventCodes(events + [NewEvent(id, tenantId, name, eventCode, staffPasscode, now)])
  {
    var e := NewEvent(id, tenantId, name, eventCode, staffPasscode, now);
    var after := events + [e];
    forall i, j | 0 <= i < j < |after|
      ensures !(after[i].tenantId == after[j].tenantId && after[i].eventCode == after[j].eventCode)
    {
      if j == |events| && after[i].tenantId == tenantId {
        assert after[i] == events[i];
      }
    }
  }

  /** The SMTP form; every field may be missing. */
  datatype SmtpForm = SmtpForm(
    host: Option<string>,
    port: Option<string>,
    user: Option<string>,
    password: Option<string>,
    fromEmail: Option<string>)

  /** `parseInt(formData.get('smtp_port'))`; a missing field is parsed as
      the text `null`, which is NaN. */
  function PortOf(port: Option<string>): (n: Option<int>)
    ensures port.None? ==> n.None?
  {
    if port.None? then None else ParseInt(port.value)
  }

  /** All five fields are given, and the port is a number other than 0. */
  predicate SmtpComplete(f: SmtpForm)
  {
    && Present(f.host) && PortOf(f.port).Some? && PortOf(f.port).value != 0
    && Present(f.user) && Present(f.password) && Present(f.fromEmail)
  }

  /** The tenant row after the update: the five SMTP columns replaced, the
      sender name and everything else kept. */
  function WithSmtp(t: Tenant, f: SmtpForm): (t': Tenant)
    requires SmtpComplete(f)
    ensures t'.smtpHost == f.host && t'.smtpPort == PortOf(f.port) && t'.smtpUser == f.user
    ensures t'.smtpPassword == f.password && t'.smtpFromEmail == f.fromEmail
    ensures t'.id == t.id && t'.name == t.name && t'.companyCode == t.companyCode
    ensures t'.ownerId == t.ownerId && t'.smtpFromName == t.smtpFromName
  {
    t.(smtpHost := f.host, smtpPort := PortOf(f.port), smtpUser := f.user,
       smtpPassword := f.password, smtpFromEmail := f.fromEmail)
  }

  /** `tenants.update(...).eq('id', tenantId)`. */
  function UpdateTenant(tenants: seq<Tenant>, tenantId: Id, f: SmtpForm): (r: seq<Tenant>)
    requires SmtpComplete(f)
    ensures |r| == |tenants|
    ensures forall i :: 0 <= i < |tenants| ==> r[i] == if tenants[i].id == tenantId then WithSmtp(tenants[i], f) else tenants[i]
  {
    seq(|tenants|, i requires 0 <= i < |tenants| =>
      if tenants[i].id == tenantId then WithSmtp(tenants[i], f) else tenants[i])
  }

  datatype SmtpResult = SmtpSaved | SmtpNotLoggedIn | SmtpTenantNotFound | SmtpIncomplete | SmtpSaveFailed

  /** `updateSMTPSettings`. `update` is the database's answer. */
  method UpdateSmtpSettings(db: Database, user: Option<User>, form: SmtpForm, update: WriteOutcome)
    returns (r: SmtpResult)
    modifies db`tenants
    ensures r != SmtpSaved ==> db.tenants == old(db.tenants)
    ensures r == SmtpNotLoggedIn <==> user.None?
    ensures r == SmtpTenantNotFound <==> user.Some? && TenantOf(old(db.tenants), user.value.id).None?
    ensures r == SmtpIncomplete <==>
      user.Some? && TenantOf(old(db.tenants), user.value.id).Some? && !SmtpComplete(form)
    ensures r == SmtpSaved || r == SmtpSaveFailed ==>
      && user.Some? && TenantOf(old(db.tenants), user.value.id).Some? && SmtpComplete(form)
      && (r == SmtpSaveFailed <==> update.WriteError?)
      && (r == SmtpSaved ==>
            db.tenants == UpdateTenant(old(db.tenants), TenantOf(old(db.tenants), user.value.id).value.id, form))
  {
    if user.None? {
      return SmtpNotLoggedIn;
    }
    var tenant := TenantOf(db.tenants, user.value.id);
    if tenant.None? {
      return SmtpTenantNotFound;
    }
    if !SmtpComplete(form) {
      return SmtpIncomplete;
    }
    if update.WriteError? {
      return SmtpSaveFailed;
    }
    db.tenants := UpdateTenant(db.tenants, tenant.value.id, form);
    r := SmtpSaved;
  }

  /** A missing port, or one written as zeros only (`0`, `000`), is refused
      whatever the other fields hold. */
  lemma ZeroOrMissingPortRefused(f: SmtpForm, k: nat)
    requires f.port.None? || (k >= 1 && f.port == Some(seq(k, _ => '0')))
    ensures !SmtpComplete(f)
  {
    if f.port.Some? {
      LeadingZeros(k, []);
      assert seq(k, _ => '0') + [] == f.port.value;
      ParseIntOfDigits(f.port.value);
    }
  }

  datatype DeleteResult = Deleted | DeleteNotLoggedIn | DeleteTenantNotFound | EventNotFound | DeleteFailed

  predicate NotOfEvent(p: Participation, eventId: Id)
  {
    p.eventId != eventId
  }

  /** `participations.delete().eq('event_id', eventId)`. */
  function WithoutEventRows(ps: seq<Participation>, eventId: Id): seq<Participation>
  {
    Filter(ps, (p: Participation) => NotOfEvent(p, eventId))
  }

  /** `events.delete().eq('id', eventId)`. */
  function WithoutEvent(events: seq<Event>, eventId: Id): seq<Event>
  {
    Filter(events, (e: Event) => e.id != eventId)
  }

  /** `deleteEvent`. `rowsDelete` and `eventDelete` are the database's answers
      to the two deletes; the first is not checked. The foreign key from
      participations to events cascades, so a deleted event takes its
      participations with it even when the explicit delete failed. */
  method DeleteEvent(db: Database, user: Option<User>, eventId: Id, rowsDelete: WriteOutcome, eventDelete: WriteOutcome)
    returns (r: DeleteResult)
    modifies db`participations, db`events
    ensures r != Deleted && r != DeleteFailed ==>
      db.participations == old(db.participations) && db.events == old(db.events)
    ensures r == DeleteNotLoggedIn <==> user.None?
    ensures r == DeleteTenantNotFound <==> user.Some? && TenantOf(db.tenants, user.value.id).None?
    ensures r == EventNotFound <==>
      user.Some? && TenantOf(db.tenants, user.value.id).Some?
      && OwnedEvent(old(db.events), eventId, TenantOf(db.tenants, user.value.id).value.id).None?
    ensures r == Deleted || r == DeleteFailed ==>
      && user.Some? && TenantOf(db.tenants, user.value.id).Some?
      && OwnedEvent(old(db.events), eventId, TenantOf(db.tenants, user.value.id).value.id).Some?
      && db.participations == (if r == Deleted || rowsDelete.Written? then WithoutEventRows(old(db.participations), eventId)
                               else old(db.participations))
      && (r == DeleteFailed <==> eventDelete.WriteError?)
      && db.events == (if r == Deleted then WithoutEvent(old(db.events), eventId) else old(db.events))
  {
    if user.None? {
      return DeleteNotLoggedIn;
    }
    var tenant := TenantOf(db.tenants, user.value.id);
    if tenant.None? {
      return DeleteTenantNotFound;
    }
    var event := OwnedEvent(db.events, eventId, tenant.value.id);
    if event.None? {
      return EventNotFound;
    }
    if rowsDelete.Written? {
      db.participations := WithoutEventRows(db.participations, eventId);
    }
    if eventDelete.WriteError? {
      return DeleteFailed;
    }
    db.events := WithoutEvent(db.events, eventId);
    FilterTwice(old(db.participations), (p: Participation) => NotOfEvent(p, eventId));
    db.participations := WithoutEventRows(db.participations, eventId);
    r := Deleted;
  }

  /** The delete removes every row of the event and keeps the rows of every
      other event, in order. */
  lemma {:induction false} DeleteKeepsOtherEvents(ps: seq<Participation>, eventId: Id, other: Id)
    requires other != eventId
    ensures forall i :: 0 <= i < |WithoutEventRows(ps, eventId)| ==> WithoutEventRows(ps, eventId)[i].eventId != eventId
    ensures Filter(WithoutEventRows(ps, eventId), (p: Participation) => p.eventId == other)
         == Filter(ps, (p: Participation) => p.eventId == other)
  {
    if ps != [] {
      DeleteKeepsOtherEvents(ps[1..], eventId, other);
      var keep := (p: Participation) => NotOfEvent(p, eventId);
      var ofOther := (p: Participation) => p.eventId == other;
      assert WithoutEventRows(ps, eventId) == (if keep(ps[0]) then [ps[0]] else []) + WithoutEventRows(ps[1..], eventId);
      FilterAppend(if keep(ps[0]) then [ps[0]] else [], WithoutEventRows(ps[1..], eventId), ofOther);
      if keep(ps[0]) {
        FilterSingleton(ps[0], ofOther);
      }
    }
  }
}
