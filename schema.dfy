/** The Supabase tables the server actions read and write: tenants, events,
    master_data (the roster), participations, mail_jobs, and the identity
    provider's user list. Rows are kept in insertion order. */
module Schema {
  import opened Common

  /** Row identifiers (UUIDs in the database), handed out by `Database.Allocate`. */
  type Id = nat

  /** A point in time (`new Date().toISOString()`), as milliseconds. */
  type Timestamp = nat

  /** The signed-in user `supabase.auth.getUser()` yields. */
  datatype User = User(id: Id, email: Option<string>)

  datatype Tenant = Tenant(
    id: Id,
    name: string,
    companyCode: string,
    ownerId: Id,
    smtpHost: Option<string>,
    smtpPort: Option<int>,
    smtpUser: Option<string>,
    smtpPassword: Option<string>,
    smtpFromEmail: Option<string>,
    smtpFromName: Option<string>)

  /** One entry of an event's `ticket_config`: a ticket type and the keywords
      that select it; `keywords` may be absent from the stored JSON. */
  datatype TicketRule = TicketRule(name: string, keywords: Option<seq<string>>)

  datatype Event = Event(
    id: Id,
    tenantId: Id,
    name: string,
    eventCode: string,
    staffPasscode: string,
    ticketConfig: Option<seq<TicketRule>>,
    emailTemplate: Option<string>,
    createdAt: Timestamp)

  /** A roster entry; (tenantId, employeeId) is unique in the table. */
  datatype MasterRecord = MasterRecord(
    id: Id,
    tenantId: Id,
    employeeId: string,
    name: string,
    email: Option<string>)

  /** The `status` column of a participation. */
  datatype Status = Pending | Approved | CheckedIn

  /** One attendee's registration. Columns an insert leaves out are null,
      `email_sent` defaults to false. */
  datatype Participation = Participation(
    id: Id,
    eventId: Id,
    name: Option<string>,
    email: Option<string>,
    phone: Option<string>,
    companyCode: Option<string>,
    ticketType: Option<string>,
    startTime: Option<string>,
    note: Option<string>,
    masterDataId: Option<Id>,
    status: Status,
    checkinToken: Option<string>,
    checkedInAt: Option<Timestamp>,
    emailSent: bool,
    inviter: Option<Id>,      // `inviter`, written by the participant registration route
    invitedBy: Option<Id>)    // `invited_by`, written by the ticket import

  /** A participation row with every optional column at its default. */
  function BlankParticipation(eventId: Id, status: Status): (p: Participation)
    ensures p.eventId == eventId && p.status == status && !p.emailSent
    ensures p.checkedInAt == None && p.checkinToken == None
    ensures p.inviter == None && p.invitedBy == None
  {
    Participation(0, eventId, None, None, None, None, None, None, None, None, status, None, None, false, None, None)
  }

  datatype JobStatus = JobPending | JobSent | JobFailed

  /** The HTML bodies the actions render, kept as the values they interpolate;
      `siteUrl` is the base of the ticket link. */
  datatype MailBody =
    | TicketNoticeBody(eventName: string, participantName: Option<string>, ticketType: Option<string>,
                       startTime: Option<string>, orderNumber: Option<string>, participationId: Id,
                       issuer: string, siteUrl: string)
    | ApplicationBody(employeeName: string, ticketToken: string, siteUrl: string)
    | BulkTicketBody(eventName: string, participantName: Option<string>, checkinToken: Option<string>,
                     ticketType: Option<string>, eventNote: Option<string>)

  datatype MailJob = MailJob(
    id: Id,
    tenantId: Id,
    participationId: Option<Id>,
    toEmail: Option<string>,
    subject: string,
    body: MailBody,
    status: JobStatus,
    retries: Option<nat>,
    errorMessage: Option<string>,
    processedAt: Option<Timestamp>)

  /** An account of the identity provider. */
  datatype AuthUser = AuthUser(id: Id, email: string)

  /** Outcome of a database write the action checks: success, or an error
      carrying Postgres' code. */
  datatype WriteOutcome = Written | WriteError(code: string, message: string)

  /** The database: one sequence of rows per table. */
  class Database {
    var tenants: seq<Tenant>
    var events: seq<Event>
    var masterData: seq<MasterRecord>
    var participations: seq<Participation>
    var mailJobs: seq<MailJob>
    var authUsers: seq<AuthUser>
    var nextId: nat

    constructor ()
      ensures tenants == [] && events == [] && masterData == [] && participations == []
      ensures mailJobs == [] && authUsers == [] && nextId == 0
    {
      tenants, events, masterData, participations, mailJobs, authUsers := [], [], [], [], [], [];
      nextId := 0;
    }

    /** Reserves `n` fresh identifiers `first .. first + n - 1`. */
    method Allocate(n: nat) returns (first: Id)
      modifies this`nextId
      ensures first == old(nextId) && nextId == first + n
    {
      first := nextId;
      nextId := nextId + n;
    }
  }

  /** The caller's tenant: `tenants.eq('owner_id', user.id).single()`. */
  function TenantOf(tenants: seq<Tenant>, userId: Id): (t: Option<Tenant>)
    ensures t.Some? ==> t.value in tenants && t.value.ownerId == userId
  {
    Single(tenants, (t: Tenant) => t.ownerId == userId)
  }

  /** `tenants.eq('id', id).single()`, also the tenant a join on `tenant_id`
      yields. */
  function TenantById(tenants: seq<Tenant>, id: Id): (t: Option<Tenant>)
    ensures t.Some? ==> t.value in tenants && t.value.id == id
  {
    Single(tenants, (t: Tenant) => t.id == id)
  }

  /** `events.eq('id', eventId).single()`. */
  function EventById(events: seq<Event>, eventId: Id): (e: Option<Event>)
    ensures e.Some? ==> e.value in events && e.value.id == eventId
  {
    Single(events, (e: Event) => e.id == eventId)
  }

  /** `events.select('..., tenants!inner(...)').eq('id', eventId).single()`
      and the owner check after it: the inner join drops an event whose
      tenant row is missing, and the tenant's owner must be the caller. */
  function EventOwnedBy(events: seq<Event>, tenants: seq<Tenant>, eventId: Id, userId: Id): (r: Option<(Event, Tenant)>)
    ensures r.Some? <==>
      EventById(events, eventId).Some?
      && TenantById(tenants, EventById(events, eventId).value.tenantId).Some?
      && TenantById(tenants, EventById(events, eventId).value.tenantId).value.ownerId == userId
    ensures r.Some? ==> r.value.0.id == eventId && r.value.0.tenantId == r.value.1.id && r.value.1.ownerId == userId
  {
    match EventById(events, eventId)
    case None => None
    case Some(event) =>
      match TenantById(tenants, event.tenantId)
      case None => None
      case Some(tenant) => if tenant.ownerId == userId then Some((event, tenant)) else None
  }

  /** `events.eq('id', eventId).eq('tenant_id', tenantId).single()`. */
  function OwnedEvent(events: seq<Event>, eventId: Id, tenantId: Id): (e: Option<Event>)
    ensures e.Some? ==> e.value in events && e.value.id == eventId && e.value.tenantId == tenantId
  {
    Single(events, (e: Event) => e.id == eventId && e.tenantId == tenantId)
  }

  function WithParticipationId(p: Participation, id: Id): Participation
  {
    p.(id := id)
  }

  function WithJobId(j: MailJob, id: Id): MailJob
  {
    j.(id := id)
  }

  /** Participations numbered from `first`, as a bulk insert stores them. */
  function AssignIds(rows: seq<Participation>, first: Id): (r: seq<Participation>)
    ensures |r| == |rows|
    ensures forall i :: 0 <= i < |rows| ==> r[i] == rows[i].(id := first + i)
  {
    Numbered(rows, first, WithParticipationId)
  }

  /** Mail jobs numbered from `first`. */
  function AssignJobIds(jobs: seq<MailJob>, first: Id): (r: seq<MailJob>)
    ensures |r| == |jobs|
    ensures forall i :: 0 <= i < |jobs| ==> r[i] == jobs[i].(id := first + i)
  {
    Numbered(jobs, first, WithJobId)
  }

  /** A non-empty string, i.e. a truthy form value. */
  predicate Filled(s: string)
  {
    s != ""
  }

  /** A truthy nullable string. */
  predicate Present(s: Option<string>)
  {
    s.Some? && s.value != ""
  }

  /** `value || fallback` on a nullable string. */
  function OrElse(value: Option<string>, fallback: string): (s: string)
    ensures Present(value) ==> s == value.value
    ensures !Present(value) ==> s == fallback
  {
    if Present(value) then value.value else fallback
  }

  /** The site address the mail links use when its environment variable is unset. */
  const DefaultSiteUrl := "http://localhost:3000"
}
