/** `importTickets` (src/app/actions/tickets.ts): turns ticket rows into
    approved participations of an event of the caller's tenant and queues a
    ticket mail for each inserted participation. */
module Tickets {
  import opened Common
  import opened Schema

  /** One element of the `tickets` argument; every field may be missing. */
  datatype TicketRow = TicketRow(
    name: Option<string>,
    email: Option<string>,
    orderId: Option<string>,
    ticketType: Option<string>,
    startTime: Option<string>,
    productName: Option<string>,
    masterDataId: Option<Id>)

  /** `ticket.name && ticket.email`: rows without both are skipped. */
  predicate Usable(t: TicketRow)
  {
    Present(t.name) && Present(t.email)
  }

  /** The participation a usable row becomes. */
  function ToParticipation(eventId: Id, userId: Id, t: TicketRow): (p: Participation)
    ensures p.eventId == eventId && p.status == Approved && p.invitedBy == Some(userId) && p.inviter == None
    ensures p.name == t.name && p.email == t.email && p.masterDataId == t.masterDataId
    ensures p.companyCode == Some(OrElse(t.orderId, "")) && p.ticketType == Some(OrElse(t.ticketType, "Standard"))
    ensures p.startTime == Some(OrElse(t.startTime, "")) && p.note == Some(OrElse(t.productName, ""))
    ensures !p.emailSent && p.checkinToken == None && p.checkedInAt == None
  {
    BlankParticipation(eventId, Approved).(
      name := t.name,
      email := t.email,
      companyCode := Some(OrElse(t.orderId, "")),
      ticketType := Some(OrElse(t.ticketType, "Standard")),
      startTime := Some(OrElse(t.startTime, "")),
      note := Some(OrElse(t.productName, "")),
      masterDataId := t.masterDataId,
      invitedBy := Some(userId))
  }

  /** `participationData`: the usable rows, in order, as participations. */
  function Prepared(eventId: Id, userId: Id, tickets: seq<TicketRow>): seq<Participation>
  {
    Map(Filter(tickets, Usable), (t: TicketRow) => ToParticipation(eventId, userId, t))
  }

  /** At most one participation per row, one for every row when all are
      usable, and each prepared participation is approved and has a name and
      an email. */
  lemma PreparedSpec(eventId: Id, userId: Id, tickets: seq<TicketRow>)
    ensures |Prepared(eventId, userId, tickets)| <= |tickets|
    ensures (forall i :: 0 <= i < |tickets| ==> Usable(tickets[i])) ==> |Prepared(eventId, userId, tickets)| == |tickets|
    ensures (forall i :: 0 <= i < |tickets| ==> !Usable(tickets[i])) ==> Prepared(eventId, userId, tickets) == []
    ensures forall i :: 0 <= i < |Prepared(eventId, userId, tickets)| ==>
      var p := Prepared(eventId, userId, tickets)[i];
      p.status == Approved && p.eventId == eventId && Present(p.name) && Present(p.email)
  {
    if forall i :: 0 <= i < |tickets| ==> Usable(tickets[i]) {
      FilterAll(tickets, Usable);
    }
    if forall i :: 0 <= i < |tickets| ==> !Usable(tickets[i]) {
      FilterNone(tickets, Usable);
    }
  }

  /** The first loop of `importTickets`. */
  method PrepareParticipations(eventId: Id, userId: Id, tickets: seq<TicketRow>) returns (data: seq<Participation>)
    ensures data == Prepared(eventId, userId, tickets)
  {
    data := [];
    for k := 0 to |tickets|
      invariant data == Prepared(eventId, userId, tickets[..k])
    {
      var ticket := tickets[k];
      assert tickets[..k + 1] == tickets[..k] + [ticket];
      FilterAppend(tickets[..k], [ticket], Usable);
      FilterSingleton(ticket, Usable);
      if !Usable(ticket) {
        continue;
      }
      MapAppend(Filter(tickets[..k], Usable), ticket, (t: TicketRow) => ToParticipation(eventId, userId, t));
      data := data + [ToParticipation(eventId, userId, ticket)];
    }
    assert tickets[..|tickets|] == tickets;
  }

  /** `【${event.name}】入場チケット送付のお知らせ`. */
  function TicketSubject(eventName: string): string
  {
    "【" + eventName + "】入場チケット送付のお知らせ"
  }

  /** `tenant.name || 'Event System'`. */
  function Issuer(tenantName: string): (s: string)
    ensures s != ""
  {
    if tenantName != "" then tenantName else "Event System"
  }

  /** The mail job queued for one inserted participation. */
  function TicketJob(tenant: Tenant, event: Event, siteUrl: string, p: Participation): (j: MailJob)
    ensures j.tenantId == tenant.id && j.status == JobPending && j.retries == Some(0)
    ensures j.toEmail == p.email && j.subject == TicketSubject(event.name)
    ensures j.body.TicketNoticeBody? && j.body.participationId == p.id && j.body.siteUrl == siteUrl
    ensures j.participationId == None && j.errorMessage == None && j.processedAt == None
  {
    MailJob(0, tenant.id, None, p.email, TicketSubject(event.name),
            TicketNoticeBody(event.name, p.name, p.ticketType, p.startTime, p.companyCode, p.id, Issuer(tenant.name),
                             siteUrl),
            JobPending, Some(0), None, None)
  }

  /** `mailJobsData`: one job per inserted participation, in order. */
  function TicketJobs(tenant: Tenant, event: Event, siteUrl: string, inserted: seq<Participation>): seq<MailJob>
  {
    Map(inserted, (p: Participation) => TicketJob(tenant, event, siteUrl, p))
  }

  /** The second loop of `importTickets`. */
  method PrepareMailJobs(tenant: Tenant, event: Event, siteUrl: string, inserted: seq<Participation>) returns (jobs: seq<MailJob>)
    ensures jobs == TicketJobs(tenant, event, siteUrl, inserted)
  {
    jobs := [];
    for k := 0 to |inserted|
      invariant jobs == TicketJobs(tenant, event, siteUrl, inserted[..k])
    {
      assert inserted[..k + 1] == inserted[..k] + [inserted[k]];
      MapAppend(inserted[..k], inserted[k], (p: Participation) => TicketJob(tenant, event, siteUrl, p));
      jobs := jobs + [TicketJob(tenant, event, siteUrl, inserted[k])];
    }
    assert inserted[..|inserted|] == inserted;
  }

  function JobRecipient(j: MailJob): Option<string>
  {
    j.toEmail
  }

  function RowEmail(t: TicketRow): Option<string>
  {
    t.email
  }

  /** The ticket mails go, one each and in order, to the emails of the
      usable rows. */
  lemma {:induction false} MailsFollowRows(tenant: Tenant, event: Event, siteUrl: string, eventId: Id, userId: Id,
                                           tickets: seq<TicketRow>, first: Id)
    ensures Map(TicketJobs(tenant, event, siteUrl, AssignIds(Prepared(eventId, userId, tickets), first)), JobRecipient)
      == Map(Filter(tickets, Usable), RowEmail)
  {
    var kept := Filter(tickets, Usable);
    var jobs := TicketJobs(tenant, event, siteUrl, AssignIds(Prepared(eventId, userId, tickets), first));
    assert |Map(jobs, JobRecipient)| == |kept|;
    forall i | 0 <= i < |kept|
      ensures Map(jobs, JobRecipient)[i] == Map(kept, RowEmail)[i]
    {
    }
  }

  /** The mail jobs stored: the ticket mails of the inserted rows with ids
      from `first` on, or none when the mail-job insert fails. */
  function Queued(tenant: Tenant, event: Event, siteUrl: string, inserted: seq<Participation>, first: Id,
                  mailInsert: WriteOutcome): (q: seq<MailJob>)
    ensures mailInsert.WriteError? ==> q == []
    ensures mailInsert.Written? ==> |q| == |inserted| && forall i :: 0 <= i < |inserted| ==>
      q[i] == TicketJob(tenant, event, siteUrl, inserted[i]).(id := first + i)
  {
    if mailInsert.Written? then AssignJobIds(TicketJobs(tenant, event, siteUrl, inserted), first) else []
  }

  /** The tables after the import of `data`: the rows with ids from `first`
      on, then their mails with the next ids unless the mail-job insert failed. */
  predicate Stored(participations: seq<Participation>, mailJobs: seq<MailJob>, first: Id,
                   participations': seq<Participation>, mailJobs': seq<MailJob>,
                   tenant: Tenant, event: Event, siteUrl: string, data: seq<Participation>, mailInsert: WriteOutcome)
  {
    && participations' == participations + AssignIds(data, first)
    && mailJobs' == mailJobs + Queued(tenant, event, siteUrl, AssignIds(data, first), first + |data|, mailInsert)
  }

  datatype ImportResult =
    | Imported(count: nat)
    | NotLoggedIn
    | TenantNotFound
    | EventNotFound
    | NoValidTickets
    | SaveFailed(error: string)

  /** `importTickets`. `appUrl` is `NEXT_PUBLIC_APP_URL`, the base of the
      ticket links; `insert` is the database's answer to the participation
      insert and `mailInsert` its answer to the mail-job insert. */
  method ImportTickets(db: Database, user: Option<User>, eventId: Id, tickets: seq<TicketRow>,
                       appUrl: Option<string>, insert: WriteOutcome, mailInsert: WriteOutcome)
    returns (r: ImportResult)
    modifies db`participations, db`mailJobs, db`nextId
    ensures !r.Imported? ==> db.participations == old(db.participations) && db.mailJobs == old(db.mailJobs)
    ensures r == NotLoggedIn <==> user.None?
    ensures r == TenantNotFound <==> user.Some? && TenantOf(db.tenants, user.value.id).None?
    ensures r == EventNotFound <==>
      user.Some? && TenantOf(db.tenants, user.value.id).Some?
      && OwnedEvent(db.events, eventId, TenantOf(db.tenants, user.value.id).value.id).None?
    ensures r == NoValidTickets <==>
      user.Some? && TenantOf(db.tenants, user.value.id).Some?
      && OwnedEvent(db.events, eventId, TenantOf(db.tenants, user.value.id).value.id).Some?
      && Prepared(eventId, user.value.id, tickets) == []
    ensures r.Imported? || r.SaveFailed? ==>
      && user.Some? && TenantOf(db.tenants, user.value.id).Some?
      && OwnedEvent(db.events, eventId, TenantOf(db.tenants, user.value.id).value.id).Some?
      && Prepared(eventId, user.value.id, tickets) != []
    ensures r.SaveFailed? ==> insert.WriteError? && r.error == "データの保存に失敗しました: " + insert.message
    ensures r.Imported? ==> insert.Written? && r.count == |Prepared(eventId, user.value.id, tickets)|
    ensures r.Imported? ==>
      var tenant := TenantOf(db.tenants, user.value.id).value;
      Stored(old(db.participations), old(db.mailJobs), old(db.nextId), db.participations, db.mailJobs,
             tenant, OwnedEvent(db.events, eventId, tenant.id).value, OrElse(appUrl, DefaultSiteUrl),
             Prepared(eventId, user.value.id, tickets), mailInsert)
  {
    if user.None? {
      return NotLoggedIn;
    }
    var tenant := TenantOf(db.tenants, user.value.id);
    if tenant.None? {
      return TenantNotFound;
    }
    var event := OwnedEvent(db.events, eventId, tenant.value.id);
    if event.None? {
      return EventNotFound;
    }
    var data := PrepareParticipations(eventId, user.value.id, tickets);
    if |data| == 0 {
      return NoValidTickets;
    }
    if insert.WriteError? {
      return SaveFailed("データの保存に失敗しました: " + insert.message);
    }
    var count := StoreTickets(db, tenant.value, event.value, OrElse(appUrl, DefaultSiteUrl), data, mailInsert);
    r := Imported(count);
  }

  /** Steps 4 to 6 of `importTickets`, after a successful participation
      insert: the rows are stored, and their ticket mails are queued when
      the mail-job insert succeeds. */
  method StoreTickets(db: Database, tenant: Tenant, event: Event, siteUrl: string, data: seq<Participation>, mailInsert: WriteOutcome)
    returns (count: nat)
    modifies db`participations, db`mailJobs, db`nextId
    ensures count == |data|
    ensures Stored(old(db.participations), old(db.mailJobs), old(db.nextId), db.participations, db.mailJobs,
                   tenant, event, siteUrl, data, mailInsert)
  {
    var first := db.Allocate(|data|);
    var inserted := AssignIds(data, first);
    db.participations := db.participations + inserted;
    var jobs := PrepareMailJobs(tenant, event, siteUrl, inserted);
    if |jobs| > 0 && mailInsert.Written? {
      var firstJob := db.Allocate(|jobs|);
      db.mailJobs := db.mailJobs + AssignJobIds(jobs, firstJob);
    }
    count := |inserted|;
  }
}
