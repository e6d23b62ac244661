/** `POST /api/send-bulk-emails` (src/app/api/send-bulk-emails/route.ts):
    queues one ticket mail for every participant of the caller's event who
    has an email and has not been mailed yet, then marks them mailed. */
module BulkEmail {
  import opened Common
  import opened Schema

  datatype BulkResult =
    | Queued(count: nat)
    | MissingEventId
    | NotLoggedIn
    | EventNotFound
    | NoRecipients
    | QueueFailed
  {
    /** The HTTP status of the answer. */
    function HttpStatus(): (code: nat)
      ensures code == 200 <==> this.Queued?
    {
      match this
      case Queued(_) => 200
      case MissingEventId => 400
      case NotLoggedIn => 401
      case EventNotFound => 404
      case NoRecipients => 400
      case QueueFailed => 500
    }
  }

  /** The participations the route selects: of the event, not yet mailed,
      with a non-null email. */
  predicate Unsent(p: Participation, eventId: Id)
  {
    p.eventId == eventId && !p.emailSent && p.email.Some?
  }

  function Recipients(ps: seq<Participation>, eventId: Id): seq<Participation>
  {
    Filter(ps, (p: Participation) => Unsent(p, eventId))
  }

  /** `【${event.name}】入場チケットのご案内`. */
  function BulkSubject(eventName: string): string
  {
    "【" + eventName + "】入場チケットのご案内"
  }

  /** The job queued for one recipient. */
  function BulkJob(tenant: Tenant, event: Event, p: Participation): (j: MailJob)
    ensures j.tenantId == tenant.id && j.participationId == Some(p.id) && j.toEmail == p.email
    ensures j.status == JobPending && j.subject == BulkSubject(event.name)
    ensures j.body == BulkTicketBody(event.name, p.name, p.checkinToken, p.ticketType, event.emailTemplate)
  {
    MailJob(0, tenant.id, Some(p.id), p.email, BulkSubject(event.name),
            BulkTicketBody(event.name, p.name, p.checkinToken, p.ticketType, event.emailTemplate),
            JobPending, None, None, None)
  }

  /** `emailJobs`: one job per recipient, in order. */
  function BulkJobs(tenant: Tenant, event: Event, recipients: seq<Participation>): (jobs: seq<MailJob>)
    ensures |jobs| == |recipients|
    ensures forall i :: 0 <= i < |recipients| ==> jobs[i] == BulkJob(tenant, event, recipients[i])
  {
    Map(recipients, (p: Participation) => BulkJob(tenant, event, p))
  }

  /** `update({ email_sent: true }).in('id', ids)`: every row whose id is
      listed is marked mailed. */
  function MarkSent(ps: seq<Participation>, ids: set<Id>): (r: seq<Participation>)
    ensures |r| == |ps|
    ensures forall i :: 0 <= i < |ps| ==> r[i] == if ps[i].id in ids then ps[i].(emailSent := true) else ps[i]
  {
    seq(|ps|, i requires 0 <= i < |ps| => if ps[i].id in ids then ps[i].(emailSent := true) else ps[i])
  }

  /** The ids of a set of rows. */
  function IdSet(ps: seq<Participation>): (ids: set<Id>)
    ensures forall id :: id in ids <==> exists i :: 0 <= i < |ps| && ps[i].id == id
  {
    set i | 0 <= i < |ps| :: ps[i].id
  }

  ghost predicate UniqueIds(ps: seq<Participation>)
  {
    forall i, j :: 0 <= i < j < |ps| ==> ps[i].id != ps[j].id
  }

  /** The tables after a queued send: the recipients' jobs with ids from
      `first`, and the recipients marked mailed unless that update failed. */
  predicate Stored(participations: seq<Participation>, mailJobs: seq<MailJob>, first: Id,
                   participations': seq<Participation>, mailJobs': seq<MailJob>,
                   tenant: Tenant, event: Event, update: WriteOutcome)
  {
    var recipients := Recipients(participations, event.id);
    && mailJobs' == mailJobs + AssignJobIds(BulkJobs(tenant, event, recipients), first)
    && participations' == (if update.Written? then MarkSent(participations, IdSet(recipients)) else participations)
  }

  /** The route. `eventId` is the body's field, `insert` and `update` the
      database's answers to the job insert and the `email_sent` update. */
  method SendBulkEmails(db: Database, user: Option<User>, eventId: Option<Id>, insert: WriteOutcome, update: WriteOutcome)
    returns (r: BulkResult)
    modifies db`participations, db`mailJobs, db`nextId
    ensures !r.Queued? ==> db.participations == old(db.participations) && db.mailJobs == old(db.mailJobs)
    ensures r == MissingEventId <==> eventId.None?
    ensures r == NotLoggedIn <==> eventId.Some? && user.None?
    ensures r == EventNotFound <==> eventId.Some? && user.Some? && EventOwnedBy(db.events, db.tenants, eventId.value, user.value.id).None?
    ensures r == NoRecipients || r == QueueFailed || r.Queued? ==>
      && eventId.Some? && user.Some? && EventOwnedBy(db.events, db.tenants, eventId.value, user.value.id).Some?
      && var recipients := Recipients(old(db.participations), eventId.value);
      && (r == NoRecipients <==> recipients == [])
      && (r == QueueFailed <==> recipients != [] && insert.WriteError?)
      && (r.Queued? ==>
            && r.count == |recipients|
            && Stored(old(db.participations), old(db.mailJobs), old(db.nextId), db.participations, db.mailJobs,
                      EventOwnedBy(db.events, db.tenants, eventId.value, user.value.id).value.1,
                      EventOwnedBy(db.events, db.tenants, eventId.value, user.value.id).value.0, update))
  {
    if eventId.None? {
      return MissingEventId;
    }
    if user.None? {
      return NotLoggedIn;
    }
    var owned := EventOwnedBy(db.events, db.tenants, eventId.value, user.value.id);
    if owned.None? {
      return EventNotFound;
    }
    var recipients := Recipients(db.participations, eventId.value);
    if |recipients| == 0 {
      return NoRecipients;
    }
    if insert.WriteError? {
      return QueueFailed;
    }
    var event, tenant := owned.value.0, owned.value.1;
    var first := db.Allocate(|recipients|);
    db.mailJobs := db.mailJobs + AssignJobIds(BulkJobs(tenant, event, recipients), first);
    if update.Written? {
      db.participations := MarkSent(db.participations, IdSet(recipients));
    }
    r := Queued(|recipients|);
  }

  /** Each queued job names its recipient's participation and email. */
  lemma JobsNameRecipients(tenant: Tenant, event: Event, ps: seq<Participation>, first: Id)
    ensures var recipients := Recipients(ps, event.id);
      var jobs := AssignJobIds(BulkJobs(tenant, event, recipients), first);
      forall i :: 0 <= i < |jobs| ==>
        && jobs[i].participationId == Some(recipients[i].id)
        && jobs[i].toEmail == recipients[i].email && jobs[i].toEmail.Some?
        && jobs[i].status == JobPending
  {
  }

  /** After the marking, nobody of the event is left to mail: a second send
      answers NoRecipients. */
  lemma MarkingEmptiesSelection(ps: seq<Participation>, eventId: Id)
    ensures Recipients(MarkSent(ps, IdSet(Recipients(ps, eventId))), eventId) == []
  {
    var marked := MarkSent(ps, IdSet(Recipients(ps, eventId)));
    var unsent := (p: Participation) => Unsent(p, eventId);
    forall i | 0 <= i < |marked|
      ensures !unsent(marked[i])
    {
      if unsent(ps[i]) {
        assert ps[i] in Recipients(ps, eventId);
      }
    }
    FilterNone(marked, unsent);
  }

  /** With distinct participation ids, the marking touches exactly the
      recipients; rows of other events and rows already mailed stay as they
      were. */
  lemma MarksOnlyRecipients(ps: seq<Participation>, eventId: Id)
    requires UniqueIds(ps)
    ensures var marked := MarkSent(ps, IdSet(Recipients(ps, eventId)));
      forall i :: 0 <= i < |ps| ==>
        marked[i] == if Unsent(ps[i], eventId) then ps[i].(emailSent := true) else ps[i]
  {
    var recipients := Recipients(ps, eventId);
    forall i | 0 <= i < |ps|
      ensures ps[i].id in IdSet(recipients) <==> Unsent(ps[i], eventId)
    {
      if Unsent(ps[i], eventId) {
        assert ps[i] in recipients;
        var k :| 0 <= k < |recipients| && recipients[k] == ps[i];
      }
      if ps[i].id in IdSet(recipients) {
        var k :| 0 <= k < |recipients| && recipients[k].id == ps[i].id;
        assert recipients[k] in ps;
        var j :| 0 <= j < |ps| && ps[j] == recipients[k];
        assert i == j;
      }
    }
  }
}
