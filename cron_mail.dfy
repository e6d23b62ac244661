/** `GET /api/cron/mail` (src/app/api/cron/mail/route.ts): the mail-job
    processor. It takes up to 30 pending jobs and, one after the other, sends
    each through its tenant's SMTP server and records `sent` or `failed`. */
module CronMail {
  import opened Common
  import opened Schema

  /** Jobs handled by one run. */
  const BatchSize: nat := 30

  const IncompleteSmtp: string := "テナントのSMTP設定が不完全です。設定画面を確認してください。"

  /** A value interpolated into a template literal: a missing one prints as
      `undefined`. */
  function Interpolated(s: Option<string>): string
  {
    if s.Some? then s.value else "undefined"
  }

  /** The check as written: the header must equal `Bearer ${CRON_SECRET}`,
      which is `Bearer undefined` when the secret is not configured. */
  predicate AuthorizedAsWritten(header: Option<string>, secret: Option<string>)
    ensures AuthorizedAsWritten(header, secret) ==> header.Some?
    ensures secret.Some? ==> (AuthorizedAsWritten(header, secret) <==> header == Some("Bearer " + secret.value))
    ensures secret.None? ==> (AuthorizedAsWritten(header, secret) <==> header == Some("Bearer undefined"))
  {
    assert "Bearer " + "undefined" == "Bearer undefined";
    header == Some("Bearer " + Interpolated(secret))
  }

  /** The check as intended: a configured secret, presented as a bearer token. */
  predicate Authorized(header: Option<string>, secret: Option<string>)
  {
    secret.Some? && header == Some("Bearer " + secret.value)
  }

  /** The two checks agree whenever the secret is configured, and the intended
      one never admits a caller when it is not. */
  lemma AuthorizedRefinesAsWritten(header: Option<string>, secret: Option<string>)
    ensures secret.Some? ==> (Authorized(header, secret) <==> AuthorizedAsWritten(header, secret))
    ensures secret.None? ==> !Authorized(header, secret)
    ensures Authorized(header, secret) ==> AuthorizedAsWritten(header, secret)
  {
  }

  /** With no secret configured, anyone sending `Bearer undefined` gets
      through the check as written. */
  lemma UnsetSecretAdmitsAnyone()
    ensures AuthorizedAsWritten(Some("Bearer undefined"), None)
    ensures !Authorized(Some("Bearer undefined"), None)
  {
    assert "Bearer " + Interpolated(None) == "Bearer undefined";
  }

  predicate IsPending(j: MailJob)
  {
    j.status == JobPending
  }

  /** The first `n` elements of `s`, or all of them (`.limit(n)`). */
  function Take<T>(s: seq<T>, n: nat): (r: seq<T>)
    ensures |r| <= n && |r| <= |s|
    ensures |s| <= n ==> r == s
    ensures forall i :: 0 <= i < |r| ==> r[i] == s[i]
  {
    if |s| <= n then s else s[..n]
  }

  /** `mail_jobs.eq('status', 'pending').limit(30)`, in table order. */
  function Batch(jobs: seq<MailJob>): (b: seq<MailJob>)
    ensures |b| <= BatchSize
    ensures forall i :: 0 <= i < |b| ==> b[i] in jobs && IsPending(b[i])
  {
    Take(Filter(jobs, IsPending), BatchSize)
  }

  /** There are no pending jobs exactly when the batch is empty, and a batch
      short of 30 takes every pending job. */
  lemma BatchSpec(jobs: seq<MailJob>)
    ensures Batch(jobs) == [] <==> forall i :: 0 <= i < |jobs| ==> !IsPending(jobs[i])
    ensures |Batch(jobs)| < BatchSize ==> Batch(jobs) == Filter(jobs, IsPending)
  {
    if forall i :: 0 <= i < |jobs| ==> !IsPending(jobs[i]) {
      FilterNone(jobs, IsPending);
    }
  }

  /** The nodemailer transport and message one job is sent with. */
  datatype Envelope = Envelope(
    host: string,
    port: Option<int>,
    secure: bool,
    user: string,
    password: string,
    from: string,
    to: Option<string>,
    subject: string,
    body: MailBody)

  /** The tenant's SMTP settings have host, user and password. */
  predicate SmtpComplete(t: Tenant)
  {
    Present(t.smtpHost) && Present(t.smtpUser) && Present(t.smtpPassword)
  }

  /** `smtp_from_name || tenant.name`. */
  function FromName(t: Tenant): (name: string)
    ensures Present(t.smtpFromName) ==> name == t.smtpFromName.value
    ensures !Present(t.smtpFromName) ==> name == t.name
  {
    if Present(t.smtpFromName) then t.smtpFromName.value else t.name
  }

  /** A missing sender address prints as `null` in the from line. */
  function FromAddress(t: Tenant): string
  {
    if t.smtpFromEmail.Some? then t.smtpFromEmail.value else "null"
  }

  function EnvelopeOf(t: Tenant, j: MailJob): (e: Envelope)
    requires SmtpComplete(t)
    ensures e.secure <==> t.smtpPort == Some(465)
    ensures e.host == t.smtpHost.value && e.port == t.smtpPort
    ensures e.user == t.smtpUser.value && e.password == t.smtpPassword.value
    ensures e.from == "\"" + FromName(t) + "\" <" + FromAddress(t) + ">"
    ensures e.to == j.toEmail && e.subject == j.subject && e.body == j.body
  {
    Envelope(t.smtpHost.value, t.smtpPort, t.smtpPort == Some(465), t.smtpUser.value, t.smtpPassword.value,
             "\"" + FromName(t) + "\" <" + FromAddress(t) + ">", j.toEmail, j.subject, j.body)
  }

  /** What `sendMail` answers: delivered, or the error it throws. */
  datatype SendOutcome = Delivered | SendError(message: string)

  /** One entry of `processed`. */
  datatype Report = Report(id: Id, status: JobStatus, error: Option<string>)

  /** What happens to the job at position `k` of the batch: incomplete SMTP
      settings fail it without a send, otherwise the send decides.
      `send(k, e)` is the SMTP server's answer to the `k`th send. */
  function Outcome(tenants: seq<Tenant>, j: MailJob, k: nat, send: (nat, Envelope) -> SendOutcome): (r: Report)
    ensures r.id == j.id && r.status != JobPending
    ensures r.status == JobSent <==> r.error.None?
    ensures (TenantById(tenants, j.tenantId).None? || !SmtpComplete(TenantById(tenants, j.tenantId).value))
      ==> r == Report(j.id, JobFailed, Some(IncompleteSmtp))
    ensures TenantById(tenants, j.tenantId).Some? && SmtpComplete(TenantById(tenants, j.tenantId).value) ==>
      var answer := send(k, EnvelopeOf(TenantById(tenants, j.tenantId).value, j));
      && (r.status == JobSent <==> answer.Delivered?)
      && (answer.SendError? ==> r.error == Some(answer.message))
  {
    match TenantById(tenants, j.tenantId)
    case None => Report(j.id, JobFailed, Some(IncompleteSmtp))
    case Some(t) =>
      if !SmtpComplete(t) then Report(j.id, JobFailed, Some(IncompleteSmtp))
      else match send(k, EnvelopeOf(t, j))
        case Delivered => Report(j.id, JobSent, None)
        case SendError(message) => Report(j.id, JobFailed, Some(message))
  }

  /** A job row after its report is recorded: `sent` leaves the error
      message alone, `failed` stores it; both stamp the processing time. */
  function Stamped(j: MailJob, r: Report, now: Timestamp): (j': MailJob)
    ensures j'.status == r.status && j'.processedAt == Some(now) && j'.id == j.id
    ensures j'.errorMessage == (if r.status == JobSent then j.errorMessage else r.error)
  {
    if r.status == JobSent then j.(status := JobSent, processedAt := Some(now))
    else j.(status := r.status, errorMessage := r.error, processedAt := Some(now))
  }

  /** `update({status, error_message?, processed_at}).eq('id', id)`. */
  function Record(jobs: seq<MailJob>, r: Report, now: Timestamp): (out: seq<MailJob>)
    ensures |out| == |jobs|
    ensures forall i :: 0 <= i < |jobs| ==> out[i] == if jobs[i].id == r.id then Stamped(jobs[i], r, now) else jobs[i]
  {
    seq(|jobs|, i requires 0 <= i < |jobs| => if jobs[i].id == r.id then Stamped(jobs[i], r, now) else jobs[i])
  }

  /** The reports of the first `|batch|` jobs, in batch order. */
  function Reports(tenants: seq<Tenant>, batch: seq<MailJob>, send: (nat, Envelope) -> SendOutcome): (rs: seq<Report>)
    ensures |rs| == |batch|
    ensures forall k :: 0 <= k < |batch| ==> rs[k] == Outcome(tenants, batch[k], k, send)
  {
    seq(|batch|, k requires 0 <= k < |batch| => Outcome(tenants, batch[k], k, send))
  }

  /** The table after recording every report, first to last. */
  function Drained(jobs: seq<MailJob>, reports: seq<Report>, now: Timestamp): seq<MailJob>
    decreases |reports|
  {
    if reports == [] then jobs
    else Record(Drained(jobs, reports[..|reports| - 1], now), reports[|reports| - 1], now)
  }

  function ReportId(r: Report): Id
  {
    r.id
  }

  /** Rows whose id no report names are untouched; rows whose id some report
      names have left `pending` and carry the processing time. */
  lemma {:induction false} DrainedSpec(jobs: seq<MailJob>, reports: seq<Report>, now: Timestamp)
    requires forall k :: 0 <= k < |reports| ==> reports[k].status != JobPending
    ensures |Drained(jobs, reports, now)| == |jobs|
    ensures forall i :: 0 <= i < |jobs| && jobs[i].id !in Map(reports, ReportId) ==>
      Drained(jobs, reports, now)[i] == jobs[i]
    ensures forall i :: 0 <= i < |jobs| && jobs[i].id in Map(reports, ReportId) ==>
      Drained(jobs, reports, now)[i].status != JobPending && Drained(jobs, reports, now)[i].processedAt == Some(now)
      && Drained(jobs, reports, now)[i].id == jobs[i].id
    decreases |reports|
  {
    if reports != [] {
      var init := reports[..|reports| - 1];
      var last := reports[|reports| - 1];
      DrainedSpec(jobs, init, now);
      assert Map(reports, ReportId) == Map(init, ReportId) + [last.id];
    }
  }

  datatype CronResult = Unauthorized | NoJobs | Processed(reports: seq<Report>)

  /** The route. `header` is the Authorization header, `secret` the
      configured CRON_SECRET, `send` the SMTP server's answers and `now` the
      clock. */
  method ProcessMailJobs(db: Database, header: Option<string>, secret: Option<string>,
                         send: (nat, Envelope) -> SendOutcome, now: Timestamp)
    returns (r: CronResult)
    modifies db`mailJobs
    ensures r == Unauthorized <==> !AuthorizedAsWritten(header, secret)
    ensures r == NoJobs <==> AuthorizedAsWritten(header, secret) && Batch(old(db.mailJobs)) == []
    ensures !r.Processed? ==> db.mailJobs == old(db.mailJobs)
    ensures r.Processed? ==>
      && r.reports == Reports(db.tenants, Batch(old(db.mailJobs)), send)
      && db.mailJobs == Drained(old(db.mailJobs), r.reports, now)
  {
    if !AuthorizedAsWritten(header, secret) {
      return Unauthorized;
    }
    var jobs := Batch(db.mailJobs);
    if |jobs| == 0 {
      return NoJobs;
    }
    var results := DrainBatch(db, jobs, send, now);
    r := Processed(results);
  }

  /** The loop of the route: each job of the batch in turn is sent, or
      failed, and its row updated; the reports come back in batch order. */
  method DrainBatch(db: Database, jobs: seq<MailJob>, send: (nat, Envelope) -> SendOutcome, now: Timestamp)
    returns (results: seq<Report>)
    modifies db`mailJobs
    ensures results == Reports(db.tenants, jobs, send)
    ensures db.mailJobs == Drained(old(db.mailJobs), results, now)
  {
    var tenants := db.tenants;
    results := [];
    for k := 0 to |jobs|
      invariant results == Reports(tenants, jobs[..k], send)
      invariant db.mailJobs == Drained(old(db.mailJobs), results, now)
    {
      var report := Outcome(tenants, jobs[k], k, send);
      db.mailJobs := Record(db.mailJobs, report, now);
      results := results + [report];
      assert results[..|results| - 1] == Reports(tenants, jobs[..k], send);
    }
    assert jobs[..|jobs|] == jobs;
  }

  /** After a run, every job of the batch has left `pending`, and jobs outside
      the batch are as they were, provided job ids are distinct. */
  lemma RunLeavesNoBatchJobPending(jobs: seq<MailJob>, tenants: seq<Tenant>, send: (nat, Envelope) -> SendOutcome,
                                   now: Timestamp)
    requires forall i, j :: 0 <= i < j < |jobs| ==> jobs[i].id != jobs[j].id
    ensures var after := Drained(jobs, Reports(tenants, Batch(jobs), send), now);
      && |after| == |jobs|
      && forall i :: 0 <= i < |jobs| ==>
           if jobs[i] in Batch(jobs) then after[i].status != JobPending else after[i] == jobs[i]
  {
    var batch := Batch(jobs);
    var reports := Reports(tenants, batch, send);
    var after := Drained(jobs, reports, now);
    DrainedSpec(jobs, reports, now);
    forall i | 0 <= i < |jobs|
      ensures jobs[i] in batch <==> jobs[i].id in Map(reports, ReportId)
    {
      if jobs[i] in batch {
        var k :| 0 <= k < |batch| && batch[k] == jobs[i];
        assert Map(reports, ReportId)[k] == jobs[i].id;
      }
      if jobs[i].id in Map(reports, ReportId) {
        var k :| 0 <= k < |reports| && Map(reports, ReportId)[k] == jobs[i].id;
        assert batch[k] in jobs;
        var j :| 0 <= j < |jobs| && jobs[j] == batch[k];
        assert i == j;
      }
    }
  }
}
