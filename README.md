# Event check-in: a Dafny model of its server logic

The system is a multi-tenant event check-in web application.
- A **tenant** is a company account, owned by one admin user.
- A tenant has **events**, a **roster** of employees (`master_data`) and **participations** (tickets).
- Outgoing mail goes through a **mail-job** queue that a cron route drains.
- Staff at the door sign in with a company code, an event code and a passcode, then check people in by scanning their ticket token.

This project models the server actions and routes that carry the decision logic:
- staff login, session and check-in;
- the participant registration route and its ticket-type rules;
- the CSV parser and the ticket-import page's helper logic;
- bulk ticket import;
- the public application form;
- roster import, add and delete;
- bulk e-mail queueing;
- the mail cron;
- the dashboard counts;
- event and SMTP settings;
- the super-admin tenant tools.

Every action runs its guards in the source's order and returns a typed answer. It then changes the tables, which are `seq` fields of one `Schema.Database` object. Each method's `modifies` clause names exactly the tables the action writes, so "nothing else changes" is part of every contract. A Supabase `.single()` lookup is `Common.Single`: the unique match, or nothing when zero or several rows match.

Outside answers become parameters:
- the database's answer to each write (`WriteOutcome`) and to each identity-provider call (`AuthOutcome`);
- the SMTP server's answer to each send;
- random draws, the clock, request headers and environment variables.

Loops that the source writes as loops are methods proved equal to a specification function. Examples are the CSV splitter, the rule loop, column detection, copy expansion, password generation, the company-code retry loop and the mail-job loop. The properties are proved about those functions.

Modules, one per source file plus three shared ones:

| module | file | models |
|---|---|---|
| `Common` | common.dfy | `Option`/`Result`, `Filter`/`Map`/`Count`, `.single()`, JavaScript truthiness |
| `Text` | text.dfy | `trim`, `includes`, `toLowerCase`, `parseInt`, `padStart`, `split` on one character |
| `Schema` | schema.dfy | the rows of the six tables and the owner/tenant lookups every action shares |
| `Staff` | staff.dfy | src/app/actions/staff.ts |
| `RegisterParticipants` | register_participants.dfy | src/app/api/register-participants/route.ts |
| `CsvParser` | csv_parser.dfy | src/utils/csvParser.ts |
| `TicketImport` | ticket_import.dfy | src/app/admin/tickets/import/page.tsx |
| `Tickets` | tickets.dfy | src/app/actions/tickets.ts |
| `Apply` | apply.dfy | src/app/actions/apply.ts |
| `Master` | master.dfy | src/app/actions/master.ts |
| `BulkEmail` | bulk_email.dfy | src/app/api/send-bulk-emails/route.ts |
| `CronMail` | cron_mail.dfy | src/app/api/cron/mail/route.ts |
| `Dashboard` | dashboard.dfy | src/app/actions/dashboard.ts |
| `Settings` | settings.dfy | src/app/actions/settings.ts |
| `SuperAdmin` | super_admin.dfy | src/app/actions/super-admin.ts |

Facts about the code worth knowing before reading the model:
- The route's substring test does not match a ticket rule keyed on `8800` against the price text `8,800円`. `RegisterParticipants.SeparatorDefeatsKeyword` proves that the type stays "Standard".
- The code keeps no re-entry history, has no invite-only gate on applications and does no rule matching during ticket import, so the model has none of these.
- The actions' own comments rely on foreign keys that cascade: deleting an event deletes its participations (src/app/actions/settings.ts:179-185), and deleting a tenant deletes its events, roster, mail jobs and participations (src/app/actions/super-admin.ts:190-191). The model assumes exactly these cascades and no others.
- The ticket import writes the importing user to the `invited_by` column and the registration route writes it to `inviter`. The model keeps both columns, since the table definition is not part of this model.

## Model

| member | source | states |
|---|---|---|
| Schema.TenantOf | src/app/actions/dashboard.ts:13-20 | The caller's tenant, when found, is a tenant row owned by the caller |
| Schema.EventOwnedBy | src/app/actions/dashboard.ts:41-57 | An event is returned exactly when it exists once, its tenant row exists, and the caller owns that tenant; the pair is consistent |
| Schema.OwnedEvent | src/app/actions/tickets.ts:31-38 | A found event has the requested id and belongs to the requested tenant |
| Common.Numbered | src/app/actions/tickets.ts:79-87 | A bulk insert keeps every row in order and gives the row at position `i` the identifier `first + i` |
| Schema.AssignIds | src/app/actions/tickets.ts:79-87 | A bulk insert keeps every row in order and only gives it the next identifiers |
| Schema.OrElse | src/app/actions/tickets.ts:59-70 | A filled value wins, otherwise the fallback |
| Schema.Database.Allocate | src/app/actions/tickets.ts:79-87 | Reserves exactly `n` fresh identifiers after those already used |
| Staff.CookieJar.GetStaffSession | src/app/actions/staff.ts:82-92 | No session without a cookie or with an unparseable one; a session read back is exactly the one the cookie encodes |
| Staff.CookieJar.StaffLogout | src/app/actions/staff.ts:75-79 | After logout there is no session |
| Staff.TenantByCode | src/app/actions/staff.ts:30-38 | A found tenant is a row with that company code |
| Staff.EventByCode | src/app/actions/staff.ts:41-50 | A found event belongs to the tenant and has that event code |
| Staff.StaffLogin | src/app/actions/staff.ts:17-72 | Empty fields, an unknown company, an unknown event and a wrong passcode are answered in that order, each exactly when its check is the first to fail, and none sets the cookie; success stores a 24-hour cookie that reads back as (event id, event name, tenant name) |
| Staff.FindByToken | src/app/actions/staff.ts:105-121 | A found row has the scanned token and belongs to the session's event |
| Staff.MarkCheckedIn | src/app/actions/staff.ts:134-145 | The row with the id becomes checked in at `now` with every other column kept; every other row is unchanged |
| Staff.CheckIn | src/app/actions/staff.ts:95-152 | No session, an unknown token, an already checked-in row and a failed update are refused and change nothing; otherwise exactly that row is marked checked in; the table changes if and only if the answer is success |
| Staff.SecondScanFindsCheckedIn | src/app/actions/staff.ts:105-131 | After a check-in the same token finds the same row, now checked in, so a second scan is answered "already checked in" |
| RegisterParticipants.TicketTypeOf | src/app/api/register-participants/route.ts:44-54 | The type is the name of the first rule in list order with a keyword occurring in the price text, and "Standard" when no rule fires |
| RegisterParticipants.ClassifyTicket | src/app/api/register-participants/route.ts:46-54 | The rule loop with its early break computes exactly that first-match type |
| RegisterParticipants.NoKeywordsMeansStandard | src/app/api/register-participants/route.ts:44-50 | Without keywords, for example with no `ticket_config`, every price is "Standard" |
| RegisterParticipants.EmptyKeywordAlwaysFires | src/app/api/register-participants/route.ts:50 | A rule holding the empty keyword fires on any price text |
| RegisterParticipants.SeparatorDefeatsKeyword | src/app/api/register-participants/route.ts:50 | The keyword `8800` does not match the price text `8,800円` |
| RegisterParticipants.ToRecord | src/app/api/register-participants/route.ts:56-66 | Each record is pending, not yet mailed, for the route's event and user; a missing email or employee id becomes null; its type is the first-match type of the price |
| RegisterParticipants.ToRecords | src/app/api/register-participants/route.ts:56-66 | One record per participant, in input order |
| RegisterParticipants.FriendlyInsertError | src/app/api/register-participants/route.ts:78-83 | An `email_sent` column error and an `inviter` column error are reworded, in that priority; any other message passes through |
| RegisterParticipants.RegisterResponse.HttpStatus | src/app/api/register-participants/route.ts:10-89 | The route answers 200 exactly for a registration and 500 exactly for a failed insert; every other refusal carries a 4xx status (400, 401, 403 or 404) |
| RegisterParticipants.RegisterParticipants | src/app/api/register-participants/route.ts:5-101 | Missing parameters, no user, no tenant and a foreign event are answered in that order with nothing inserted; a successful insert appends exactly the participants' records and reports their number |
| CsvParser.DropCarriageReturn | src/utils/csvParser.ts:15 | A line loses at most one trailing carriage return |
| CsvParser.SplitLinesJoin | src/utils/csvParser.ts:15 | Lines free of line breaks, joined with line feeds, split back into the same lines |
| CsvParser.NonBlankLinesSpec | src/utils/csvParser.ts:15 | Kept lines are exactly the non-blank lines of the text, in order |
| CsvParser.Segments | src/utils/csvParser.ts:22-39 | The splitter yields one more field than there are commas outside quotes, and no field holds a double quote |
| CsvParser.SegmentsJoin | src/utils/csvParser.ts:26-37 | The fields joined with commas give the line minus its double quotes: only quotes and separating commas are dropped |
| CsvParser.SegmentsWithoutQuotes | src/utils/csvParser.ts:26-37 | On a line without quotes the splitter is a plain split at commas |
| CsvParser.QuotedRun | src/utils/csvParser.ts:28-35 | Between two quotes every character, commas included, goes into the current field |
| CsvParser.QuotedCommaStays | src/utils/csvParser.ts:28-35 | A quoted field keeps its commas |
| CsvParser.FieldsShape | src/utils/csvParser.ts:22-39 | `splitCSV` gives (commas outside quotes) + 1 fields, each trimmed and free of quotes |
| CsvParser.FieldsRoundTrip | src/utils/csvParser.ts:22-39 | Trimmed fields without commas or quotes, written as one line, read back unchanged |
| CsvParser.ScannedStep | src/utils/csvParser.ts:27-35 | Each character moves the loop state exactly as the two-state machine says |
| CsvParser.ScannedEnd | src/utils/csvParser.ts:37 | The final push completes the fields |
| CsvParser.SplitCsv | src/utils/csvParser.ts:22-39 | The character loop returns exactly the specified fields |
| CsvParser.StripOuterQuotes | src/utils/csvParser.ts:41 | The strip never lengthens a value and changes it only when it starts or ends with a quote |
| CsvParser.StripOuterQuotesOfPlain | src/utils/csvParser.ts:41 | A value without quotes is left as it is |
| CsvParser.HeadersAreFields | src/utils/csvParser.ts:41 | The header names are exactly the first line's fields: the extra strip and trim change nothing |
| CsvParser.Cell | src/utils/csvParser.ts:50 | A column missing from a short line reads as the empty string; a present one has its outer quotes stripped |
| CsvParser.Put | src/utils/csvParser.ts:50 | Assigning a key keeps a row well formed and sets that key's value |
| CsvParser.RowOfKeys | src/utils/csvParser.ts:49-51 | A row's keys are exactly the header names, each once |
| CsvParser.RowOfValue | src/utils/csvParser.ts:49-51 | A duplicated header takes the cell of its last occurrence |
| CsvParser.BuildRow | src/utils/csvParser.ts:46-51 | The header loop builds exactly the specified row |
| CsvParser.ReadLine | src/utils/csvParser.ts:45-56 | One data line contributes its row only when some value is non-empty |
| CsvParser.RowsUpToSpec | src/utils/csvParser.ts:44-57 | At most one row per data line; each row has content and exactly the header names as keys |
| CsvParser.RowsInOrder | src/utils/csvParser.ts:44-57 | Reading more lines only appends rows: rows keep their lines' order |
| CsvParser.CsvRowsSpec | src/utils/csvParser.ts:15-57 | Fewer than two non-blank lines give no rows; otherwise every row has content and the header keys, and there are fewer rows than lines |
| CsvParser.ParseCsv | src/utils/csvParser.ts:15-58 | The parser from the decoded text on returns exactly the specified rows |
| CsvParser.ReadHeaders | src/utils/csvParser.ts:41 | The header loop returns exactly the header names |
| CsvParser.ReadRows | src/utils/csvParser.ts:44-57 | The row loop returns exactly the rows of the data lines |
| TicketImport.Role | src/app/admin/tickets/import/page.tsx:116-126 | A role's column is the last header that mentions one of its keywords, and the default when none does |
| TicketImport.RoleStep | src/app/admin/tickets/import/page.tsx:120-126 | One more header changes the role's column only when it mentions a keyword |
| TicketImport.DetectColumns | src/app/admin/tickets/import/page.tsx:115-126 | The header loop settles on the specified columns: id, name and price default to the first three headers and quantity to none |
| TicketImport.UpperCaseIdHeader | src/app/admin/tickets/import/page.tsx:121-122 | A header `ID` is lower-cased before the keyword test, so it is the id column unless a later header mentions an id keyword |
| TicketImport.CellText | src/app/admin/tickets/import/page.tsx:135-137 | A missing cell reads as empty; a present one is trimmed |
| TicketImport.Quantity | src/app/admin/tickets/import/page.tsx:151 | The quantity is never zero, and is 1 when there is no quantity column or the row lacks it |
| TicketImport.QuantityOfDecimal | src/app/admin/tickets/import/page.tsx:151 | A cell holding a positive decimal number gives that number |
| TicketImport.QuantityDefaultsToOne | src/app/admin/tickets/import/page.tsx:151 | A cell that is not a number, or is zero, gives 1 |
| TicketImport.MatchRow | src/app/admin/tickets/import/page.tsx:134-160 | A row is a member if and only if some roster record has its non-empty employee id or its name; the first such record supplies the email and roster id; a guest has an empty email and no roster id |
| TicketImport.MatchRows | src/app/admin/tickets/import/page.tsx:134-160 | One matched row per CSV row, in order, numbered by position |
| TicketImport.InitialImpliesRecheck | src/app/admin/tickets/import/page.tsx:79-85 | Every row flagged when the file is read stays flagged by the recheck against the same participations |
| TicketImport.UnflaggedIds | src/app/admin/tickets/import/page.tsx:164 | The set holds exactly the ids of the rows not flagged duplicate |
| TicketImport.FlaggedIds | src/app/admin/tickets/import/page.tsx:96-98 | The set holds exactly the ids of the flagged rows |
| TicketImport.Rechecked | src/app/admin/tickets/import/page.tsx:77-86 | Every row keeps its fields and takes its recomputed flag |
| TicketImport.Toggled | src/app/admin/tickets/import/page.tsx:243-251 | Toggling flips the given index and keeps every other |
| TicketImport.ToggleTwice | src/app/admin/tickets/import/page.tsx:243-251 | Toggling the same row twice restores the selection |
| TicketImport.ChosenSpec | src/app/admin/tickets/import/page.tsx:187 | The chosen rows are exactly the selected rows |
| TicketImport.ChosenAll | src/app/admin/tickets/import/page.tsx:187 | Selecting every index chooses all rows, in order |
| TicketImport.Copies | src/app/admin/tickets/import/page.tsx:193-198 | A row's copies are numbered 0 to count - 1 |
| TicketImport.ExpansionLength | src/app/admin/tickets/import/page.tsx:190-199 | The payload has one entry per ticket, the sum of the rows' counts, and at least one per row |
| TicketImport.ExpansionAppend | src/app/admin/tickets/import/page.tsx:191-199 | Expansion distributes over concatenation, so rows keep their order |
| TicketImport.ExpansionCopies | src/app/admin/tickets/import/page.tsx:191-199 | Every copy is of a chosen row, with an index below that row's count |
| TicketImport.FirstCopiesAreRows | src/app/admin/tickets/import/page.tsx:190-199 | Keeping each row's copy 0 gives the chosen rows back |
| TicketImport.ExpandRows | src/app/admin/tickets/import/page.tsx:190-199 | The nested push loop builds exactly the expansion |
| TicketImport.ToRegistrant | src/app/admin/tickets/import/page.tsx:203-210 | Each posted participant carries the row's name, email, employee id, price and roster id |
| TicketImport.ImportPage.LoadFile | src/app/admin/tickets/import/page.tsx:106-173 | An empty file and a file without name or price column change nothing; otherwise every row is matched and exactly the unflagged rows are selected |
| TicketImport.ImportPage.Load | src/app/admin/tickets/import/page.tsx:134-164 | The page holds the matched rows, and the selection is exactly the unflagged row indices |
| TicketImport.ImportPage.Recheck | src/app/admin/tickets/import/page.tsx:75-104 | The rows take the new flags when some flag changed; the selection then loses every flagged row, not only the newly flagged ones, and never gains one |
| TicketImport.ImportPage.ToggleRow | src/app/admin/tickets/import/page.tsx:243-251 | The selection is toggled at the given index only |
| TicketImport.ImportPage.ToggleAll | src/app/admin/tickets/import/page.tsx:253-259 | A selection as large as the rows is cleared, otherwise every index is selected |
| TicketImport.ImportPage.Register | src/app/admin/tickets/import/page.tsx:175-241 | No event and an empty selection are refused in that order; the payload is the expansion of the chosen rows; an accepted request clears the rows and the selection, and any other answer keeps them |
| TicketImport.Deselect | src/app/admin/tickets/import/page.tsx:95-98 | The new selection is the old one minus the flagged ids |
| Tickets.ToParticipation | src/app/actions/tickets.ts:59-70 | Each kept row becomes an approved, unmailed participation of the event with the defaults "Standard", "" and "", with the importing user in `invited_by` and `inviter` left empty |
| Tickets.PreparedSpec | src/app/actions/tickets.ts:44-72 | At most one participation per row, one per row when all are usable, none when none is; each is approved with a name and an email |
| Tickets.PrepareParticipations | src/app/actions/tickets.ts:44-72 | The row loop builds exactly the prepared participations |
| Tickets.Issuer | src/app/actions/tickets.ts:123 | The issuer name is never empty |
| Tickets.TicketJob | src/app/actions/tickets.ts:128-135 | Each job is pending with zero retries, addressed to its participation's email, with the event's ticket subject, and its link is built on the given site address |
| Tickets.PrepareMailJobs | src/app/actions/tickets.ts:91-136 | The mail loop builds one job per inserted participation, in order |
| Tickets.MailsFollowRows | src/app/actions/tickets.ts:44-136 | The ticket mails go, one each and in order, to the emails of the usable rows |
| Tickets.Queued | src/app/actions/tickets.ts:139-148 | A failed mail insert stores no job; a successful one stores one job per inserted row |
| Tickets.ImportTickets | src/app/actions/tickets.ts:15-151 | No user, no tenant, a foreign event and no usable row are refused in that order with nothing inserted; a failed insert reports the database message; success stores the prepared rows and reports their number whatever the mail insert answers |
| Tickets.StoreTickets | src/app/actions/tickets.ts:79-148 | The rows are appended with fresh ids and their mails queued when the mail insert succeeds |
| Apply.ApplyResult.Error | src/app/actions/apply.ts:16-17 | Only success and a filled honeypot carry no error |
| Apply.EventOfCode | src/app/actions/apply.ts:25-33 | A found event has the submitted code |
| Apply.Employee | src/app/actions/apply.ts:40-49 | A found employee is a roster record of the event's tenant with that employee id |
| Apply.Admit | src/app/actions/apply.ts:25-49 | The event, tenant and employee lookups fail in that order, each exactly when it is the first to find nothing |
| Apply.ApplicationRecord | src/app/actions/apply.ts:64-80 | The stored participation is pending, for the event and the employee, with the submitted email and phone and the drawn token |
| Apply.ConfirmationJob | src/app/actions/apply.ts:83-92 | The confirmation mail is pending and addressed to the submitted email, and its link is built on the given site address and the stored token |
| Apply.SubmitApplication | src/app/actions/apply.ts:5-108 | The honeypot, missing fields, the three lookups, a previous application found by the `.single()` check as written and a failed insert are answered in that order and change nothing; success stores one participation and one mail job and returns the stored token |
| Apply.StoreApplication | src/app/actions/apply.ts:64-92 | The participation is appended, and the mail job is appended only when its insert succeeds |
| Apply.StoredApplicationBlocks | src/app/actions/apply.ts:52-61 | Once an application is stored the applicant has applied, so the intended check refuses the same submission |
| Apply.FirstApplicationBlocksAsWritten | src/app/actions/apply.ts:52-61 | When an applicant had no participation, their stored application makes the check as written refuse the same submission |
| Apply.AlreadyAppliedAsWritten | src/app/actions/apply.ts:52-61 | The duplicate check as written holds exactly when one participation of the employee for the event exists, and only for someone who has applied |
| Apply.AsWrittenAgreesOnOne | src/app/actions/apply.ts:52-61 | The check as written agrees with the intended one while at most one matching row exists |
| Master.Upsert | src/app/actions/master.ts:64-68 | An existing (tenant, employee id) record takes the new name in place; otherwise one record is appended |
| Master.UpsertKeepsKeysUnique | src/app/actions/master.ts:64-68 | The upsert keeps at most one record per (tenant, employee id), and afterwards exactly one record has the key, holding the new name |
| Master.GetMasterData | src/app/actions/master.ts:6-39 | No user and no tenant are answered in that order; otherwise exactly the tenant's records |
| Master.AddMasterDataRecord | src/app/actions/master.ts:42-76 | No user, no tenant and a missing id or name are refused in that order and change nothing; a write error reports its message and code and changes nothing; otherwise the roster is the upsert |
| Master.Payload | src/app/actions/master.ts:96-100 | One roster record per input row, in order, for the caller's tenant |
| Master.ExistingIds | src/app/actions/master.ts:103-108 | Exactly the employee ids the tenant already has |
| Master.NewRecordsSpec | src/app/actions/master.ts:111-125 | Exactly the payload rows with a new employee id are inserted, and inserted plus skipped is the number of rows |
| Master.AssignRecordIds | src/app/actions/master.ts:118 | The insert keeps the new records in order and gives them fresh ids |
| Master.ImportMasterDataCsv | src/app/actions/master.ts:79-126 | No user and no tenant are refused; no new id answers with zero inserted and no write; otherwise only the new records are appended, existing records untouched, with inserted and skipped counts |
| Master.ImportKeepsKeysUnique | src/app/actions/master.ts:103-118 | When the new rows have distinct employee ids, the import keeps (tenant, employee id) unique |
| Master.RecordOfTenant | src/app/actions/master.ts:144-151 | A found record has the id and belongs to the caller's tenant |
| Master.DeleteMasterData | src/app/actions/master.ts:129-165 | No user, no tenant and a record of another tenant are refused in that order and change nothing; otherwise the record is removed, or the roster is kept on a write error |
| Master.DeleteRemovesOnlyTheRecord | src/app/actions/master.ts:154-157 | With distinct ids the delete removes exactly that record and keeps the others in order |
| BulkEmail.BulkResult.HttpStatus | src/app/api/send-bulk-emails/route.ts:9-125 | The status is 200 exactly for a queued run |
| BulkEmail.BulkJob | src/app/api/send-bulk-emails/route.ts:69-102 | Each job is pending, for the tenant, carrying the participant's id and email and the event's subject |
| BulkEmail.BulkJobs | src/app/api/send-bulk-emails/route.ts:69-103 | One job per selected participant, in order |
| BulkEmail.MarkSent | src/app/api/send-bulk-emails/route.ts:115-123 | Exactly the rows whose id is selected become sent; the others are unchanged |
| BulkEmail.IdSet | src/app/api/send-bulk-emails/route.ts:115-123 | The set holds exactly the ids of the given rows |
| BulkEmail.SendBulkEmails | src/app/api/send-bulk-emails/route.ts:5-130 | Missing event id, no user, a foreign event, no recipient and a failed queue insert are answered in that order and change nothing; success queues one job per recipient and marks exactly them sent |
| BulkEmail.JobsNameRecipients | src/app/api/send-bulk-emails/route.ts:46-103 | Job i is pending and carries the id and the (present) email of recipient i |
| BulkEmail.MarkingEmptiesSelection | src/app/api/send-bulk-emails/route.ts:46-123 | After marking, a second run selects no one |
| BulkEmail.MarksOnlyRecipients | src/app/api/send-bulk-emails/route.ts:46-123 | With distinct ids, marking sets `email_sent` on exactly the event's unsent rows with an email and changes nothing else |
| CronMail.AuthorizedAsWritten | src/app/api/cron/mail/route.ts:7-10 | The header must be `Bearer ` followed by the secret when one is set, and the literal `Bearer undefined` when none is |
| CronMail.AuthorizedRefinesAsWritten | src/app/api/cron/mail/route.ts:7-10 | With a secret set the two checks agree; with none the intended check admits no one |
| CronMail.UnsetSecretAdmitsAnyone | src/app/api/cron/mail/route.ts:8 | With no secret, the header `Bearer undefined` passes the check as written |
| CronMail.Take | src/app/api/cron/mail/route.ts:33-34 | `.limit(n)` gives a prefix of at most `n` elements, all of them when there are fewer |
| CronMail.Batch | src/app/api/cron/mail/route.ts:15-34 | At most 30 jobs, all pending |
| CronMail.BatchSpec | src/app/api/cron/mail/route.ts:15-43 | The batch is empty exactly when no job is pending, and a batch short of 30 holds every pending job |
| CronMail.FromName | src/app/api/cron/mail/route.ts:75 | The sender name falls back to the tenant name |
| CronMail.EnvelopeOf | src/app/api/cron/mail/route.ts:64-82 | The transport is secure exactly on port 465 and carries the tenant's settings and the job's recipient, subject and body |
| CronMail.Outcome | src/app/api/cron/mail/route.ts:53-108 | Every job leaves pending; it is sent exactly when it has no error; incomplete SMTP settings fail it without a send; otherwise it is sent exactly when the send of its envelope is delivered, and a send error fails it with the thrown message |
| CronMail.Stamped | src/app/api/cron/mail/route.ts:84-106 | A recorded job takes the report's status and the processing time; only a failure stores an error message |
| CronMail.Record | src/app/api/cron/mail/route.ts:84-106 | The update touches only the rows with the report's id |
| CronMail.Reports | src/app/api/cron/mail/route.ts:45-110 | One report per fetched job, in fetch order |
| CronMail.DrainedSpec | src/app/api/cron/mail/route.ts:47-110 | Rows no report names are untouched; every named row has left pending and carries the processing time |
| CronMail.ProcessMailJobs | src/app/api/cron/mail/route.ts:5-113 | A failed auth check, as written, answers 401 and an empty batch answers "no jobs", neither touching a job; otherwise the reports are the batch's outcomes and the table records them |
| CronMail.DrainBatch | src/app/api/cron/mail/route.ts:47-110 | The loop returns the reports in batch order and records each one |
| CronMail.RunLeavesNoBatchJobPending | src/app/api/cron/mail/route.ts:15-110 | After a run every batch job has left pending and every other job is as it was |
| Dashboard.GetEvents | src/app/actions/dashboard.ts:6-30 | No user or no tenant gives no events; otherwise exactly the events of the caller's tenant |
| Dashboard.StatsOf | src/app/actions/dashboard.ts:75-84 | The stats carry the event's name and code |
| Dashboard.GetEventStats | src/app/actions/dashboard.ts:33-86 | Stats exist exactly when a user owns the event, and are then the counts over its participations |
| Dashboard.StatsBounds | src/app/actions/dashboard.ts:75-77 | The total counts exactly the event's rows, and checked in plus pending never exceeds it |
| Dashboard.NoRowsNoCounts | src/app/actions/dashboard.ts:65-77 | An event without participations has all counts zero |
| Dashboard.MarkAddsOne | src/app/actions/dashboard.ts:76 | Checking in one unchecked row raises the checked-in count by one |
| Dashboard.CheckInCountsOnce | src/app/actions/dashboard.ts:75-77 | A successful check-in adds one to its event's checked-in count and leaves the total unchanged |
| Settings.InsertAnswer | src/app/actions/settings.ts:63-80 | The unique key on (tenant, event code) answers 23505 for a code in use |
| Settings.CreateResult.Error | src/app/actions/settings.ts:37-83 | Only success carries no error |
| Settings.NewEvent | src/app/actions/settings.ts:63-71 | The new event has the form's name, code and passcode, no ticket rules and no template |
| Settings.CreateEvent | src/app/actions/settings.ts:37-83 | No user, no tenant and missing fields are refused in that order; code 23505 is answered "code already used" and any other error "failed", both without a change; success appends exactly the new event |
| Settings.CreateKeepsCodesUnique | src/app/actions/settings.ts:63-80 | An accepted insert keeps event codes unique per tenant |
| Settings.PortOf | src/app/actions/settings.ts:122 | A missing port parses to nothing |
| Settings.WithSmtp | src/app/actions/settings.ts:132-142 | The five SMTP columns are replaced and every other column kept |
| Settings.UpdateTenant | src/app/actions/settings.ts:132-142 | Only the caller's tenant row changes |
| Settings.UpdateSmtpSettings | src/app/actions/settings.ts:104-150 | No user, no tenant and incomplete settings are refused in that order with no change; otherwise the tenant row is updated, or kept on a write error |
| Settings.ZeroOrMissingPortRefused | src/app/actions/settings.ts:121-129 | A missing port or one of zeros only is refused |
| Settings.DeleteEvent | src/app/actions/settings.ts:153-197 | No user, no tenant and a foreign event are refused with no change; otherwise the event's participations are deleted when that delete succeeds; the event is deleted unless its delete fails, and then the cascade removes its participations in any case |
| Settings.DeleteKeepsOtherEvents | src/app/actions/settings.ts:180-183 | The delete removes every row of the event and keeps every other event's rows in order |
| SuperAdmin.CodeLength | src/app/actions/super-admin.ts:7-10 | A code has 5 or 6 digits |
| SuperAdmin.CompanyCode | src/app/actions/super-admin.ts:7-10 | A code has at least that many characters, all digits |
| SuperAdmin.CompanyCodeSpec | src/app/actions/super-admin.ts:7-10 | A draw in range gives a code of exactly that length that parses back to the draw |
| SuperAdmin.FreeIn | src/app/actions/super-admin.ts:115-121 | A code counts as free exactly when the `.single()` lookup finds no tenant, that is unless exactly one tenant has it |
| SuperAdmin.Codes | src/app/actions/super-admin.ts:110-125 | The k-th candidate is the k-th generated code |
| SuperAdmin.ChosenSpec | src/app/actions/super-admin.ts:107-130 | At most 10 lookups, and every candidate before the returned one was found taken; an early return yields a code found free; when the tenth lookup also fails, the next code is returned unchecked |
| SuperAdmin.AutoGenerateCompanyCode | src/app/actions/super-admin.ts:107-130 | The retry loop returns the specified code and lookup count |
| SuperAdmin.CharAt | src/app/actions/super-admin.ts:17 | A character in range, the empty string past the end |
| SuperAdmin.GeneratePassword | src/app/actions/super-admin.ts:13-20 | The loop builds the specified password |
| SuperAdmin.PasswordSpec | src/app/actions/super-admin.ts:13-20 | Every character comes from the alphabet; draws in range give exactly 8 characters |
| SuperAdmin.AlphabetExcludesLookAlikes | src/app/actions/super-admin.ts:14 | The 55-letter alphabet has none of I, O, i, l, o, 0, 1 |
| SuperAdmin.PasswordHasNoLookAlike | src/app/actions/super-admin.ts:13-20 | No password character is a look-alike |
| SuperAdmin.IsSuperAdminAsWritten | src/app/actions/super-admin.ts:23-31 | A signed-in user passes when their e-mail equals the configured address, or, with no address set, when they have no e-mail |
| SuperAdmin.SuperAdminAgreesWhenConfigured | src/app/actions/super-admin.ts:23-31 | With an admin e-mail set the two checks agree; with none the intended check admits no one |
| SuperAdmin.EmaillessUserPassesAsWritten | src/app/actions/super-admin.ts:23-31 | With no admin e-mail set, a user without an e-mail passes the check as written |
| SuperAdmin.NewTenant | src/app/actions/super-admin.ts:71-80 | The tenant row has the form's name and code, the new owner and no SMTP settings |
| SuperAdmin.WithoutNewUser | src/app/actions/super-admin.ts:82 | Deleting the user just added restores the user list |
| SuperAdmin.RollbackLeavesNoOrphan | src/app/actions/super-admin.ts:71-84 | After the rollback no user with the new id remains and the list is as before |
| SuperAdmin.CreateTenantAccount | src/app/actions/super-admin.ts:34-104 | Not an admin by the check as written and missing fields are refused in that order; a failed user creation changes nothing; a failed tenant insert adds no tenant and deletes the new user again when the rollback call succeeds; success adds the user and the tenant it owns and returns the e-mail, the generated password and the code |
| SuperAdmin.DeleteResult.Success | src/app/actions/super-admin.ts:164-218 | Only the two deleted outcomes count as success |
| SuperAdmin.Cascade | src/app/actions/super-admin.ts:192-200 | Removing a tenant removes exactly its events, roster, mail jobs and its events' participations, and keeps all else |
| SuperAdmin.DeleteTenant | src/app/actions/super-admin.ts:164-218 | Not an admin by the check as written, a missing tenant and a failed delete are answered in that order with no change; otherwise the cascade is applied and the owner's account removed, and a failed owner delete is still a success with a warning |
| Text.TrimStart | src/utils/csvParser.ts:31 | The result is a suffix not starting with whitespace, and only whitespace was cut |
| Text.TrimEnd | src/utils/csvParser.ts:31 | The result is a prefix not ending with whitespace, and only whitespace was cut |
| Text.TrimSpec | src/utils/csvParser.ts:31 | A trimmed value is an infix of the text with no space at either end, and is empty exactly for all-space text |
| Text.TrimOfTrimmed | src/utils/csvParser.ts:41 | Trimming is idempotent |
| Text.Contains | src/app/api/register-participants/route.ts:50 | `includes` holds exactly when the needle occurs at some position |
| Text.ToLower | src/app/admin/tickets/import/page.tsx:121 | Lower-casing keeps the length and maps each character |
| Text.NatToDecimal | src/app/actions/super-admin.ts:9 | Decimal text is digits only, without a leading zero |
| Text.ParseInt | src/app/admin/tickets/import/page.tsx:151 | `parseInt` with no radix: a number needs a non-blank start, and only a leading minus makes it negative |
| Text.ParseIntOfNonDigit | src/app/actions/settings.ts:122 | `parseInt` is NaN when the first non-blank character is neither a sign nor a digit |
| Text.ParseIntOfPadded | src/app/actions/super-admin.ts:9 | A zero-padded decimal parses back to its number |
| Text.SplitJoin | src/utils/csvParser.ts:26-37 | Splitting at a separator inverts joining with it |

## Left out

- Text decoding (UTF-8 with the Shift-JIS fallback) and file reading: the CSV model starts from the decoded text.
- Text.ToLower: only ASCII letters are lower-cased; JavaScript's full Unicode case mapping is not modelled.
- `Object.keys` order of a parsed row is the header order; JavaScript's placing of integer-like keys first is not modelled.
- Query errors on reads are treated as not happening. This covers the `fetchError` branches, the error branch of the settings `getEvents`, and the zero-count branch of `getEventStats` when `participations` is null. Write errors and identity-provider errors are modelled.
- `order('created_at')` is not modelled: listings come in table order.
- The settings `getEvents` runs the same query as the dashboard's and is modelled by Dashboard.GetEvents.
- `getSMTPSettings`, `getTenantInfo` and `getAllTenants` are left out: they are plain reads, and the last one waits on parallel identity-provider calls.
- `getEventParticipants` is not part of this model.
- try/catch around unexpected exceptions is not modelled.
- HTML mail bodies are kept as structured values holding their inputs, including the site address of the ticket link, not as rendered text.
- The nodemailer send is the `send` parameter.
- The fire-and-forget request that wakes the mail cron after an application is left out.
- Settings.DeleteEvent: it does not remove the event's mail jobs, because the source does not either and no cascade from events to mail jobs is assumed.
- CronMail.ProcessMailJobs: the answers to the per-job status updates are ignored, as in the source; each update is assumed to apply.
- The JSON text of the staff cookie is abstracted to the session it encodes or to unparseable text, and the redirect after logout is not modelled.
- Text.ParseIntOfPadded: `parseInt`'s loss of precision above 2^53 is not modelled.
- CsvParser.SplitLines: a carriage return ending the last line is dropped, which `split(/\r\n|\n/)` keeps. No parser output differs, because every field and every blank-line test is trimmed first.
- An absent `employeeId` on a matched import row is the empty string.
- Random draws (`Math.random`, `crypto.randomUUID`) are parameters. The clock and environment variables are parameters too.
- The read-then-write race in check-in is not modelled: each action is one atomic step.
- React effects, state plumbing, alerts and every presentational page are left out.

## Findings

The actions themselves are modelled with the checks as written. Each corrected check is a predicate beside them, with a proof of where it agrees with the check as written.

| source | as written | input that shows it | evidently intended | confidence | as-written member | corrected member |
|---|---|---|---|---|---|---|
| src/app/actions/apply.ts:52-61 | The duplicate check uses `.single()`, which finds nothing when two or more rows match, so the application passes | Two participations of the same employee for the event, as a quantity-2 ticket import of a roster member leaves behind | Any existing participation of the employee for the event refuses the application | not executed | Apply.TwoRowsPassAsWritten | Apply.StoredApplicationBlocks |
| src/app/api/cron/mail/route.ts:8 | The expected header is built as `Bearer ${CRON_SECRET}`, which reads `Bearer undefined` when the variable is unset | No `CRON_SECRET` and the header `Bearer undefined` | An unset secret admits no caller | not executed | CronMail.UnsetSecretAdmitsAnyone | CronMail.AuthorizedRefinesAsWritten |
| src/app/actions/super-admin.ts:23-31 | `user.email === SUPER_ADMIN_EMAIL` holds when both are undefined | No `SUPER_ADMIN_EMAIL` and a signed-in user without an e-mail | An unset admin e-mail admits no one | not executed | SuperAdmin.EmaillessUserPassesAsWritten | SuperAdmin.SuperAdminAgreesWhenConfigured |
