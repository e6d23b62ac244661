/** `POST /api/register-participants`: classifies each imported participant's
    price text against the event's ticket rules and inserts one pending
    participation per participant (src/app/api/register-participants/route.ts). */
module RegisterParticipants {
  import opened Common
  import opened Text
  import opened Schema

  /** The ticket type given when no rule fires. */
  const DefaultTicketType: string := "Standard"

  /** One element of the request's `participants` array. */
  datatype Registrant = Registrant(
    name: Option<string>,
    email: Option<string>,
    employeeId: Option<string>,
    price: Option<string>,
    masterDataId: Option<Id>)

  /** `String(p.price || '')`. */
  function PriceText(p: Registrant): string
  {
    if Present(p.price) then p.price.value else ""
  }

  /** `rule.keywords && rule.keywords.some(kw => price.includes(kw))`. */
  predicate RuleMatches(rule: TicketRule, price: string)
  {
    rule.keywords.Some? && Any(rule.keywords.value, (kw: string) => Contains(price, kw))
  }

  /** `event.ticket_config || []`. */
  function RulesOf(e: Event): seq<TicketRule>
  {
    if e.ticketConfig.Some? then e.ticketConfig.value else []
  }

  /** The ticket type of a price text: the name of the first rule, in list
      order, with a keyword occurring in the text, else "Standard". */
  function TicketTypeOf(rules: seq<TicketRule>, price: string): (t: string)
    ensures (forall k :: 0 <= k < |rules| ==> !RuleMatches(rules[k], price)) ==> t == DefaultTicketType
    ensures forall k :: (0 <= k < |rules| && RuleMatches(rules[k], price)
      && forall j :: 0 <= j < k ==> !RuleMatches(rules[j], price)) ==> t == rules[k].name
    ensures t == DefaultTicketType || exists k :: 0 <= k < |rules| && RuleMatches(rules[k], price) && t == rules[k].name
  {
    match FirstIndex(rules, (r: TicketRule) => RuleMatches(r, price))
    case None => DefaultTicketType
    case Some(k) => rules[k].name
  }

  /** The rule loop of the route: `ticketType` starts as "Standard" and the
      loop stops at the first rule that fires. */
  method ClassifyTicket(rules: seq<TicketRule>, price: string) returns (ticketType: string)
    ensures ticketType == TicketTypeOf(rules, price)
  {
    ticketType := DefaultTicketType;
    var i := 0;
    while i < |rules|
      invariant 0 <= i <= |rules|
      invariant forall j :: 0 <= j < i ==> !RuleMatches(rules[j], price)
      invariant ticketType == DefaultTicketType
    {
      var rule := rules[i];
      if rule.keywords.Some? && Any(rule.keywords.value, (kw: string) => Contains(price, kw)) {
        ticketType := rule.name;
        break;
      }
      i := i + 1;
    }
  }

  /** A rule list without any keyword, in particular an absent `ticket_config`,
      classifies every price as "Standard". */
  lemma NoKeywordsMeansStandard(rules: seq<TicketRule>, price: string)
    requires forall k :: 0 <= k < |rules| ==> rules[k].keywords.None? || rules[k].keywords.value == []
    ensures TicketTypeOf(rules, price) == DefaultTicketType
  {
  }

  /** An empty keyword occurs in every text, so a rule holding one fires on
      any price, the empty one included. */
  lemma EmptyKeywordAlwaysFires(rule: TicketRule, price: string)
    requires rule.keywords.Some? && "" in rule.keywords.value
    ensures RuleMatches(rule, price)
  {
    var k :| 0 <= k < |rule.keywords.value| && rule.keywords.value[k] == "";
    assert OccursAt(price, "", 0);
  }

  /** Matching is on substrings of the raw text: "8,800円" does not contain
      the keyword "8800", so a VIP rule keyed on "8800" leaves it "Standard". */
  lemma SeparatorDefeatsKeyword()
    ensures TicketTypeOf([TicketRule("VIP", Some(["8800", "VIP"]))], "8,800円") == DefaultTicketType
  {
    var price := "8,800円";
    forall i: nat ensures !OccursAt(price, "8800", i) && !OccursAt(price, "VIP", i) {
      if i + 4 <= |price| {
        assert price[i..i + 4][0] != '8' || price[i..i + 4][1] != '8' by {
          assert i == 0 || i == 1 || i == 2;
        }
      }
      if i + 3 <= |price| {
        assert price[i..i + 3][0] != 'V';
      }
    }
    var rule := TicketRule("VIP", Some(["8800", "VIP"]));
    assert !RuleMatches(rule, price);
  }

  /** The record the route inserts for one participant. */
  function ToRecord(eventId: Id, userId: Id, rules: seq<TicketRule>, p: Registrant): (rec: Participation)
    ensures rec.eventId == eventId && rec.status == Pending && !rec.emailSent
    ensures rec.name == p.name && rec.masterDataId == p.masterDataId && rec.inviter == Some(userId) && rec.invitedBy == None
    ensures rec.email == (if Present(p.email) then p.email else None)
    ensures rec.companyCode == (if Present(p.employeeId) then p.employeeId else None)
    ensures rec.ticketType == Some(TicketTypeOf(rules, PriceText(p)))
  {
    BlankParticipation(eventId, Pending).(
      name := p.name,
      email := if Present(p.email) then p.email else None,
      companyCode := if Present(p.employeeId) then p.employeeId else None,
      ticketType := Some(TicketTypeOf(rules, PriceText(p))),
      masterDataId := p.masterDataId,
      inviter := Some(userId))
  }

  /** `participants.map(...)`: one record per participant, in order. */
  function ToRecords(eventId: Id, userId: Id, rules: seq<TicketRule>, ps: seq<Registrant>): (recs: seq<Participation>)
    ensures |recs| == |ps|
    ensures forall i :: 0 <= i < |ps| ==> recs[i] == ToRecord(eventId, userId, rules, ps[i])
  {
    seq(|ps|, i requires 0 <= i < |ps| => ToRecord(eventId, userId, rules, ps[i]))
  }

  datatype RegisterResponse =
    | Registered(count: nat)
    | MissingParameters
    | NotLoggedIn
    | TenantNotFound
    | EventNotFound
    | InsertFailed(error: string)
  {
    /** The HTTP status the route answers with. */
    function HttpStatus(): (code: nat)
      ensures code == 200 <==> this.Registered?
      ensures code == 500 <==> this.InsertFailed?
      ensures 400 <= code < 500 <==> !this.Registered? && !this.InsertFailed?
    {
      match this
      case Registered(_) => 200
      case MissingParameters => 400
      case NotLoggedIn => 401
      case TenantNotFound => 403
      case EventNotFound => 404
      case InsertFailed(_) => 500
    }
  }

  const MissingEmailSentColumn: string :=
    "データベースの更新が必要です（email_sentカラムがありません）。Supabaseでmigration_v7を実行してください。"
  const InviterColumnMismatch: string :=
    "データベースの構造が一致しません（inviterカラムの確認が必要です）。"

  /** The user-facing text for an insert error message. */
  function FriendlyInsertError(message: string): (e: string)
    ensures Contains(message, "email_sent") ==> e == MissingEmailSentColumn
    ensures !Contains(message, "email_sent") && Contains(message, "inviter") ==> e == InviterColumnMismatch
    ensures !Contains(message, "email_sent") && !Contains(message, "inviter") ==> e == message
  {
    if Contains(message, "email_sent") then MissingEmailSentColumn
    else if Contains(message, "inviter") then InviterColumnMismatch
    else message
  }

  /** The route. `eventId` and `participants` are the request body's fields
      (`None` when missing); `insert` is the database's answer to the insert. */
  method RegisterParticipants(db: Database, user: Option<User>, eventId: Option<Id>,
                              participants: Option<seq<Registrant>>, insert: WriteOutcome)
    returns (r: RegisterResponse)
    modifies db`participations, db`nextId
    ensures !r.Registered? ==> db.participations == old(db.participations)
    ensures eventId.None? || participants.None? || participants.value == [] <==> r == MissingParameters
    ensures r == NotLoggedIn <==> r != MissingParameters && user.None?
    ensures r == TenantNotFound <==>
      r != MissingParameters && user.Some? && TenantOf(db.tenants, user.value.id).None?
    ensures r == EventNotFound <==>
      && r != MissingParameters && user.Some? && TenantOf(db.tenants, user.value.id).Some?
      && OwnedEvent(db.events, eventId.value, TenantOf(db.tenants, user.value.id).value.id).None?
    ensures r.Registered? || r.InsertFailed? ==>
      && eventId.Some? && participants.Some? && user.Some?
      && TenantOf(db.tenants, user.value.id).Some?
      && OwnedEvent(db.events, eventId.value, TenantOf(db.tenants, user.value.id).value.id).Some?
      && var e := OwnedEvent(db.events, eventId.value, TenantOf(db.tenants, user.value.id).value.id).value;
      && (r.Registered? <==> insert == Written)
      && (r.InsertFailed? ==> r.error == FriendlyInsertError(insert.message))
      && (r.Registered? ==>
            && r.count == |participants.value|
            && db.participations == old(db.participations)
                 + AssignIds(ToRecords(eventId.value, user.value.id, RulesOf(e), participants.value), old(db.nextId)))
  {
    if eventId.None? || participants.None? || participants.value == [] {
      return MissingParameters;
    }
    if user.None? {
      return NotLoggedIn;
    }
    var tenant := TenantOf(db.tenants, user.value.id);
    if tenant.None? {
      return TenantNotFound;
    }
    var event := OwnedEvent(db.events, eventId.value, tenant.value.id);
    if event.None? {
      return EventNotFound;
    }
    var records := ToRecords(eventId.value, user.value.id, RulesOf(event.value), participants.value);
    if insert.WriteError? {
      return InsertFailed(FriendlyInsertError(insert.message));
    }
    var first := db.Allocate(|records|);
    db.participations := db.participations + AssignIds(records, first);
    r := Registered(|participants.value|);
  }
}
