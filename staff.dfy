/** Staff login, the staff session cookie, and the check-in transition of a
    participation (src/app/actions/staff.ts). */
module Staff {
  import opened Common
  import opened Schema

  /** What the session cookie carries. */
  datatype StaffSession = StaffSession(eventId: Id, eventName: string, tenantName: string)

  /** The cookie's text: the JSON of a session, or text `JSON.parse` rejects. */
  datatype CookieText = SessionJson(session: StaffSession) | Unparseable(raw: string)

  datatype Cookie = Cookie(text: CookieText, maxAgeSeconds: nat)

  /** 24 hours, the session cookie's `maxAge`. */
  const SessionLifetime: nat := 60 * 60 * 24

  /** The request's cookie store, holding the `staff_session` cookie. */
  class CookieJar {
    var staffSession: Option<Cookie>

    constructor (initial: Option<Cookie>)
      ensures staffSession == initial
    {
      staffSession := initial;
    }

    /** `getStaffSession`: no session when the cookie is absent or does not parse. */
    function GetStaffSession(): (s: Option<StaffSession>)
      reads this
      ensures staffSession.None? ==> s.None?
      ensures staffSession.Some? && staffSession.value.text.Unparseable? ==> s.None?
      ensures s.Some? ==> staffSession == Some(Cookie(SessionJson(s.value), staffSession.value.maxAgeSeconds))
    {
      match staffSession
      case None => None
      case Some(c) =>
        match c.text
        case SessionJson(session) => Some(session)
        case Unparseable(_) => None
    }

    /** `staffLogout`: deletes the cookie (the redirect is not modelled). */
    method StaffLogout()
      modifies this
      ensures GetStaffSession() == None
    {
      staffSession := None;
    }
  }

  datatype LoginResult = LoginOk | MissingFields | UnknownCompany | UnknownEvent | WrongPasscode

  /** `tenants.eq('company_code', companyCode).single()`. */
  function TenantByCode(tenants: seq<Tenant>, companyCode: string): (t: Option<Tenant>)
    ensures t.Some? ==> t.value in tenants && t.value.companyCode == companyCode
  {
    Single(tenants, (t: Tenant) => t.companyCode == companyCode)
  }

  /** `events.eq('tenant_id', tenantId).eq('event_code', eventCode).single()`. */
  function EventByCode(events: seq<Event>, tenantId: Id, eventCode: string): (e: Option<Event>)
    ensures e.Some? ==> e.value in events && e.value.tenantId == tenantId && e.value.eventCode == eventCode
  {
    Single(events, (e: Event) => e.tenantId == tenantId && e.eventCode == eventCode)
  }

  /** `staffLogin`: the three fields must be filled; then the tenant of the
      company code, the event of (tenant, event code) and the passcode are
      checked in that order, the first failure winning. Only a success sets
      the cookie, to exactly (event id, event name, tenant name) for 24 hours. */
  method StaffLogin(db: Database, jar: CookieJar, companyCode: string, eventCode: string, passcode: string)
    returns (r: LoginResult)
    modifies jar
    ensures r != LoginOk ==> jar.staffSession == old(jar.staffSession)
    ensures !(Filled(companyCode) && Filled(eventCode) && Filled(passcode)) <==> r == MissingFields
    ensures r == UnknownCompany <==>
      Filled(companyCode) && Filled(eventCode) && Filled(passcode) && TenantByCode(db.tenants, companyCode).None?
    ensures r == UnknownEvent <==>
      && Filled(companyCode) && Filled(eventCode) && Filled(passcode)
      && TenantByCode(db.tenants, companyCode).Some?
      && EventByCode(db.events, TenantByCode(db.tenants, companyCode).value.id, eventCode).None?
    ensures r == WrongPasscode || r == LoginOk ==>
      && Filled(companyCode) && Filled(eventCode) && Filled(passcode)
      && TenantByCode(db.tenants, companyCode).Some?
      && var t := TenantByCode(db.tenants, companyCode).value;
      && EventByCode(db.events, t.id, eventCode).Some?
      && var e := EventByCode(db.events, t.id, eventCode).value;
      && (r == LoginOk <==> e.staffPasscode == passcode)
      && (r == LoginOk ==>
            jar.staffSession == Some(Cookie(SessionJson(StaffSession(e.id, e.name, t.name)), SessionLifetime))
            && jar.GetStaffSession() == Some(StaffSession(e.id, e.name, t.name)))
  {
    if !Filled(companyCode) || !Filled(eventCode) || !Filled(passcode) {
      return MissingFields;
    }
    var tenant := TenantByCode(db.tenants, companyCode);
    if tenant.None? {
      return UnknownCompany;
    }
    var event := EventByCode(db.events, tenant.value.id, eventCode);
    if event.None? {
      return UnknownEvent;
    }
    if event.value.staffPasscode != passcode {
      return WrongPasscode;
    }
    var session := StaffSession(event.value.id, event.value.name, tenant.value.name);
    jar.staffSession := Some(Cookie(SessionJson(session), SessionLifetime));
    r := LoginOk;
  }

  datatype CheckInResult =
    | CheckInOk(participantName: Option<string>)
    | SessionInvalid
    | InvalidToken
    | AlreadyCheckedIn(participantName: Option<string>)
    | UpdateFailed

  /** The row a scanned token designates within the session's event:
      `participations.eq('checkin_token', token).eq('event_id', eventId).single()`. */
  function FindByToken(ps: seq<Participation>, token: string, eventId: Id): (p: Option<Participation>)
    ensures p.Some? ==> p.value in ps && p.value.checkinToken == Some(token) && p.value.eventId == eventId
  {
    Single(ps, (p: Participation) => p.checkinToken == Some(token) && p.eventId == eventId)
  }

  /** The joined `master_data.name` of a participation. */
  function MasterName(roster: seq<MasterRecord>, masterDataId: Option<Id>): (n: Option<string>)
    ensures n.Some? ==> masterDataId.Some? && exists m :: m in roster && m.id == masterDataId.value && m.name == n.value
  {
    match masterDataId
    case None => None
    case Some(mid) =>
      match Find(roster, (m: MasterRecord) => m.id == mid)
      case None => None
      case Some(m) => Some(m.name)
  }

  /** The participations table after `update({status: 'checked_in',
      checked_in_at: now}).eq('id', id)`. */
  function MarkCheckedIn(ps: seq<Participation>, id: Id, now: Timestamp): (r: seq<Participation>)
    ensures |r| == |ps|
    ensures forall i :: 0 <= i < |ps| && ps[i].id != id ==> r[i] == ps[i]
    ensures forall i :: 0 <= i < |ps| && ps[i].id == id ==>
      && r[i].status == CheckedIn && r[i].checkedInAt == Some(now)
      && r[i].(status := ps[i].status, checkedInAt := ps[i].checkedInAt) == ps[i]
  {
    seq(|ps|, i requires 0 <= i < |ps| =>
      if ps[i].id == id then ps[i].(status := CheckedIn, checkedInAt := Some(now)) else ps[i])
  }

  /** `checkIn(token)`: a session is required; the token must designate exactly
      one row of the session's event; a row already checked in is refused
      unchanged; otherwise that row becomes checked in at `now`.
      `updateSucceeds` is the database's answer to the update. */
  method CheckIn(db: Database, jar: CookieJar, token: string, now: Timestamp, updateSucceeds: bool)
    returns (r: CheckInResult)
    modifies db`participations
    ensures r.CheckInOk? <==> old(db.participations) != db.participations
    ensures jar.GetStaffSession().None? ==> r == SessionInvalid
    ensures jar.GetStaffSession().Some? ==>
      var hit := FindByToken(old(db.participations), token, jar.GetStaffSession().value.eventId);
      && (hit.None? ==> r == InvalidToken)
      && (hit.Some? && hit.value.status == CheckedIn ==>
            r == AlreadyCheckedIn(MasterName(db.masterData, hit.value.masterDataId)))
      && (hit.Some? && hit.value.status != CheckedIn ==>
            if updateSucceeds then
              && r == CheckInOk(MasterName(db.masterData, hit.value.masterDataId))
              && db.participations == MarkCheckedIn(old(db.participations), hit.value.id, now)
            else r == UpdateFailed)
  {
    var session := jar.GetStaffSession();
    if session.None? {
      return SessionInvalid;
    }
    var hit := FindByToken(db.participations, token, session.value.eventId);
    if hit.None? {
      return InvalidToken;
    }
    var p := hit.value;
    var name := MasterName(db.masterData, p.masterDataId);
    if p.status == CheckedIn {
      return AlreadyCheckedIn(name);
    }
    if !updateSucceeds {
      return UpdateFailed;
    }
    var before := db.participations;
    db.participations := MarkCheckedIn(db.participations, p.id, now);
    var k :| 0 <= k < |before| && before[k] == p;
    assert db.participations[k].status != before[k].status;
    r := CheckInOk(name);
  }

  /** Check-in does not depend on a row's status or entry time to find it:
      after a successful check-in the same token finds the same row, now
      checked in, so a second scan is answered ALREADY_CHECKED_IN. */
  lemma SecondScanFindsCheckedIn(ps: seq<Participation>, token: string, eventId: Id, now: Timestamp)
    requires FindByToken(ps, token, eventId).Some?
    ensures var p := FindByToken(ps, token, eventId).value;
      FindByToken(MarkCheckedIn(ps, p.id, now), token, eventId)
        == Some(p.(status := CheckedIn, checkedInAt := Some(now)))
  {
    var p := FindByToken(ps, token, eventId).value;
    var f := (q: Participation) => if q.id == p.id then q.(status := CheckedIn, checkedInAt := Some(now)) else q;
    var m := (q: Participation) => q.checkinToken == Some(token) && q.eventId == eventId;
    var ps' := MarkCheckedIn(ps, p.id, now);
    assert ps' == Map(ps, f);
    FilterMapCommute(ps, f, m);
    assert Filter(ps, m) == [p];
  }

  /** Filtering by a property that `f` preserves commutes with applying `f`. */
  lemma {:induction false} FilterMapCommute(ps: seq<Participation>, f: Participation -> Participation, m: Participation -> bool)
    requires forall q :: m(f(q)) == m(q)
    ensures Filter(Map(ps, f), m) == Map(Filter(ps, m), f)
  {
    if ps != [] {
      FilterMapCommute(ps[1..], f, m);
      MapCons(ps, f);
      var rest := Filter(ps[1..], m);
      calc {
        Filter(Map(ps, f), m);
        Filter([f(ps[0])] + Map(ps[1..], f), m);
        { FilterAppend([f(ps[0])], Map(ps[1..], f), m); FilterSingleton(f(ps[0]), m); }
        (if m(ps[0]) then [f(ps[0])] else []) + Map(rest, f);
      }
      if m(ps[0]) {
        MapPrepend(ps[0], rest, f);
      }
    }
  }
}
