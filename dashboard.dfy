/** The admin dashboard's reads (src/app/actions/dashboard.ts): the events of
    the caller's tenant and the attendance counts of one of them. Nothing is
    written. */
module Dashboard {
  import opened Common
  import opened Schema
  import Staff

  /** The events of a tenant (`events.eq('tenant_id', tenantId)`). */
  function TenantEvents(events: seq<Event>, tenantId: Id): seq<Event>
  {
    Filter(events, (e: Event) => e.tenantId == tenantId)
  }

  /** `getEvents`: no user or no tenant gives the empty list; otherwise the
      events of the caller's tenant and of no other. */
  function GetEvents(db: Database, user: Option<User>): (r: seq<Event>)
    reads db
    ensures user.None? || TenantOf(db.tenants, user.value.id).None? ==> r == []
    ensures user.Some? && TenantOf(db.tenants, user.value.id).Some? ==>
      forall e :: e in r <==> e in db.events && e.tenantId == TenantOf(db.tenants, user.value.id).value.id
  {
    if user.None? then []
    else match TenantOf(db.tenants, user.value.id)
      case None => []
      case Some(tenant) => TenantEvents(db.events, tenant.id)
  }

  /** The answer of `getEventStats`. */
  datatype Stats = Stats(eventName: string, eventCode: string, total: nat, checkedIn: nat, pending: nat)

  predicate IsCheckedIn(p: Participation)
  {
    p.status == CheckedIn
  }

  predicate IsPending(p: Participation)
  {
    p.status == Pending
  }

  /** `participations.eq('event_id', eventId)`. */
  function Rows(ps: seq<Participation>, eventId: Id): seq<Participation>
  {
    Filter(ps, (p: Participation) => p.eventId == eventId)
  }

  /** The counts over the event's rows. */
  function StatsOf(event: Event, ps: seq<Participation>): (s: Stats)
    ensures s.eventName == event.name && s.eventCode == event.eventCode
  {
    var rows := Rows(ps, event.id);
    Stats(event.name, event.eventCode, |rows|, Count(rows, IsCheckedIn), Count(rows, IsPending))
  }

  /** `getEventStats`: nothing without a user, or for an event that is
      missing or whose tenant another user owns. */
  function GetEventStats(db: Database, user: Option<User>, eventId: Id): (r: Option<Stats>)
    reads db
    ensures r.Some? <==> user.Some? && EventOwnedBy(db.events, db.tenants, eventId, user.value.id).Some?
    ensures r.Some? ==> r.value == StatsOf(EventOwnedBy(db.events, db.tenants, eventId, user.value.id).value.0,
                                           db.participations)
  {
    if user.None? then None
    else match EventOwnedBy(db.events, db.tenants, eventId, user.value.id)
      case None => None
      case Some(owned) => Some(StatsOf(owned.0, db.participations))
  }

  /** The total counts every row of the event and no other; a row is never
      both checked in and pending, so the two counts never exceed the total. */
  lemma StatsBounds(event: Event, ps: seq<Participation>)
    ensures var s := StatsOf(event, ps);
      && s.checkedIn + s.pending <= s.total
      && (forall p :: p in Rows(ps, event.id) <==> p in ps && p.eventId == event.id)
  {
    CountDisjoint(Rows(ps, event.id), IsCheckedIn, IsPending);
  }

  /** An event without participations has all counts zero. */
  lemma NoRowsNoCounts(event: Event, ps: seq<Participation>)
    requires forall i :: 0 <= i < |ps| ==> ps[i].eventId != event.id
    ensures StatsOf(event, ps) == Stats(event.name, event.eventCode, 0, 0, 0)
  {
    FilterNone(ps, (p: Participation) => p.eventId == event.id);
  }

  /** The row `id` after a check-in, every other row as it was. */
  function CheckedInRow(q: Participation, id: Id, now: Timestamp): Participation
  {
    if q.id == id then q.(status := CheckedIn, checkedInAt := Some(now)) else q
  }

  /** Checking in a row that is not checked in yet raises the checked-in
      count of its rows by one, when no other row has its id. */
  lemma {:induction false} MarkAddsOne(rows: seq<Participation>, k: nat, now: Timestamp)
    requires k < |rows| && !IsCheckedIn(rows[k])
    requires forall i :: 0 <= i < |rows| && i != k ==> rows[i].id != rows[k].id
    ensures Count(Map(rows, (q: Participation) => CheckedInRow(q, rows[k].id, now)), IsCheckedIn)
      == Count(rows, IsCheckedIn) + 1
  {
    var id := rows[k].id;
    var f := (q: Participation) => CheckedInRow(q, id, now);
    var m := Map(rows, f);
    assert m == [f(rows[0])] + Map(rows[1..], f);
    if k == 0 {
      assert Map(rows[1..], f) == rows[1..];
    } else {
      MarkAddsOne(rows[1..], k - 1, now);
    }
  }

  /** A successful check-in (`Staff.CheckIn`) of a pending or approved row
      of the event adds one to the event's checked-in count and leaves the
      total as it was, provided participation ids are distinct. */
  lemma CheckInCountsOnce(event: Event, ps: seq<Participation>, k: nat, now: Timestamp)
    requires k < |ps| && ps[k].eventId == event.id && !IsCheckedIn(ps[k])
    requires forall i, j :: 0 <= i < j < |ps| ==> ps[i].id != ps[j].id
    ensures var before, after := StatsOf(event, ps), StatsOf(event, Staff.MarkCheckedIn(ps, ps[k].id, now));
      after.checkedIn == before.checkedIn + 1 && after.total == before.total
  {
    var id := ps[k].id;
    var f := (q: Participation) => CheckedInRow(q, id, now);
    var ofEvent := (p: Participation) => p.eventId == event.id;
    assert Staff.MarkCheckedIn(ps, id, now) == Map(ps, f);
    Staff.FilterMapCommute(ps, f, ofEvent);
    var rows := Rows(ps, event.id);
    assert ps[k] in rows;
    var j :| 0 <= j < |rows| && rows[j] == ps[k];
    FilterDistinct(ps, ofEvent);
    forall i | 0 <= i < |rows| && i != j
      ensures rows[i].id != id
    {
      var a :| 0 <= a < |ps| && ps[a] == rows[i];
      assert a != k by { assert rows[i] != rows[j]; }
    }
    MarkAddsOne(rows, j, now);
  }
}
