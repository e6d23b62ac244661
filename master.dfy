/** The tenant's roster (src/app/actions/master.ts): adding one record by
    upsert, the bulk CSV import that skips known employee ids, and deleting
    a record of the caller's tenant. */
module Master {
  import opened Common
  import opened Schema

  /** At most one roster record per (tenant, employee id): the table's
      unique key. */
  ghost predicate UniqueKeys(ms: seq<MasterRecord>)
  {
    forall i, j :: 0 <= i < j < |ms| ==>
      !(ms[i].tenantId == ms[j].tenantId && ms[i].employeeId == ms[j].employeeId)
  }

  /** Record ids are distinct. */
  ghost predicate UniqueIds(ms: seq<MasterRecord>)
  {
    forall i, j :: 0 <= i < j < |ms| ==> ms[i].id != ms[j].id
  }

  predicate HasKey(m: MasterRecord, tenantId: Id, employeeId: string)
  {
    m.tenantId == tenantId && m.employeeId == employeeId
  }

  /** The roster after `upsert({tenant_id, employee_id, name}, {onConflict:
      'tenant_id, employee_id'})`: the record with that key gets the new
      name, or a new record with id `id` is appended when there is none. */
  function Upsert(ms: seq<MasterRecord>, tenantId: Id, employeeId: string, name: string, id: Id): (r: seq<MasterRecord>)
    ensures (exists i :: 0 <= i < |ms| && HasKey(ms[i], tenantId, employeeId)) ==>
      |r| == |ms| && forall i :: 0 <= i < |ms| ==>
        r[i] == if HasKey(ms[i], tenantId, employeeId) then ms[i].(name := name) else ms[i]
    ensures (forall i :: 0 <= i < |ms| ==> !HasKey(ms[i], tenantId, employeeId)) ==>
      r == ms + [MasterRecord(id, tenantId, employeeId, name, None)]
  {
    if exists i :: 0 <= i < |ms| && HasKey(ms[i], tenantId, employeeId) then
      seq(|ms|, i requires 0 <= i < |ms| => if HasKey(ms[i], tenantId, employeeId) then ms[i].(name := name) else ms[i])
    else ms + [MasterRecord(id, tenantId, employeeId, name, None)]
  }

  /** An upsert keeps the key unique and leaves exactly one record with its
      key, carrying the new name. */
  lemma UpsertKeepsKeysUnique(ms: seq<MasterRecord>, tenantId: Id, employeeId: string, name: string, id: Id)
    requires UniqueKeys(ms)
    ensures UniqueKeys(Upsert(ms, tenantId, employeeId, name, id))
    ensures var r := Upsert(ms, tenantId, employeeId, name, id);
      exists k :: 0 <= k < |r| && HasKey(r[k], tenantId, employeeId) && r[k].name == name
        && forall j :: 0 <= j < |r| && j != k ==> !HasKey(r[j], tenantId, employeeId)
  {
    var r := Upsert(ms, tenantId, employeeId, name, id);
    if k :| 0 <= k < |ms| && HasKey(ms[k], tenantId, employeeId) {
      assert HasKey(r[k], tenantId, employeeId);
      forall j | 0 <= j < |r| && j != k
        ensures !HasKey(r[j], tenantId, employeeId)
      {
        if j < k { assert !(ms[j].tenantId == ms[k].tenantId && ms[j].employeeId == ms[k].employeeId); }
        if k < j { assert !(ms[k].tenantId == ms[j].tenantId && ms[k].employeeId == ms[j].employeeId); }
      }
    } else {
      assert HasKey(r[|ms|], tenantId, employeeId);
    }
  }

  datatype RosterRead = Roster(records: seq<MasterRecord>) | ReadNotLoggedIn | ReadTenantNotFound

  /** `getMasterData`: the caller's tenant's roster and nobody else's. */
  function GetMasterData(db: Database, user: Option<User>): (r: RosterRead)
    reads db
    ensures r == ReadNotLoggedIn <==> user.None?
    ensures r == ReadTenantNotFound <==> user.Some? && TenantOf(db.tenants, user.value.id).None?
    ensures r.Roster? ==> forall m :: m in r.records <==>
      m in db.masterData && m.tenantId == TenantOf(db.tenants, user.value.id).value.id
  {
    if user.None? then ReadNotLoggedIn
    else match TenantOf(db.tenants, user.value.id)
      case None => ReadTenantNotFound
      case Some(tenant) => Roster(Filter(db.masterData, (m: MasterRecord) => m.tenantId == tenant.id))
  }

  datatype AddResult = Added | AddNotLoggedIn | AddTenantNotFound | IdAndNameRequired | AddFailed(detail: string, code: string)

  /** `addMasterDataRecord`. `upsert` is the database's answer. */
  method AddMasterDataRecord(db: Database, user: Option<User>, employeeId: Option<string>, name: Option<string>,
                             upsert: WriteOutcome)
    returns (r: AddResult)
    modifies db`masterData, db`nextId
    ensures r != Added ==> db.masterData == old(db.masterData)
    ensures r == AddNotLoggedIn <==> user.None?
    ensures r == AddTenantNotFound <==> user.Some? && TenantOf(db.tenants, user.value.id).None?
    ensures r == IdAndNameRequired <==>
      user.Some? && TenantOf(db.tenants, user.value.id).Some? && !(Present(employeeId) && Present(name))
    ensures r == Added || r.AddFailed? ==>
      && user.Some? && TenantOf(db.tenants, user.value.id).Some? && Present(employeeId) && Present(name)
      && (r.AddFailed? <==> upsert.WriteError?)
      && (r.AddFailed? ==> r == AddFailed(upsert.message, upsert.code))
      && (r == Added ==>
            db.masterData == Upsert(old(db.masterData), TenantOf(db.tenants, user.value.id).value.id,
                                    employeeId.value, name.value, old(db.nextId)))
  {
    if user.None? {
      return AddNotLoggedIn;
    }
    var tenant := TenantOf(db.tenants, user.value.id);
    if tenant.None? {
      return AddTenantNotFound;
    }
    if !Present(employeeId) || !Present(name) {
      return IdAndNameRequired;
    }
    if upsert.WriteError? {
      return AddFailed(upsert.message, upsert.code);
    }
    var id := db.Allocate(1);
    db.masterData := Upsert(db.masterData, tenant.value.id, employeeId.value, name.value, id);
    r := Added;
  }

  /** One row of the imported roster CSV. */
  datatype RosterRow = RosterRow(employeeId: string, name: string)

  /** `rows.map(...)`: the rows as records of the tenant. */
  function Payload(tenantId: Id, rows: seq<RosterRow>): (p: seq<MasterRecord>)
    ensures |p| == |rows|
    ensures forall i :: 0 <= i < |rows| ==> p[i] == MasterRecord(0, tenantId, rows[i].employeeId, rows[i].name, None)
  {
    seq(|rows|, i requires 0 <= i < |rows| => MasterRecord(0, tenantId, rows[i].employeeId, rows[i].name, None))
  }

  /** `existingIds`: the employee ids already in the tenant's roster. */
  function ExistingIds(ms: seq<MasterRecord>, tenantId: Id): (ids: set<string>)
    ensures forall e :: e in ids <==> exists i :: 0 <= i < |ms| && HasKey(ms[i], tenantId, e)
  {
    set i | 0 <= i < |ms| && ms[i].tenantId == tenantId :: ms[i].employeeId
  }

  /** `newRecords`: the payload records whose employee id is not known yet. */
  function NewRecords(payload: seq<MasterRecord>, existing: set<string>): seq<MasterRecord>
  {
    Filter(payload, (m: MasterRecord) => m.employeeId !in existing)
  }

  /** The payload records whose employee id is known. */
  function KnownRecords(payload: seq<MasterRecord>, existing: set<string>): seq<MasterRecord>
  {
    Filter(payload, (m: MasterRecord) => m.employeeId in existing)
  }

  /** Every new record has an unknown id, every payload record with an
      unknown id is new, and new and skipped records add up to the payload. */
  lemma NewRecordsSpec(payload: seq<MasterRecord>, existing: set<string>)
    ensures forall m :: m in NewRecords(payload, existing) ==> m in payload && m.employeeId !in existing
    ensures forall m :: m in payload && m.employeeId !in existing ==> m in NewRecords(payload, existing)
    ensures |NewRecords(payload, existing)| + |KnownRecords(payload, existing)| == |payload|
  {
    FilterPartition(payload, (m: MasterRecord) => m.employeeId !in existing, (m: MasterRecord) => m.employeeId in existing);
  }

  /** `rows` with identifiers `first, first + 1, ...` assigned in order. */
  function AssignRecordIds(rows: seq<MasterRecord>, first: Id): (r: seq<MasterRecord>)
    ensures |r| == |rows|
    ensures forall i :: 0 <= i < |rows| ==> r[i] == rows[i].(id := first + i)
  {
    Numbered(rows, first, WithRecordId)
  }

  function WithRecordId(m: MasterRecord, id: Id): MasterRecord
  {
    m.(id := id)
  }

  datatype ImportResult =
    | Imported(inserted: nat, skipped: nat)
    | NothingNew
    | ImportNotLoggedIn
    | ImportTenantNotFound
    | ImportFailed(error: string)

  /** `importMasterDataCSV`. `insert` is the database's answer to the insert. */
  method ImportMasterDataCsv(db: Database, user: Option<User>, rows: seq<RosterRow>, insert: WriteOutcome)
    returns (r: ImportResult)
    modifies db`masterData, db`nextId
    ensures !r.Imported? ==> db.masterData == old(db.masterData)
    ensures r == ImportNotLoggedIn <==> user.None?
    ensures r == ImportTenantNotFound <==> user.Some? && TenantOf(db.tenants, user.value.id).None?
    ensures r.Imported? || r == NothingNew || r.ImportFailed? ==>
      && user.Some? && TenantOf(db.tenants, user.value.id).Some?
      && var tenantId := TenantOf(db.tenants, user.value.id).value.id;
      && var payload := Payload(tenantId, rows);
      && var newOnes := NewRecords(payload, ExistingIds(old(db.masterData), tenantId));
      && (r == NothingNew <==> newOnes == [])
      && (r.ImportFailed? <==> newOnes != [] && insert.WriteError?)
      && (r.ImportFailed? ==> r.error == "インポートエラー: " + insert.message + " (Code: " + insert.code + ")")
      && (r.Imported? ==>
            && r.inserted == |newOnes| && r.inserted + r.skipped == |rows|
            && db.masterData == old(db.masterData) + AssignRecordIds(newOnes, old(db.nextId)))
  {
    if user.None? {
      return ImportNotLoggedIn;
    }
    var tenant := TenantOf(db.tenants, user.value.id);
    if tenant.None? {
      return ImportTenantNotFound;
    }
    var payload := Payload(tenant.value.id, rows);
    var existingIds := ExistingIds(db.masterData, tenant.value.id);
    var newRecords := NewRecords(payload, existingIds);
    if |newRecords| == 0 {
      return NothingNew;
    }
    if insert.WriteError? {
      return ImportFailed("インポートエラー: " + insert.message + " (Code: " + insert.code + ")");
    }
    var first := db.Allocate(|newRecords|);
    db.masterData := db.masterData + AssignRecordIds(newRecords, first);
    r := Imported(|newRecords|, |payload| - |newRecords|);
  }

  /** The import keeps the roster's key unique when the new records' employee
      ids are distinct among themselves (the table's unique key rejects the
      insert otherwise). */
  lemma ImportKeepsKeysUnique(ms: seq<MasterRecord>, tenantId: Id, rows: seq<RosterRow>, first: Id)
    requires UniqueKeys(ms)
    requires var newOnes := NewRecords(Payload(tenantId, rows), ExistingIds(ms, tenantId));
      forall i, j :: 0 <= i < j < |newOnes| ==> newOnes[i].employeeId != newOnes[j].employeeId
    ensures UniqueKeys(ms + AssignRecordIds(NewRecords(Payload(tenantId, rows), ExistingIds(ms, tenantId)), first))
  {
    var existing := ExistingIds(ms, tenantId);
    var newOnes := NewRecords(Payload(tenantId, rows), existing);
    var added := AssignRecordIds(newOnes, first);
    var r := ms + added;
    forall i, j | 0 <= i < j < |r|
      ensures !(r[i].tenantId == r[j].tenantId && r[i].employeeId == r[j].employeeId)
    {
      if j >= |ms| {
        var fj := newOnes[j - |ms|];
        assert fj in newOnes;
        assert fj.tenantId == tenantId && fj.employeeId !in existing;
        if i >= |ms| {
          assert newOnes[i - |ms|].employeeId != fj.employeeId;
        }
      }
    }
  }

  datatype DeleteResult = Deleted | DeleteNotLoggedIn | DeleteTenantNotFound | RecordNotFound | DeleteFailed

  function RecordOfTenant(ms: seq<MasterRecord>, id: Id, tenantId: Id): (m: Option<MasterRecord>)
    ensures m.Some? ==> m.value in ms && m.value.id == id && m.value.tenantId == tenantId
  {
    Single(ms, (m: MasterRecord) => m.id == id && m.tenantId == tenantId)
  }

  predicate NotId(m: MasterRecord, id: Id)
  {
    m.id != id
  }

  /** `master_data.delete().eq('id', id)`. */
  function WithoutId(ms: seq<MasterRecord>, id: Id): seq<MasterRecord>
  {
    Filter(ms, (m: MasterRecord) => NotId(m, id))
  }

  /** `deleteMasterData`. `delete` is the database's answer. */
  method DeleteMasterData(db: Database, user: Option<User>, id: Id, delete: WriteOutcome)
    returns (r: DeleteResult)
    modifies db`masterData
    ensures r != Deleted ==> db.masterData == old(db.masterData)
    ensures r == DeleteNotLoggedIn <==> user.None?
    ensures r == DeleteTenantNotFound <==> user.Some? && TenantOf(db.tenants, user.value.id).None?
    ensures r == RecordNotFound <==>
      user.Some? && TenantOf(db.tenants, user.value.id).Some?
      && RecordOfTenant(old(db.masterData), id, TenantOf(db.tenants, user.value.id).value.id).None?
    ensures r == Deleted || r == DeleteFailed ==>
      && user.Some? && TenantOf(db.tenants, user.value.id).Some?
      && RecordOfTenant(old(db.masterData), id, TenantOf(db.tenants, user.value.id).value.id).Some?
      && (r == DeleteFailed <==> delete.WriteError?)
      && (r == Deleted ==> db.masterData == WithoutId(old(db.masterData), id))
  {
    if user.None? {
      return DeleteNotLoggedIn;
    }
    var tenant := TenantOf(db.tenants, user.value.id);
    if tenant.None? {
      return DeleteTenantNotFound;
    }
    var record := RecordOfTenant(db.masterData, id, tenant.value.id);
    if record.None? {
      return RecordNotFound;
    }
    if delete.WriteError? {
      return DeleteFailed;
    }
    db.masterData := WithoutId(db.masterData, id);
    r := Deleted;
  }

  /** With distinct record ids, deleting the caller's record removes that one
      record and keeps every other, in order. */
  lemma {:induction false} DeleteRemovesOnlyTheRecord(ms: seq<MasterRecord>, k: nat)
    requires UniqueIds(ms) && k < |ms|
    ensures WithoutId(ms, ms[k].id) == ms[..k] + ms[k + 1..]
  {
    FilterDropsOne(ms, k, (m: MasterRecord) => NotId(m, ms[k].id));
  }
}
