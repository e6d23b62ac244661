/** The platform operator's actions (src/app/actions/super-admin.ts):
    generating company codes and passwords, provisioning a tenant with its
    owner account, and deleting a tenant. Random draws, the identity
    provider's answers and the environment are parameters. */
module SuperAdmin {
  import opened Common
  import opened Text
  import opened Schema

  // ---------------------------------------------------------------------
  // company codes
  // ---------------------------------------------------------------------

  /** `Math.random() > 0.5 ? 5 : 6`. */
  function CodeLength(coinAboveHalf: bool): (n: nat)
    ensures n == 5 || n == 6
  {
    if coinAboveHalf then 5 else 6
  }

  /** `generateCompanyCode`: `draw` is `Math.floor(Math.random() * 10^length)`,
      rendered in decimal and left-padded with zeros to the length. */
  function CompanyCode(coinAboveHalf: bool, draw: nat): (code: string)
    ensures |code| >= CodeLength(coinAboveHalf)
    ensures forall i :: 0 <= i < |code| ==> IsDecimalDigit(code[i])
  {
    PadStart(NatToDecimal(draw), CodeLength(coinAboveHalf), '0')
  }

  /** A draw below `10^length`, as `Math.random() < 1` guarantees, gives a
      code of exactly 5 or 6 digits that reads back as the draw. */
  lemma CompanyCodeSpec(coinAboveHalf: bool, draw: nat)
    requires draw < Pow10(CodeLength(coinAboveHalf))
    ensures |CompanyCode(coinAboveHalf, draw)| == CodeLength(coinAboveHalf)
    ensures ParseInt(CompanyCode(coinAboveHalf, draw)) == Some(draw)
  {
    DecimalLength(draw, CodeLength(coinAboveHalf));
    ParseIntOfPadded(draw, CodeLength(coinAboveHalf));
  }

  /** The `k`th code a run generates, from the `k`th pair of draws. */
  function NthCode(gen: nat -> (bool, nat), k: nat): string
  {
    CompanyCode(gen(k).0, gen(k).1)
  }

  /** The uniqueness lookup `tenants.eq('company_code', code).single()` finds
      no row. */
  predicate Free(tenants: seq<Tenant>, code: string)
  {
    Single(tenants, (t: Tenant) => t.companyCode == code).None?
  }

  /** The lookup of a tenant table, as a test on codes. */
  function FreeIn(tenants: seq<Tenant>): (free: string -> bool)
    ensures forall code :: free(code) == Free(tenants, code)
  {
    (code: string) => Free(tenants, code)
  }

  /** The codes of a run, in the order they are generated. */
  function Codes(gen: nat -> (bool, nat)): (codes: nat -> string)
    ensures forall k :: codes(k) == NthCode(gen, k)
  {
    (k: nat) => NthCode(gen, k)
  }

  /** The code `autoGenerateCompanyCode` returns when its lookups start at
      attempt `k`, with the number of lookups made: the first free code among
      attempts `k .. 9`, or else the code generated after the tenth lookup,
      unchecked. */
  function Chosen(free: string -> bool, codes: nat -> string, k: nat): (r: (string, nat))
    requires k <= 10
    decreases 10 - k
  {
    if k == 10 then (codes(10), 10)
    else if free(codes(k)) then (codes(k), k + 1)
    else Chosen(free, codes, k + 1)
  }

  /** What the retry loop promises: at most ten lookups; every lookup but
      the last found the code taken; a code returned before the tenth lookup
      is one the lookup found free; after ten lookups the last code is free
      or the next, unchecked one is returned. */
  lemma {:induction false} ChosenSpec(free: string -> bool, codes: nat -> string, k: nat)
    requires k < 10
    ensures var (code, lookups) := Chosen(free, codes, k);
      && k < lookups <= 10
      && (forall j :: k <= j < lookups - 1 ==> !free(codes(j)))
      && (lookups < 10 ==> code == codes(lookups - 1) && free(code))
      && (lookups == 10 ==> code == if free(codes(9)) then codes(9) else codes(10))
    decreases 10 - k
  {
    if !free(codes(k)) && k < 9 {
      ChosenSpec(free, codes, k + 1);
    }
  }

  /** `autoGenerateCompanyCode`. `gen(k)` is the pair of draws of the `k`th
      `generateCompanyCode` call; `lookups` counts the uniqueness queries. */
  method AutoGenerateCompanyCode(db: Database, gen: nat -> (bool, nat)) returns (code: string, lookups: nat)
    ensures (code, lookups) == Chosen(FreeIn(db.tenants), Codes(gen), 0)
  {
    var free, codes := FreeIn(db.tenants), Codes(gen);
    code := NthCode(gen, 0);
    var attempts := 0;
    lookups := 0;
    while attempts < 10
      invariant attempts <= 10 && lookups == attempts
      invariant code == codes(attempts)
      invariant Chosen(free, codes, 0) == Chosen(free, codes, attempts)
      decreases 10 - attempts
    {
      lookups := lookups + 1;
      if Free(db.tenants, code) {
        return;
      }
      code := NthCode(gen, attempts + 1);
      attempts := attempts + 1;
    }
  }

  // ---------------------------------------------------------------------
  // passwords
  // ---------------------------------------------------------------------

  /** The password alphabet: upper-case letters, lower-case letters and
      digits, without the look-alikes. */
  const Alphabet: string := "ABCDEFGHJKLMNPQRSTUVWXYZ" + "abcdefghjkmnpqrstuvwxyz" + "23456789"

  const PasswordLength: nat := 8

  /** `s.charAt(i)`: the character at `i`, or the empty string past the end. */
  function CharAt(s: string, i: nat): (r: string)
    ensures i < |s| ==> r == [s[i]]
    ensures i >= |s| ==> r == ""
  {
    if i < |s| then [s[i]] else ""
  }

  /** The password after `n` rounds; `draw(i)` is the `i`th
      `Math.floor(Math.random() * chars.length)`. */
  function PasswordOf(draw: nat -> nat, n: nat): string
  {
    if n == 0 then "" else PasswordOf(draw, n - 1) + CharAt(Alphabet, draw(n - 1))
  }

  /** `generatePassword`. */
  method GeneratePassword(draw: nat -> nat) returns (password: string)
    ensures password == PasswordOf(draw, PasswordLength)
  {
    password := "";
    for i := 0 to PasswordLength
      invariant password == PasswordOf(draw, i)
    {
      password := password + CharAt(Alphabet, draw(i));
    }
  }

  /** Every character comes from the alphabet, there are at most `n`, and
      exactly `n` when every draw is below the alphabet's length. */
  lemma {:induction false} PasswordSpec(draw: nat -> nat, n: nat)
    ensures forall i :: 0 <= i < |PasswordOf(draw, n)| ==> PasswordOf(draw, n)[i] in Alphabet
    ensures |PasswordOf(draw, n)| <= n
    ensures (forall i :: 0 <= i < n ==> draw(i) < |Alphabet|) ==> |PasswordOf(draw, n)| == n
  {
    if n > 0 {
      PasswordSpec(draw, n - 1);
    }
  }

  /** The characters the alphabet leaves out because they look alike. */
  predicate LookAlike(c: char)
  {
    c == 'I' || c == 'O' || c == 'i' || c == 'l' || c == 'o' || c == '0' || c == '1'
  }

  /** No character of `s` is a look-alike. */
  predicate NoLookAlike(s: string)
  {
    forall i :: 0 <= i < |s| ==> !LookAlike(s[i])
  }

  lemma NoLookAlikeJoin(a: string, b: string)
    requires NoLookAlike(a) && NoLookAlike(b)
    ensures NoLookAlike(a + b)
  {
  }

  /** The alphabet has 55 characters, none of them a look-alike. */
  lemma AlphabetExcludesLookAlikes()
    ensures |Alphabet| == 55
    ensures NoLookAlike(Alphabet)
  {
    var upper, lower, digits := "ABCDEFGHJKLMNPQRSTUVWXYZ", "abcdefghjkmnpqrstuvwxyz", "23456789";
    assert NoLookAlike(upper);
    assert NoLookAlike(lower);
    assert NoLookAlike(digits);
    NoLookAlikeJoin(upper, lower);
    NoLookAlikeJoin(upper + lower, digits);
  }

  /** So no generated password contains a look-alike. */
  lemma PasswordHasNoLookAlike(draw: nat -> nat)
    ensures forall i :: 0 <= i < |PasswordOf(draw, PasswordLength)| ==> !LookAlike(PasswordOf(draw, PasswordLength)[i])
  {
    PasswordSpec(draw, PasswordLength);
    AlphabetExcludesLookAlikes();
  }

  // ---------------------------------------------------------------------
  // the operator check
  // ---------------------------------------------------------------------

  /** `isSuperAdmin` as written: `user.email === SUPER_ADMIN_EMAIL`, which also
      holds when both are undefined. */
  predicate IsSuperAdminAsWritten(user: Option<User>, adminEmail: Option<string>)
    ensures IsSuperAdminAsWritten(user, adminEmail) ==> user.Some?
    ensures adminEmail.Some? ==>
      (IsSuperAdminAsWritten(user, adminEmail) <==> user.Some? && user.value.email == adminEmail)
    ensures adminEmail.None? ==>
      (IsSuperAdminAsWritten(user, adminEmail) <==> user.Some? && user.value.email.None?)
  {
    user.Some? && user.value.email == adminEmail
  }

  /** `isSuperAdmin` as intended: a configured address, and the signed-in
      user's email is that address. */
  predicate IsSuperAdmin(user: Option<User>, adminEmail: Option<string>)
  {
    user.Some? && adminEmail.Some? && user.value.email == adminEmail
  }

  /** The two agree whenever the address is configured; when it is not, the
      intended check admits nobody. */
  lemma SuperAdminAgreesWhenConfigured(user: Option<User>, adminEmail: Option<string>)
    ensures adminEmail.Some? ==> (IsSuperAdmin(user, adminEmail) <==> IsSuperAdminAsWritten(user, adminEmail))
    ensures adminEmail.None? ==> !IsSuperAdmin(user, adminEmail)
    ensures IsSuperAdmin(user, adminEmail) ==> IsSuperAdminAsWritten(user, adminEmail)
  {
  }

  /** With SUPER_ADMIN_EMAIL unset, a signed-in user without an email passes
      the check as written. */
  lemma EmaillessUserPassesAsWritten()
    ensures IsSuperAdminAsWritten(Some(User(1, None)), None)
    ensures !IsSuperAdmin(Some(User(1, None)), None)
  {
  }

  // ---------------------------------------------------------------------
  // provisioning
  // ---------------------------------------------------------------------

  datatype AccountForm = AccountForm(companyName: Option<string>, companyCode: Option<string>, email: Option<string>)

  /** The identity provider's answer to `auth.admin.createUser` or
      `deleteUser`. */
  datatype AuthOutcome = AuthOk | AuthError(message: string)

  datatype Credentials = Credentials(email: string, password: string, companyCode: string)

  datatype CreateResult =
    | AccountCreated(credentials: Credentials)
    | CreateForbidden
    | CreateMissingFields
    | AccountFailed(error: string)
    | TenantFailed(error: string)

  /** The tenant row a provisioning inserts: no SMTP settings yet. */
  function NewTenant(id: Id, name: string, companyCode: string, ownerId: Id): (t: Tenant)
    ensures t.id == id && t.name == name && t.companyCode == companyCode && t.ownerId == ownerId
    ensures t.smtpHost == None && t.smtpUser == None && t.smtpPassword == None
  {
    Tenant(id, name, companyCode, ownerId, None, None, None, None, None, None)
  }

  predicate NotUser(a: AuthUser, id: Id)
  {
    a.id != id
  }

  /** `auth.admin.deleteUser(id)`. */
  function WithoutUser(users: seq<AuthUser>, id: Id): seq<AuthUser>
  {
    Filter(users, (a: AuthUser) => NotUser(a, id))
  }

  /** Removing a user appended last gives back the list before it. */
  lemma WithoutNewUser(users: seq<AuthUser>, u: AuthUser)
    requires forall i :: 0 <= i < |users| ==> users[i].id != u.id
    ensures WithoutUser(users + [u], u.id) == users
  {
    var p := (a: AuthUser) => NotUser(a, u.id);
    FilterAppend(users, [u], p);
    FilterSingleton(u, p);
    FilterAll(users, p);
  }

  /** `createTenantAccount`. `draw` feeds `generatePassword`; `authCreate`,
      `tenantInsert` and `rollback` are the answers to the user creation, the
      tenant insert and the compensating user deletion. */
  method CreateTenantAccount(db: Database, user: Option<User>, adminEmail: Option<string>, form: AccountForm,
                             draw: nat -> nat, authCreate: AuthOutcome, tenantInsert: WriteOutcome,
                             rollback: AuthOutcome)
    returns (r: CreateResult)
    modifies db`tenants, db`authUsers, db`nextId
    ensures !r.AccountCreated? ==> db.tenants == old(db.tenants)
    ensures r == CreateForbidden <==> !IsSuperAdminAsWritten(user, adminEmail)
    ensures r == CreateMissingFields <==>
      IsSuperAdminAsWritten(user, adminEmail) && !(Present(form.companyName) && Present(form.companyCode) && Present(form.email))
    ensures r.AccountFailed? || r.TenantFailed? || r.AccountCreated? ==>
      && IsSuperAdminAsWritten(user, adminEmail)
      && Present(form.companyName) && Present(form.companyCode) && Present(form.email)
      && (r.AccountFailed? <==> authCreate.AuthError?)
      && (r.AccountFailed? ==> r.error == "アカウント作成に失敗しました: " + authCreate.message)
      && (r.TenantFailed? <==> authCreate.AuthOk? && tenantInsert.WriteError?)
      && (r.TenantFailed? ==> r.error == "テナント作成に失敗しました: " + tenantInsert.message)
    ensures r == CreateForbidden || r == CreateMissingFields || r.AccountFailed? ==>
      db.authUsers == old(db.authUsers)
    ensures r.TenantFailed? ==>
      var created := old(db.authUsers) + [AuthUser(old(db.nextId), form.email.value)];
      db.authUsers == if rollback.AuthOk? then WithoutUser(created, old(db.nextId)) else created
    ensures r.AccountCreated? ==>
      && var owner := AuthUser(old(db.nextId), form.email.value);
      && db.authUsers == old(db.authUsers) + [owner]
      && db.tenants == old(db.tenants) + [NewTenant(old(db.nextId) + 1, form.companyName.value, form.companyCode.value, owner.id)]
      && r.credentials == Credentials(form.email.value, PasswordOf(draw, PasswordLength), form.companyCode.value)
  {
    if !IsSuperAdminAsWritten(user, adminEmail) {
      return CreateForbidden;
    }
    if !Present(form.companyName) || !Present(form.companyCode) || !Present(form.email) {
      return CreateMissingFields;
    }
    var password := GeneratePassword(draw);
    if authCreate.AuthError? {
      return AccountFailed("アカウント作成に失敗しました: " + authCreate.message);
    }
    var ownerId := db.Allocate(1);
    db.authUsers := db.authUsers + [AuthUser(ownerId, form.email.value)];
    if tenantInsert.WriteError? {
      if rollback.AuthOk? {
        db.authUsers := WithoutUser(db.authUsers, ownerId);
      }
      return TenantFailed("テナント作成に失敗しました: " + tenantInsert.message);
    }
    var tenantId := db.Allocate(1);
    db.tenants := db.tenants + [NewTenant(tenantId, form.companyName.value, form.companyCode.value, ownerId)];
    r := AccountCreated(Credentials(form.email.value, password, form.companyCode.value));
  }

  // ---------------------------------------------------------------------
  // deletion
  // ---------------------------------------------------------------------

  datatype DeleteResult =
    | TenantDeleted
    | DeletedOwnerKept
    | DeleteForbidden
    | TenantNotFound
    | DeleteFailed(error: string)
  {
    /** `success` of the answer: the tenant row is gone. */
    function Success(): (b: bool)
      ensures b <==> this == TenantDeleted || this == DeletedOwnerKept
    {
      this == TenantDeleted || this == DeletedOwnerKept
    }
  }

  /** The tables after the tenant row is deleted, with the foreign-key
      cascade to its events, roster, their participations and its mail jobs. */
  datatype Tables = Tables(
    tenants: seq<Tenant>,
    events: seq<Event>,
    masterData: seq<MasterRecord>,
    participations: seq<Participation>,
    mailJobs: seq<MailJob>)

  function Cascade(t: Tables, tenantId: Id): (r: Tables)
    ensures forall x :: x in r.tenants <==> x in t.tenants && x.id != tenantId
    ensures forall e :: e in r.events <==> e in t.events && e.tenantId != tenantId
    ensures forall m :: m in r.masterData <==> m in t.masterData && m.tenantId != tenantId
    ensures forall j :: j in r.mailJobs <==> j in t.mailJobs && j.tenantId != tenantId
    ensures forall p :: p in r.participations <==>
      p in t.participations && !exists i :: 0 <= i < |t.events| && t.events[i].id == p.eventId && t.events[i].tenantId == tenantId
  {
    var gone := set i | 0 <= i < |t.events| && t.events[i].tenantId == tenantId :: t.events[i].id;
    Tables(
      Filter(t.tenants, (x: Tenant) => x.id != tenantId),
      Filter(t.events, (e: Event) => e.tenantId != tenantId),
      Filter(t.masterData, (m: MasterRecord) => m.tenantId != tenantId),
      Filter(t.participations, (p: Participation) => p.eventId !in gone),
      Filter(t.mailJobs, (j: MailJob) => j.tenantId != tenantId))
  }

  function TablesOf(db: Database): Tables
    reads db
  {
    Tables(db.tenants, db.events, db.masterData, db.participations, db.mailJobs)
  }

  /** Writes the five tables back. */
  method Store(db: Database, t: Tables)
    modifies db`tenants, db`events, db`masterData, db`participations, db`mailJobs
    ensures TablesOf(db) == t
  {
    db.tenants, db.events, db.masterData := t.tenants, t.events, t.masterData;
    db.participations, db.mailJobs := t.participations, t.mailJobs;
  }

  /** `deleteTenant`. `tenantDelete` and `ownerDelete` are the answers to the
      tenant deletion and the owner account's deletion. */
  method DeleteTenant(db: Database, user: Option<User>, adminEmail: Option<string>, tenantId: Id,
                      tenantDelete: WriteOutcome, ownerDelete: AuthOutcome)
    returns (r: DeleteResult)
    modifies db`tenants, db`events, db`masterData, db`participations, db`mailJobs, db`authUsers
    ensures r == DeleteForbidden <==> !IsSuperAdminAsWritten(user, adminEmail)
    ensures r == TenantNotFound <==> IsSuperAdminAsWritten(user, adminEmail) && TenantById(old(db.tenants), tenantId).None?
    ensures r.DeleteFailed? <==>
      IsSuperAdminAsWritten(user, adminEmail) && TenantById(old(db.tenants), tenantId).Some? && tenantDelete.WriteError?
    ensures r.DeleteFailed? ==> r.error == "テナント削除に失敗しました: " + tenantDelete.message
    ensures r == DeletedOwnerKept <==> r.Success() && ownerDelete.AuthError?
    ensures !r.Success() ==> TablesOf(db) == old(TablesOf(db)) && db.authUsers == old(db.authUsers)
    ensures r.Success() ==>
      && TablesOf(db) == Cascade(old(TablesOf(db)), tenantId)
      && db.authUsers == (if r == TenantDeleted then WithoutUser(old(db.authUsers), TenantById(old(db.tenants), tenantId).value.ownerId)
                          else old(db.authUsers))
  {
    if !IsSuperAdminAsWritten(user, adminEmail) {
      return DeleteForbidden;
    }
    var tenant := TenantById(db.tenants, tenantId);
    if tenant.None? {
      return TenantNotFound;
    }
    if tenantDelete.WriteError? {
      return DeleteFailed("テナント削除に失敗しました: " + tenantDelete.message);
    }
    Store(db, Cascade(TablesOf(db), tenantId));
    if ownerDelete.AuthError? {
      return DeletedOwnerKept;
    }
    db.authUsers := WithoutUser(db.authUsers, tenant.value.ownerId);
    r := TenantDeleted;
  }

  /** A failed provisioning leaves no owner account behind when the
      compensating deletion succeeds. */
  lemma RollbackLeavesNoOrphan(users: seq<AuthUser>, email: string, id: Id)
    requires forall i :: 0 <= i < |users| ==> users[i].id != id
    ensures forall i :: 0 <= i < |WithoutUser(users + [AuthUser(id, email)], id)| ==>
      WithoutUser(users + [AuthUser(id, email)], id)[i].id != id
    ensures WithoutUser(users + [AuthUser(id, email)], id) == users
  {
    WithoutNewUser(users, AuthUser(id, email));
  }
}
