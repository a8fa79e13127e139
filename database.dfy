/** The registry: the users table, the device access log, the settings table
    and the audit log, held in memory and changed the way the SQL statements
    of the data-access layer change them. The clock, the UUID generator and
    the failures the code swallows are arguments. */
module Db {
  import opened Py

  // ------------------------------------------------------------------ rows

  /** A row of `users`. The columns an update may set hold any scalar, as
      SQLite's dynamic typing allows; `uuid` is only ever written by the
      insert, with a string. */
  datatype UserRow = UserRow(id: nat, uuid: string, email: Value, secretPath: Value,
                             level: Value, enabled: Value, notes: Value, createdAt: int)

  /** A row of `device_access_logs`, unique on (user, agent, address). */
  datatype DeviceRow = DeviceRow(id: nat, userId: int, userAgent: string, sourceIp: string,
                                 accessedPath: string, firstSeenAt: int, lastSeenAt: int,
                                 accessCount: int)

  /** A row of `settings`, keyed by its name. */
  datatype SettingRow = SettingRow(value: string, description: string, updatedAt: int)

  datatype AuditDetails = Message(text: string) | UpdatedFields(updates: map<string, Value>)

  datatype AuditEntry = AuditEntry(action: string, target: string, details: AuditDetails, createdAt: int)

  /** Column defaults of the schema that the inserts rely on. */
  datatype Defaults = Defaults(enabled: Value, accessCount: int)

  /** A row as `dict(row)` hands it to the callers. */
  function AsRecord(row: UserRow): map<string, Value> {
    map["id" := Int(row.id), "uuid" := Text(row.uuid), "email" := row.email,
        "secret_path" := row.secretPath, "level" := row.level, "enabled" := row.enabled,
        "notes" := row.notes, "created_at" := Int(row.createdAt)]
  }

  // ---------------------------------------------------- uniqueness of users

  /** Two rows that the UNIQUE constraints on uuid, email and secret_path
      forbid side by side; NULLs never collide. */
  predicate Clash(a: UserRow, b: UserRow) {
    a.uuid == b.uuid
    || (a.email != Null && a.email == b.email)
    || (a.secretPath != Null && a.secretPath == b.secretPath)
  }

  predicate ClashesWithAny(row: UserRow, rows: seq<UserRow>) {
    exists i :: 0 <= i < |rows| && Clash(row, rows[i])
  }

  predicate UsersValid(users: seq<UserRow>, lastId: nat) {
    Pairwise(users) && (forall i :: 0 <= i < |users| ==> users[i].id <= lastId)
  }

  /** A row with the next id that clashes with no row keeps the table valid. */
  lemma AppendUser(users: seq<UserRow>, lastId: nat, row: UserRow)
    requires UsersValid(users, lastId) && row.id == lastId + 1 && !ClashesWithAny(row, users)
    ensures UsersValid(users + [row], lastId + 1)
  {
    var w := users + [row];
    forall i, j | 0 <= i < j < |w| ensures w[i].id < w[j].id && !Clash(w[i], w[j]) {
      if j == |users| {
        assert !Clash(row, users[i]);
      }
    }
  }

  // ---------------------------------------------------------------- lookups

  datatype Column = UuidColumn | EmailColumn | SecretPathColumn

  function ColumnValue(row: UserRow, col: Column): Value {
    match col
    case UuidColumn => Text(row.uuid)
    case EmailColumn => row.email
    case SecretPathColumn => row.secretPath
  }

  /** `SELECT * FROM users WHERE <col> = ?` and `fetchone()`: the first row
      in table order whose column equals the key; NULL equals nothing. */
  function Lookup(rows: seq<UserRow>, col: Column, key: Value): (r: Option<UserRow>)
    ensures r.Some? <==> key != Null && exists i :: 0 <= i < |rows| && ColumnValue(rows[i], col) == key
    ensures r.Some? ==> r.value in rows && ColumnValue(r.value, col) == key
    ensures r.Some? ==> exists i :: 0 <= i < |rows| && rows[i] == r.value
                          && forall j :: 0 <= j < i ==> ColumnValue(rows[j], col) != key
  {
    if key == Null || rows == [] then None
    else if ColumnValue(rows[0], col) == key then Some(rows[0])
    else
      var r := Lookup(rows[1..], col, key);
      assert forall i :: 0 <= i < |rows| - 1 ==> rows[1..][i] == rows[i + 1];
      if r.Some? then
        var i :| 0 <= i < |rows[1..]| && rows[1..][i] == r.value
                 && forall j :: 0 <= j < i ==> ColumnValue(rows[1..][j], col) != key;
        assert rows[i + 1] == r.value;
        r
      else r
  }

  /** In a table without clashes a key names at most one row, so the row a
      lookup finds is the row holding that key. */
  lemma LookupUnique(users: seq<UserRow>, lastId: nat, col: Column, i: nat)
    requires UsersValid(users, lastId)
    requires i < |users| && ColumnValue(users[i], col) != Null
    ensures Lookup(users, col, ColumnValue(users[i], col)) == Some(users[i])
  {
    var key := ColumnValue(users[i], col);
    var r := Lookup(users, col, key);
    var k :| 0 <= k < |users| && users[k] == r.value
             && forall j :: 0 <= j < k ==> ColumnValue(users[j], col) != key;
    if k != i {
      assert k < i;
      assert Clash(users[k], users[i]);
    }
  }

  // ----------------------------------------------------------- ORDER BY

  /** `ORDER BY created_at`, ties in table (rowid) order. */
  predicate Precedes(a: UserRow, b: UserRow) {
    a.createdAt < b.createdAt || (a.createdAt == b.createdAt && a.id <= b.id)
  }

  predicate Sorted(rows: seq<UserRow>) {
    forall i, j :: 0 <= i < j < |rows| ==> Precedes(rows[i], rows[j])
  }

  function Insert(x: UserRow, rows: seq<UserRow>): (r: seq<UserRow>)
    ensures multiset(r) == multiset(rows) + multiset{x}
    ensures Sorted(rows) ==> Sorted(r)
  {
    if rows == [] || Precedes(x, rows[0]) then
      SortedHead(x, rows);
      [x] + rows
    else
      assert rows == [rows[0]] + rows[1..];
      var t := Insert(x, rows[1..]);
      InsertStep(rows, x, t);
      [rows[0]] + t
  }

  /** The step of `Insert` past a head row that `x` does not precede. */
  lemma InsertStep(rows: seq<UserRow>, x: UserRow, t: seq<UserRow>)
    requires rows != [] && !Precedes(x, rows[0])
    requires multiset(t) == multiset(rows[1..]) + multiset{x}
    ensures Sorted(rows) ==> Sorted(rows[1..])
    ensures Sorted(rows) && Sorted(t) ==> Sorted([rows[0]] + t)
  {
    if Sorted(rows) && Sorted(t) {
      forall y | y in t ensures Precedes(rows[0], y) {
        assert y in multiset(t);
        if y != x {
          assert y in rows[1..];
          SortedFirst(rows, y);
        }
      }
      SortedCons(rows[0], t);
    }
  }

  /** The first row of a sorted run precedes every row of the run. */
  lemma SortedFirst(rows: seq<UserRow>, y: UserRow)
    requires Sorted(rows) && rows != [] && y in rows
    ensures Precedes(rows[0], y)
  {
    var k :| 0 <= k < |rows| && rows[k] == y;
  }

  /** A row that precedes the head of a sorted run can go in front of it. */
  lemma SortedHead(x: UserRow, rows: seq<UserRow>)
    requires rows == [] || Precedes(x, rows[0])
    ensures Sorted(rows) ==> Sorted([x] + rows)
  {
    if Sorted(rows) {
      forall y | y in rows ensures Precedes(x, y) {
        SortedFirst(rows, y);
      }
      SortedCons(x, rows);
    }
  }

  /** A row that precedes every row of a sorted run can go in front of it. */
  lemma SortedCons(x: UserRow, t: seq<UserRow>)
    requires Sorted(t)
    requires forall y :: y in t ==> Precedes(x, y)
    ensures Sorted([x] + t)
  {
    var w := [x] + t;
    forall i, j | 0 <= i < j < |w| ensures Precedes(w[i], w[j]) {
      assert w[j] == t[j - 1] && w[j] in t;
      if i > 0 {
        assert w[i] == t[i - 1];
      }
    }
  }

  function SortByCreation(rows: seq<UserRow>): (r: seq<UserRow>)
    ensures multiset(r) == multiset(rows)
    ensures forall x :: x in r <==> x in rows
    ensures Sorted(r)
  {
    if rows == [] then []
    else
      assert rows == [rows[0]] + rows[1..];
      var r := Insert(rows[0], SortByCreation(rows[1..]));
      assert forall x :: x in r <==> x in multiset(r);
      assert forall x :: x in rows <==> x in multiset(rows);
      r
  }

  /** `WHERE enabled = 1` when asked, in table order. */
  function Filter(rows: seq<UserRow>, enabledOnly: bool): (r: seq<UserRow>)
    ensures forall row :: row in r <==> row in rows && (!enabledOnly || row.enabled == Int(1))
    ensures !enabledOnly ==> r == rows
  {
    if rows == [] then []
    else (if !enabledOnly || rows[0].enabled == Int(1) then [rows[0]] else []) + Filter(rows[1..], enabledOnly)
  }

  lemma PrecedesAllFiltered(x: UserRow, rows: seq<UserRow>)
    requires Sorted(rows) && rows != [] && Precedes(x, rows[0])
    ensures forall y :: y in Filter(rows, true) ==> Precedes(x, y)
  {
    forall y | y in Filter(rows, true) ensures Precedes(x, y) {
      var k :| 0 <= k < |rows| && rows[k] == y;
      assert k == 0 || Precedes(rows[0], rows[k]);
    }
  }

  /** Filtering commutes with inserting into a sorted list. */
  lemma {:induction false} FilterInsert(x: UserRow, rows: seq<UserRow>)
    requires Sorted(rows)
    decreases |rows|, 1
    ensures Filter(Insert(x, rows), true)
            == if x.enabled == Int(1) then Insert(x, Filter(rows, true)) else Filter(rows, true)
  {
    var head := if x.enabled == Int(1) then [x] else [];
    if rows == [] {
      assert Insert(x, rows) == [x];
    } else if Precedes(x, rows[0]) {
      assert Insert(x, rows) == [x] + rows;
      assert ([x] + rows)[1..] == rows;
      assert Filter([x] + rows, true) == head + Filter(rows, true);
      var fs := Filter(rows, true);
      if fs != [] {
        PrecedesAllFiltered(x, rows);
        assert Insert(x, fs) == [x] + fs;
      }
    } else {
      FilterInsertAfterHead(x, rows);
    }
  }

  lemma {:induction false} FilterInsertAfterHead(x: UserRow, rows: seq<UserRow>)
    requires Sorted(rows) && rows != [] && !Precedes(x, rows[0])
    ensures Filter(Insert(x, rows), true)
            == if x.enabled == Int(1) then Insert(x, Filter(rows, true)) else Filter(rows, true)
    decreases |rows|, 0
  {
    var r0 := rows[0];
    var ins := Insert(x, rows[1..]);
    var f1 := Filter(rows[1..], true);
    assert Insert(x, rows) == [r0] + ins;
    assert rows == [r0] + rows[1..];
    SortedTail(rows);
    FilterInsert(x, rows[1..]);
    FilterCons(r0, ins);
    FilterCons(r0, rows[1..]);
    if r0.enabled == Int(1) {
      assert Filter(Insert(x, rows), true) == [r0] + Filter(ins, true);
      assert Filter(rows, true) == [r0] + f1;
      if x.enabled == Int(1) {
        InsertAfter(x, r0, f1);
      }
    } else {
      assert [] + Filter(ins, true) == Filter(ins, true);
      assert [] + f1 == f1;
    }
  }

  lemma InsertAfter(x: UserRow, r0: UserRow, t: seq<UserRow>)
    requires !Precedes(x, r0)
    ensures Insert(x, [r0] + t) == [r0] + Insert(x, t)
  {
    assert ([r0] + t)[1..] == t;
  }

  lemma SortedTail(rows: seq<UserRow>)
    requires Sorted(rows) && rows != []
    ensures Sorted(rows[1..])
  {
  }

  lemma FilterCons(r: UserRow, t: seq<UserRow>)
    ensures Filter([r] + t, true) == (if r.enabled == Int(1) then [r] else []) + Filter(t, true)
  {
    assert ([r] + t)[1..] == t;
  }


  /** The enabled-only listing is the full listing with the disabled rows
      taken out: both come in the same order. */
  lemma {:induction false} FilterSort(rows: seq<UserRow>)
    ensures SortByCreation(Filter(rows, true)) == Filter(SortByCreation(rows), true)
  {
    if rows != [] {
      FilterSort(rows[1..]);
      FilterInsert(rows[0], SortByCreation(rows[1..]));
      if rows[0].enabled == Int(1) {
        assert Filter(rows, true) == [rows[0]] + Filter(rows[1..], true);
        assert Filter(rows, true)[1..] == Filter(rows[1..], true);
      } else {
        assert Filter(rows, true) == Filter(rows[1..], true);
      }
    }
  }

  /** A table already in creation order is listed as it stands. */
  lemma {:induction false} SortSorted(rows: seq<UserRow>)
    requires Sorted(rows)
    ensures SortByCreation(rows) == rows
  {
    if rows != [] {
      SortSorted(rows[1..]);
      assert rows[1..] == [] || Precedes(rows[0], rows[1..][0]);
    }
  }

  // ------------------------------------------------------------ update_user

  /** The keyword arguments `update_user` keeps. */
  function AllowedFields(): set<string> { {"email", "secret_path", "level", "enabled", "notes"} }

  function Restrict(kwargs: map<string, Value>): (r: map<string, Value>)
    ensures r.Keys == kwargs.Keys * AllowedFields()
    ensures forall k :: k in r ==> r[k] == kwargs[k]
  {
    map k | k in kwargs && k in AllowedFields() :: kwargs[k]
  }

  /** The row after `UPDATE users SET k = ?, ...`. */
  function Apply(row: UserRow, updates: map<string, Value>): (r: UserRow)
    ensures r.id == row.id && r.uuid == row.uuid && r.createdAt == row.createdAt
  {
    row.(email := if "email" in updates then updates["email"] else row.email,
         secretPath := if "secret_path" in updates then updates["secret_path"] else row.secretPath,
         level := if "level" in updates then updates["level"] else row.level,
         enabled := if "enabled" in updates then updates["enabled"] else row.enabled,
         notes := if "notes" in updates then updates["notes"] else row.notes)
  }

  function IndexOfUuid(rows: seq<UserRow>, uuid: string): (r: Option<nat>)
    ensures r.None? <==> forall i :: 0 <= i < |rows| ==> rows[i].uuid != uuid
    ensures r.Some? ==> r.value < |rows| && rows[r.value].uuid == uuid
  {
    if rows == [] then None
    else if rows[0].uuid == uuid then Some(0)
    else match IndexOfUuid(rows[1..], uuid)
      case None => None
      case Some(i) => Some(i + 1)
  }

  /** The rows `DELETE FROM users WHERE uuid = ?` leaves. */
  function WithoutUuid(rows: seq<UserRow>, uuid: string): (r: seq<UserRow>)
    ensures forall row :: row in r <==> row in rows && row.uuid != uuid
    ensures |r| <= |rows|
  {
    if rows == [] then []
    else (if rows[0].uuid == uuid then [] else [rows[0]]) + WithoutUuid(rows[1..], uuid)
  }

  predicate Pairwise(rows: seq<UserRow>) {
    forall i, j :: 0 <= i < j < |rows| ==> rows[i].id < rows[j].id && !Clash(rows[i], rows[j])
  }

  /** The first row of a clash-free table precedes every later row. */
  lemma PairwiseHead(rows: seq<UserRow>)
    requires Pairwise(rows) && rows != []
    ensures forall y :: y in rows[1..] ==> rows[0].id < y.id && !Clash(rows[0], y)
  {
    forall y | y in rows[1..] ensures rows[0].id < y.id && !Clash(rows[0], y) {
      var k :| 0 <= k < |rows[1..]| && rows[1..][k] == y;
      assert rows[k + 1] == y;
    }
  }

  /** A row before a clash-free table that precedes all of it keeps it clash-free. */
  lemma PairwiseCons(x: UserRow, t: seq<UserRow>)
    requires Pairwise(t)
    requires forall y :: y in t ==> x.id < y.id && !Clash(x, y)
    ensures Pairwise([x] + t)
  {
    var w := [x] + t;
    forall i, j | 0 <= i < j < |w| ensures w[i].id < w[j].id && !Clash(w[i], w[j]) {
      assert w[j] == t[j - 1] && w[j] in t;
      if i > 0 {
        assert w[i] == t[i - 1];
      }
    }
  }

  /** Deleting rows keeps the others in order, so no clash appears. */
  lemma {:induction false} WithoutUuidPairwise(rows: seq<UserRow>, uuid: string)
    requires Pairwise(rows)
    ensures Pairwise(WithoutUuid(rows, uuid))
  {
    if rows != [] {
      var t := WithoutUuid(rows[1..], uuid);
      WithoutUuidPairwise(rows[1..], uuid);
      if rows[0].uuid != uuid {
        assert WithoutUuid(rows, uuid) == [rows[0]] + t;
        PairwiseHead(rows);
        PairwiseCons(rows[0], t);
      }
    }
  }

  /** Switching a row on or off leaves its uuid, email and path alone, so
      it cannot start clashing with another row. */
  lemma EnabledNeverClashes(rows: seq<UserRow>, i: nat, v: Value)
    requires Pairwise(rows) && i < |rows|
    ensures Apply(rows[i], map["enabled" := v]) == rows[i].(enabled := v)
    ensures forall j :: 0 <= j < |rows| && j != i ==> !Clash(rows[i].(enabled := v), rows[j])
  {
    forall j | 0 <= j < |rows| && j != i ensures !Clash(rows[i].(enabled := v), rows[j]) {
      if j < i { assert !Clash(rows[j], rows[i]); } else { assert !Clash(rows[i], rows[j]); }
    }
  }

  /** Deleting the rows of a uuid keeps the table valid and leaves none of
      that uuid. */
  lemma WithoutUuidValid(rows: seq<UserRow>, lastId: nat, uuid: string)
    requires UsersValid(rows, lastId)
    ensures UsersValid(WithoutUuid(rows, uuid), lastId)
    ensures forall i :: 0 <= i < |WithoutUuid(rows, uuid)| ==> WithoutUuid(rows, uuid)[i].uuid != uuid
  {
    var w := WithoutUuid(rows, uuid);
    WithoutUuidPairwise(rows, uuid);
    forall i | 0 <= i < |w| ensures w[i].id <= lastId && w[i].uuid != uuid {
      assert w[i] in w;
      var k :| 0 <= k < |rows| && rows[k] == w[i];
    }
  }

  /** Replacing a row by one with the same id that clashes with no other
      row keeps the table free of clashes. */
  lemma ReplacePairwise(rows: seq<UserRow>, i: nat, row: UserRow)
    requires Pairwise(rows) && i < |rows| && row.id == rows[i].id
    requires forall j :: 0 <= j < |rows| && j != i ==> !Clash(row, rows[j])
    ensures Pairwise(rows[i := row])
  {
    var t := rows[i := row];
    forall a, b | 0 <= a < b < |t| ensures t[a].id < t[b].id && !Clash(t[a], t[b]) {
      if a == i { assert !Clash(row, rows[b]); }
      else if b == i { assert !Clash(row, rows[a]); }
    }
  }

  // ---------------------------------------------------------------- devices

  predicate SameDevice(d: DeviceRow, userId: int, userAgent: string, sourceIp: string) {
    d.userId == userId && d.userAgent == userAgent && d.sourceIp == sourceIp
  }

  predicate DevicesValid(devices: seq<DeviceRow>, lastId: nat) {
    (forall i, j :: 0 <= i < j < |devices| ==>
       devices[i].id < devices[j].id
       && !SameDevice(devices[j], devices[i].userId, devices[i].userAgent, devices[i].sourceIp))
    && (forall i :: 0 <= i < |devices| ==> devices[i].id <= lastId)
  }

  function DeviceIndex(devices: seq<DeviceRow>, userId: int, userAgent: string, sourceIp: string)
    : (r: Option<nat>)
    ensures r.None? <==> forall i :: 0 <= i < |devices| ==> !SameDevice(devices[i], userId, userAgent, sourceIp)
    ensures r.Some? ==> r.value < |devices| && SameDevice(devices[r.value], userId, userAgent, sourceIp)
  {
    if devices == [] then None
    else if SameDevice(devices[0], userId, userAgent, sourceIp) then Some(0)
    else match DeviceIndex(devices[1..], userId, userAgent, sourceIp)
      case None => None
      case Some(i) => Some(i + 1)
  }

  // --------------------------------------------------------------- database

  /** The chosen uuid: the caller's when truthy, else a fresh `uuid4()`. */
  function ChosenUuid(given: Option<string>, generated: string): string {
    if given.Some? && given.value != "" then given.value else generated
  }

  class Database {
    var users: seq<UserRow>
    var lastUserId: nat
    var devices: seq<DeviceRow>
    var lastDeviceId: nat
    var settings: map<string, SettingRow>
    var audit: seq<AuditEntry>
    const defaults: Defaults

    ghost predicate Valid()
      reads this
    {
      UsersValid(users, lastUserId) && DevicesValid(devices, lastDeviceId)
    }

    /** A freshly created schema: every table empty. */
    constructor(defaults: Defaults)
      ensures Valid()
      ensures this.defaults == defaults
      ensures users == [] && devices == [] && settings == map[] && audit == []
      ensures lastUserId == 0 && lastDeviceId == 0
    {
      this.defaults := defaults;
      users := [];
      lastUserId := 0;
      devices := [];
      lastDeviceId := 0;
      settings := map[];
      audit := [];
    }

    // ------------------------------------------------------------ audit

    /** `_log_audit`: appends an entry, or, when the insert fails, nothing;
        a failure never reaches the caller. */
    method LogAudit(action: string, target: string, details: AuditDetails, now: int, ok: bool)
      modifies this
      ensures audit == old(audit) + (if ok then [AuditEntry(action, target, details, now)] else [])
      ensures users == old(users) && lastUserId == old(lastUserId) && devices == old(devices)
      ensures lastDeviceId == old(lastDeviceId) && settings == old(settings)
    {
      if ok {
        audit := audit + [AuditEntry(action, target, details, now)];
      }
    }

    // ------------------------------------------------------------ users

    function GetUserByUuid(uuid: string): (r: Option<UserRow>)
      reads this
      ensures r.Some? <==> exists i :: 0 <= i < |users| && users[i].uuid == uuid
      ensures r.Some? ==> r.value in users && r.value.uuid == uuid
    {
      Lookup(users, UuidColumn, Text(uuid))
    }

    function GetUserByEmail(email: string): (r: Option<UserRow>)
      reads this
      ensures r.Some? <==> exists i :: 0 <= i < |users| && users[i].email == Text(email)
      ensures r.Some? ==> r.value in users && r.value.email == Text(email)
    {
      Lookup(users, EmailColumn, Text(email))
    }

    function GetUserBySecretPath(secretPath: string): (r: Option<UserRow>)
      reads this
      ensures r.Some? <==> exists i :: 0 <= i < |users| && users[i].secretPath == Text(secretPath)
      ensures r.Some? ==> r.value in users && r.value.secretPath == Text(secretPath)
    {
      Lookup(users, SecretPathColumn, Text(secretPath))
    }

    /** `get_all_users(enabled_only)`: the rows (only those with enabled = 1
        when asked), every one of them once, in creation order. */
    function GetAllUsers(enabledOnly: bool): (r: seq<UserRow>)
      reads this
      ensures forall row :: row in r <==> row in users && (!enabledOnly || row.enabled == Int(1))
      ensures multiset(r) == multiset(Filter(users, enabledOnly))
      ensures Sorted(r)
    {
      SortByCreation(Filter(users, enabledOnly))
    }

    /** `create_user`: inserts a row with the caller's or a generated uuid
        and the schema's default `enabled`; a row clashing on uuid, email or
        secret path is refused with ValueError and nothing changes. */
    method CreateUser(email: string, secretPath: string, userUuid: Option<string>, level: int,
                      notes: string, generatedUuid: string, now: int, auditOk: bool)
      returns (r: Result<UserRow, Exception>)
      requires Valid()
      modifies this
      ensures Valid()
      ensures var row := UserRow(old(lastUserId) + 1, ChosenUuid(userUuid, generatedUuid), Text(email),
                                 Text(secretPath), Int(level), defaults.enabled, Text(notes), now);
        if ClashesWithAny(row, old(users)) then
          r == Err(ValueError) && users == old(users) && lastUserId == old(lastUserId)
          && audit == old(audit)
        else
          r == Ok(row) && users == old(users) + [row] && lastUserId == old(lastUserId) + 1
          && audit == old(audit) + (if auditOk then
               [AuditEntry("create_user", "user:" + Decimal(row.id),
                           Message("Created user " + email + " with UUID " + row.uuid + ", path: /" + secretPath),
                           now)] else [])
      ensures r.Ok? ==> GetUserByUuid(r.value.uuid) == Some(r.value)
      ensures devices == old(devices) && lastDeviceId == old(lastDeviceId) && settings == old(settings)
    {
      var uuid := ChosenUuid(userUuid, generatedUuid);
      var row := UserRow(lastUserId + 1, uuid, Text(email), Text(secretPath), Int(level),
                         defaults.enabled, Text(notes), now);
      if ClashesWithAny(row, users) {
        return Err(ValueError);
      }
      AppendUser(users, lastUserId, row);
      users := users + [row];
      lastUserId := lastUserId + 1;
      LogAudit("create_user", "user:" + Decimal(row.id),
               Message("Created user " + email + " with UUID " + uuid + ", path: /" + secretPath), now, auditOk);
      LookupUnique(users, lastUserId, UuidColumn, |users| - 1);
      r := Ok(row);
    }

    /** `update_user(uuid, **kwargs)`: only email, secret_path, level,
        enabled and notes are written. No such key, or no row with that
        uuid, gives False and changes nothing; a change that would clash
        with another row raises IntegrityError and changes nothing. A
        keyword named like a positional parameter (`self`, `user_uuid`)
        raises TypeError before the body runs. */
    method UpdateUser(uuid: string, kwargs: map<string, Value>, now: int, auditOk: bool)
      returns (r: Result<bool, Exception>)
      requires Valid()
      modifies this
      ensures Valid()
      ensures var updates := Restrict(kwargs);
        var idx := IndexOfUuid(old(users), uuid);
        if "user_uuid" in kwargs || "self" in kwargs then r == Err(TypeError) && users == old(users) && audit == old(audit)
        else if updates == map[] || idx.None? then r == Ok(false) && users == old(users) && audit == old(audit)
        else
          var row := Apply(old(users)[idx.value], updates);
          if exists j :: 0 <= j < |old(users)| && j != idx.value && Clash(row, old(users)[j]) then
            r == Err(IntegrityError) && users == old(users) && audit == old(audit)
          else
            r == Ok(true) && users == old(users)[idx.value := row]
            && audit == old(audit) + (if auditOk then
                 [AuditEntry("update_user", "user:" + uuid, UpdatedFields(updates), now)] else [])
      ensures r == Ok(true) <==> "user_uuid" !in kwargs && "self" !in kwargs && Restrict(kwargs) != map[]
                                 && old(GetUserByUuid(uuid)).Some? && r.Ok?
      ensures lastUserId == old(lastUserId)
      ensures devices == old(devices) && lastDeviceId == old(lastDeviceId) && settings == old(settings)
    {
      if "user_uuid" in kwargs || "self" in kwargs {
        return Err(TypeError);
      }
      var updates := Restrict(kwargs);
      if updates == map[] {
        return Ok(false);
      }
      var idx := IndexOfUuid(users, uuid);
      if idx.None? {
        assert GetUserByUuid(uuid).None?;
        return Ok(false);
      }
      var i := idx.value;
      assert GetUserByUuid(uuid).Some? by { assert ColumnValue(users[i], UuidColumn) == Text(uuid); }
      var row := Apply(users[i], updates);
      if exists j :: 0 <= j < |users| && j != i && Clash(row, users[j]) {
        return Err(IntegrityError);
      }
      ReplacePairwise(users, i, row);
      users := users[i := row];
      LogAudit("update_user", "user:" + uuid, UpdatedFields(updates), now, auditOk);
      r := Ok(true);
    }

    /** `disable_user`: `update_user(uuid, enabled=0)`, which cannot clash. */
    method DisableUser(uuid: string, now: int, auditOk: bool) returns (r: bool)
      requires Valid()
      modifies this
      ensures Valid()
      ensures r <==> exists i :: 0 <= i < |old(users)| && old(users)[i].uuid == uuid
      ensures var idx := IndexOfUuid(old(users), uuid);
        users == if idx.None? then old(users) else old(users)[idx.value := old(users)[idx.value].(enabled := Int(0))]
      ensures forall row :: row in GetAllUsers(true) ==> row.uuid != uuid
      ensures audit == old(audit) + (if r && auditOk then
                [AuditEntry("update_user", "user:" + uuid, UpdatedFields(map["enabled" := Int(0)]), now)] else [])
      ensures devices == old(devices) && settings == old(settings)
      ensures lastUserId == old(lastUserId) && lastDeviceId == old(lastDeviceId)
    {
      r := SetEnabled(uuid, Int(0), now, auditOk);
    }

    /** `enable_user`: `update_user(uuid, enabled=1)`, which cannot clash. */
    method EnableUser(uuid: string, now: int, auditOk: bool) returns (r: bool)
      requires Valid()
      modifies this
      ensures Valid()
      ensures r <==> exists i :: 0 <= i < |old(users)| && old(users)[i].uuid == uuid
      ensures var idx := IndexOfUuid(old(users), uuid);
        users == if idx.None? then old(users) else old(users)[idx.value := old(users)[idx.value].(enabled := Int(1))]
      ensures r ==> exists row :: row in GetAllUsers(true) && row.uuid == uuid
      ensures audit == old(audit) + (if r && auditOk then
                [AuditEntry("update_user", "user:" + uuid, UpdatedFields(map["enabled" := Int(1)]), now)] else [])
      ensures devices == old(devices) && settings == old(settings)
      ensures lastUserId == old(lastUserId) && lastDeviceId == old(lastDeviceId)
    {
      r := SetEnabled(uuid, Int(1), now, auditOk);
      if r {
        var i := IndexOfUuid(old(users), uuid).value;
        assert users[i] in GetAllUsers(true);
      }
    }

    /** `update_user(uuid, enabled=v)`: True exactly when a row with that
        uuid existed, and only then an audit entry. */
    method SetEnabled(uuid: string, v: Value, now: int, auditOk: bool) returns (r: bool)
      requires Valid()
      modifies this
      ensures Valid()
      ensures r <==> exists i :: 0 <= i < |old(users)| && old(users)[i].uuid == uuid
      ensures var idx := IndexOfUuid(old(users), uuid);
        users == if idx.None? then old(users) else old(users)[idx.value := old(users)[idx.value].(enabled := v)]
      ensures audit == old(audit) + (if r && auditOk then
                [AuditEntry("update_user", "user:" + uuid, UpdatedFields(map["enabled" := v]), now)] else [])
      ensures devices == old(devices) && settings == old(settings)
      ensures lastUserId == old(lastUserId) && lastDeviceId == old(lastDeviceId)
    {
      var updates := map["enabled" := v];
      assert Restrict(updates) == updates;
      var idx := IndexOfUuid(users, uuid);
      if idx.Some? {
        EnabledNeverClashes(users, idx.value, v);
      }
      var res := UpdateUser(uuid, updates, now, auditOk);
      r := res == Ok(true);
    }

    /** `delete_user`: removes the row with that uuid; True exactly when
        there was one, and only then an audit entry. */
    method DeleteUser(uuid: string, now: int, auditOk: bool) returns (r: bool)
      requires Valid()
      modifies this
      ensures Valid()
      ensures r <==> exists i :: 0 <= i < |old(users)| && old(users)[i].uuid == uuid
      ensures users == WithoutUuid(old(users), uuid)
      ensures GetUserByUuid(uuid) == None
      ensures audit == old(audit) + (if r && auditOk then
                [AuditEntry("delete_user", "user:" + uuid, Message("Deleted user " + uuid), now)] else [])
      ensures lastUserId == old(lastUserId)
      ensures devices == old(devices) && lastDeviceId == old(lastDeviceId) && settings == old(settings)
    {
      var before := users;
      WithoutUuidValid(users, lastUserId, uuid);
      users := WithoutUuid(users, uuid);
      r := IndexOfUuid(before, uuid).Some?;
      if r {
        LogAudit("delete_user", "user:" + uuid, Message("Deleted user " + uuid), now, auditOk);
      }
    }

    // ---------------------------------------------------------- devices

    /** `record_device_access`: an upsert on (user, agent, address). A new
        device gets a row seen now with the schema's initial count; a known
        one has its count raised by one, its path overwritten and its last
        sighting moved to now, its first sighting kept. A storage failure
        gives False and changes nothing. */
    method RecordDeviceAccess(userId: int, userAgent: string, sourceIp: string, accessedPath: string,
                              now: int, storageOk: bool) returns (r: bool)
      requires Valid()
      modifies this
      ensures Valid()
      ensures r == storageOk
      ensures var idx := DeviceIndex(old(devices), userId, userAgent, sourceIp);
        if !storageOk then devices == old(devices) && lastDeviceId == old(lastDeviceId)
        else if idx.None? then
          devices == old(devices) + [DeviceRow(old(lastDeviceId) + 1, userId, userAgent, sourceIp,
                                               accessedPath, now, now, defaults.accessCount)]
          && lastDeviceId == old(lastDeviceId) + 1
        else
          var d := old(devices)[idx.value];
          devices == old(devices)[idx.value := d.(accessedPath := accessedPath, lastSeenAt := now,
                                                  accessCount := d.accessCount + 1)]
          && lastDeviceId == old(lastDeviceId)
      ensures users == old(users) && lastUserId == old(lastUserId) && settings == old(settings)
      ensures audit == old(audit)
    {
      if !storageOk {
        return false;
      }
      var idx := DeviceIndex(devices, userId, userAgent, sourceIp);
      if idx.None? {
        devices := devices + [DeviceRow(lastDeviceId + 1, userId, userAgent, sourceIp,
                                        accessedPath, now, now, defaults.accessCount)];
        lastDeviceId := lastDeviceId + 1;
      } else {
        var d := devices[idx.value];
        devices := devices[idx.value := d.(accessedPath := accessedPath, lastSeenAt := now,
                                           accessCount := d.accessCount + 1)];
      }
      r := true;
    }

    // --------------------------------------------------------- settings

    /** `get_setting(key)`. */
    function GetSetting(key: string): (r: Option<string>)
      reads this
      ensures r.Some? <==> key in settings
      ensures r.Some? ==> r.value == settings[key].value
    {
      if key in settings then Some(settings[key].value) else None
    }

    /** `set_setting`: an upsert on the key that replaces the value and
        keeps the description the row was created with. */
    method SetSetting(key: string, value: string, description: string, now: int, auditOk: bool)
      requires Valid()
      modifies this
      ensures Valid()
      ensures settings == old(settings)[key := SettingRow(value,
                if key in old(settings) then old(settings)[key].description else description, now)]
      ensures GetSetting(key) == Some(value)
      ensures audit == old(audit) + (if auditOk then
                [AuditEntry("update_setting", "setting:" + key, Message("Set " + key + " = " + value), now)]
              else [])
      ensures users == old(users) && lastUserId == old(lastUserId)
      ensures devices == old(devices) && lastDeviceId == old(lastDeviceId)
    {
      var desc := if key in settings then settings[key].description else description;
      settings := settings[key := SettingRow(value, desc, now)];
      LogAudit("update_setting", "setting:" + key, Message("Set " + key + " = " + value), now, auditOk);
    }

    /** `is_initialized`: the setting `initialized` is present, non-empty
        and equal to "1". */
    function IsInitialized(): (r: bool)
      reads this
      ensures r <==> GetSetting("initialized") == Some("1")
    {
      match GetSetting("initialized")
      case None => false
      case Some(s) => if s != "" then s == "1" else false
    }

    /** `mark_as_initialized`: `set_setting("initialized", "1")` with the
        default empty description. */
    method MarkAsInitialized(now: int, auditOk: bool)
      requires Valid()
      modifies this
      ensures Valid()
      ensures IsInitialized()
      ensures settings == old(settings)["initialized" := SettingRow("1",
                if "initialized" in old(settings) then old(settings)["initialized"].description else "", now)]
      ensures forall k :: k in settings && k != "initialized" ==> k in old(settings) && settings[k] == old(settings)[k]
      ensures audit == old(audit) + (if auditOk then
                [AuditEntry("update_setting", "setting:initialized", Message("Set initialized = 1"), now)] else [])
      ensures users == old(users) && lastUserId == old(lastUserId)
      ensures devices == old(devices) && lastDeviceId == old(lastDeviceId)
    {
      SetSetting("initialized", "1", "", now, auditOk);
      assert "setting:" + "initialized" == "setting:initialized";
      assert "Set " + "initialized" + " = " + "1" == "Set initialized = 1";
    }
  }
}
