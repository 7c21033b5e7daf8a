/** The record, task and visit mutation rules of the Flask backend, as operations on
    an in-memory store that return the new store with the HTTP status. The caller's
    identity is the id carried by the JWT; the clock is a parameter. */
module Backend {
  import opened Wrappers
  import opened Text

  /** A row of `users`. Roles are free text: 'admin', 'caller' or a custom role. */
  datatype User = User(name: string, role: string)

  /** A row of `records`. `visit` is one of 'visited', 'confirmed', 'declined', 'pending'. */
  datatype Record = Record(
    callerId: Option<nat>, phone: string, name: Option<string>, response: Option<string>,
    notes: Option<string>, visit: string, visitBy: Option<nat>, updatedAt: int)

  /** A row of `tasks`. */
  datatype Task = Task(
    title: string, description: Option<string>, assignedTo: nat, assignedBy: nat,
    deadline: Option<int>, status: string, progress: int, updatedAt: int)

  /** A row of `certified_office_assistant`. */
  datatype CertifiedRow = CertifiedRow(
    recordId: nat, phone: string, name: string, callerName: string, response: string, processedBy: nat)

  /** A row of `admissions`. */
  datatype Admission = Admission(recordId: nat, admissionType: string, processedBy: nat)

  /** The tables the rules read and write, keyed by primary key; appended rows are
      kept in insertion order. */
  datatype Db = Db(
    users: map<nat, User>, records: map<nat, Record>, tasks: map<nat, Task>,
    certified: seq<CertifiedRow>, admissions: seq<Admission>)

  /** An HTTP status with the store after the request. */
  datatype Reply = Reply(status: nat, db: Db)

  // ---------------------------------------------------------------------------
  // PATCH /api/records/<id>
  // ---------------------------------------------------------------------------

  /** The JSON body of a record update. `visit` and `callerId` stand for keys a client
      may send that the endpoint does not read. */
  datatype RecordPatch = RecordPatch(
    name: Field<Option<string>>, response: Field<Option<string>>, notes: Field<Option<string>>,
    visit: Field<string>, callerId: Field<Option<nat>>)

  /** A caller may touch only the records assigned to them; every other role may
      touch any record. */
  predicate MayEditRecord(user: User, userId: nat, rec: Record) {
    !(user.role == "caller" && rec.callerId != Some(userId))
  }

  /** `update_record`: 404 for an unknown record (looked up first), 500 when the
      token's user is gone (`user.role` raises), 403 for a caller editing someone
      else's record; otherwise name, response and notes are written when present and
      the time stamp is set. */
  function UpdateRecord(db: Db, userId: nat, recordId: nat, patch: RecordPatch, now: int): (r: Reply)
    ensures r.status == 200 || r.db == db
    ensures recordId !in db.records ==> r.status == 404
    ensures r.status == 500 <==> recordId in db.records && userId !in db.users
    ensures r.status == 403 <==>
      userId in db.users && recordId in db.records && !MayEditRecord(db.users[userId], userId, db.records[recordId])
    ensures r.status == 200 <==>
      userId in db.users && recordId in db.records && MayEditRecord(db.users[userId], userId, db.records[recordId])
    ensures r.status == 200 ==>
      recordId in db.records && recordId in r.db.records &&
      var before := db.records[recordId];
      var upd := r.db.records[recordId];
      && r.db == db.(records := r.db.records)
      && r.db.records == db.records[recordId := upd]
      && upd.name == patch.name.Or(before.name)
      && upd.response == patch.response.Or(before.response)
      && upd.notes == patch.notes.Or(before.notes)
      && upd.updatedAt == now
      && upd.(name := before.name, response := before.response, notes := before.notes, updatedAt := before.updatedAt) == before
  {
    if recordId !in db.records then Reply(404, db)
    else if userId !in db.users then Reply(500, db)
    else
      var rec := db.records[recordId];
      if !MayEditRecord(db.users[userId], userId, rec) then Reply(403, db)
      else
        var upd := rec.(name := patch.name.Or(rec.name), response := patch.response.Or(rec.response),
                        notes := patch.notes.Or(rec.notes), updatedAt := now);
        Reply(200, db.(records := db.records[recordId := upd]))
  }

  /** Sending the same record update twice leaves the store as sending it once. */
  lemma UpdateRecordIdempotent(db: Db, userId: nat, recordId: nat, patch: RecordPatch, now: int)
    ensures var once := UpdateRecord(db, userId, recordId, patch, now);
      UpdateRecord(once.db, userId, recordId, patch, now).db == once.db
  {
  }

  /** Visit status, visit author, phone and assigned caller never change through a
      record update, even when the body carries `visit` or `caller_id`. */
  lemma UpdateRecordKeepsVisitAndOwner(db: Db, userId: nat, recordId: nat, patch: RecordPatch, now: int)
    requires recordId in db.records
    ensures var r := UpdateRecord(db, userId, recordId, patch, now);
      && recordId in r.db.records
      && r.db.records[recordId].visit == db.records[recordId].visit
      && r.db.records[recordId].visitBy == db.records[recordId].visitBy
      && r.db.records[recordId].callerId == db.records[recordId].callerId
      && r.db.records[recordId].phone == db.records[recordId].phone
  {
  }

  /** A user whose role is neither 'caller' nor 'admin' passes the ownership check on
      every record. */
  lemma CustomRoleMayEditAnyRecord(db: Db, userId: nat, recordId: nat, patch: RecordPatch, now: int)
    requires userId in db.users && recordId in db.records
    requires db.users[userId].role != "caller"
    ensures UpdateRecord(db, userId, recordId, patch, now).status == 200
  {
  }

  // ---------------------------------------------------------------------------
  // PATCH /api/tasks/<id>
  // ---------------------------------------------------------------------------

  /** The JSON body of a task update. A deadline of `null` or '' is `Present(None)`. */
  datatype TaskPatch = TaskPatch(
    status: Field<string>, progress: Field<int>, title: Field<string>,
    description: Field<Option<string>>, assignedTo: Field<nat>, deadline: Field<Option<int>>)

  /** `update_task`: 404 for an unknown task (looked up first), 500 for a vanished
      user, 403 for a non-admin who is not the assignee; status and progress are
      written for everybody else, and title, description, assignee and deadline only
      for an admin. */
  function UpdateTask(db: Db, userId: nat, taskId: nat, patch: TaskPatch, now: int): (r: Reply)
    ensures r.status == 200 || r.db == db
    ensures taskId !in db.tasks ==> r.status == 404
    ensures r.status == 500 <==> taskId in db.tasks && userId !in db.users
    ensures r.status == 403 <==>
      userId in db.users && taskId in db.tasks
      && db.users[userId].role != "admin" && db.tasks[taskId].assignedTo != userId
    ensures r.status == 200 ==>
      userId in db.users && taskId in db.tasks && taskId in r.db.tasks &&
      var before := db.tasks[taskId];
      var upd := r.db.tasks[taskId];
      var admin := db.users[userId].role == "admin";
      && r.db == db.(tasks := db.tasks[taskId := upd])
      && upd.status == patch.status.Or(before.status)
      && upd.progress == patch.progress.Or(before.progress)
      && upd.title == (if admin then patch.title.Or(before.title) else before.title)
      && upd.description == (if admin then patch.description.Or(before.description) else before.description)
      && upd.assignedTo == (if admin then patch.assignedTo.Or(before.assignedTo) else before.assignedTo)
      && upd.deadline == (if admin then patch.deadline.Or(before.deadline) else before.deadline)
      && upd.assignedBy == before.assignedBy
      && upd.updatedAt == now
  {
    if taskId !in db.tasks then Reply(404, db)
    else if userId !in db.users then Reply(500, db)
    else
      var user := db.users[userId];
      var task := db.tasks[taskId];
      if user.role != "admin" && task.assignedTo != userId then Reply(403, db)
      else
        var t1 := task.(status := patch.status.Or(task.status), progress := patch.progress.Or(task.progress));
        var t2 :=
          if user.role == "admin" then
            t1.(title := patch.title.Or(t1.title), description := patch.description.Or(t1.description),
                assignedTo := patch.assignedTo.Or(t1.assignedTo), deadline := patch.deadline.Or(t1.deadline))
          else t1;
        Reply(200, db.(tasks := db.tasks[taskId := t2.(updatedAt := now)]))
  }

  /** A non-admin assignee can move only status and progress: whatever else the body
      carries, the other fields of the task stay as they were. */
  lemma NonAdminChangesOnlyStatusAndProgress(db: Db, userId: nat, taskId: nat, patch: TaskPatch, now: int)
    requires userId in db.users && db.users[userId].role != "admin"
    requires taskId in db.tasks
    ensures var r := UpdateTask(db, userId, taskId, patch, now);
      taskId in r.db.tasks &&
      r.db.tasks[taskId].(status := db.tasks[taskId].status, progress := db.tasks[taskId].progress,
                          updatedAt := db.tasks[taskId].updatedAt) == db.tasks[taskId]
  {
  }

  /** A task update never touches another task, a record or the admission tables. */
  lemma UpdateTaskIsLocal(db: Db, userId: nat, taskId: nat, patch: TaskPatch, now: int, other: nat)
    requires other in db.tasks && other != taskId
    ensures var r := UpdateTask(db, userId, taskId, patch, now);
      other in r.db.tasks && r.db.tasks[other] == db.tasks[other]
      && r.db.records == db.records && r.db.admissions == db.admissions
  {
  }

  // ---------------------------------------------------------------------------
  // PATCH /api/visit/<id>
  // ---------------------------------------------------------------------------

  /** The caller name copied into a certified row: `caller.name` when the record has a
      (truthy) caller id that resolves to a user, else 'Unknown'. */
  function CallerNameOf(db: Db, rec: Record): string {
    match rec.callerId
    case Some(cid) => if cid != 0 && cid in db.users then db.users[cid].name else "Unknown"
    case None => "Unknown"
  }

  /** `mark_visit`: only an admin may mark; when the body carries `visit`, the status
      and its author are written, and a 'confirmed' status appends one certified row
      and one 'confirmed' admission. Without `visit` nothing changes. */
  function MarkVisit(db: Db, userId: nat, recordId: nat, visit: Field<string>, now: int): (r: Reply)
    ensures r.status == 200 || r.db == db
    ensures r.status == 500 <==> userId !in db.users
    ensures r.status == 403 <==> userId in db.users && db.users[userId].role != "admin"
    ensures r.status == 404 <==> userId in db.users && db.users[userId].role == "admin" && recordId !in db.records
    ensures r.status == 200 <==> userId in db.users && db.users[userId].role == "admin" && recordId in db.records
    ensures r.status == 200 && visit.Absent? ==> r.db == db
    ensures r.status == 200 && visit.Present? ==>
      && recordId in r.db.records
      && r.db.records == db.records[recordId := r.db.records[recordId]]
      && r.db.records[recordId].visit == visit.value
      && r.db.records[recordId].visitBy == Some(userId)
      && r.db.records[recordId].updatedAt == now
      && r.db.records[recordId].(visit := db.records[recordId].visit, visitBy := db.records[recordId].visitBy,
                                 updatedAt := db.records[recordId].updatedAt) == db.records[recordId]
      && r.db.users == db.users && r.db.tasks == db.tasks
    ensures r.status == 200 && visit == Present("confirmed") ==>
      var rec := db.records[recordId];
      && r.db.admissions == db.admissions + [Admission(recordId, "confirmed", userId)]
      && |r.db.certified| == |db.certified| + 1
      && r.db.certified[..|db.certified|] == db.certified
      && r.db.certified[|db.certified|] ==
           CertifiedRow(recordId, rec.phone, OrEmpty(rec.name), CallerNameOf(db, rec), OrEmpty(rec.response), userId)
    ensures visit != Present("confirmed") ==> r.db.admissions == db.admissions && r.db.certified == db.certified
  {
    if userId !in db.users then Reply(500, db)
    else if db.users[userId].role != "admin" then Reply(403, db)
    else if recordId !in db.records then Reply(404, db)
    else if visit.Absent? then Reply(200, db)
    else
      var rec := db.records[recordId];
      var marked := rec.(visit := visit.value, visitBy := Some(userId), updatedAt := now);
      var db1 := db.(records := db.records[recordId := marked]);
      if visit.value == "confirmed" then
        var cert := CertifiedRow(recordId, rec.phone, OrEmpty(rec.name), CallerNameOf(db, rec),
                                 OrEmpty(rec.response), userId);
        Reply(200, db1.(certified := db.certified + [cert],
                        admissions := db.admissions + [Admission(recordId, "confirmed", userId)]))
      else Reply(200, db1)
  }

  /** Confirming a record that is already confirmed appends a second pair of rows:
      admissions count confirmations, not confirmed records. */
  lemma ConfirmTwiceAddsTwoAdmissions(db: Db, userId: nat, recordId: nat, now: int, later: int)
    requires userId in db.users && db.users[userId].role == "admin" && recordId in db.records
    ensures var once := MarkVisit(db, userId, recordId, Present("confirmed"), now).db;
      var twice := MarkVisit(once, userId, recordId, Present("confirmed"), later).db;
      |twice.admissions| == |db.admissions| + 2 && |twice.certified| == |db.certified| + 2
  {
    var once := MarkVisit(db, userId, recordId, Present("confirmed"), now);
    assert once.status == 200;
    assert userId in once.db.users && once.db.users[userId].role == "admin" && recordId in once.db.records;
  }

  // ---------------------------------------------------------------------------
  // Visit statistics, roles, configuration, static files
  // ---------------------------------------------------------------------------

  /** Number of records with the given visit status. */
  function CountVisit(records: seq<Record>, status: string): nat {
    if |records| == 0 then 0
    else CountVisit(records[..|records| - 1], status) + (if records[|records| - 1].visit == status then 1 else 0)
  }

  /** Number of records whose visit took place: 'visited' or 'confirmed'. */
  function CountVisitedOrConfirmed(records: seq<Record>): nat {
    if |records| == 0 then 0
    else
      var v := records[|records| - 1].visit;
      CountVisitedOrConfirmed(records[..|records| - 1]) + (if v == "visited" || v == "confirmed" then 1 else 0)
  }

  /** `visits_done = visits_only + visits_confirmed` counts each record whose visit
      took place exactly once, since the two statuses are distinct. */
  lemma {:induction false} VisitsDoneCountsVisitedRecords(records: seq<Record>)
    ensures CountVisit(records, "visited") + CountVisit(records, "confirmed") == CountVisitedOrConfirmed(records)
  {
    if |records| > 0 {
      VisitsDoneCountsVisitedRecords(records[..|records| - 1]);
    }
  }

  /** `role_name.strip().lower()`. */
  function NormalizeRole(input: string): string {
    Lower(PyStrip(input))
  }

  lemma LowerKeepsWhitespace(c: char)
    ensures IsPyWhitespace(LowerChar(c)) <==> IsPyWhitespace(c)
  {
  }

  /** Normalising a role name twice changes nothing more. */
  lemma NormalizeRoleIdempotent(input: string)
    ensures NormalizeRole(NormalizeRole(input)) == NormalizeRole(input)
  {
    var n := NormalizeRole(input);
    var s := PyStrip(input);
    if |n| > 0 {
      LowerKeepsWhitespace(s[0]);
      LowerKeepsWhitespace(s[|s| - 1]);
    }
    TrimOfTrimmed(n, IsPyWhitespace);
    assert Lower(n) == n;
  }

  /** The answer of `create_role`. */
  datatype RoleReply = RoleReply(status: nat, role: Option<string>)

  /** `create_role`: admin only; the name (missing key read as '') is stripped and
      lower-cased, refused when empty or already held by some user, and otherwise
      echoed back. Nothing is stored: a role exists once a user holds it. */
  function CreateRole(db: Db, userId: nat, roleName: string): (r: RoleReply)
    ensures r.status == 200 <==>
      && userId in db.users && db.users[userId].role == "admin"
      && NormalizeRole(roleName) != ""
      && forall u :: u in db.users ==> db.users[u].role != NormalizeRole(roleName)
    ensures r.status == 200 ==> r.role == Some(NormalizeRole(roleName))
    ensures r.status != 200 ==> r.role.None?
    ensures r.status in {200, 400, 403, 500}
  {
    if userId !in db.users then RoleReply(500, None)
    else if db.users[userId].role != "admin" then RoleReply(403, None)
    else
      var name := NormalizeRole(roleName);
      if name == "" then RoleReply(400, None)
      else if exists u :: u in db.users && db.users[u].role == name then RoleReply(400, None)
      else RoleReply(200, Some(name))
  }

  /** Once some user holds a role, a request for that role is refused, whatever
      spacing or capitals it uses: only its normalised form is compared. */
  lemma CreatedRoleIsTakenOnceUsed(db: Db, adminId: nat, again: string, newId: nat, u: User)
    requires adminId in db.users && db.users[adminId].role == "admin"
    requires newId !in db.users && u.role == NormalizeRole(again)
    ensures CreateRole(db.(users := db.users[newId := u]), adminId, again) == RoleReply(400, None)
  {
    var db' := db.(users := db.users[newId := u]);
    assert db'.users[newId].role == NormalizeRole(again);
  }

  /** Why the server cannot start. */
  datatype ConfigError = DatabaseUrlMissing

  /** The URL scheme SQLAlchemy no longer accepts, and its replacement. */
  const LegacyScheme: string := "postgres://"
  const Scheme: string := "postgresql://"

  /** `url.replace('postgres://', 'postgresql://', 1)` under the `startswith` test:
      the first occurrence is the prefix. */
  function RewriteScheme(url: string): (r: string)
    ensures StartsWith(url, LegacyScheme) ==> r == Scheme + url[|LegacyScheme|..]
    ensures !StartsWith(url, LegacyScheme) ==> r == url
  {
    if StartsWith(url, LegacyScheme) then Scheme + url[|LegacyScheme|..] else url
  }

  /** The rewritten URL never carries the legacy scheme, so the rewrite is idempotent. */
  lemma RewriteSchemeIdempotent(url: string)
    ensures !StartsWith(RewriteScheme(url), LegacyScheme)
    ensures RewriteScheme(RewriteScheme(url)) == RewriteScheme(url)
  {
    var r := RewriteScheme(url);
    if StartsWith(url, LegacyScheme) {
      assert r[8] == 'q';
    }
  }

  /** `DATABASE_URL or SQLALCHEMY_DATABASE_URI` (an unset or empty variable falls
      through), refused when both are unset or empty, then scheme-rewritten. */
  function DatabaseUrl(databaseUrl: Option<string>, sqlalchemyUri: Option<string>): (r: Result<string, ConfigError>)
    ensures r.Failure? <==> OrEmpty(databaseUrl) == "" && OrEmpty(sqlalchemyUri) == ""
    ensures r.Success? ==> !StartsWith(r.value, LegacyScheme)
    ensures r.Success? && OrEmpty(databaseUrl) != "" ==> r.value == RewriteScheme(databaseUrl.value)
    ensures r.Success? && OrEmpty(databaseUrl) == "" ==> r.value == RewriteScheme(sqlalchemyUri.value)
  {
    var url := if OrEmpty(databaseUrl) != "" then databaseUrl.value else OrEmpty(sqlalchemyUri);
    if url == "" then Failure(DatabaseUrlMissing)
    else
      RewriteSchemeIdempotent(url);
      Success(RewriteScheme(url))
  }

  /** What the `/<path:path>` catch-all answers. */
  datatype StaticReply = ApiNotFound | FileServed(path: string) | FileNotFound | RouteNotFound

  function StaticStatus(r: StaticReply): nat {
    if r.FileServed? then 200 else 404
  }

  /** `serve_static_files`: an 'api/' path is an unknown endpoint; a path with a '.'
      is a static file, served when the build folder has it; anything else is an
      unknown route. */
  function ServeStatic(path: string, buildFiles: set<string>): (r: StaticReply)
    ensures r.ApiNotFound? <==> StartsWith(path, "api/")
    ensures r.FileServed? <==> !StartsWith(path, "api/") && '.' in path && path in buildFiles
    ensures r.FileNotFound? <==> !StartsWith(path, "api/") && '.' in path && path !in buildFiles
    ensures r.RouteNotFound? <==> !StartsWith(path, "api/") && '.' !in path
    ensures r.FileServed? ==> r.path == path
  {
    if StartsWith(path, "api/") then ApiNotFound
    else if '.' in path then (if path in buildFiles then FileServed(path) else FileNotFound)
    else RouteNotFound
  }

  /** An API path is never answered with a file, whatever the build folder holds. */
  lemma ApiPathsNeverServeFiles(path: string, buildFiles: set<string>)
    requires StartsWith(path, "api/")
    ensures StaticStatus(ServeStatic(path, buildFiles)) == 404
  {
  }
}
