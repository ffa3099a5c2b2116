/** The sync engine as it runs: a service whose methods change the tables, the change
    log and the ledger statement by statement, inside one transaction a push. */
module SyncEngine {
  import opened Options
  import opened SyncTypes
  import opened SyncMerge
  import opened SyncState
  import opened SyncDecide
  import opened SyncCascade
  import opened SyncRuns
  import opened SyncStatements
  import opened SyncFiles
  import SyncPull

  // A row that an UPDATE returned: its id and its new version.
  datatype Bumped = Bumped(id: Id, version: nat)

  // An UPDATE of the matching rows with one log entry each is the statement's writes.
  lemma StatementWrote(st: State, st': State, u: User, kind: Kind, col: Column, parent: Id, gone: bool, env: Env)
    requires st'.rows.Keys == st.rows.Keys && st'.ledger == st.ledger
    requires forall k :: k in st.rows && k !in MatchingKeys(st.rows, u, kind, col, parent) ==> st'.rows[k] == st.rows[k]
    requires var ws := Statement(st.rows, u, kind, col, parent, gone, env.scan);
      && (forall i :: 0 <= i < |ws| ==> ws[i].key in st'.rows && st'.rows[ws[i].key] == RowAfter(st.rows, u, ws[i], env.now))
      && st'.log == st.log + EntriesOf(st, u, ws, env.now) && st'.lastSeq == st.lastSeq + |ws|
      && st'.clock == if ws == [] then st.clock else env.now
    ensures st' == WriteAll(st, u, Statement(st.rows, u, kind, col, parent, gone, env.scan), env.now)
  {
    var ws := Statement(st.rows, u, kind, col, parent, gone, env.scan);
    StatementKeys(st.rows, u, kind, col, parent, gone, env.scan);
    var ids := env.scan(Matching(st.rows, u, kind, col, parent));
    ListedKeys(st.rows, u, kind, col, parent, ids);
    forall k | k in MatchingKeys(st.rows, u, kind, col, parent)
      ensures k in KeysOf(ws)
    {
      assert k == Key(kind, k.id) && k.id in ids;
      var i :| 0 <= i < |ids| && ids[i] == k.id;
      assert ws[i].key == k;
    }
    assert st'.rows.Keys == st.rows.Keys + KeysOf(ws);
    WroteIsWriteAll(st, st', u, ws, env.now);
  }

  lemma BumpedSchedules(rows: Rows, u: User, course: Id, bumped: seq<Bumped>, scan: Scan)
    requires var ws := Statement(rows, u, CourseSchedule, CourseCol, course, true, scan);
      && |bumped| == |ws|
      && forall i :: 0 <= i < |ws| ==>
           ws[i].key == Key(CourseSchedule, bumped[i].id) && bumped[i].version == NextVersion(rows, ws[i].key)
    ensures var ids := scan(Matching(rows, u, CourseSchedule, CourseCol, course));
      && Distinct(ids) && |ids| == |bumped|
      && forall i :: 0 <= i < |ids| ==> bumped[i] == Bumped(ids[i], NextVersion(rows, Key(CourseSchedule, ids[i])))
  {
    var ids := scan(Matching(rows, u, CourseSchedule, CourseCol, course));
    var ws := Statement(rows, u, CourseSchedule, CourseCol, course, true, scan);
    ListedKeys(rows, u, CourseSchedule, CourseCol, course, ids);
    forall i | 0 <= i < |ids|
      ensures bumped[i] == Bumped(ids[i], NextVersion(rows, Key(CourseSchedule, ids[i])))
    {
      assert ws[i] == ChildPut(rows, Key(CourseSchedule, ids[i]), CourseCol, true);
    }
  }

  function BumpedList(rows: Rows, kind: Kind, ids: seq<Id>): seq<Bumped>
    requires forall id :: id in ids ==> Key(kind, id) in rows
  {
    seq(|ids|, i requires 0 <= i < |ids| => Bumped(ids[i], rows[Key(kind, ids[i])].version + 1))
  }

  function BumpedRows(rows: Rows, u: User, touched: set<Key>, col: Column, gone: bool, now: Time): Rows {
    map k | k in rows :: if k in touched then RowAfter(rows, u, ChildPut(rows, k, col, gone), now) else rows[k]
  }

  // The UPDATE gives each listed row what the decided write gives it, and its version.
  lemma BumpedAt(rows: Rows, u: User, kind: Kind, col: Column, parent: Id, gone: bool, env: Env, ids: seq<Id>, i: nat)
    requires ids == env.scan(Matching(rows, u, kind, col, parent)) && i < |ids|
    ensures Key(kind, ids[i]) in MatchingKeys(rows, u, kind, col, parent) && Key(kind, ids[i]) in rows
    ensures var w := ChildPut(rows, Key(kind, ids[i]), col, gone);
      var rows' := BumpedRows(rows, u, MatchingKeys(rows, u, kind, col, parent), col, gone, env.now);
      && w.key == Key(kind, ids[i]) && rows[w.key].version + 1 == NextVersion(rows, w.key)
      && w.key in rows' && rows'[w.key] == RowAfter(rows, u, w, env.now)
  {
    ListedKeys(rows, u, kind, col, parent, ids);
    assert ids[i] in ids;
  }

  lemma BumpMeets(rows: Rows, u: User, kind: Kind, col: Column, parent: Id, gone: bool, env: Env)
    ensures var ids := env.scan(Matching(rows, u, kind, col, parent));
      var ws := Statement(rows, u, kind, col, parent, gone, env.scan);
      var rows' := BumpedRows(rows, u, MatchingKeys(rows, u, kind, col, parent), col, gone, env.now);
      && (forall id :: id in ids ==> Key(kind, id) in rows)
      && |BumpedList(rows, kind, ids)| == |ws|
      && forall i :: 0 <= i < |ws| ==>
           && ws[i].key == Key(kind, BumpedList(rows, kind, ids)[i].id)
           && BumpedList(rows, kind, ids)[i].version == NextVersion(rows, ws[i].key)
           && ws[i].key in rows' && rows'[ws[i].key] == RowAfter(rows, u, ws[i], env.now)
  {
    var ids := env.scan(Matching(rows, u, kind, col, parent));
    forall i | 0 <= i < |ids|
      ensures Key(kind, ids[i]) in rows
    {
      BumpedAt(rows, u, kind, col, parent, gone, env, ids, i);
    }
    StatementPuts(rows, u, kind, col, parent, gone, env.scan);
    var ws, bumped := Statement(rows, u, kind, col, parent, gone, env.scan), BumpedList(rows, kind, ids);
    var rows' := BumpedRows(rows, u, MatchingKeys(rows, u, kind, col, parent), col, gone, env.now);
    forall i | 0 <= i < |ws|
      ensures ws[i].key == Key(kind, bumped[i].id) && bumped[i].version == NextVersion(rows, ws[i].key)
      ensures ws[i].key in rows' && rows'[ws[i].key] == RowAfter(rows, u, ws[i], env.now)
    {
      BumpedAt(rows, u, kind, col, parent, gone, env, ids, i);
    }
  }

  class Service {
    var rows: Rows
    var log: seq<LogEntry>
    var lastSeq: nat
    var ledger: map<(User, OpId), Receipt>
    var files: Files
    var hooks: seq<Id>
    // The time of the last transaction that wrote something; nothing reads it.
    ghost var clock: Time

    ghost function St(): State
      reads this
    {
      State(rows, log, lastSeq, ledger, clock)
    }

    constructor ()
      ensures St() == EMPTY_STATE && Inv(St()) && files == {} && hooks == []
    {
      rows, log, lastSeq, ledger, files, hooks := map[], [], 0, map[], {}, [];
      clock := 0;
      new;
      EmptyStateInv();
    }

    // ----- change log and ledger -----

    method LogChange(u: User, key: Key, op: ChangeOp, version: nat, now: Time)
      modifies `log, `lastSeq, `clock
      ensures lastSeq == old(lastSeq) + 1 && clock == now
      ensures log == old(log) + [LogEntry(lastSeq, u, key, op, version, now)]
    {
      lastSeq := lastSeq + 1;
      log := log + [LogEntry(lastSeq, u, key, op, version, now)];
      clock := now;
    }

    method StoreLedger(u: User, result: OpResult, opId: OpId, now: Time)
      modifies `ledger, `clock
      ensures St() == Recorded(old(St()), u, result, opId, now)
    {
      ledger := ledger[(u, opId) := Receipt(result, now)];
      clock := now;
    }

    // ----- one row -----

    // UPDATE of the user's live row, then its change-log entry.
    method WriteRow(u: User, w: Write, now: Time) returns (version: nat)
      modifies `rows, `log, `lastSeq, `clock
      ensures version == NextVersion(old(rows), w.key)
      ensures St() == ApplyWrite(old(St()), u, w, now)
    {
      version := if w.key in rows then rows[w.key].version + 1 else 1;
      rows := rows[w.key := Row(u, version, if w.gone then Some(now) else None, now, w.content)];
      LogChange(u, w.key, if w.gone then Delete else Upsert, version, now);
    }

    // INSERT at version 1, then its change-log entry; false when a key constraint refuses.
    method InsertRow(u: User, key: Key, content: Content, gone: bool, now: Time) returns (ok: bool)
      modifies `rows, `log, `lastSeq, `clock
      ensures ok <==> !InsertFails(old(rows), u, key, content)
      ensures St() == if ok then ApplyWrite(old(St()), u, Put(key, content, gone), now) else old(St())
    {
      ok := !InsertFails(rows, u, key, content);
      if ok {
        var _ := WriteRow(u, Put(key, content, gone), now);
      }
    }

    // ----- cascades and detaches -----

    // One UPDATE over a table's matching live rows; it returns them in the order the
    // database delivers them.
    method BumpChildren(u: User, kind: Kind, col: Column, parent: Id, gone: bool,
                        env: Env) returns (bumped: seq<Bumped>)
      modifies `rows
      ensures rows.Keys == old(rows).Keys
      ensures forall k :: k in old(rows) && k !in MatchingKeys(old(rows), u, kind, col, parent) ==> rows[k] == old(rows)[k]
      ensures var ws := Statement(old(rows), u, kind, col, parent, gone, env.scan);
        && |bumped| == |ws|
        && forall i :: 0 <= i < |ws| ==>
             && ws[i].key == Key(kind, bumped[i].id) && bumped[i].version == NextVersion(old(rows), ws[i].key)
             && ws[i].key in rows && rows[ws[i].key] == RowAfter(old(rows), u, ws[i], env.now)
    {
      BumpMeets(rows, u, kind, col, parent, gone, env);
      bumped := BumpedList(rows, kind, env.scan(Matching(rows, u, kind, col, parent)));
      rows := BumpedRows(rows, u, MatchingKeys(rows, u, kind, col, parent), col, gone, env.now);
    }

    // Tombstones every live child row and logs each.
    method TombstoneChildren(u: User, kind: Kind, col: Column, parent: Id, env: Env)
      modifies `rows, `log, `lastSeq, `clock
      ensures St() == WriteAll(old(St()), u, Statement(old(rows), u, kind, col, parent, true, env.scan), env.now)
    {
      ghost var st, ws := St(), Statement(rows, u, kind, col, parent, true, env.scan);
      var kids := BumpChildren(u, kind, col, parent, true, env);
      StatementKeys(st.rows, u, kind, col, parent, true, env.scan);
      for i := 0 to |kids|
        modifies `log, `lastSeq, `clock
        invariant log == st.log + EntriesOf(st, u, ws, env.now)[..i] && lastSeq == st.lastSeq + i
        invariant clock == if i == 0 then st.clock else env.now
      {
        LogChange(u, Key(kind, kids[i].id), Delete, kids[i].version, env.now);
      }
      assert EntriesOf(st, u, ws, env.now)[..|kids|] == EntriesOf(st, u, ws, env.now);
      StatementWrote(st, St(), u, kind, col, parent, true, env);
    }

    // Clears the reference on every live child row and logs each.
    method DetachChildren(u: User, kind: Kind, col: Column, parent: Id, env: Env)
      modifies `rows, `log, `lastSeq, `clock
      ensures St() == WriteAll(old(St()), u, Statement(old(rows), u, kind, col, parent, false, env.scan), env.now)
    {
      ghost var st, ws := St(), Statement(rows, u, kind, col, parent, false, env.scan);
      var kids := BumpChildren(u, kind, col, parent, false, env);
      StatementKeys(st.rows, u, kind, col, parent, false, env.scan);
      for i := 0 to |kids|
        modifies `log, `lastSeq, `clock
        invariant log == st.log + EntriesOf(st, u, ws, env.now)[..i] && lastSeq == st.lastSeq + i
        invariant clock == if i == 0 then st.clock else env.now
      {
        LogChange(u, Key(kind, kids[i].id), Upsert, kids[i].version, env.now);
      }
      assert EntriesOf(st, u, ws, env.now)[..|kids|] == EntriesOf(st, u, ws, env.now);
      StatementWrote(st, St(), u, kind, col, parent, false, env);
    }

    // ----- deletes of live rows -----

    method DeleteSession(u: User, key: Key, env: Env)
      requires Inv(St()) && LiveRow(rows, u, key) && key.kind == Session
      modifies `rows, `log, `lastSeq, `clock
      ensures St() == WriteAll(old(St()), u, DeleteWrites(old(rows), u, key, env.scan), env.now)
    {
      ghost var st := St();
      ghost var own := [OwnDelete(rows, key)];
      var kinds := SESSION_CHILDREN;
      DeleteDistinct(st, u, key, env.scan);
      WriteOne(st, u, own[0], env.now);
      var _ := WriteRow(u, OwnDelete(rows, key), env.now);
      assert own + [] == own;
      for i := 0 to |kinds|
        invariant St() == WriteAll(st, u, own + CascadeEach(st.rows, u, kinds[..i], SessionCol, key.id, env.scan), env.now)
      {
        SessionChildrenDistinct(i);
        CascadeStep(st, u, own, kinds, i, SessionCol, key.id, env.scan, env.now);
        TombstoneChildren(u, kinds[i], SessionCol, key.id, env);
      }
      assert kinds[..|kinds|] == SESSION_CHILDREN;
    }

    method DeleteCourse(u: User, key: Key, env: Env)
      requires Inv(St()) && LiveRow(rows, u, key) && key.kind == Course
      modifies `rows, `log, `lastSeq, `clock
      ensures St() == WriteAll(old(St()), u, DeleteWrites(old(rows), u, key, env.scan), env.now)
    {
      ghost var st := St();
      DetachCourse(u, key, env);
      DetachNext(u, key, StudyActivity, env, st, 2);
      CoursePrefixTyped(st, u, key, env.scan, env.now);
      CourseLastStep(st, u, key, env.scan, env.now);
      CascadeDeleteSchedules(u, key.id, env);
    }

    // The course row, then the references of its sessions and exams.
    method DetachCourse(u: User, key: Key, env: Env)
      requires Inv(St()) && LiveRow(rows, u, key) && key.kind == Course
      modifies `rows, `log, `lastSeq, `clock
      ensures St() == WriteAll(old(St()), u, CoursePrefix(old(rows), u, key, env.scan, 2), env.now)
    {
      ghost var st := St();
      CourseFirst(st, u, key, env.scan, env.now);
      var _ := WriteRow(u, OwnDelete(rows, key), env.now);
      DetachNext(u, key, Session, env, st, 0);
      DetachNext(u, key, Exam, env, st, 1);
    }

    // The next of the three detaches of a course delete that started in st.
    method DetachNext(u: User, key: Key, kind: Kind, env: Env, ghost st: State, ghost n: nat)
      requires Inv(st) && LiveRow(st.rows, u, key) && key.kind == Course && n < 3
      requires kind == if n == 0 then Session else if n == 1 then Exam else StudyActivity
      requires St() == WriteAll(st, u, CoursePrefix(st.rows, u, key, env.scan, n), env.now)
      modifies `rows, `log, `lastSeq, `clock
      ensures St() == WriteAll(st, u, CoursePrefix(st.rows, u, key, env.scan, n + 1), env.now)
    {
      CourseStep(st, u, key, env.scan, env.now, n);
      DetachChildren(u, kind, CourseCol, key.id, env);
    }

    // Tombstones the course's schedules in one statement, then logs them one by one,
    // each followed by its exceptions.
    method CascadeDeleteSchedules(u: User, course: Id, env: Env)
      requires Typed(rows)
      modifies `rows, `log, `lastSeq, `clock
      ensures St() == WriteAll(old(St()), u, ScheduleWrites(old(rows), u, course, env.scan), env.now)
    {
      ghost var st := St();
      ghost var ids := env.scan(Matching(rows, u, CourseSchedule, CourseCol, course));
      var schedules := BumpChildren(u, CourseSchedule, CourseCol, course, true, env);
      SchedulesDistinct(st.rows, u, course, env.scan);
      SchedulesBumped(st, St(), u, course, env);
      BumpedSchedules(st.rows, u, course, schedules, env.scan);
      for i := 0 to |schedules|
        invariant Halfway(st, St(), u, ids, i, env)
      {
        LogSchedule(st, u, ids, i, schedules[i], env);
      }
      HalfwayDone(st, St(), u, ids, env);
    }

    // One turn of that loop.
    method LogSchedule(ghost st: State, u: User, ghost ids: seq<Id>, ghost i: nat, schedule: Bumped, env: Env)
      requires i < |ids| && Halfway(st, St(), u, ids, i, env) && Distinct(ids)
      requires DistinctKeys(SchedulesWithExceptions(st.rows, u, ids, env.scan))
      requires schedule == Bumped(ids[i], NextVersion(st.rows, Key(CourseSchedule, ids[i])))
      modifies `rows, `log, `lastSeq, `clock
      ensures Halfway(st, St(), u, ids, i + 1, env)
    {
      ghost var before := St();
      LogChange(u, Key(CourseSchedule, schedule.id), Delete, schedule.version, env.now);
      ghost var logged := St();
      TombstoneChildren(u, ScheduleException, ScheduleCol, schedule.id, env);
      HalfwayStep(st, before, logged, St(), u, ids, i, env);
    }

    method DeleteExam(u: User, key: Key, env: Env)
      requires Inv(St()) && LiveRow(rows, u, key) && key.kind == Exam
      modifies `rows, `log, `lastSeq, `clock
      ensures St() == WriteAll(old(St()), u, DeleteWrites(old(rows), u, key, env.scan), env.now)
    {
      ghost var st, id, scan, now := St(), key.id, env.scan, env.now;
      ghost var topics := Statement(rows, u, ExamTopic, ExamCol, id, true, scan);
      TombstoneChildren(u, ExamTopic, ExamCol, key.id, env);
      var plans := env.scan(Matching(rows, u, StudyPlan, ExamCol, key.id));
      ExamPlans(st, u, key, scan, now);
      assert topics + ItemsOfPlans(st.rows, u, plans[..0], scan) == topics;
      for i := 0 to |plans|
        invariant St() == WriteAll(st, u, topics + ItemsOfPlans(st.rows, u, plans[..i], scan), now)
      {
        ExamPlanStep(st, u, key, scan, now, i);
        TombstoneChildren(u, StudyPlanItem, PlanCol, plans[i], env);
      }
      assert plans[..|plans|] == plans;
      assert topics + ItemsOfPlans(st.rows, u, plans, scan) == ExamPrefix(st.rows, u, key, scan, 0);
      ExamStep(st, u, key, scan, now, 0);
      TombstoneChildren(u, StudyPlan, ExamCol, key.id, env);
      ExamStep(st, u, key, scan, now, 1);
      DetachChildren(u, StudyActivity, ExamCol, key.id, env);
      ExamLastStep(st, u, key, scan, now);
      var _ := WriteRow(u, OwnDelete(rows, key), env.now);
    }

    // One table of children (tombstoned or detached), then the row itself.
    method DeleteAfterTable(u: User, key: Key, kind: Kind, col: Column, gone: bool, env: Env)
      requires LiveRow(rows, u, key) && kind != key.kind
      modifies `rows, `log, `lastSeq, `clock
      ensures St() == WriteAll(old(St()), u, Statement(old(rows), u, kind, col, key.id, gone, env.scan)
                                             + [OwnDelete(old(rows), key)], env.now)
    {
      ghost var st, first := St(), Statement(rows, u, kind, col, key.id, gone, env.scan);
      StatementKeys(rows, u, kind, col, key.id, gone, env.scan);
      OwnAfter(st, u, first, key, env.now);
      if gone {
        TombstoneChildren(u, kind, col, key.id, env);
      } else {
        DetachChildren(u, kind, col, key.id, env);
      }
      var _ := WriteRow(u, OwnDelete(rows, key), env.now);
    }

    method DeleteWithTable(u: User, key: Key, env: Env)
      requires LiveRow(rows, u, key) && (key.kind == CourseSchedule || key.kind == StudyPlan || key.kind == StudyPlanItem)
      modifies `rows, `log, `lastSeq, `clock
      ensures St() == WriteAll(old(St()), u, DeleteWrites(old(rows), u, key, env.scan), env.now)
    {
      if key.kind == CourseSchedule {
        DeleteAfterTable(u, key, ScheduleException, ScheduleCol, true, env);
      } else if key.kind == StudyPlan {
        DeleteAfterTable(u, key, StudyPlanItem, PlanCol, true, env);
      } else {
        DeleteAfterTable(u, key, StudyActivity, PlanItemCol, false, env);
      }
    }

    method DeleteChildless(u: User, key: Key, env: Env)
      requires LiveRow(rows, u, key) && Childless(key.kind)
      modifies `rows, `log, `lastSeq, `clock
      ensures St() == WriteAll(old(St()), u, DeleteWrites(old(rows), u, key, env.scan), env.now)
    {
      WriteOne(St(), u, OwnDelete(rows, key), env.now);
      var _ := WriteRow(u, OwnDelete(rows, key), env.now);
    }

    method DeleteLive(u: User, key: Key, env: Env)
      requires Inv(St()) && LiveRow(rows, u, key)
      modifies `rows, `log, `lastSeq, `clock
      ensures St() == WriteAll(old(St()), u, DeleteWrites(old(rows), u, key, env.scan), env.now)
    {
      if Childless(key.kind) {
        DeleteChildless(u, key, env);
      } else if key.kind == Session {
        DeleteSession(u, key, env);
      } else if key.kind == Course {
        DeleteCourse(u, key, env);
      } else if key.kind == Exam {
        DeleteExam(u, key, env);
      } else {
        DeleteWithTable(u, key, env);
      }
    }

    // ----- one operation -----

    // None is a database error; nothing has been written then.
    method ApplyDelete(u: User, key: Key, item: PushItem, env: Env) returns (result: Option<OpResult>)
      requires Inv(St()) && item.kind == Some(key.kind) && item.id == key.id && item.op.PushDelete?
      modifies `rows, `log, `lastSeq, `clock, `hooks
      ensures match DecideDelete(old(rows), u, key, item, env)
        case Abort => result.None? && St() == old(St())
        case Do(r, ws) => result == Some(r) && St() == WriteAll(old(St()), u, ws, env.now)
      ensures hooks == old(hooks) + if key.kind == Attachment && LiveRow(old(rows), u, key) then [key.id] else []
    {
      var stored := Fetch(rows, u, key);
      if stored.None? {
        result := InsertStub(u, key, item, env);
        return;
      }
      if !stored.value.Live() {
        return Some(Accepted(item.opId, stored.value.version, stored.value.updatedAt));
      }
      var accepted := DeleteStored(u, key, item, env);
      if key.kind == Attachment {
        hooks := hooks + [key.id];
      }
      return Some(accepted);
    }

    // A live row goes with everything that depends on it.
    method DeleteStored(u: User, key: Key, item: PushItem, env: Env) returns (result: OpResult)
      requires Inv(St()) && LiveRow(rows, u, key)
      modifies `rows, `log, `lastSeq, `clock
      ensures var ws := DeleteWrites(old(rows), u, key, env.scan);
        DecideDelete(old(rows), u, key, item, env) == Do(result, ws) && St() == WriteAll(old(St()), u, ws, env.now)
    {
      result := Accepted(item.opId, rows[key].version + 1, env.now);
      DeleteLive(u, key, env);
    }

    // A row the server has never seen is recorded as deleted, where its table allows it.
    method InsertStub(u: User, key: Key, item: PushItem, env: Env) returns (result: Option<OpResult>)
      requires Fetch(rows, u, key).None?
      modifies `rows, `log, `lastSeq, `clock
      ensures match DecideDelete(old(rows), u, key, item, env)
        case Abort => result.None? && St() == old(St())
        case Do(r, ws) => result == Some(r) && St() == WriteAll(old(St()), u, ws, env.now)
    {
      if !StubFits(key.kind) {
        return None;
      }
      var stub := StubContent(key.kind, key.id, item.payload, item.clientUpdatedAt);
      WriteOne(St(), u, Put(key, stub, true), env.now);
      var ok := InsertRow(u, key, stub, true, env.now);
      if !ok {
        return None;
      }
      return Some(Accepted(item.opId, 1, env.now));
    }

    method ApplyUpsert(u: User, key: Key, item: PushItem, env: Env) returns (result: Option<OpResult>)
      modifies `rows, `log, `lastSeq, `clock
      ensures match DecideUpsert(old(rows), u, key, item, env)
        case Abort => result.None? && St() == old(St())
        case Do(r, ws) => result == Some(r) && St() == WriteAll(old(St()), u, ws, env.now)
    {
      var p := item.payload;
      if !Required(key.kind, p) || !ParentLive(rows, u, key.kind, key.id, p) {
        return Some(Rejected(item.opId));
      }
      var stored := Fetch(rows, u, key);
      if stored.None? {
        result := InsertNew(u, key, item, env);
        return;
      }
      var row := stored.value;
      if !row.Live() || item.base < row.version {
        return Some(ConflictWith(item, row));
      }
      if item.base > row.version {
        return Some(Rejected(item.opId));
      }
      if TextClash(row.content, p) {
        return Some(ConflictWith(item, row));
      }
      ghost var st := St();
      var w := Put(key, MergeContent(row.content, p, env.now), false);
      var version := WriteRow(u, w, env.now);
      WriteOne(st, u, w, env.now);
      return Some(Accepted(item.opId, version, env.now));
    }

    method InsertNew(u: User, key: Key, item: PushItem, env: Env) returns (result: Option<OpResult>)
      modifies `rows, `log, `lastSeq, `clock
      ensures match DecideInsert(old(rows), u, key, item, env)
        case Abort => result.None? && St() == old(St())
        case Do(r, ws) => result == Some(r) && St() == WriteAll(old(St()), u, ws, env.now)
    {
      if !InsertRequired(key.kind, item.payload, item.base) {
        return Some(Rejected(item.opId));
      }
      var content := NewContent(key.kind, key.id, item.payload, ParentSession(rows, key), env.now);
      WriteOne(St(), u, Put(key, content, false), env.now);
      var ok := InsertRow(u, key, content, false, env.now);
      if !ok {
        return None;
      }
      return Some(Accepted(item.opId, 1, env.now));
    }

    method ApplyOne(u: User, item: PushItem, env: Env) returns (result: Option<OpResult>)
      requires Inv(St())
      modifies `rows, `log, `lastSeq, `ledger, `clock, `hooks
      ensures match SyncDecide.ApplyOne(old(St()), u, item, env)
        case Failed => result.None? && St() == old(St())
        case Done(st', r) => result == Some(r) && St() == st'
      ensures result.Some? ==> hooks == old(hooks) + HookOf(old(St()), u, item)
    {
      if (u, item.opId) in ledger {
        return Some(ledger[(u, item.opId)].result);
      }
      if item.kind.None? || item.op.UnknownOp? {
        var rejected := Rejected(item.opId);
        StoreLedger(u, rejected, item.opId, env.now);
        return Some(rejected);
      }
      var key := Key(item.kind.value, item.id);
      if item.op.PushDelete? {
        result := ApplyDelete(u, key, item, env);
      } else {
        result := ApplyUpsert(u, key, item, env);
      }
      if result.Some? {
        StoreLedger(u, result.value, item.opId, env.now);
      }
    }

    // ----- one batch, one transaction -----

    // Runs the batch; on a database error everything it wrote is rolled back but the
    // sequence numbers it drew, and its hooks are discarded. After a commit the hooks
    // remove the files of the attachments it deleted.
    method ApplyPush(u: User, items: seq<PushItem>, env: Env) returns (results: Option<seq<OpResult>>)
      requires Inv(St()) && clock <= env.now
      modifies this
      ensures St() == SyncDecide.ApplyPush(old(St()), u, items, env) && Inv(St())
      ensures files == FilesAfter(old(St()), old(files), Push(u, items, env)) && hooks == []
      ensures match ApplyItems(old(St()), u, items, env)
        case Aborted(_) => results.None?
        case Committed(_, rs) => results == Some(rs)
    {
      var rows0, log0, ledger0 := rows, log, ledger;
      ghost var clock0 := clock;
      ApplyPushInv(St(), u, items, env);
      hooks := [];
      results := ApplyBatch(u, items, env);
      if results.None? {
        rows, log, ledger, hooks := rows0, log0, ledger0, [];
        clock := clock0;
      } else {
        RunHooks(u);
      }
    }

    // The body of the transaction: item after item, up to the first database error.
    method ApplyBatch(u: User, items: seq<PushItem>, env: Env) returns (results: Option<seq<OpResult>>)
      requires Inv(St()) && clock <= env.now && hooks == []
      modifies `rows, `log, `lastSeq, `ledger, `clock, `hooks
      ensures match ApplyItems(old(St()), u, items, env)
        case Aborted(n) => results.None? && lastSeq == n
        case Committed(st', rs) => results == Some(rs) && St() == st' && hooks == Hooks(old(St()), u, items, env)
    {
      ghost var st := St();
      var collected: seq<OpResult> := [];
      ContinuesStart(st, u, items, env);
      for i := 0 to |items|
        invariant Inv(St()) && clock <= env.now
        invariant Continues(st, St(), u, items, i, env, collected, hooks)
      {
        ghost var before, hooked := St(), hooks;
        var result := ApplyOne(u, items[i], env);
        if result.None? {
          ContinuesAbort(st, before, u, items, i, env, collected, hooked);
          return None;
        }
        ApplyOneInv(before, u, items[i], env);
        ContinuesStep(st, before, u, items, i, env, collected, hooked);
        collected := collected + [result.value];
      }
      ContinuesEnd(st, St(), u, items, env, collected, hooks);
      return Some(collected);
    }

    // After the commit: remove each collected directory, in order.
    method RunHooks(u: User)
      modifies `files, `hooks
      ensures files == old(files) - Reaped(u, old(hooks)) && hooks == []
    {
      var todo := hooks;
      hooks := [];
      for i := 0 to |todo|
        modifies `files
        invariant files == old(files) - Reaped(u, todo[..i])
      {
        files := files - {(u, todo[i])};
        assert Reaped(u, todo[..i + 1]) == Reaped(u, todo[..i]) + {(u, todo[i])} by {
          assert todo[..i + 1] == todo[..i] + [todo[i]];
          ReapedLast(u, todo[..i], todo[i]);
        }
      }
      assert todo[..|todo|] == todo;
    }

    // ----- pull -----

    method LoadRecord(u: User, key: Key) returns (record: Option<Record>)
      ensures record == if Fetch(rows, u, key).Some? then Some(RecordOf(rows[key])) else None
    {
      var row := Fetch(rows, u, key);
      record := if row.Some? then Some(RecordOf(row.value)) else None;
    }

    // One page: the statement asks for one entry more than the clamped limit, to learn
    // whether anything remains.
    method Pull(u: User, cursor: nat, limit: int) returns (page: SyncPull.Page)
      ensures page == SyncPull.Pull(St(), u, cursor, limit)
    {
      var wanted := if limit < 1 then 1 else if limit > 500 then 500 else limit;
      var past := SyncPull.Past(log, u, cursor);
      var found := if |past| > wanted + 1 then past[..wanted + 1] else past;
      var hasMore := |found| > wanted;
      if hasMore {
        found := found[..wanted];
      }
      assert found == SyncPull.Taken(past, limit);
      var changes: seq<SyncPull.Change> := [];
      for i := 0 to |found|
        invariant |changes| == i && forall j :: 0 <= j < i ==> changes[j] == SyncPull.ChangeOf(rows, u, found[j])
      {
        var e := found[i];
        var record: Option<Record> := None;
        if e.op == Upsert {
          record := LoadRecord(u, e.key);
        }
        changes := changes + [SyncPull.Change(e.seqNo, e.key, e.op, e.version, record)];
      }
      var next := if |found| > 0 then found[|found| - 1].seqNo else cursor;
      assert changes == SyncPull.ChangesOf(rows, u, found);
      page := SyncPull.Page(changes, next, hasMore);
    }

    // ----- cleanup and purge -----

    // Tombstones of one table past the cutoff; returns how many went.
    method PruneTable(kind: Kind, cutoff: Time) returns (deleted: nat)
      modifies `rows
      ensures rows == WithoutExpired(old(rows), {kind}, cutoff) && deleted == |old(rows)| - |rows|
    {
      var expired := set k | k in rows && k.kind == kind && Expired(rows[k], cutoff);
      deleted := |expired|;
      ExpiredCounted(rows, expired);
      ExpiredRemoved(rows, kind, cutoff);
      rows := rows - expired;
    }

    // Attachment rows go first: their ids are collected, the rows deleted, then the files.
    method PruneAttachments(cutoff: Time) returns (deleted: nat)
      modifies `rows, `files
      ensures rows == WithoutExpired(old(rows), {Attachment}, cutoff) && deleted == |old(rows)| - |rows|
      ensures files == old(files) - ExpiredFiles(old(rows), cutoff)
    {
      ghost var rows0 := rows;
      var todo := ExpiredFiles(rows, cutoff);
      deleted := PruneTable(Attachment, cutoff);
      while todo != {}
        modifies `files
        invariant todo <= ExpiredFiles(rows0, cutoff)
        invariant files == old(files) - (ExpiredFiles(rows0, cutoff) - todo)
        decreases |todo|
      {
        var f :| f in todo;
        files := files - {f};
        todo := todo - {f};
      }
    }

    // The retention cleanup: tombstones table by table, then the change log and the
    // ledger; returns how many rows it deleted.
    method RunTombstoneCleanup(cutoff: Time) returns (deleted: nat)
      modifies `rows, `log, `ledger, `files
      ensures St() == Cleaned(old(St()), cutoff)
      ensures files == FilesAfter(old(St()), old(files), Clean(cutoff))
      ensures deleted == (|old(rows)| - |rows|) + (|old(log)| - |log|) + (|old(ledger)| - |ledger|)
    {
      ghost var st := St();
      deleted := PruneAttachments(cutoff);
      var n := PruneTables(st.rows, cutoff);
      var m := PruneHistory(cutoff);
      deleted := deleted + n + m;
    }

    method PruneTables(ghost rows0: Rows, cutoff: Time) returns (deleted: nat)
      requires rows == WithoutExpired(rows0, {Attachment}, cutoff)
      modifies `rows
      ensures rows == map k | k in rows0 && !Expired(rows0[k], cutoff) :: rows0[k]
      ensures deleted == |old(rows)| - |rows|
    {
      deleted := 0;
      var tables := CLEANED_TABLES;
      assert KindsIn(tables[..0]) + {Attachment} == {Attachment};
      for i := 0 to |tables|
        invariant rows == WithoutExpired(rows0, KindsIn(tables[..i]) + {Attachment}, cutoff)
        invariant deleted == |old(rows)| - |rows|
      {
        var n := PruneTable(tables[i], cutoff);
        deleted := deleted + n;
        PrunedMore(rows0, tables, i, cutoff);
      }
      AllTablesCleaned();
      assert tables[..|tables|] == tables;
    }

    method PruneHistory(cutoff: Time) returns (deleted: nat)
      modifies `log, `ledger
      ensures log == Recent(old(log), cutoff) && ledger == map o | o in old(ledger) && old(ledger)[o].at >= cutoff :: old(ledger)[o]
      ensures deleted == (|old(log)| - |log|) + (|old(ledger)| - |ledger|)
    {
      var recent := Recent(log, cutoff);
      RecentShorter(log, cutoff);
      deleted := |log| - |recent|;
      log := recent;
      var spent := set o | o in ledger && ledger[o].at < cutoff;
      LedgerCounted(ledger, spent);
      deleted := deleted + |spent|;
      ledger := ledger - spent;
    }

    // Deletes a user's rows table by table, then their log and ledger entries.
    method PurgeUserSyncData(u: User)
      modifies `rows, `log, `ledger
      ensures St() == Purged(old(St()), u)
    {
      ghost var st := St();
      var tables := PURGED_TABLES;
      for i := 0 to |tables|
        modifies `rows
        invariant rows == WithoutUser(st.rows, KindsIn(tables[..i]), u)
      {
        rows := WithoutUser(rows, {tables[i]}, u);
        PurgedMore(st.rows, tables, i, u);
      }
      assert tables[..|tables|] == tables;
      AllTablesPurged();
      assert rows == Purged(st, u).rows;
      log := OthersLog(log, u);
      ledger := map o | o in ledger && o.0 != u :: ledger[o];
    }
  }

  // The tables the cleanup visits after the attachments.
  const CLEANED_TABLES: seq<Kind> := [
    Entry, Bookmark, Favorite, Note, StudyReview, Session, Course, Correction, ScheduleException, CourseSchedule,
    StudyPlanItem, StudyPlan, ExamTopic, Exam, StudyActivity]

  const PURGED_TABLES: seq<Kind> := [
    Entry, Bookmark, Favorite, Note, StudyReview, Attachment, Session, Course, Correction, ScheduleException,
    CourseSchedule, StudyPlanItem, StudyPlan, ExamTopic, Exam, StudyActivity]

  function KindsIn(tables: seq<Kind>): set<Kind> {
    set i | 0 <= i < |tables| :: tables[i]
  }

  function WithoutExpired(rows: Rows, kinds: set<Kind>, cutoff: Time): Rows {
    map k | k in rows && !(k.kind in kinds && Expired(rows[k], cutoff)) :: rows[k]
  }

  function WithoutUser(rows: Rows, kinds: set<Kind>, u: User): Rows {
    map k | k in rows && !(k.kind in kinds && rows[k].user == u) :: rows[k]
  }

  lemma KindsGrow(tables: seq<Kind>, i: nat)
    requires i < |tables|
    ensures KindsIn(tables[..i + 1]) == KindsIn(tables[..i]) + {tables[i]}
  {
    assert tables[..i + 1][i] == tables[i];
    assert forall j :: 0 <= j < i ==> tables[..i + 1][j] == tables[..i][j];
  }

  lemma PrunedMore(rows: Rows, tables: seq<Kind>, i: nat, cutoff: Time)
    requires i < |tables|
    ensures WithoutExpired(WithoutExpired(rows, KindsIn(tables[..i]) + {Attachment}, cutoff), {tables[i]}, cutoff) ==
            WithoutExpired(rows, KindsIn(tables[..i + 1]) + {Attachment}, cutoff)
  {
    KindsGrow(tables, i);
  }

  lemma PurgedMore(rows: Rows, tables: seq<Kind>, i: nat, u: User)
    requires i < |tables|
    ensures WithoutUser(WithoutUser(rows, KindsIn(tables[..i]), u), {tables[i]}, u) ==
            WithoutUser(rows, KindsIn(tables[..i + 1]), u)
  {
    KindsGrow(tables, i);
  }

  // Both lists visit every table.
  lemma AllTablesPurged()
    ensures forall kind :: kind in KindsIn(PURGED_TABLES)
  {
    var all := PURGED_TABLES;
    forall kind
      ensures kind in KindsIn(all)
    {
      match kind
      case Entry => assert all[0] == kind;
      case Bookmark => assert all[1] == kind;
      case Favorite => assert all[2] == kind;
      case Note => assert all[3] == kind;
      case StudyReview => assert all[4] == kind;
      case Attachment => assert all[5] == kind;
      case Session => assert all[6] == kind;
      case Course => assert all[7] == kind;
      case Correction => assert all[8] == kind;
      case ScheduleException => assert all[9] == kind;
      case CourseSchedule => assert all[10] == kind;
      case StudyPlanItem => assert all[11] == kind;
      case StudyPlan => assert all[12] == kind;
      case ExamTopic => assert all[13] == kind;
      case Exam => assert all[14] == kind;
      case StudyActivity => assert all[15] == kind;
    }
  }

  lemma AllTablesCleaned()
    ensures forall kind :: kind in KindsIn(CLEANED_TABLES) + {Attachment}
  {
    var all, purged := CLEANED_TABLES, PURGED_TABLES;
    AllTablesPurged();
    assert all[..5] == purged[..5] && all[5..] == purged[6..];
    forall kind
      ensures kind in KindsIn(all) + {Attachment}
    {
      assert kind in KindsIn(purged);
      var i :| 0 <= i < |purged| && purged[i] == kind;
      assert i < 5 ==> purged[..5][i] == all[..5][i] == all[i];
      assert i > 5 ==> purged[6..][i - 6] == all[5..][i - 6] == all[i - 1];
    }
  }

  lemma ExpiredCounted(rows: Rows, gone: set<Key>)
    requires gone <= rows.Keys
    ensures |rows - gone| == |rows| - |gone|
  {
    assert (rows - gone).Keys == rows.Keys - gone;
  }

  lemma ExpiredRemoved(rows: Rows, kind: Kind, cutoff: Time)
    ensures rows - (set k | k in rows && k.kind == kind && Expired(rows[k], cutoff)) == WithoutExpired(rows, {kind}, cutoff)
  {
  }

  lemma LedgerCounted(ledger: map<(User, OpId), Receipt>, gone: set<(User, OpId)>)
    requires gone <= ledger.Keys
    ensures |ledger - gone| == |ledger| - |gone|
  {
    assert (ledger - gone).Keys == ledger.Keys - gone;
  }

  lemma {:induction false} RecentShorter(log: seq<LogEntry>, cutoff: Time)
    ensures |Recent(log, cutoff)| <= |log|
  {
    if log != [] {
      RecentShorter(log[..|log| - 1], cutoff);
    }
  }

  // The batch from here on completes the batch from the start.
  predicate Continues(st: State, cur: State, u: User, items: seq<PushItem>, i: nat, env: Env,
                      collected: seq<OpResult>, hooks: seq<Id>)
  {
    && i <= |items|
    && ApplyItems(st, u, items, env) == (match ApplyItems(cur, u, items[i..], env)
         case Aborted(n) => Aborted(n)
         case Committed(st', rest) => Committed(st', collected + rest))
    && Hooks(st, u, items, env) == hooks + Hooks(cur, u, items[i..], env)
  }

  lemma ContinuesStart(st: State, u: User, items: seq<PushItem>, env: Env)
    requires Inv(st) && st.clock <= env.now
    ensures Continues(st, st, u, items, 0, env, [], [])
  {
    assert items[0..] == items;
    var outcome := ApplyItems(st, u, items, env);
    if outcome.Committed? {
      assert [] + outcome.results == outcome.results;
    }
    assert [] + Hooks(st, u, items, env) == Hooks(st, u, items, env);
  }

  lemma ContinuesStep(st: State, cur: State, u: User, items: seq<PushItem>, i: nat, env: Env,
                      collected: seq<OpResult>, hooks: seq<Id>)
    requires Continues(st, cur, u, items, i, env, collected, hooks) && i < |items|
    requires SyncDecide.ApplyOne(cur, u, items[i], env).Done?
    ensures var Done(next, result) := SyncDecide.ApplyOne(cur, u, items[i], env);
      Continues(st, next, u, items, i + 1, env, collected + [result], hooks + HookOf(cur, u, items[i]))
  {
    var Done(next, result) := SyncDecide.ApplyOne(cur, u, items[i], env);
    assert items[i..][0] == items[i] && items[i..][1..] == items[i + 1..];
    var rest := ApplyItems(next, u, items[i + 1..], env);
    if rest.Committed? {
      assert collected + ([result] + rest.results) == collected + [result] + rest.results;
    }
    assert hooks + (HookOf(cur, u, items[i]) + Hooks(next, u, items[i + 1..], env)) ==
           hooks + HookOf(cur, u, items[i]) + Hooks(next, u, items[i + 1..], env);
  }

  lemma ContinuesAbort(st: State, cur: State, u: User, items: seq<PushItem>, i: nat, env: Env,
                       collected: seq<OpResult>, hooks: seq<Id>)
    requires Continues(st, cur, u, items, i, env, collected, hooks) && i < |items|
    requires SyncDecide.ApplyOne(cur, u, items[i], env).Failed?
    ensures ApplyItems(st, u, items, env) == Aborted(cur.lastSeq)
  {
    assert items[i..][0] == items[i];
  }

  lemma ContinuesEnd(st: State, cur: State, u: User, items: seq<PushItem>, env: Env,
                     collected: seq<OpResult>, hooks: seq<Id>)
    requires Continues(st, cur, u, items, |items|, env, collected, hooks)
    ensures ApplyItems(st, u, items, env) == Committed(cur, collected) && Hooks(st, u, items, env) == hooks
  {
    assert items[|items|..] == [];
    assert collected + [] == collected && hooks + [] == hooks;
  }

  lemma ReapedLast(u: User, ids: seq<Id>, id: Id)
    ensures Reaped(u, ids + [id]) == Reaped(u, ids) + {(u, id)}
  {
    var all := ids + [id];
    assert all[|ids|] == id;
    assert forall i :: 0 <= i < |ids| ==> all[i] == ids[i];
  }
}
