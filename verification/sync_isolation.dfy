/** User non-interference: what a user's requests do depends only on that user's own
    rows, log entries and ledger, and touches nothing else. */
module SyncIsolation {
  import opened Options
  import opened SyncTypes
  import opened SyncMerge
  import opened SyncState
  import opened SyncDecide
  import opened SyncCascade
  import opened SyncRuns

  // ----- one user's slice of the state -----

  // The user's log entries, without their sequence numbers.
  function OwnLog(log: seq<LogEntry>, u: User): seq<LogEntry> {
    if log == [] then []
    else
      var n := |log| - 1;
      OwnLog(log[..n], u) + if log[n].user == u then [log[n].(seqNo := 0)] else []
  }

  function Stored(ledger: map<(User, OpId), Receipt>, o: (User, OpId)): Option<Receipt> {
    if o in ledger then Some(ledger[o]) else None
  }

  ghost predicate SameRows(a: Rows, b: Rows, u: User) {
    forall key :: Fetch(a, u, key) == Fetch(b, u, key)
  }

  ghost predicate SameSlice(a: State, b: State, u: User) {
    && SameRows(a.rows, b.rows, u)
    && OwnLog(a.log, u) == OwnLog(b.log, u)
    && forall o: (User, OpId) :: o.0 == u ==> Stored(a.ledger, o) == Stored(b.ledger, o)
  }

  // The id is taken by another user's row.
  predicate Foreign(rows: Rows, u: User, key: Key) {
    key in rows && rows[key].user != u
  }

  predicate NamesForeign(rows: Rows, u: User, item: PushItem) {
    item.kind.Some? && Foreign(rows, u, Key(item.kind.value, item.id))
  }

  lemma OwnLogAppend(log: seq<LogEntry>, e: LogEntry, u: User)
    ensures OwnLog(log + [e], u) == OwnLog(log, u) + if e.user == u then [e.(seqNo := 0)] else []
  {
    assert (log + [e])[..|log|] == log;
  }

  // ----- decisions depend on the slice -----

  lemma SameMatching(a: Rows, b: Rows, u: User, kind: Kind, col: Column, parent: Id)
    requires SameRows(a, b, u)
    ensures Matching(a, u, kind, col, parent) == Matching(b, u, kind, col, parent)
  {
    HalfMatching(a, b, u, kind, col, parent);
    HalfMatching(b, a, u, kind, col, parent);
  }

  lemma HalfMatching(a: Rows, b: Rows, u: User, kind: Kind, col: Column, parent: Id)
    requires SameRows(a, b, u)
    ensures Matching(a, u, kind, col, parent) <= Matching(b, u, kind, col, parent)
  {
    forall id | id in Matching(a, u, kind, col, parent)
      ensures id in Matching(b, u, kind, col, parent)
    {
      var k :| k in a && k.kind == kind && LiveRow(a, u, k) && Ref(a[k].content, col) == Some(parent) && k.id == id;
      assert Fetch(a, u, k) == Fetch(b, u, k);
    }
  }

  lemma SameChildPuts(a: Rows, b: Rows, u: User, kind: Kind, col: Column, parent: Id, gone: bool, ids: seq<Id>)
    requires SameRows(a, b, u) && Lists(ids, Matching(a, u, kind, col, parent))
    ensures forall id :: id in ids ==> Key(kind, id) in a && Key(kind, id) in b
    ensures ChildPuts(a, kind, ids, col, gone) == ChildPuts(b, kind, ids, col, gone)
  {
    forall id | id in ids
      ensures Key(kind, id) in a && Key(kind, id) in b && a[Key(kind, id)] == b[Key(kind, id)]
    {
      var k :| k in a && k.kind == kind && LiveRow(a, u, k) && Ref(a[k].content, col) == Some(parent) && k.id == id;
      assert k == Key(kind, id) && Fetch(a, u, k) == Fetch(b, u, k);
    }
  }

  lemma SameCascade(a: Rows, b: Rows, u: User, kind: Kind, col: Column, parent: Id, scan: Scan)
    requires SameRows(a, b, u)
    ensures Cascade(a, u, kind, col, parent, scan) == Cascade(b, u, kind, col, parent, scan)
    ensures Detach(a, u, kind, col, parent, scan) == Detach(b, u, kind, col, parent, scan)
  {
    SameMatching(a, b, u, kind, col, parent);
    var ids := scan(Matching(a, u, kind, col, parent));
    SameChildPuts(a, b, u, kind, col, parent, true, ids);
    SameChildPuts(a, b, u, kind, col, parent, false, ids);
  }

  lemma {:induction false} SameCascadeEach(a: Rows, b: Rows, u: User, kinds: seq<Kind>, col: Column, parent: Id,
                                           scan: Scan)
    requires SameRows(a, b, u)
    ensures CascadeEach(a, u, kinds, col, parent, scan) == CascadeEach(b, u, kinds, col, parent, scan)
  {
    if kinds != [] {
      SameCascade(a, b, u, kinds[|kinds| - 1], col, parent, scan);
      SameCascadeEach(a, b, u, kinds[..|kinds| - 1], col, parent, scan);
    }
  }

  lemma {:induction false} SameItemsOfPlans(a: Rows, b: Rows, u: User, plans: seq<Id>, scan: Scan)
    requires SameRows(a, b, u)
    ensures ItemsOfPlans(a, u, plans, scan) == ItemsOfPlans(b, u, plans, scan)
  {
    if plans != [] {
      SameCascade(a, b, u, StudyPlanItem, PlanCol, plans[0], scan);
      SameItemsOfPlans(a, b, u, plans[1..], scan);
    }
  }

  lemma {:induction false} SameSchedules(a: Rows, b: Rows, u: User, schedules: seq<Id>, scan: Scan)
    requires SameRows(a, b, u)
    requires forall id :: id in schedules ==> LiveRow(a, u, Key(CourseSchedule, id))
    ensures forall id :: id in schedules ==> Key(CourseSchedule, id) in a
    ensures forall id :: id in schedules ==> Key(CourseSchedule, id) in b
    ensures SchedulesWithExceptions(a, u, schedules, scan) == SchedulesWithExceptions(b, u, schedules, scan)
  {
    forall id | id in schedules
      ensures Key(CourseSchedule, id) in b && a[Key(CourseSchedule, id)] == b[Key(CourseSchedule, id)]
    {
      assert Fetch(a, u, Key(CourseSchedule, id)) == Fetch(b, u, Key(CourseSchedule, id));
    }
    if schedules != [] {
      SameCascade(a, b, u, ScheduleException, ScheduleCol, schedules[0], scan);
      SameSchedules(a, b, u, schedules[1..], scan);
    }
  }

  lemma SameDeleteWrites(a: Rows, b: Rows, u: User, key: Key, scan: Scan)
    requires SameRows(a, b, u) && LiveRow(a, u, key) && key in b
    ensures DeleteWrites(a, u, key, scan) == DeleteWrites(b, u, key, scan)
  {
    assert Fetch(a, u, key) == Fetch(b, u, key);
    match key.kind
    case Session => SameCascadeEach(a, b, u, SESSION_CHILDREN, SessionCol, key.id, scan);
    case Course => SameCourseWrites(a, b, u, key, scan);
    case CourseSchedule => SameCascade(a, b, u, ScheduleException, ScheduleCol, key.id, scan);
    case Exam => SameExamWrites(a, b, u, key, scan);
    case StudyPlan => SameCascade(a, b, u, StudyPlanItem, PlanCol, key.id, scan);
    case StudyPlanItem => SameCascade(a, b, u, StudyActivity, PlanItemCol, key.id, scan);
    case _ =>
  }

  lemma ListedLive(rows: Rows, u: User, course: Id, schedules: seq<Id>)
    requires Lists(schedules, Matching(rows, u, CourseSchedule, CourseCol, course))
    ensures forall id :: id in schedules ==> LiveRow(rows, u, Key(CourseSchedule, id))
  {
    ListedKeys(rows, u, CourseSchedule, CourseCol, course, schedules);
    assert forall id :: id in schedules ==> Key(CourseSchedule, id) in MatchingKeys(rows, u, CourseSchedule, CourseCol, course);
  }

  lemma SameCourseWrites(a: Rows, b: Rows, u: User, key: Key, scan: Scan)
    requires SameRows(a, b, u) && LiveRow(a, u, key) && key in b && a[key] == b[key] && key.kind == Course
    ensures DeleteWrites(a, u, key, scan) == DeleteWrites(b, u, key, scan)
  {
    SameCascade(a, b, u, Session, CourseCol, key.id, scan);
    SameCascade(a, b, u, Exam, CourseCol, key.id, scan);
    SameCascade(a, b, u, StudyActivity, CourseCol, key.id, scan);
    SameMatching(a, b, u, CourseSchedule, CourseCol, key.id);
    var schedules := scan(Matching(a, u, CourseSchedule, CourseCol, key.id));
    ListedLive(a, u, key.id, schedules);
    SameSchedules(a, b, u, schedules, scan);
  }

  lemma SameExamWrites(a: Rows, b: Rows, u: User, key: Key, scan: Scan)
    requires SameRows(a, b, u) && LiveRow(a, u, key) && key in b && a[key] == b[key] && key.kind == Exam
    ensures DeleteWrites(a, u, key, scan) == DeleteWrites(b, u, key, scan)
  {
    SameCascade(a, b, u, ExamTopic, ExamCol, key.id, scan);
    SameMatching(a, b, u, StudyPlan, ExamCol, key.id);
    SameItemsOfPlans(a, b, u, scan(Matching(a, u, StudyPlan, ExamCol, key.id)), scan);
    SameCascade(a, b, u, StudyPlan, ExamCol, key.id, scan);
    SameCascade(a, b, u, StudyActivity, ExamCol, key.id, scan);
  }

  lemma SameInsertFails(a: Rows, b: Rows, u: User, key: Key, c: Content)
    requires SameRows(a, b, u) && !Foreign(a, u, key) && !Foreign(b, u, key)
    ensures InsertFails(a, u, key, c) == InsertFails(b, u, key, c)
  {
    HalfInsertFails(a, b, u, key, c);
    HalfInsertFails(b, a, u, key, c);
  }

  lemma HalfInsertFails(a: Rows, b: Rows, u: User, key: Key, c: Content)
    requires SameRows(a, b, u)
    ensures InsertFails(a, u, key, c) ==> InsertFails(b, u, key, c) || Foreign(a, u, key)
  {
    assert Fetch(a, u, key) == Fetch(b, u, key);
    if k :| k in a && k.kind == key.kind && a[k].user == u && SameSlot(key.kind, a[k].content, c) {
      assert Fetch(a, u, k) == Fetch(b, u, k);
    }
  }

  lemma SameUpsert(a: Rows, b: Rows, u: User, key: Key, item: PushItem, env: Env)
    requires SameRows(a, b, u) && !Foreign(a, u, key) && !Foreign(b, u, key)
    ensures DecideUpsert(a, u, key, item, env) == DecideUpsert(b, u, key, item, env)
  {
    assert Fetch(a, u, key) == Fetch(b, u, key);
    if ParentOf(key.kind, key.id, item.payload).Some? {
      var parent := ParentOf(key.kind, key.id, item.payload).value;
      assert Fetch(a, u, parent) == Fetch(b, u, parent);
    }
    if ParentLive(a, u, key.kind, key.id, item.payload) {
      SameNewContent(a, b, u, key, item.payload, env.now);
      SameInsertFails(a, b, u, key, NewContent(key.kind, key.id, item.payload, ParentSession(a, key), env.now));
    }
  }

  lemma SameNewContent(a: Rows, b: Rows, u: User, key: Key, p: Payload, now: Time)
    requires SameRows(a, b, u) && ParentLive(a, u, key.kind, key.id, p)
    ensures NewContent(key.kind, key.id, p, ParentSession(a, key), now) ==
            NewContent(key.kind, key.id, p, ParentSession(b, key), now)
  {
    if key.kind.Correction? {
      assert Fetch(a, u, Key(Entry, key.id)) == Fetch(b, u, Key(Entry, key.id));
    }
  }

  lemma SameDelete(a: Rows, b: Rows, u: User, key: Key, item: PushItem, env: Env)
    requires SameRows(a, b, u) && !Foreign(a, u, key) && !Foreign(b, u, key)
    ensures DecideDelete(a, u, key, item, env) == DecideDelete(b, u, key, item, env)
  {
    assert Fetch(a, u, key) == Fetch(b, u, key);
    if LiveRow(a, u, key) {
      SameDeleteWrites(a, b, u, key, env.scan);
    } else if Fetch(a, u, key).None? && StubFits(key.kind) {
      SameInsertFails(a, b, u, key, StubContent(key.kind, key.id, item.payload, item.clientUpdatedAt));
    }
  }

  // An id owned by someone else is never written, accepted or shown: the operation is
  // rejected, or the whole batch aborts.
  lemma ForeignOnlyAborts(rows: Rows, u: User, item: PushItem, env: Env)
    requires NamesForeign(rows, u, item)
    ensures Decide(rows, u, item, env) in {Abort, Do(Rejected(item.opId), [])}
  {
  }

  // Whether a foreign id is rejected or aborts is again the same for every owner.
  lemma SameUnlessForeign(a: Rows, b: Rows, u: User, item: PushItem, env: Env)
    requires SameRows(a, b, u)
    ensures || Decide(a, u, item, env) == Decide(b, u, item, env)
            || (Decide(a, u, item, env).Abort? && NamesForeign(a, u, item))
            || (Decide(b, u, item, env).Abort? && NamesForeign(b, u, item))
  {
    if item.kind.Some? && !item.op.UnknownOp? {
      var key := Key(item.kind.value, item.id);
      assert Fetch(a, u, key) == Fetch(b, u, key);
      if Foreign(a, u, key) || Foreign(b, u, key) {
        ForeignRejected(a, b, u, key, item, env);
      } else if item.op.PushDelete? {
        SameDelete(a, b, u, key, item, env);
      } else {
        SameUpsert(a, b, u, key, item, env);
      }
    }
  }

  lemma ForeignRejected(a: Rows, b: Rows, u: User, key: Key, item: PushItem, env: Env)
    requires SameRows(a, b, u) && (Foreign(a, u, key) || Foreign(b, u, key))
    requires item.kind == Some(key.kind) && item.id == key.id && !item.op.UnknownOp?
    ensures || Decide(a, u, item, env) == Decide(b, u, item, env)
            || (Decide(a, u, item, env).Abort? && Foreign(a, u, key))
            || (Decide(b, u, item, env).Abort? && Foreign(b, u, key))
  {
    assert Fetch(a, u, key) == Fetch(b, u, key);
    if ParentOf(key.kind, key.id, item.payload).Some? {
      var parent := ParentOf(key.kind, key.id, item.payload).value;
      assert Fetch(a, u, parent) == Fetch(b, u, parent);
    }
  }

  // ----- writes keep slices equal, and other users' slices as they were -----

  lemma {:induction false} SameWrites(a: State, b: State, u: User, ws: seq<Write>, now: Time)
    requires SameSlice(a, b, u) && LegalAll(a.rows, u, ws) && LegalAll(b.rows, u, ws)
    ensures SameSlice(WriteAll(a, u, ws, now), WriteAll(b, u, ws, now), u)
    decreases |ws|
  {
    if ws != [] {
      var w := ws[0];
      assert Legal(a.rows, u, w) && Legal(b.rows, u, w) && Fetch(a.rows, u, w.key) == Fetch(b.rows, u, w.key);
      var a1, b1 := ApplyWrite(a, u, w, now), ApplyWrite(b, u, w, now);
      OwnLogAppend(a.log, EntryAfter(a, u, w, now), u);
      OwnLogAppend(b.log, EntryAfter(b, u, w, now), u);
      assert SameRows(a1.rows, b1.rows, u) by {
        forall key
          ensures Fetch(a1.rows, u, key) == Fetch(b1.rows, u, key)
        {
          assert Fetch(a.rows, u, key) == Fetch(b.rows, u, key);
        }
      }
      LegalTail(a, u, ws, now);
      LegalTail(b, u, ws, now);
      SameWrites(a1, b1, u, ws[1..], now);
    }
  }

  lemma {:induction false} WritesKeepOthers(st: State, u: User, ws: seq<Write>, now: Time, other: User)
    requires LegalAll(st.rows, u, ws) && other != u
    ensures SameSlice(st, WriteAll(st, u, ws, now), other)
    decreases |ws|
  {
    if ws != [] {
      var st1 := ApplyWrite(st, u, ws[0], now);
      assert Legal(st.rows, u, ws[0]);
      OwnLogAppend(st.log, EntryAfter(st, u, ws[0], now), other);
      LegalTail(st, u, ws, now);
      WritesKeepOthers(st1, u, ws[1..], now, other);
      forall key
        ensures Fetch(st.rows, other, key) == Fetch(WriteAll(st, u, ws, now).rows, other, key)
      {
        assert Fetch(st.rows, other, key) == Fetch(st1.rows, other, key);
      }
    }
  }

  lemma OneSame(a: State, b: State, u: User, item: PushItem, env: Env)
    requires Inv(a) && Inv(b) && SameSlice(a, b, u)
    ensures match (ApplyOne(a, u, item, env), ApplyOne(b, u, item, env))
      case (Done(a1, ra), Done(b1, rb)) =>
        ra == rb && SameSlice(a1, b1, u) && (b.clock <= a.clock ==> b1.clock <= a1.clock)
      case (Failed, Done(_, _)) => NamesForeign(a.rows, u, item)
      case (Done(_, _), Failed) => NamesForeign(b.rows, u, item)
      case (Failed, Failed) => true
  {
    assert Stored(a.ledger, (u, item.opId)) == Stored(b.ledger, (u, item.opId));
    if (u, item.opId) !in a.ledger {
      SameUnlessForeign(a.rows, b.rows, u, item, env);
      var d := Decide(a.rows, u, item, env);
      if d.Do? && Decide(b.rows, u, item, env) == d {
        InvTyped(a);
        InvTyped(b);
        DecideLegal(a.rows, u, item, env);
        DecideLegal(b.rows, u, item, env);
        SameWrites(a, b, u, d.writes, env.now);
        RecordedSame(WriteAll(a, u, d.writes, env.now), WriteAll(b, u, d.writes, env.now), u, d.result, item.opId, env.now);
      }
    }
  }

  lemma RecordedSame(a: State, b: State, u: User, result: OpResult, opId: OpId, now: Time)
    requires SameSlice(a, b, u)
    ensures SameSlice(Recorded(a, u, result, opId, now), Recorded(b, u, result, opId, now), u)
  {
    var a1, b1 := Recorded(a, u, result, opId, now), Recorded(b, u, result, opId, now);
    forall o: (User, OpId) | o.0 == u
      ensures Stored(a1.ledger, o) == Stored(b1.ledger, o)
    {
      assert Stored(a.ledger, o) == Stored(b.ledger, o);
    }
  }

  lemma OneKeepsOthers(st: State, u: User, item: PushItem, env: Env, other: User)
    requires Inv(st) && other != u && ApplyOne(st, u, item, env).Done?
    ensures SameSlice(st, ApplyOne(st, u, item, env).st, other)
    ensures st.clock <= env.now ==> st.clock <= ApplyOne(st, u, item, env).st.clock
  {
    if (u, item.opId) !in st.ledger {
      var d := Decide(st.rows, u, item, env);
      InvTyped(st);
      DecideLegal(st.rows, u, item, env);
      WritesKeepOthers(st, u, d.writes, env.now, other);
      var mid, st1 := WriteAll(st, u, d.writes, env.now), ApplyOne(st, u, item, env).st;
      forall o: (User, OpId) | o.0 == other
        ensures Stored(st.ledger, o) == Stored(st1.ledger, o)
      {
        assert Stored(st.ledger, o) == Stored(mid.ledger, o);
      }
    }
  }

  lemma SliceTransitive(a: State, b: State, c: State, u: User)
    requires SameSlice(a, b, u) && SameSlice(b, c, u)
    ensures SameSlice(a, c, u)
  {
    forall key
      ensures Fetch(a.rows, u, key) == Fetch(c.rows, u, key)
    {
      assert Fetch(a.rows, u, key) == Fetch(b.rows, u, key);
    }
    forall o: (User, OpId) | o.0 == u
      ensures Stored(a.ledger, o) == Stored(c.ledger, o)
    {
      assert Stored(a.ledger, o) == Stored(b.ledger, o);
    }
  }

  // A batch leaves the rows, log entries and ledger of every other user as they were.
  lemma {:induction false} ItemsKeepOthers(st: State, u: User, items: seq<PushItem>, env: Env, other: User)
    requires Inv(st) && st.clock <= env.now && other != u && ApplyItems(st, u, items, env).Committed?
    ensures SameSlice(st, ApplyItems(st, u, items, env).st, other)
    ensures st.clock <= ApplyItems(st, u, items, env).st.clock
    decreases |items|
  {
    if items != [] {
      var st1 := ApplyOne(st, u, items[0], env).st;
      OneKeepsOthers(st, u, items[0], env, other);
      ApplyOneInv(st, u, items[0], env);
      ItemsKeepOthers(st1, u, items[1..], env, other);
      SliceTransitive(st, st1, ApplyItems(st, u, items, env).st, other);
    }
  }

  lemma PushKeepsOthers(st: State, u: User, items: seq<PushItem>, env: Env, other: User)
    requires Inv(st) && st.clock <= env.now && other != u
    ensures SameSlice(st, ApplyPush(st, u, items, env), other) && st.clock <= ApplyPush(st, u, items, env).clock
  {
    if ApplyItems(st, u, items, env).Committed? {
      ItemsKeepOthers(st, u, items, env, other);
    }
  }

  // Two states that look the same to the user give the same answers and look the same
  // afterwards; only an id that another user holds can make one batch abort and not the other.
  lemma {:induction false} ItemsSame(a: State, b: State, u: User, items: seq<PushItem>, env: Env)
    requires Inv(a) && Inv(b) && a.clock <= env.now && b.clock <= env.now && SameSlice(a, b, u)
    ensures match (ApplyItems(a, u, items, env), ApplyItems(b, u, items, env))
      case (Committed(a', ra), Committed(b', rb)) =>
        ra == rb && SameSlice(a', b', u) && (b.clock <= a.clock ==> b'.clock <= a'.clock)
      case (Aborted(_), Committed(_, _)) => exists i :: 0 <= i < |items| && NamesForeign(a.rows, u, items[i])
      case (Committed(_, _), Aborted(_)) => exists i :: 0 <= i < |items| && NamesForeign(b.rows, u, items[i])
      case (Aborted(_), Aborted(_)) => true
    decreases |items|
  {
    if items != [] {
      OneSame(a, b, u, items[0], env);
      if ApplyOne(a, u, items[0], env).Done? && ApplyOne(b, u, items[0], env).Done? {
        var a1, b1 := ApplyOne(a, u, items[0], env).st, ApplyOne(b, u, items[0], env).st;
        ApplyOneInv(a, u, items[0], env);
        ApplyOneInv(b, u, items[0], env);
        ItemsSame(a1, b1, u, items[1..], env);
        StillForeign(a, u, items, env);
        StillForeign(b, u, items, env);
      }
    }
  }

  // A batch never changes who holds an id that another user holds.
  lemma StillForeign(st: State, u: User, items: seq<PushItem>, env: Env)
    requires Inv(st) && items != [] && ApplyOne(st, u, items[0], env).Done?
    ensures var st1 := ApplyOne(st, u, items[0], env).st;
      (exists i :: 0 <= i < |items[1..]| && NamesForeign(st1.rows, u, items[1..][i])) ==>
        exists i :: 0 <= i < |items| && NamesForeign(st.rows, u, items[i])
  {
    var st1 := ApplyOne(st, u, items[0], env).st;
    if i :| 0 <= i < |items[1..]| && NamesForeign(st1.rows, u, items[1..][i]) {
      var key := Key(items[i + 1].kind.value, items[i + 1].id);
      OneKeepsOthers(st, u, items[0], env, st1.rows[key].user);
      assert Fetch(st.rows, st1.rows[key].user, key) == Fetch(st1.rows, st1.rows[key].user, key);
      assert NamesForeign(st.rows, u, items[i + 1]);
    }
  }

  // ----- whole runs -----

  predicate Concerns(e: Event, u: User) {
    match e
    case Push(who, _, _) => who == u
    case Clean(_) => true
    case Purge(who) => who == u
  }

  // The run without the other users' pushes and purges.
  function Only(events: seq<Event>, u: User): seq<Event> {
    if events == [] then []
    else (if Concerns(events[0], u) then [events[0]] else []) + Only(events[1..], u)
  }

  // No push of the user names an id that another user holds at that time.
  predicate NoForeign(st: State, events: seq<Event>, u: User)
    decreases |events|
  {
    events == [] ||
    ((events[0].Push? && events[0].user == u ==>
        forall i :: 0 <= i < |events[0].items| ==> !NamesForeign(st.rows, u, events[0].items[i]))
     && NoForeign(After(st, events[0]), events[1..], u))
  }

  lemma {:induction false} OwnLogRecent(log: seq<LogEntry>, cutoff: Time, u: User)
    ensures OwnLog(Recent(log, cutoff), u) == Recent(OwnLog(log, u), cutoff)
  {
    if log != [] {
      var n := |log| - 1;
      var recent, own := Recent(log[..n], cutoff), OwnLog(log[..n], u);
      OwnLogRecent(log[..n], cutoff, u);
      OwnLogAppend(recent, log[n], u);
      RecentAppend(own, log[n].(seqNo := 0), cutoff);
      assert recent + [] == recent && own + [] == own;
    }
  }

  lemma {:induction false} OwnLogOthers(log: seq<LogEntry>, who: User, u: User)
    ensures OwnLog(OthersLog(log, who), u) == if who == u then [] else OwnLog(log, u)
  {
    if log != [] {
      var n := |log| - 1;
      var others := OthersLog(log[..n], who);
      OwnLogOthers(log[..n], who, u);
      OwnLogAppend(others, log[n], u);
      assert others + [] == others;
    }
  }

  lemma CleanSame(a: State, b: State, cutoff: Time, u: User)
    requires SameSlice(a, b, u)
    ensures SameSlice(Cleaned(a, cutoff), Cleaned(b, cutoff), u)
  {
    var a', b' := Cleaned(a, cutoff), Cleaned(b, cutoff);
    OwnLogRecent(a.log, cutoff, u);
    OwnLogRecent(b.log, cutoff, u);
    forall key
      ensures Fetch(a'.rows, u, key) == Fetch(b'.rows, u, key)
    {
      assert Fetch(a.rows, u, key) == Fetch(b.rows, u, key);
    }
    forall o: (User, OpId) | o.0 == u
      ensures Stored(a'.ledger, o) == Stored(b'.ledger, o)
    {
      assert Stored(a.ledger, o) == Stored(b.ledger, o);
    }
  }

  lemma PurgeSame(a: State, b: State, u: User)
    ensures SameSlice(Purged(a, u), Purged(b, u), u)
  {
    OwnLogOthers(a.log, u, u);
    OwnLogOthers(b.log, u, u);
  }

  lemma PurgeKeepsOthers(st: State, who: User, u: User)
    requires who != u
    ensures SameSlice(st, Purged(st, who), u)
  {
    OwnLogOthers(st.log, who, u);
  }

  lemma AfterOther(st: State, e: Event, u: User)
    requires Inv(st) && Timely(st, e) && !Concerns(e, u)
    ensures SameSlice(st, After(st, e), u) && st.clock <= After(st, e).clock
  {
    match e
    case Push(who, items, env) => PushKeepsOthers(st, who, items, env, u);
    case Purge(who) => PurgeKeepsOthers(st, who, u);
    case Clean(_) =>
  }

  lemma AfterSame(a: State, b: State, e: Event, u: User)
    requires Inv(a) && Inv(b) && Timely(a, e) && SameSlice(a, b, u) && b.clock <= a.clock && Concerns(e, u)
    requires NoForeign(a, [e], u) && NoForeign(b, [e], u)
    ensures SameSlice(After(a, e), After(b, e), u) && After(b, e).clock <= After(a, e).clock
  {
    match e
    case Push(_, items, env) => ItemsSame(a, b, u, items, env);
    case Clean(cutoff) => CleanSame(a, b, cutoff, u);
    case Purge(_) => PurgeSame(a, b, u);
  }

  // Over whole runs: taking every other user's requests out of a run changes nothing
  // the user can see, as long as nobody pushes an id that someone else holds.
  lemma {:induction false} RunIsolated(a: State, b: State, events: seq<Event>, u: User)
    requires Inv(a) && Inv(b) && SameSlice(a, b, u) && b.clock <= a.clock
    requires AllTimely(a, events) && NoForeign(a, events, u) && NoForeign(b, Only(events, u), u)
    ensures SameSlice(Run(a, events), Run(b, Only(events, u)), u)
    decreases |events|
  {
    if events != [] {
      var e := events[0];
      var a1 := After(a, e);
      AfterInv(a, e);
      if Concerns(e, u) {
        AfterInv(b, e);
        assert Only(events, u)[1..] == Only(events[1..], u);
        AfterSame(a, b, e, u);
        RunIsolated(a1, After(b, e), events[1..], u);
      } else {
        AfterOther(a, e, u);
        SliceSymmetric(a, a1, u);
        SliceTransitive(a1, a, b, u);
        assert Only(events, u) == Only(events[1..], u);
        RunIsolated(a1, b, events[1..], u);
      }
    }
  }

  lemma SliceSymmetric(a: State, b: State, u: User)
    requires SameSlice(a, b, u)
    ensures SameSlice(b, a, u)
  {
    assert forall key :: Fetch(a.rows, u, key) == Fetch(b.rows, u, key);
    assert forall o: (User, OpId) :: o.0 == u ==> Stored(a.ledger, o) == Stored(b.ledger, o);
  }
}
