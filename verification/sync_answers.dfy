/** What each push operation answers and leaves, told from the stored rows: the
    version matrix, rejections, database errors, and the row an answer speaks of. */
module SyncAnswers {
  import opened Options
  import opened SyncTypes
  import opened SyncMerge
  import opened SyncState
  import opened SyncDecide
  import opened SyncPhantom
  import opened SyncRuns
  import opened SyncVersions

  predicate Fresh(st: State, u: User, item: PushItem) {
    (u, item.opId) !in st.ledger
  }

  // The user has the row the item names, live or deleted.
  predicate Stored(rows: Rows, u: User, item: PushItem) {
    item.kind.Some? && var key := Key(item.kind.value, item.id); key in rows && rows[key].user == u
  }

  // An upsert that carries its required fields and hangs under a live parent.
  predicate Sound(rows: Rows, u: User, item: PushItem) {
    && item.kind.Some? && item.op.PushUpsert? && Required(item.kind.value, item.payload)
    && ParentLive(rows, u, item.kind.value, item.id, item.payload)
  }

  // ----- upserts of a stored row: the version matrix -----

  // The stored row, with version, time, content and the deleted flag.
  predicate TellsRow(r: OpResult, opId: OpId, row: Row) {
    && r.Conflict? && r.opId == opId && r.version == row.version && r.updatedAt == row.updatedAt
    && r.record.version == row.version && r.record.deleted == row.deletedAt.Some? && r.record.content == row.content
  }

  // A base ahead of the live row is rejected; a deleted row, a base behind the row and a
  // differing Russian text conflict, and the conflict tells the row; the rest is accepted.
  // Only then is something written.
  lemma MatrixIff(st: State, u: User, item: PushItem, env: Env)
    requires Fresh(st, u, item) && Stored(st.rows, u, item) && Sound(st.rows, u, item)
    ensures ApplyOne(st, u, item, env).Done?
    ensures var Done(st', r) := ApplyOne(st, u, item, env);
      var row := st.rows[Key(item.kind.value, item.id)];
      var clash := item.base == row.version && TextClash(row.content, item.payload);
      && (r.Rejected? <==> row.Live() && item.base > row.version)
      && (r.Conflict? <==> !row.Live() || item.base < row.version || clash)
      && (r.Conflict? ==> TellsRow(r, item.opId, row))
      && (!r.Accepted? ==> st'.rows == st.rows && st'.log == st.log)
  {
  }

  // ----- upserts of a row the user does not have -----

  // What a first upsert lacks of the fields only an insert needs.
  predicate Lacks(item: PushItem)
    requires item.kind.Some?
  {
    match item.kind.value
    case Session => item.payload.session.startedAt.None?
    case Bookmark => item.base != 0
    case Favorite => item.base != 0 || item.payload.isFavorite.None?
    case CourseSchedule =>
      var s := item.payload.schedule;
      !(s.semesterStart.Some? && s.semesterStart.value.Date? && s.semesterEnd.Some? && s.semesterEnd.value.Date?)
    case _ => false
  }

  // The id is taken, by anyone, or a row of the user has the sequence number of an entry,
  // the entry of a bookmark or the session of a favorite.
  predicate Taken(rows: Rows, u: User, item: PushItem)
    requires item.kind.Some?
  {
    Key(item.kind.value, item.id) in rows ||
    exists k :: k in rows && k.kind == item.kind.value && rows[k].user == u && SlotOf(rows[k].content, item)
  }

  predicate SlotOf(c: Content, item: PushItem)
    requires item.kind.Some?
  {
    var p := item.payload;
    match item.kind.value
    case Entry =>
      Ref(c, SessionCol) == Some(Or(p.sessionId, NIL)) && c.body.EntryBody? && c.body.sequence == Or(p.entry.sequence, 0)
    case Bookmark => Ref(c, EntryCol) == Some(Or(p.entryId, NIL))
    case Favorite => Ref(c, SessionCol) == Some(Or(p.sessionId, item.id))
    case _ => false
  }

  // Such an upsert is rejected exactly when a field is lacking, fails as a database error
  // exactly when its place is taken, and is accepted at version 1 otherwise.
  lemma InsertIff(st: State, u: User, item: PushItem, env: Env)
    requires Fresh(st, u, item) && !Stored(st.rows, u, item) && Sound(st.rows, u, item)
    ensures var one := ApplyOne(st, u, item, env);
      && (one.Failed? <==> !Lacks(item) && Taken(st.rows, u, item))
      && (one.Done? ==> (one.result.Rejected? <==> Lacks(item)) && !one.result.Conflict?)
  {
    var key := Key(item.kind.value, item.id);
    var content := NewContent(key.kind, key.id, item.payload, ParentSession(st.rows, key), env.now);
    forall k | k in st.rows && k.kind == key.kind
      ensures SameSlot(key.kind, st.rows[k].content, content) <==> SlotOf(st.rows[k].content, item)
    {
    }
  }

  // ----- rejections over all operations -----

  // The permanent rejections, exactly: an unknown kind or operation, an upsert that is
  // not sound, one that names a version the live row has not reached, and a first one
  // that lacks a field.
  lemma RejectedIff(st: State, u: User, item: PushItem, env: Env)
    requires Fresh(st, u, item) && ApplyOne(st, u, item, env).Done?
    ensures ApplyOne(st, u, item, env).result.Rejected? <==>
              || item.kind.None? || item.op.UnknownOp?
              || (item.op.PushUpsert? && !Sound(st.rows, u, item))
              || (item.op.PushUpsert? && !Stored(st.rows, u, item) && Lacks(item))
              || (item.op.PushUpsert? && Stored(st.rows, u, item) &&
                  var row := st.rows[Key(item.kind.value, item.id)]; row.Live() && item.base > row.version)
  {
    if item.kind.Some? && item.op.PushUpsert? && Sound(st.rows, u, item) {
      if Stored(st.rows, u, item) {
        MatrixIff(st, u, item, env);
      } else {
        InsertIff(st, u, item, env);
      }
    }
  }

  predicate BadDateIn(d: Option<WireDate>) { d.Some? && d.value.BadDate? }

  predicate NoDateIn(d: Option<WireDate>) { !(d.Some? && d.value.Date?) }

  predicate BadJsonIn(j: Option<WireJson>) { j.Some? && j.value.text != "" && !j.value.valid }

  predicate NoIdIn(id: Option<Id>) { id.None? || id.value == 0 }

  // What cannot be read of a payload, or is missing from it, whatever its words.
  predicate Malformed(kind: Kind, p: Payload) {
    var untitled := p.title.None? || p.title.value == "";
    match kind
    case Session | Correction | Favorite => false
    case Entry => p.sessionId.None? || p.entry.sequence.None? || p.entry.russian.None?
    case Bookmark => p.entryId.None?
    case Course => p.title.None?
    case Note => p.sessionId.None? || p.note.text.None?
    case StudyReview => p.review.status.None?
    case Attachment => p.sessionId.None? || p.attachment.capturedAt.None?
    case CourseSchedule =>
      || BadDateIn(p.schedule.semesterStart) || BadDateIn(p.schedule.semesterEnd)
      || BadDateIn(p.schedule.parityAnchor) || BadDateIn(p.schedule.onceDate)
      || (p.schedule.timezone.Some? && p.schedule.timezone.value.name != "" && !p.schedule.timezone.value.known)
    case ScheduleException =>
      NoIdIn(p.exception.scheduleId) || BadDateIn(p.exception.originalDate) || BadDateIn(p.exception.movedTo)
    case Exam => untitled || NoDateIn(p.exam.date) || BadJsonIn(p.exam.source)
    case ExamTopic => untitled || NoIdIn(p.examId) || BadJsonIn(p.topic.source)
    case StudyPlan =>
      || untitled || NoIdIn(p.examId) || NoDateIn(p.plan.startDate) || NoDateIn(p.plan.endDate)
      || BadJsonIn(p.plan.restDays) || BadJsonIn(p.plan.focusTopics) || BadJsonIn(p.plan.blockedTimes)
    case StudyPlanItem => untitled || NoIdIn(p.planItem.planId) || NoDateIn(p.planItem.date) || BadJsonIn(p.planItem.source)
    case StudyActivity => p.activity.startedAt.None?
  }

  // Such an upsert is rejected for good, stored row or not, and writes nothing.
  lemma MalformedRejected(st: State, u: User, item: PushItem, env: Env)
    requires Fresh(st, u, item) && item.kind.Some? && item.op.PushUpsert? && Malformed(item.kind.value, item.payload)
    ensures ApplyOne(st, u, item, env).Done?
    ensures var Done(st', r) := ApplyOne(st, u, item, env);
      r == Rejected(item.opId) && st'.rows == st.rows && st'.log == st.log
  {
    assert !Required(item.kind.value, item.payload);
  }

  // The database errors, exactly: a first upsert whose place is taken, and a delete of a row
  // the user does not have whose table takes no stub row or whose place is taken. Each
  // aborts the whole request.
  lemma FailedIff(st: State, u: User, item: PushItem, env: Env)
    requires Fresh(st, u, item)
    ensures ApplyOne(st, u, item, env).Failed? <==>
              && item.kind.Some? && !Stored(st.rows, u, item)
              && (|| (Sound(st.rows, u, item) && !Lacks(item) && Taken(st.rows, u, item))
                  || (item.op.PushDelete? && (!StubKind(item.kind.value) || StubTaken(st.rows, u, item))))
  {
    if item.kind.Some? && !Stored(st.rows, u, item) {
      if Sound(st.rows, u, item) {
        InsertIff(st, u, item, env);
      } else if item.op.PushDelete? && StubKind(item.kind.value) {
        StubFailsIff(st.rows, u, item);
      }
    }
  }

  // ----- accepted operations -----

  // An accepted upsert leaves the row at its next version, live, with the inserted or
  // merged content; it announces it, and touches nothing else.
  lemma UpsertExact(st: State, u: User, item: PushItem, env: Env)
    requires Fresh(st, u, item) && item.op.PushUpsert?
    requires ApplyOne(st, u, item, env).Done? && ApplyOne(st, u, item, env).result.Accepted?
    ensures item.kind.Some?
    ensures var Done(st', r) := ApplyOne(st, u, item, env);
      var key := Key(item.kind.value, item.id);
      var version := if key in st.rows then st.rows[key].version + 1 else 1;
      var content := if key in st.rows then MergeContent(st.rows[key].content, item.payload, env.now)
                     else NewContent(key.kind, key.id, item.payload, ParentSession(st.rows, key), env.now);
      && st'.rows == st.rows[key := Row(u, version, None, env.now, content)]
      && st'.log == st.log + [LogEntry(st.lastSeq + 1, u, key, Upsert, version, env.now)]
      && st'.lastSeq == st.lastSeq + 1
  {
    var ws := Decide(st.rows, u, item, env).writes;
    assert ws == [ws[0]];
    WriteOne(st, u, ws[0], env.now);
  }

  // The answer tells the version and time the row has afterwards.
  predicate TellsAfter(r: OpResult, item: PushItem, u: User, rows: Rows) {
    item.kind.Some? &&
    var key := Key(item.kind.value, item.id);
    && r.Accepted? && r.opId == item.opId && key in rows && rows[key].user == u
    && r.version == rows[key].version && r.updatedAt == rows[key].updatedAt
    && (rows[key].Live() <==> item.op.PushUpsert?)
  }

  // Every accepted operation of every kind, an insert, a merge or a delete, answers with
  // the version and time of the row it leaves: live after an upsert, deleted after a delete.
  lemma AcceptedTellsRow(st: State, u: User, item: PushItem, env: Env)
    requires Inv(st) && Fresh(st, u, item)
    requires ApplyOne(st, u, item, env).Done? && ApplyOne(st, u, item, env).result.Accepted?
    ensures TellsAfter(ApplyOne(st, u, item, env).result, item, u, ApplyOne(st, u, item, env).st.rows)
  {
    if item.op.PushUpsert? {
      UpsertExact(st, u, item, env);
    } else {
      DeletedTellsRow(st, u, item, env);
    }
  }

  lemma DeletedTellsRow(st: State, u: User, item: PushItem, env: Env)
    requires Inv(st) && Fresh(st, u, item) && !item.op.PushUpsert?
    requires ApplyOne(st, u, item, env).Done? && ApplyOne(st, u, item, env).result.Accepted?
    ensures TellsAfter(ApplyOne(st, u, item, env).result, item, u, ApplyOne(st, u, item, env).st.rows)
  {
    var key := Key(item.kind.value, item.id);
    if LiveRow(st.rows, u, key) {
      RootDeleted(st, u, key, env.scan, env.now);
    } else if Fetch(st.rows, u, key).None? {
      var ws := Decide(st.rows, u, item, env).writes;
      assert ws == [ws[0]];
      WriteOne(st, u, ws[0], env.now);
    }
  }

  // A delete is never rejected and never conflicts; deleting a deleted row again changes
  // nothing.
  lemma DeleteAnswers(st: State, u: User, item: PushItem, env: Env)
    requires Fresh(st, u, item) && item.kind.Some? && item.op.PushDelete?
    ensures var one := ApplyOne(st, u, item, env);
      && (one.Done? ==> one.result.Accepted?)
      && (Stored(st.rows, u, item) ==> one.Done?)
      && (Stored(st.rows, u, item) && !st.rows[Key(item.kind.value, item.id)].Live() ==>
            one.st.rows == st.rows && one.st.log == st.log)
  {
  }

  // ----- over whole runs -----

  // Once an upsert was accepted, every later upsert of the row that names a version below
  // the answered one conflicts, and is told the row as it then is, whatever ran between.
  lemma StaleAlwaysConflicts(st: State, u: User, first: PushItem, env: Env, events: seq<Event>, late: PushItem, env': Env)
    requires Inv(st) && st.clock <= env.now && Fresh(st, u, first) && first.op.PushUpsert?
    requires ApplyOne(st, u, first, env).Done? && ApplyOne(st, u, first, env).result.Accepted?
    requires late.kind.Some? && first.kind == late.kind && first.id == late.id
    requires var st1 := ApplyOne(st, u, first, env).st;
      AllTimely(st1, events) && Kept(st1, events, Key(late.kind.value, late.id))
    requires var st2 := Run(ApplyOne(st, u, first, env).st, events);
      Fresh(st2, u, late) && Sound(st2.rows, u, late) && late.base < ApplyOne(st, u, first, env).result.version
    ensures var st2, key := Run(ApplyOne(st, u, first, env).st, events), Key(late.kind.value, late.id);
      && key in st2.rows && ApplyOne(st2, u, late, env').Done?
      && TellsRow(ApplyOne(st2, u, late, env').result, late.opId, st2.rows[key])
  {
    var st1, key := ApplyOne(st, u, first, env).st, Key(late.kind.value, late.id);
    AcceptedTellsRow(st, u, first, env);
    ApplyOneInv(st, u, first, env);
    RunAdvances(st1, events, key);
    MatrixIff(Run(st1, events), u, late, env');
  }
}
