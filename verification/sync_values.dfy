/** What every stored row satisfies in every run: words from the fixed lists that the
    handlers accept, and the unique slots of entries, bookmarks and favorites. */
module SyncValues {
  import opened Options
  import opened SyncTypes
  import opened SyncMerge
  import opened SyncState
  import opened SyncDecide
  import opened SyncCascade
  import opened SyncRuns
  import SyncAnswers
  import SyncFields

  // No table checks these words; only the handlers do.
  predicate WordsOk(b: Body) {
    match b
    case ScheduleBody(_, _, _, recurrence, _, _, _, _, zone, _, _, _, _, _, _) =>
      recurrence in {"weekly", "biweekly", "odd_weeks", "even_weeks", "once"} && zone != ""
    case ExceptionBody(_, kind, _, _, _, _, _, _) => kind in {"cancelled", "time_changed", "ad_hoc"}
    case ExamBody(title, kind, _, _, _, _, _, _, _, status, origin, _) =>
      && title != "" && kind in {"midterm", "final", "quiz", "lab", "oral", "report", "defense", "custom"}
      && status in {"pending", "scheduled", "done", "cancelled"} && origin in {"manual", "ai"}
    case TopicBody(title, _, importance, rating, status, _, _) =>
      && title != "" && importance in {"low", "normal", "high"} && rating in {"none", "vague", "basic", "proficient"}
      && status in {"not_started", "learning", "needs_review", "mastered"}
    case PlanBody(title, _, _, _, _, _, _, _, _, _, _, _, _, status) => title != "" && status in {"active", "paused", "archived"}
    case PlanItemBody(_, title, kind, _, _, status, _, _, _, _, _) =>
      && title != ""
      && kind in {"material", "session", "review", "task", "cards", "topic", "terms", "practice", "custom"}
      && status in {"pending", "in_progress", "done", "skipped", "deferred"}
    case ActivityBody(_, _, _, status, _) => status in {"in_progress", "completed", "abandoned"}
    case _ => true
  }

  // The place a row takes that no other row of its user and table may have.
  function Slot(c: Content): Option<(Option<Id>, int)> {
    match c.body
    case EntryBody(sequence, _, _, _, _, _, _) => Some((Ref(c, SessionCol), sequence))
    case BookmarkBody(_) => Some((Ref(c, EntryCol), 0))
    case FavoriteBody(_) => Some((Ref(c, SessionCol), 0))
    case _ => None
  }

  predicate Apart(rows: Rows, a: Key, b: Key)
    requires a in rows && b in rows
  {
    a.kind == b.kind && rows[a].user == rows[b].user && Slot(rows[a].content).Some? ==>
      Slot(rows[a].content) != Slot(rows[b].content)
  }

  // Tombstones keep their slot.
  predicate Constrained(rows: Rows) {
    && (forall k :: k in rows ==> WordsOk(rows[k].content.body))
    && (forall a, b :: a in rows && b in rows && a != b ==> Apart(rows, a, b))
  }

  // ----- the check before the version matrix -----

  // The payload that carries the whole row, with the references its kind requires.
  function CarryRow(c: Content): Payload {
    var p := SyncFields.Carry(c.body);
    p.(sessionId := Ref(c, SessionCol), entryId := Ref(c, EntryCol), examId := Ref(c, ExamCol),
       exception := p.exception.(scheduleId := Ref(c, ScheduleCol)), planItem := p.planItem.(planId := Ref(c, PlanCol)))
  }

  predicate HasRef(c: Content, col: Column) {
    Ref(c, col).Some? && Ref(c, col).value != 0
  }

  predicate RefsOk(c: Content) {
    match KindOf(c.body)
    case Entry | Note | Attachment => Ref(c, SessionCol).Some?
    case Bookmark => Ref(c, EntryCol).Some?
    case ScheduleException => HasRef(c, ScheduleCol)
    case ExamTopic | StudyPlan => HasRef(c, ExamCol)
    case StudyPlanItem => HasRef(c, PlanCol)
    case _ => true
  }

  predicate Pushable(c: Content) {
    Required(KindOf(c.body), CarryRow(c))
  }

  lemma ExamPushable(c: Content)
    requires SyncFields.Storable(c.body) && KindOf(c.body) in {Exam, ExamTopic, StudyPlan, StudyPlanItem}
    ensures Pushable(c) <==> WordsOk(c.body) && RefsOk(c)
  {
  }

  // A push that carries a whole row passes the check exactly when its words are from the
  // fixed lists and the references of its kind are there.
  lemma PushableIff(c: Content)
    requires SyncFields.Storable(c.body)
    ensures Pushable(c) <==> WordsOk(c.body) && RefsOk(c)
  {
    if KindOf(c.body) in {Exam, ExamTopic, StudyPlan, StudyPlanItem} {
      ExamPushable(c);
    }
  }

  // ----- what inserts and merges keep -----

  lemma NewWords(kind: Kind, p: Payload, now: Time)
    requires Required(kind, p)
    ensures WordsOk(NewBody(kind, p, now))
  {
  }

  lemma MergedWords(b: Body, p: Payload, now: Time)
    requires WordsOk(b) && Required(KindOf(b), p)
    ensures WordsOk(MergeBody(b, p, now))
  {
  }

  lemma MergedSlot(c: Content, p: Payload, now: Time)
    ensures Slot(MergeContent(c, p, now)) == Slot(c)
  {
  }

  lemma StubWords(kind: Kind, id: Id, p: Payload, at: Time)
    requires StubFits(kind)
    ensures WordsOk(StubContent(kind, id, p, at).body)
  {
  }

  lemma InsertedApart(rows: Rows, u: User, key: Key, row: Row)
    requires Typed(rows) && Constrained(rows) && KindOf(row.content.body) == key.kind && WordsOk(row.content.body)
    requires row.user == u && !InsertFails(rows, u, key, row.content)
    ensures Constrained(rows[key := row])
  {
    forall k | k in rows && k.kind == key.kind && rows[k].user == u && Slot(row.content).Some?
      ensures Slot(rows[k].content) != Slot(row.content)
    {
      assert !SameSlot(key.kind, rows[k].content, row.content);
    }
  }

  // Rows that keep user and slot stay constrained.
  lemma SlotsKept(rows: Rows, rows': Rows)
    requires Constrained(rows) && rows'.Keys <= rows.Keys
    requires forall k :: k in rows' ==>
      rows'[k].user == rows[k].user && Slot(rows'[k].content) == Slot(rows[k].content) && WordsOk(rows'[k].content.body)
    ensures Constrained(rows')
  {
    forall a, b | a in rows' && b in rows' && a != b
      ensures Apart(rows', a, b)
    {
      assert Apart(rows, a, b);
    }
  }

  // ----- operations -----

  // An accepted upsert carried its required fields, and its place was free.
  lemma AcceptedUpsert(st: State, u: User, item: PushItem, env: Env)
    requires (u, item.opId) !in st.ledger && item.op.PushUpsert?
    requires ApplyOne(st, u, item, env).Done? && ApplyOne(st, u, item, env).result.Accepted?
    ensures item.kind.Some? && Required(item.kind.value, item.payload)
    ensures var key := Key(item.kind.value, item.id);
      if key in st.rows then st.rows[key].user == u
      else !InsertFails(st.rows, u, key, NewContent(key.kind, key.id, item.payload, ParentSession(st.rows, key), env.now))
  {
  }

  lemma UpsertConstrained(st: State, u: User, item: PushItem, env: Env)
    requires Inv(st) && Constrained(st.rows) && (u, item.opId) !in st.ledger && item.op.PushUpsert?
    requires ApplyOne(st, u, item, env).Done? && ApplyOne(st, u, item, env).result.Accepted?
    ensures Constrained(ApplyOne(st, u, item, env).st.rows)
  {
    SyncAnswers.UpsertExact(st, u, item, env);
    AcceptedUpsert(st, u, item, env);
    InvTyped(st);
    var key := Key(item.kind.value, item.id);
    var row := ApplyOne(st, u, item, env).st.rows[key];
    if key in st.rows {
      MergeConstrained(st.rows, key, row, item.payload, env.now);
    } else {
      NewWords(key.kind, item.payload, env.now);
      NewContentKind(key.kind, key.id, item.payload, ParentSession(st.rows, key), env.now);
      InsertedApart(st.rows, u, key, row);
    }
  }

  lemma MergeConstrained(rows: Rows, key: Key, row: Row, p: Payload, now: Time)
    requires Typed(rows) && Constrained(rows) && key in rows && Required(key.kind, p)
    requires row.user == rows[key].user && row.content == MergeContent(rows[key].content, p, now)
    ensures Constrained(rows[key := row])
  {
    MergedWords(rows[key].content.body, p, now);
    MergedSlot(rows[key].content, p, now);
    SlotsKept(rows, rows[key := row]);
  }

  lemma LeftKeeps(rows: Rows, u: User, root: Key, k: Key, row': Row, now: Time)
    requires Typed(rows) && LiveRow(rows, u, root) && k in rows && WordsOk(rows[k].content.body)
    requires Left(rows, u, root, k, row', now)
    ensures row'.user == rows[k].user && Slot(row'.content) == Slot(rows[k].content) && WordsOk(row'.content.body)
  {
    GoneKeysAreReached(rows, u, root, k);
  }

  lemma DeleteConstrained(st: State, u: User, key: Key, scan: Scan, now: Time)
    requires Inv(st) && Constrained(st.rows) && LiveRow(st.rows, u, key)
    ensures Constrained(WriteAll(st, u, DeleteWrites(st.rows, u, key, scan), now).rows)
  {
    var rows' := WriteAll(st, u, DeleteWrites(st.rows, u, key, scan), now).rows;
    DeleteExactRows(st, u, key, scan, now);
    InvTyped(st);
    forall k | k in rows'
      ensures rows'[k].user == st.rows[k].user && Slot(rows'[k].content) == Slot(st.rows[k].content)
      ensures WordsOk(rows'[k].content.body)
    {
      LeftKeeps(st.rows, u, key, k, rows'[k], now);
    }
    SlotsKept(st.rows, rows');
  }

  lemma StubConstrained(st: State, u: User, key: Key, item: PushItem, env: Env)
    requires Inv(st) && Constrained(st.rows) && Fetch(st.rows, u, key).None?
    requires DecideDelete(st.rows, u, key, item, env).Do?
    ensures Constrained(WriteAll(st, u, DecideDelete(st.rows, u, key, item, env).writes, env.now).rows)
  {
    var ws := DecideDelete(st.rows, u, key, item, env).writes;
    StubWords(key.kind, key.id, item.payload, item.clientUpdatedAt);
    StubContentKind(key.kind, key.id, item.payload, item.clientUpdatedAt);
    InvTyped(st);
    assert ws == [ws[0]];
    WriteOne(st, u, ws[0], env.now);
    InsertedApart(st.rows, u, key, RowAfter(st.rows, u, ws[0], env.now));
  }

  lemma OneConstrained(st: State, u: User, item: PushItem, env: Env)
    requires Inv(st) && Constrained(st.rows) && ApplyOne(st, u, item, env).Done?
    ensures Constrained(ApplyOne(st, u, item, env).st.rows)
  {
    if (u, item.opId) !in st.ledger && item.kind.Some? && !item.op.UnknownOp? {
      var key := Key(item.kind.value, item.id);
      if item.op.PushUpsert? {
        if ApplyOne(st, u, item, env).result.Accepted? {
          UpsertConstrained(st, u, item, env);
        }
      } else if LiveRow(st.rows, u, key) {
        DeleteConstrained(st, u, key, env.scan, env.now);
      } else if Fetch(st.rows, u, key).None? {
        StubConstrained(st, u, key, item, env);
      }
    }
  }

  lemma {:induction false} ItemsConstrained(st: State, u: User, items: seq<PushItem>, env: Env)
    requires Inv(st) && st.clock <= env.now && Constrained(st.rows) && ApplyItems(st, u, items, env).Committed?
    ensures Constrained(ApplyItems(st, u, items, env).st.rows)
    decreases |items|
  {
    if items != [] {
      OneConstrained(st, u, items[0], env);
      ApplyOneInv(st, u, items[0], env);
      ItemsConstrained(ApplyOne(st, u, items[0], env).st, u, items[1..], env);
    }
  }

  lemma AfterConstrained(st: State, e: Event)
    requires Inv(st) && Timely(st, e) && Constrained(st.rows)
    ensures Constrained(After(st, e).rows)
  {
    match e
    case Push(u, items, env) =>
      if ApplyItems(st, u, items, env).Committed? {
        ItemsConstrained(st, u, items, env);
      }
    case _ => SlotsKept(st.rows, After(st, e).rows);
  }

  // In every state a run reaches, every stored row holds only accepted words, and no two
  // rows of a user, tombstones included, share a sequence number within a session, a
  // bookmarked entry or a favorite session.
  lemma {:induction false} RunConstrained(st: State, events: seq<Event>)
    requires Inv(st) && AllTimely(st, events) && Constrained(st.rows)
    ensures Constrained(Run(st, events).rows)
    decreases |events|
  {
    if events != [] {
      AfterInv(st, events[0]);
      AfterConstrained(st, events[0]);
      RunConstrained(After(st, events[0]), events[1..]);
    }
  }
}
