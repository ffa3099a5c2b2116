/** Deleting a row the server has never seen: recorded as a tombstone for some tables,
    an abort of the whole batch for the others. */
module SyncPhantom {
  import opened Options
  import opened SyncTypes
  import opened SyncMerge
  import opened SyncState
  import opened SyncDecide

  // A first submission of a delete whose row is not the user's, or not there.
  predicate Phantom(st: State, u: User, item: PushItem) {
    && (u, item.opId) !in st.ledger && item.kind.Some? && item.op.PushDelete?
    && Fetch(st.rows, u, Key(item.kind.value, item.id)).None?
  }

  // The delete is on record: a tombstone of the user at version 1, announced last.
  predicate OnRecord(st: State, st': State, u: User, key: Key, now: Time) {
    && key in st'.rows && st'.rows[key].user == u && st'.rows[key].version == 1 && st'.rows[key].deletedAt == Some(now)
    && st'.log == st.log + [LogEntry(st.lastSeq + 1, u, key, Delete, 1, now)]
    && forall k :: k in st.rows ==> k in st'.rows && st'.rows[k] == st.rows[k]
  }

  // The id is taken, by anyone, or a row of the user has the place the stub would take.
  predicate StubTaken(rows: Rows, u: User, item: PushItem)
    requires item.kind.Some?
  {
    Key(item.kind.value, item.id) in rows ||
    exists k :: k in rows && k.kind == item.kind.value && rows[k].user == u && StubPlace(rows[k].content, item)
  }

  // The stub of an entry takes its session's sequence number, those of a bookmark and a
  // favorite the place of the nil id.
  predicate StubPlace(c: Content, item: PushItem)
    requires item.kind.Some?
  {
    match item.kind.value
    case Entry =>
      Ref(c, SessionCol) == Some(Or(item.payload.sessionId, NIL)) && c.body.EntryBody?
      && c.body.sequence == Or(item.payload.entry.sequence, 0)
    case Bookmark => Ref(c, EntryCol) == Some(NIL)
    case Favorite => Ref(c, SessionCol) == Some(NIL)
    case _ => false
  }

  // The tables that take a stub row.
  predicate StubKind(kind: Kind) {
    kind in {Session, Entry, Correction, Bookmark, Favorite, Course, Note, StudyReview}
  }

  lemma StubFailsIff(rows: Rows, u: User, item: PushItem)
    requires item.kind.Some? && StubKind(item.kind.value)
    ensures var key := Key(item.kind.value, item.id);
      InsertFails(rows, u, key, StubContent(key.kind, key.id, item.payload, item.clientUpdatedAt)) <==> StubTaken(rows, u, item)
  {
    var key := Key(item.kind.value, item.id);
    var stub := StubContent(key.kind, key.id, item.payload, item.clientUpdatedAt);
    forall k | k in rows && k.kind == key.kind
      ensures SameSlot(key.kind, rows[k].content, stub) <==> StubPlace(rows[k].content, item)
    {
    }
  }

  // Exactly when such a delete is recorded: its table takes the stub row, nobody holds
  // the id, and no row of the user holds the stub's slot. Otherwise nothing changes.
  lemma PhantomDeleteIff(st: State, u: User, item: PushItem, env: Env)
    requires Phantom(st, u, item)
    ensures var key := Key(item.kind.value, item.id);
      var st' := ApplyPush(st, u, [item], env);
      && (OnRecord(st, st', u, key, env.now) <==>
            StubKind(key.kind) && !StubTaken(st.rows, u, item))
      && (!OnRecord(st, st', u, key, env.now) ==> st' == st)
  {
    var key := Key(item.kind.value, item.id);
    if StubKind(key.kind) {
      StubFailsIff(st.rows, u, item);
    }
    assert [item][1..] == [];
    var d := Decide(st.rows, u, item, env);
    if d.Do? {
      assert d.writes == [d.writes[0]];
      WriteOne(st, u, d.writes[0], env.now);
      var st1 := ApplyOne(st, u, item, env).st;
      assert ApplyItems(st1, u, [], env) == Committed(st1, []);
      assert ApplyPush(st, u, [item], env) == st1;
    } else {
      assert ApplyPush(st, u, [item], env) == st;
    }
  }

  // What the stub row of each such table holds: blank texts, a finished session, a failed
  // review, and the time of the delete where a time is due.
  function StubBody(item: PushItem): Body
    requires item.kind.Some? && StubKind(item.kind.value)
  {
    match item.kind.value
    case Session => SessionBody("", item.clientUpdatedAt, None, 0.0, "ru", "zh-CN", "finished", false)
    case Entry => EntryBody(Or(item.payload.entry.sequence, 0), 0.0, 0.0, "", None, "pending", "legacy")
    case Correction => CorrectionBody("", None, item.clientUpdatedAt, false)
    case Bookmark => BookmarkBody(false)
    case Favorite => FavoriteBody(false)
    case Course => CourseBody("", "", "", 0, false)
    case Note => NoteBody("", None)
    case StudyReview => ReviewBody("failed", "", "", "", None, None)
  }

  // A recorded delete leaves the stub as a tombstone, which later upserts are shown.
  lemma PhantomRow(st: State, u: User, item: PushItem, env: Env)
    requires Phantom(st, u, item) && StubKind(item.kind.value) && !StubTaken(st.rows, u, item)
    ensures var key := Key(item.kind.value, item.id);
      var st' := ApplyPush(st, u, [item], env);
      OnRecord(st, st', u, key, env.now) && st'.rows[key].content.body == StubBody(item)
  {
    var key := Key(item.kind.value, item.id);
    PhantomDeleteIff(st, u, item, env);
    StubFailsIff(st.rows, u, item);
    var w := Put(key, StubContent(key.kind, key.id, item.payload, item.clientUpdatedAt), true);
    assert Decide(st.rows, u, item, env).writes == [w];
    WriteOne(st, u, w, env.now);
    var st1 := ApplyOne(st, u, item, env).st;
    assert [item][1..] == [] && ApplyItems(st1, u, [], env) == Committed(st1, []);
  }

  // On an empty server it works for a session, an entry, a correction, a bookmark, a
  // favorite, a course, a note or a study review, and for nothing else.
  lemma FirstDeleteIff(u: User, item: PushItem, env: Env)
    requires item.kind.Some? && item.op.PushDelete?
    ensures OnRecord(EMPTY_STATE, ApplyPush(EMPTY_STATE, u, [item], env), u, Key(item.kind.value, item.id), env.now) <==>
              item.kind.value in {Session, Entry, Correction, Bookmark, Favorite, Course, Note, StudyReview}
  {
    PhantomDeleteIff(EMPTY_STATE, u, item, env);
  }
}
