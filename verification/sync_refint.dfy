/** Referential integrity without foreign keys: what a live row belongs to is live. */
module SyncRefint {
  import opened Options
  import opened SyncTypes
  import opened SyncMerge
  import opened SyncState
  import opened SyncDecide
  import opened SyncCascade
  import opened SyncRuns

  // The kinds whose upserts are checked against a live session, directly or
  // through the corrected entry.
  predicate Hangs(kind: Kind) {
    kind.Entry? || kind.Note? || kind.StudyReview? || kind.Attachment? || kind.Correction?
  }

  predicate HasSession(rows: Rows, key: Key)
    requires key in rows
  {
    && Ref(rows[key].content, SessionCol).Some?
    && LiveRow(rows, rows[key].user, Key(Session, Ref(rows[key].content, SessionCol).value))
  }

  // Every live row of these kinds belongs to a live session of the same user.
  predicate Attached(rows: Rows) {
    forall key :: key in rows && rows[key].Live() && Hangs(key.kind) ==> HasSession(rows, key)
  }

  lemma DeleteAttached(st: State, u: User, root: Key, scan: Scan, now: Time)
    requires Inv(st) && Attached(st.rows) && LiveRow(st.rows, u, root)
    ensures Attached(WriteAll(st, u, DeleteWrites(st.rows, u, root, scan), now).rows)
  {
    var rows' := WriteAll(st, u, DeleteWrites(st.rows, u, root, scan), now).rows;
    DeleteExactRows(st, u, root, scan, now);
    forall key | key in rows' && rows'[key].Live() && Hangs(key.kind)
      ensures HasSession(rows', key)
    {
      assert Left(st.rows, u, root, key, rows'[key], now) && HasSession(st.rows, key);
      SurvivorKeepsSession(st.rows, u, root, key, rows', now);
    }
  }

  // A session is reached only when it is the deleted row itself, and then its rows are too.
  lemma SessionTakesChildren(rows: Rows, u: User, root: Key, session: Key, key: Key)
    requires LiveRow(rows, u, root) && key in rows && rows[key].Live() && Hangs(key.kind)
    requires session in rows && rows[session].user == rows[key].user
    requires session.kind == Session && Ref(rows[key].content, SessionCol) == Some(session.id)
    requires Reached(rows, u, root, session)
    ensures Reached(rows, u, root, key)
  {
    ReachedWithinTwo(rows, u, root, session);
    assert Edge(rows, u, root, key);
    ReachedChild(rows, u, root, key);
  }

  // A row that survives the delete was not tied to the deleted row, and no
  // session is deleted along with anything else.
  lemma SurvivorKeepsSession(rows: Rows, u: User, root: Key, key: Key, rows': Rows, now: Time)
    requires LiveRow(rows, u, root) && key in rows && HasSession(rows, key) && Hangs(key.kind) && rows'.Keys == rows.Keys
    requires forall k :: k in rows ==> Left(rows, u, root, k, rows'[k], now)
    requires rows'[key].Live()
    ensures HasSession(rows', key)
  {
    var session := Key(Session, Ref(rows[key].content, SessionCol).value);
    assert Left(rows, u, root, key, rows'[key], now) && Left(rows, u, root, session, rows'[session], now);
    if Reached(rows, u, root, session) {
      SessionTakesChildren(rows, u, root, session, key);
    }
    assert Ref(rows'[key].content, SessionCol) == Ref(rows[key].content, SessionCol);
  }

  // One row written live over the user's own live row or a free key.
  lemma PutAttached(st: State, u: User, w: Write, now: Time)
    requires Attached(st.rows) && Legal(st.rows, u, w)
    requires w.key in st.rows ==> !w.gone
    requires !w.gone && Hangs(w.key.kind) ==>
               Ref(w.content, SessionCol).Some? && LiveRow(st.rows, u, Key(Session, Ref(w.content, SessionCol).value))
    ensures Attached(ApplyWrite(st, u, w, now).rows)
  {
    var rows' := ApplyWrite(st, u, w, now).rows;
    forall key | key in rows' && rows'[key].Live() && Hangs(key.kind)
      ensures HasSession(rows', key)
    {
      if key != w.key {
        assert HasSession(st.rows, key);
      }
    }
  }

  lemma NewSession(rows: Rows, u: User, kind: Kind, id: Id, p: Payload, now: Time)
    requires Attached(rows) && Hangs(kind) && ParentLive(rows, u, kind, id, p)
    ensures var c := NewContent(kind, id, p, ParentSession(rows, Key(kind, id)), now);
      Ref(c, SessionCol).Some? && LiveRow(rows, u, Key(Session, Ref(c, SessionCol).value))
  {
    if kind.Correction? {
      assert HasSession(rows, Key(Entry, id));
    }
  }

  lemma UpsertAttached(st: State, u: User, key: Key, item: PushItem, env: Env)
    requires Inv(st) && Attached(st.rows) && DecideUpsert(st.rows, u, key, item, env).Do?
    ensures Attached(WriteAll(st, u, DecideUpsert(st.rows, u, key, item, env).writes, env.now).rows)
  {
    var ws := DecideUpsert(st.rows, u, key, item, env).writes;
    InvTyped(st);
    UpsertLegal(st.rows, u, key, item, env);
    if ws != [] {
      assert ws == [ws[0]];
      WriteOne(st, u, ws[0], env.now);
      if Hangs(key.kind) {
        if Fetch(st.rows, u, key).None? {
          NewSession(st.rows, u, key.kind, key.id, item.payload, env.now);
        } else {
          assert HasSession(st.rows, key);
          MergeKeepsSession(st.rows[key].content, item.payload, env.now);
        }
      }
      PutAttached(st, u, ws[0], env.now);
    }
  }

  lemma DeleteItemAttached(st: State, u: User, key: Key, item: PushItem, env: Env)
    requires Inv(st) && Attached(st.rows) && DecideDelete(st.rows, u, key, item, env).Do?
    ensures Attached(WriteAll(st, u, DecideDelete(st.rows, u, key, item, env).writes, env.now).rows)
  {
    var ws := DecideDelete(st.rows, u, key, item, env).writes;
    if LiveRow(st.rows, u, key) {
      DeleteAttached(st, u, key, env.scan, env.now);
    } else if ws != [] {
      InvTyped(st);
      DeleteLegal(st.rows, u, key, item, env);
      assert ws == [ws[0]];
      WriteOne(st, u, ws[0], env.now);
      PutAttached(st, u, ws[0], env.now);
    }
  }

  lemma OneAttached(st: State, u: User, item: PushItem, env: Env)
    requires Inv(st) && Attached(st.rows) && ApplyOne(st, u, item, env).Done?
    ensures Attached(ApplyOne(st, u, item, env).st.rows)
  {
    if (u, item.opId) !in st.ledger && item.kind.Some? && !item.op.UnknownOp? {
      var key := Key(item.kind.value, item.id);
      if item.op.PushDelete? {
        DeleteItemAttached(st, u, key, item, env);
      } else {
        UpsertAttached(st, u, key, item, env);
      }
    }
  }

  lemma {:induction false} ItemsAttached(st: State, u: User, items: seq<PushItem>, env: Env)
    requires Inv(st) && st.clock <= env.now && Attached(st.rows) && ApplyItems(st, u, items, env).Committed?
    ensures Attached(ApplyItems(st, u, items, env).st.rows)
    decreases |items|
  {
    if items != [] {
      OneAttached(st, u, items[0], env);
      ApplyOneInv(st, u, items[0], env);
      ItemsAttached(ApplyOne(st, u, items[0], env).st, u, items[1..], env);
    }
  }

  // Cleanups remove only tombstones; a purge removes all rows of one user.
  lemma RemovalAttached(rows: Rows, rows': Rows)
    requires Attached(rows) && rows'.Keys <= rows.Keys && (forall key :: key in rows' ==> rows'[key] == rows[key])
    requires forall key, other :: key in rows' && other in rows && rows[other].Live() && rows[other].user == rows[key].user
               ==> other in rows'
    ensures Attached(rows')
  {
    forall key | key in rows' && rows'[key].Live() && Hangs(key.kind)
      ensures HasSession(rows', key)
    {
      assert HasSession(rows, key);
    }
  }

  lemma AfterAttached(st: State, e: Event)
    requires Inv(st) && Timely(st, e) && Attached(st.rows)
    ensures Attached(After(st, e).rows)
  {
    match e
    case Push(u, items, env) =>
      if ApplyItems(st, u, items, env).Committed? {
        ItemsAttached(st, u, items, env);
      }
    case _ => RemovalAttached(st.rows, After(st, e).rows);
  }

  // In every state a run of pushes, cleanups and purges reaches, every live entry,
  // note, study review, attachment and correction belongs to a live session of its user.
  lemma {:induction false} RunAttached(st: State, events: seq<Event>)
    requires Inv(st) && AllTimely(st, events) && Attached(st.rows)
    ensures Attached(Run(st, events).rows)
    decreases |events|
  {
    if events != [] {
      AfterInv(st, events[0]);
      AfterAttached(st, events[0]);
      RunAttached(After(st, events[0]), events[1..]);
    }
  }
}
