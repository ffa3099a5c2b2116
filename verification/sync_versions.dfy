/** What versions give over whole runs: tombstones are final, a base version is
    accepted once, and resubmitting an operation without the ledger is harmless. */
module SyncVersions {
  import opened Options
  import opened SyncTypes
  import opened SyncMerge
  import opened SyncState
  import opened SyncDecide
  import opened SyncCascade
  import opened SyncRuns

  // A row that stays is the same, or was live and moved to a later version.
  predicate Later(row: Row, row': Row) {
    row' == row || (row.Live() && row'.user == row.user && row'.version > row.version)
  }

  lemma LaterTransitive(a: Row, b: Row, c: Row)
    requires Later(a, b) && Later(b, c)
    ensures Later(a, c)
  {
  }

  predicate Advances(rows: Rows, rows': Rows) {
    forall key :: key in rows ==> key in rows' && Later(rows[key], rows'[key])
  }

  lemma WritesAdvance(st: State, u: User, ws: seq<Write>, now: Time)
    requires LegalAll(st.rows, u, ws)
    ensures Advances(st.rows, WriteAll(st, u, ws, now).rows)
  {
    WriteAllRows(st, u, ws, now);
    forall key | key in st.rows
      ensures Later(st.rows[key], WriteAll(st, u, ws, now).rows[key])
    {
      if key in KeysOf(ws) {
        var i :| 0 <= i < |ws| && ws[i].key == key;
        assert Legal(st.rows, u, ws[i]);
      }
    }
  }

  lemma OneAdvances(st: State, u: User, item: PushItem, env: Env)
    requires Inv(st) && ApplyOne(st, u, item, env).Done?
    ensures Advances(st.rows, ApplyOne(st, u, item, env).st.rows)
  {
    if (u, item.opId) !in st.ledger {
      InvTyped(st);
      DecideLegal(st.rows, u, item, env);
      WritesAdvance(st, u, Decide(st.rows, u, item, env).writes, env.now);
    }
  }

  lemma {:induction false} ItemsAdvance(st: State, u: User, items: seq<PushItem>, env: Env)
    requires Inv(st) && st.clock <= env.now && ApplyItems(st, u, items, env).Committed?
    ensures Advances(st.rows, ApplyItems(st, u, items, env).st.rows)
    decreases |items|
  {
    if items != [] {
      var st1 := ApplyOne(st, u, items[0], env).st;
      OneAdvances(st, u, items[0], env);
      ApplyOneInv(st, u, items[0], env);
      ItemsAdvance(st1, u, items[1..], env);
      var st2 := ApplyItems(st, u, items, env).st;
      forall key | key in st.rows
        ensures key in st2.rows && Later(st.rows[key], st2.rows[key])
      {
        LaterTransitive(st.rows[key], st1.rows[key], st2.rows[key]);
      }
    }
  }

  lemma PushAdvances(st: State, u: User, items: seq<PushItem>, env: Env)
    requires Inv(st) && st.clock <= env.now
    ensures Advances(st.rows, ApplyPush(st, u, items, env).rows)
  {
    if ApplyItems(st, u, items, env).Committed? {
      ItemsAdvance(st, u, items, env);
    }
  }

  // No cleanup and no purge removes the row during the run.
  predicate Kept(st: State, events: seq<Event>, key: Key)
    decreases |events|
  {
    key in st.rows && (events == [] || Kept(After(st, events[0]), events[1..], key))
  }

  lemma AfterAdvances(st: State, e: Event, key: Key)
    requires Inv(st) && Timely(st, e) && key in st.rows && key in After(st, e).rows
    ensures Later(st.rows[key], After(st, e).rows[key])
  {
    if e.Push? {
      PushAdvances(st, e.user, e.items, e.env);
    }
  }

  lemma {:induction false} RunAdvances(st: State, events: seq<Event>, key: Key)
    requires Inv(st) && AllTimely(st, events) && Kept(st, events, key)
    ensures key in Run(st, events).rows && Later(st.rows[key], Run(st, events).rows[key])
    decreases |events|
  {
    if events != [] {
      var st1 := After(st, events[0]);
      AfterInv(st, events[0]);
      AfterAdvances(st, events[0], key);
      RunAdvances(st1, events[1..], key);
      LaterTransitive(st.rows[key], st1.rows[key], Run(st, events).rows[key]);
    }
  }

  // Delete wins: until it is removed, a tombstone never changes again.
  lemma TombstoneFinal(st: State, events: seq<Event>, key: Key)
    requires Inv(st) && AllTimely(st, events) && Kept(st, events, key) && !st.rows[key].Live()
    ensures key in Run(st, events).rows && Run(st, events).rows[key] == st.rows[key]
  {
    RunAdvances(st, events, key);
  }

  // ----- compare and swap -----

  // The item is an upsert of the user's existing row, and it is accepted by merging.
  predicate Merges(st: State, u: User, item: PushItem, env: Env) {
    && (u, item.opId) !in st.ledger && item.kind.Some? && item.op.PushUpsert?
    && Fetch(st.rows, u, Key(item.kind.value, item.id)).Some?
    && Decide(st.rows, u, item, env).Do? && Decide(st.rows, u, item, env).result.Accepted?
  }

  lemma MergeMovesVersion(st: State, u: User, item: PushItem, env: Env)
    requires Merges(st, u, item, env)
    ensures var key := Key(item.kind.value, item.id);
      var st' := ApplyOne(st, u, item, env).st;
      st.rows[key].version == item.base && key in st'.rows && st'.rows[key].version == item.base + 1
  {
    var key := Key(item.kind.value, item.id);
    var ws := Decide(st.rows, u, item, env).writes;
    assert ws == [Put(key, MergeContent(st.rows[key].content, item.payload, env.now), false)];
    WriteOne(st, u, ws[0], env.now);
  }

  // Within one lifetime of a row, two accepted merges never name the same base
  // version: the later one names a later version.
  lemma BaseAcceptedOnce(st: State, u: User, first: PushItem, env: Env, events: seq<Event>,
                         v: User, second: PushItem, env': Env)
    requires Inv(st) && st.clock <= env.now && Merges(st, u, first, env)
    requires var st1 := ApplyOne(st, u, first, env).st;
      && AllTimely(st1, events) && Kept(st1, events, Key(first.kind.value, first.id))
      && Merges(Run(st1, events), v, second, env')
    requires second.kind == first.kind && second.id == first.id
    ensures first.base < second.base
  {
    var st1 := ApplyOne(st, u, first, env).st;
    ApplyOneInv(st, u, first, env);
    MergeMovesVersion(st, u, first, env);
    RunAdvances(st1, events, Key(first.kind.value, first.id));
    MergeMovesVersion(Run(st1, events), v, second, env');
  }

  // ----- resubmission without the ledger -----

  // The row has moved past what the item asks for.
  predicate Spent(rows: Rows, u: User, item: PushItem) {
    item.kind.Some? &&
    match Fetch(rows, u, Key(item.kind.value, item.id))
    case None => false
    case Some(row) =>
      || !row.Live()
      || (item.op.PushUpsert? && row.version > item.base)
      || (item.op.PushUpsert? && row.version == item.base && TextClash(row.content, item.payload))
  }

  lemma SpentWritesNothing(rows: Rows, u: User, item: PushItem, env: Env)
    requires Spent(rows, u, item) && !item.op.UnknownOp?
    ensures Decide(rows, u, item, env).Do? && Decide(rows, u, item, env).writes == []
  {
  }

  lemma SpentStays(row: Row, row': Row, rows: Rows, rows': Rows, u: User, item: PushItem)
    requires Spent(rows, u, item)
    requires var key := Key(item.kind.value, item.id);
      key in rows && rows[key] == row && key in rows' && rows'[key] == row' && Later(row, row')
    requires item.op.PushUpsert? || !row.Live()
    ensures Spent(rows', u, item)
  {
  }

  predicate Inserts(rows: Rows, u: User, item: PushItem) {
    item.op.PushUpsert? && item.kind.Some? && Fetch(rows, u, Key(item.kind.value, item.id)).None?
  }

  // The operation was applied for the first time, and not rejected.
  predicate Applied(st: State, u: User, item: PushItem, env: Env) {
    && (u, item.opId) !in st.ledger
    && ApplyOne(st, u, item, env).Done? && !ApplyOne(st, u, item, env).result.Rejected?
  }

  // What a delete leaves of the deleted row itself.
  lemma RootDeleted(st: State, u: User, root: Key, scan: Scan, now: Time)
    requires Inv(st) && LiveRow(st.rows, u, root)
    ensures var rows' := WriteAll(st, u, DeleteWrites(st.rows, u, root, scan), now).rows;
      && root in rows' && rows'[root].user == u && rows'[root].version == st.rows[root].version + 1
      && rows'[root].deletedAt == Some(now) && rows'[root].updatedAt == now
  {
    DeleteExactRows(st, u, root, scan, now);
    ReachedSelf(st.rows, u, root);
    assert Left(st.rows, u, root, root, WriteAll(st, u, DeleteWrites(st.rows, u, root, scan), now).rows[root], now);
  }

  // The row an applied operation leaves behind.
  lemma AppliedRow(st: State, u: User, item: PushItem, env: Env)
    requires Inv(st) && Applied(st, u, item, env)
    ensures item.kind.Some? && !item.op.UnknownOp?
    ensures var key := Key(item.kind.value, item.id);
      var rows' := ApplyOne(st, u, item, env).st.rows;
      && key in rows' && rows'[key].user == u
      && (item.op.PushDelete? ==> !rows'[key].Live())
      && (Inserts(st.rows, u, item) ==>
            rows'[key].Live() && rows'[key].version == 1
            && rows'[key].content == NewContent(key.kind, key.id, item.payload, ParentSession(st.rows, key), env.now))
      && (item.op.PushUpsert? && !Inserts(st.rows, u, item) ==> Spent(rows', u, item))
  {
    var key := Key(item.kind.value, item.id);
    var ws := Decide(st.rows, u, item, env).writes;
    if item.op.PushDelete? {
      if LiveRow(st.rows, u, key) {
        RootDeleted(st, u, key, env.scan, env.now);
      } else if Fetch(st.rows, u, key).None? {
        assert ws == [ws[0]];
        WriteOne(st, u, ws[0], env.now);
      }
    } else if ws != [] {
      assert ws == [ws[0]];
      WriteOne(st, u, ws[0], env.now);
    }
  }

  // An applied operation is spent, except an insert that named a base of 1 or more
  // (the base of an insert is not compared with anything).
  lemma AppliedIsSpent(st: State, u: User, item: PushItem, env: Env)
    requires Inv(st) && Applied(st, u, item, env)
    ensures Spent(ApplyOne(st, u, item, env).st.rows, u, item) <==> !(Inserts(st.rows, u, item) && item.base >= 1)
  {
    AppliedRow(st, u, item, env);
    if Inserts(st.rows, u, item) {
      var key := Key(item.kind.value, item.id);
      NewContentMatchesText(key.kind, key.id, item.payload, ParentSession(st.rows, key), env.now);
    }
  }

  lemma NewContentMatchesText(kind: Kind, id: Id, p: Payload, parentSession: Id, now: Time)
    ensures !TextClash(NewContent(kind, id, p, parentSession, now), p)
  {
  }

  // The stored row that a resubmitted insert would merge into as it is now.
  predicate MergesAgain(rows: Rows, u: User, item: PushItem)
    requires item.kind.Some?
  {
    var key := Key(item.kind.value, item.id);
    && LiveRow(rows, u, key) && rows[key].version == item.base
    && ParentLive(rows, u, key.kind, key.id, item.payload) && !TextClash(rows[key].content, item.payload)
  }

  // An upsert of an existing row, its required fields present, writes exactly then.
  lemma UpsertWritesIff(rows: Rows, u: User, item: PushItem, env: Env)
    requires item.kind.Some? && item.op.PushUpsert? && Required(item.kind.value, item.payload)
    requires Fetch(rows, u, Key(item.kind.value, item.id)).Some?
    ensures Decide(rows, u, item, env).Do?
    ensures Decide(rows, u, item, env).writes != [] <==> MergesAgain(rows, u, item)
  {
  }

  lemma InsertedFields(st: State, u: User, item: PushItem, env: Env)
    requires Applied(st, u, item, env) && Inserts(st.rows, u, item)
    ensures Required(item.kind.value, item.payload)
  {
  }

  // Whatever later rows hold the row an applied operation left behind, resubmitting the
  // operation on them writes exactly when it was an insert that merges again.
  lemma ResubmitOn(st: State, u: User, item: PushItem, env: Env, rows: Rows, newId: OpId, env': Env)
    requires Inv(st) && Applied(st, u, item, env) && item.kind.Some?
    requires var key, rows1 := Key(item.kind.value, item.id), ApplyOne(st, u, item, env).st.rows;
      key in rows1 && key in rows && Later(rows1[key], rows[key])
    ensures var again := Decide(rows, u, item.(opId := newId), env');
      again.Do? && (again.writes != [] <==> Inserts(st.rows, u, item) && MergesAgain(rows, u, item))
  {
    var key, rows1 := Key(item.kind.value, item.id), ApplyOne(st, u, item, env).st.rows;
    AppliedRow(st, u, item, env);
    if Inserts(st.rows, u, item) {
      InsertedFields(st, u, item, env);
      UpsertWritesIff(rows, u, item.(opId := newId), env');
    } else {
      AppliedIsSpent(st, u, item, env);
      SpentStays(rows1[key], rows[key], rows1, rows, u, item);
      SpentStays(rows[key], rows[key], rows, rows, u, item.(opId := newId));
      SpentWritesNothing(rows, u, item.(opId := newId), env');
    }
  }

  // Replay without the ledger, exactly: after any continuation that keeps the row, an
  // applied operation resubmitted under a fresh id writes again if and only if it was an
  // insert and the row has meanwhile reached the base it named, live and mergeable.
  lemma ResubmitIff(st: State, u: User, item: PushItem, env: Env, events: seq<Event>, newId: OpId, env': Env)
    requires Inv(st) && st.clock <= env.now && Applied(st, u, item, env)
    requires var st1 := ApplyOne(st, u, item, env).st;
      item.kind.Some? && AllTimely(st1, events) && Kept(st1, events, Key(item.kind.value, item.id))
    ensures var rows := Run(ApplyOne(st, u, item, env).st, events).rows;
      var again := Decide(rows, u, item.(opId := newId), env');
      again.Do? && (again.writes != [] <==> Inserts(st.rows, u, item) && MergesAgain(rows, u, item))
  {
    var st1 := ApplyOne(st, u, item, env).st;
    ApplyOneInv(st, u, item, env);
    RunAdvances(st1, events, Key(item.kind.value, item.id));
    ResubmitOn(st, u, item, env, Run(st1, events).rows, newId, env');
  }

  // So it changes no row and no log entry unless it was an insert that named a base of 1
  // or more (the base of an insert is not compared with anything).
  lemma ResubmitHarmless(st: State, u: User, item: PushItem, env: Env, events: seq<Event>, newId: OpId, env': Env)
    requires Inv(st) && st.clock <= env.now && Applied(st, u, item, env)
    requires !(Inserts(st.rows, u, item) && item.base >= 1)
    requires var st1 := ApplyOne(st, u, item, env).st;
      item.kind.Some? && AllTimely(st1, events) && Kept(st1, events, Key(item.kind.value, item.id))
    requires (u, newId) !in Run(ApplyOne(st, u, item, env).st, events).ledger
    ensures var st2 := Run(ApplyOne(st, u, item, env).st, events);
      var again := ApplyOne(st2, u, item.(opId := newId), env');
      again.Done? && again.st.rows == st2.rows && again.st.log == st2.log && again.st.lastSeq == st2.lastSeq
  {
    var key := Key(item.kind.value, item.id);
    var st1 := ApplyOne(st, u, item, env).st;
    ResubmitIff(st, u, item, env, events, newId, env');
    AppliedRow(st, u, item, env);
    ApplyOneInv(st, u, item, env);
    RunAdvances(st1, events, key);
    assert RowOk(st1, key);
  }

  // Resubmitted at once, an applied operation writes again exactly when it was an
  // insert that named base 1.
  lemma ResubmitAtOnce(st: State, u: User, item: PushItem, env: Env, newId: OpId)
    requires Inv(st) && Applied(st, u, item, env)
    ensures var rows' := ApplyOne(st, u, item, env).st.rows;
      var again := Decide(rows', u, item.(opId := newId), env);
      again.Do? && (again.writes != [] <==> Inserts(st.rows, u, item) && item.base == 1)
  {
    AppliedRow(st, u, item, env);
    ResubmitOn(st, u, item, env, ApplyOne(st, u, item, env).st.rows, newId, env);
    if Inserts(st.rows, u, item) {
      var key := Key(item.kind.value, item.id);
      NewContentMatchesText(key.kind, key.id, item.payload, ParentSession(st.rows, key), env.now);
      ParentStaysLive(st, u, item, env);
    }
  }

  lemma ParentStaysLive(st: State, u: User, item: PushItem, env: Env)
    requires Applied(st, u, item, env) && Inserts(st.rows, u, item)
    ensures var key := Key(item.kind.value, item.id);
      Required(key.kind, item.payload)
      && ParentLive(ApplyOne(st, u, item, env).st.rows, u, key.kind, key.id, item.payload)
  {
    var key := Key(item.kind.value, item.id);
    var ws := Decide(st.rows, u, item, env).writes;
    assert ws == [ws[0]] && ws[0].key == key;
    WriteOne(st, u, ws[0], env.now);
  }
}
