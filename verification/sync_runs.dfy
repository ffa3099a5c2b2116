/** Whole runs: pushes, the retention cleanup and account purges, in any order,
    and the invariant they all keep (ApplyPush; RunTombstoneCleanup in
    internal/sync/cleanup.go; PurgeUserSyncData in internal/store/users.go). */
module SyncRuns {
  import opened Options
  import opened SyncTypes
  import opened SyncMerge
  import opened SyncState
  import opened SyncDecide
  import opened SyncCascade

  // ----- pushes -----

  lemma DecideLegal(rows: Rows, u: User, item: PushItem, env: Env)
    requires Typed(rows) && Decide(rows, u, item, env).Do?
    ensures LegalAll(rows, u, Decide(rows, u, item, env).writes)
  {
    if item.kind.Some? && !item.op.UnknownOp? {
      var key := Key(item.kind.value, item.id);
      if item.op.PushDelete? {
        DeleteLegal(rows, u, key, item, env);
      } else {
        UpsertLegal(rows, u, key, item, env);
      }
    }
  }

  lemma DeleteLegal(rows: Rows, u: User, key: Key, item: PushItem, env: Env)
    requires Typed(rows) && DecideDelete(rows, u, key, item, env).Do?
    ensures LegalAll(rows, u, DecideDelete(rows, u, key, item, env).writes)
  {
    if LiveRow(rows, u, key) {
      DeleteTouchesReached(rows, u, key, env.scan);
    } else if Fetch(rows, u, key).None? {
      StubContentKind(key.kind, key.id, item.payload, item.clientUpdatedAt);
    }
  }

  lemma UpsertLegal(rows: Rows, u: User, key: Key, item: PushItem, env: Env)
    requires Typed(rows) && DecideUpsert(rows, u, key, item, env).Do?
    ensures LegalAll(rows, u, DecideUpsert(rows, u, key, item, env).writes)
  {
    match Fetch(rows, u, key)
    case None => NewContentKind(key.kind, key.id, item.payload, ParentSession(rows, key), env.now);
    case Some(row) => MergeContentKind(row.content, item.payload, env.now);
  }

  lemma ApplyOneInv(st: State, u: User, item: PushItem, env: Env)
    requires Inv(st) && st.clock <= env.now && ApplyOne(st, u, item, env).Done?
    ensures Inv(ApplyOne(st, u, item, env).st) && ApplyOne(st, u, item, env).st.clock <= env.now
    ensures WholeHistory(st) ==> WholeHistory(ApplyOne(st, u, item, env).st)
  {
    if (u, item.opId) !in st.ledger {
      var d := Decide(st.rows, u, item, env);
      InvTyped(st);
      DecideLegal(st.rows, u, item, env);
      WriteAllInv(st, u, d.writes, env.now);
      RecordedInv(WriteAll(st, u, d.writes, env.now), u, d.result, item.opId, env.now);
    }
  }

  lemma RecordedInv(st: State, u: User, result: OpResult, opId: OpId, now: Time)
    requires Inv(st) && st.clock <= now
    ensures Inv(Recorded(st, u, result, opId, now))
    ensures WholeHistory(st) ==> WholeHistory(Recorded(st, u, result, opId, now))
  {
    var st' := Recorded(st, u, result, opId, now);
    forall k | k in st'.rows
      ensures RowOk(st', k)
    {
      assert RowOk(st, k);
    }
    forall i | 0 <= i < |st'.log|
      ensures EntryOk(st', st'.log[i])
    {
      assert EntryOk(st, st.log[i]);
    }
  }

  lemma {:induction false} ApplyItemsInv(st: State, u: User, items: seq<PushItem>, env: Env)
    requires Inv(st) && st.clock <= env.now
    ensures match ApplyItems(st, u, items, env)
      case Aborted(n) => st.lastSeq <= n
      case Committed(st', results) =>
        Inv(st') && st'.clock <= env.now && |results| == |items| && (WholeHistory(st) ==> WholeHistory(st'))
        && st.lastSeq <= st'.lastSeq
    decreases |items|
  {
    if items != [] && ApplyOne(st, u, items[0], env).Done? {
      ApplyOneInv(st, u, items[0], env);
      ApplyOneSeq(st, u, items[0], env);
      ApplyItemsInv(ApplyOne(st, u, items[0], env).st, u, items[1..], env);
    }
  }

  lemma ApplyOneSeq(st: State, u: User, item: PushItem, env: Env)
    requires Inv(st) && ApplyOne(st, u, item, env).Done?
    ensures st.lastSeq <= ApplyOne(st, u, item, env).st.lastSeq
  {
    if (u, item.opId) !in st.ledger {
      InvTyped(st);
      DecideLegal(st.rows, u, item, env);
      WriteAllLog(st, u, Decide(st.rows, u, item, env).writes, env.now);
    }
  }

  lemma ApplyPushInv(st: State, u: User, items: seq<PushItem>, env: Env)
    requires Inv(st) && st.clock <= env.now
    ensures Inv(ApplyPush(st, u, items, env))
    ensures WholeHistory(st) ==> WholeHistory(ApplyPush(st, u, items, env))
    ensures st.lastSeq <= ApplyPush(st, u, items, env).lastSeq
  {
    ApplyItemsInv(st, u, items, env);
    var outcome := ApplyItems(st, u, items, env);
    if outcome.Aborted? {
      BurntInv(st, outcome.lastSeq);
    }
  }

  lemma BurntInv(st: State, n: nat)
    requires Inv(st) && st.lastSeq <= n
    ensures Inv(st.(lastSeq := n)) && (WholeHistory(st) ==> WholeHistory(st.(lastSeq := n)))
  {
    var st' := st.(lastSeq := n);
    forall k | k in st'.rows
      ensures RowOk(st', k)
    {
      assert RowOk(st, k);
    }
    forall i | 0 <= i < |st'.log|
      ensures EntryOk(st', st'.log[i])
    {
      assert EntryOk(st, st.log[i]);
    }
  }

  // ----- the retention cleanup -----

  // The entries young enough to stay.
  function Recent(log: seq<LogEntry>, cutoff: Time): seq<LogEntry> {
    if log == [] then []
    else
      var n := |log| - 1;
      Recent(log[..n], cutoff) + if log[n].createdAt < cutoff then [] else [log[n]]
  }

  predicate Expired(row: Row, cutoff: Time) {
    row.deletedAt.Some? && row.deletedAt.value < cutoff
  }

  // Old tombstones go, and so do old log entries and ledger results of any row.
  function Cleaned(st: State, cutoff: Time): State {
    st.(rows := map k | k in st.rows && !Expired(st.rows[k], cutoff) :: st.rows[k],
        log := Recent(st.log, cutoff),
        ledger := map o | o in st.ledger && st.ledger[o].at >= cutoff :: st.ledger[o])
  }

  lemma {:induction false} HistoryRecent(log: seq<LogEntry>, cutoff: Time, key: Key)
    ensures History(Recent(log, cutoff), key) == Recent(History(log, key), cutoff)
  {
    if log != [] {
      var n := |log| - 1;
      var recent, h := Recent(log[..n], cutoff), History(log[..n], key);
      HistoryRecent(log[..n], cutoff, key);
      HistoryAppend(recent, log[n], key);
      RecentAppend(h, log[n], cutoff);
      assert recent + [] == recent && h + [] == h;
    }
  }

  lemma RecentAppend(log: seq<LogEntry>, e: LogEntry, cutoff: Time)
    ensures Recent(log + [e], cutoff) == Recent(log, cutoff) + if e.createdAt < cutoff then [] else [e]
  {
    assert (log + [e])[..|log|] == log;
  }

  // On a log in time order, what stays is a suffix: the cleanup drops a prefix.
  lemma {:induction false} RecentIsSuffix(log: seq<LogEntry>, cutoff: Time) returns (n: nat)
    requires Ordered(log)
    ensures n <= |log| && Recent(log, cutoff) == log[n..]
    ensures forall i :: 0 <= i < n ==> log[i].createdAt < cutoff
    ensures forall i :: n <= i < |log| ==> log[i].createdAt >= cutoff
  {
    if log == [] {
      n := 0;
    } else {
      var m := |log| - 1;
      var k := RecentIsSuffix(log[..m], cutoff);
      assert forall i :: 0 <= i < m ==> log[..m][i] == log[i];
      if log[m].createdAt < cutoff {
        assert k == m && log[..m][k..] == [];
        n := |log|;
      } else {
        n := k;
        assert log[..m][n..] + [log[m]] == log[n..];
      }
    }
  }

  lemma {:induction false} HistoryOrdered(log: seq<LogEntry>, key: Key)
    requires Ordered(log)
    ensures Ordered(History(log, key))
    ensures forall i :: 0 <= i < |History(log, key)| ==> History(log, key)[i] in log
  {
    if log != [] {
      var n := |log| - 1;
      HistoryOrdered(log[..n], key);
      assert forall e :: e in History(log[..n], key) ==> e in log[..n];
    }
  }

  // What the cleanup leaves of one row's history still tells its version.
  lemma TellsRecent(h: seq<LogEntry>, row: Row, cutoff: Time)
    requires Tells(h, row) && Ordered(h) && !Expired(row, cutoff)
    ensures Tells(Recent(h, cutoff), row)
  {
    var n := RecentIsSuffix(h, cutoff);
  }

  lemma CleanedRowOk(st: State, cutoff: Time, key: Key)
    requires Inv(st) && key in Cleaned(st, cutoff).rows
    ensures RowOk(Cleaned(st, cutoff), key)
  {
    assert RowOk(st, key);
    HistoryRecent(st.log, cutoff, key);
    HistoryOrdered(st.log, key);
    TellsRecent(History(st.log, key), st.rows[key], cutoff);
  }

  lemma {:induction false} MemberHistory(log: seq<LogEntry>, i: nat)
    requires i < |log|
    ensures log[i] in History(log, log[i].key)
  {
    var n := |log| - 1;
    if i < n {
      MemberHistory(log[..n], i);
      assert log[..n][i] == log[i];
    }
  }

  // A row the cleanup removes takes its whole history with it.
  lemma ExpiredHasNoHistory(st: State, cutoff: Time, key: Key)
    requires Inv(st) && key in st.rows && Expired(st.rows[key], cutoff)
    ensures History(Cleaned(st, cutoff).log, key) == []
  {
    assert RowOk(st, key);
    var h := History(st.log, key);
    HistoryRecent(st.log, cutoff, key);
    HistoryOrdered(st.log, key);
    var n := RecentIsSuffix(h, cutoff);
    assert h[|h| - 1].createdAt < cutoff;
  }

  // The cleanup keeps the invariant: it drops a prefix of the log, never leaves an
  // entry without its row, and removes a tombstone exactly when it removes the
  // tombstone's delete entry.
  lemma CleanedInv(st: State, cutoff: Time)
    requires Inv(st)
    ensures Inv(Cleaned(st, cutoff))
    ensures exists n: nat :: n <= |st.log| && Cleaned(st, cutoff).log == st.log[n..]
  {
    var st' := Cleaned(st, cutoff);
    var n := RecentIsSuffix(st.log, cutoff);
    forall key | key in st'.rows
      ensures RowOk(st', key)
    {
      CleanedRowOk(st, cutoff, key);
    }
    forall i | 0 <= i < |st'.log|
      ensures EntryOk(st', st'.log[i])
    {
      assert st'.log[i] == st.log[n + i] && EntryOk(st, st.log[n + i]);
      MemberHistory(st'.log, i);
      if Expired(st.rows[st'.log[i].key], cutoff) {
        ExpiredHasNoHistory(st, cutoff, st'.log[i].key);
      }
    }
  }

  lemma DeleteEntryTime(st: State, i: nat)
    requires Inv(st) && i < |st.log| && st.log[i].op == Delete
    ensures st.log[i].key in st.rows && st.rows[st.log[i].key].deletedAt == Some(st.log[i].createdAt)
  {
    var e := st.log[i];
    assert EntryOk(st, e) && RowOk(st, e.key);
    MemberHistory(st.log, i);
    LastTellsTime(History(st.log, e.key), st.rows[e.key], e);
  }

  lemma LastTellsTime(h: seq<LogEntry>, row: Row, e: LogEntry)
    requires Tells(h, row) && e in h && e.op == Delete
    ensures row.deletedAt == Some(e.createdAt)
  {
    var j :| 0 <= j < |h| && h[j] == e;
    assert j == |h| - 1;
  }

  lemma KeptExactly(log: seq<LogEntry>, cutoff: Time, i: nat)
    requires Ordered(log) && i < |log|
    ensures log[i] in Recent(log, cutoff) <==> log[i].createdAt >= cutoff
  {
    var n := RecentIsSuffix(log, cutoff);
    if i >= n {
      assert log[n..][i - n] == log[i];
    }
    if log[i] in log[n..] {
      var m :| 0 <= m < |log[n..]| && log[n..][m] == log[i];
      assert log[n + m] == log[i];
    }
  }

  lemma TombstoneGoesWithItsEntry(st: State, cutoff: Time, i: nat)
    requires Inv(st) && i < |st.log| && st.log[i].op == Delete
    ensures st.log[i].key in st.rows
    ensures st.log[i].key in Cleaned(st, cutoff).rows <==> st.log[i] in Cleaned(st, cutoff).log
  {
    DeleteEntryTime(st, i);
    KeptExactly(st.log, cutoff, i);
  }

  // ----- the account purge -----

  function OthersLog(log: seq<LogEntry>, u: User): seq<LogEntry> {
    if log == [] then []
    else
      var n := |log| - 1;
      OthersLog(log[..n], u) + if log[n].user == u then [] else [log[n]]
  }

  function Purged(st: State, u: User): State {
    st.(rows := map k | k in st.rows && st.rows[k].user != u :: st.rows[k],
        log := OthersLog(st.log, u),
        ledger := map o | o in st.ledger && o.0 != u :: st.ledger[o])
  }

  lemma {:induction false} OthersLogMembers(log: seq<LogEntry>, u: User)
    requires Ordered(log)
    ensures Ordered(OthersLog(log, u))
    ensures forall i :: 0 <= i < |OthersLog(log, u)| ==> OthersLog(log, u)[i] in log && OthersLog(log, u)[i].user != u
  {
    if log != [] {
      var n := |log| - 1;
      var others, all := OthersLog(log[..n], u), OthersLog(log, u);
      OthersLogMembers(log[..n], u);
      forall i | 0 <= i < |all|
        ensures all[i] in log && all[i].user != u
        ensures i < |others| && |others| < |all| ==> all[i].seqNo < log[n].seqNo && all[i].createdAt <= log[n].createdAt
      {
        if i < |others| {
          assert all[i] == others[i];
          var j :| 0 <= j < n && log[..n][j] == others[i];
          assert log[j] == all[i];
        }
      }
    }
  }

  // Rows of other users keep their histories.
  lemma {:induction false} HistoryOthers(log: seq<LogEntry>, u: User, key: Key)
    requires forall i :: 0 <= i < |log| && log[i].key == key ==> log[i].user != u
    ensures History(OthersLog(log, u), key) == History(log, key)
  {
    if log != [] {
      var n := |log| - 1;
      var others, h := OthersLog(log[..n], u), History(log[..n], key);
      HistoryOthers(log[..n], u, key);
      HistoryAppend(others, log[n], key);
      assert others + [] == others && h + [] == h;
    }
  }

  lemma PurgedInv(st: State, u: User)
    requires Inv(st)
    ensures Inv(Purged(st, u))
    ensures WholeHistory(st) ==> WholeHistory(Purged(st, u))
  {
    var st' := Purged(st, u);
    OthersLogMembers(st.log, u);
    assert forall i :: 0 <= i < |st.log| ==> EntryOk(st, st.log[i]);
    forall key | key in st'.rows
      ensures RowOk(st', key) && History(st'.log, key) == History(st.log, key)
    {
      assert RowOk(st, key);
      HistoryOthers(st.log, u, key);
    }
    forall i | 0 <= i < |st'.log|
      ensures EntryOk(st', st'.log[i])
    {
      assert st'.log[i] in st.log;
    }
  }

  // ----- runs -----

  datatype Event =
    | Push(user: User, items: seq<PushItem>, env: Env)
    | Clean(cutoff: Time)
    | Purge(who: User)

  function After(st: State, e: Event): State {
    match e
    case Push(u, items, env) => ApplyPush(st, u, items, env)
    case Clean(cutoff) => Cleaned(st, cutoff)
    case Purge(u) => Purged(st, u)
  }

  function Run(st: State, events: seq<Event>): State
    decreases |events|
  {
    if events == [] then st else Run(After(st, events[0]), events[1..])
  }

  // The clock never runs backwards from one transaction to the next.
  predicate Timely(st: State, e: Event) {
    e.Push? ==> st.clock <= e.env.now
  }

  predicate AllTimely(st: State, events: seq<Event>)
    decreases |events|
  {
    events == [] || (Timely(st, events[0]) && AllTimely(After(st, events[0]), events[1..]))
  }

  lemma AfterInv(st: State, e: Event)
    requires Inv(st) && Timely(st, e)
    ensures Inv(After(st, e))
    ensures !e.Clean? && WholeHistory(st) ==> WholeHistory(After(st, e))
  {
    match e
    case Push(u, items, env) => ApplyPushInv(st, u, items, env);
    case Clean(cutoff) => CleanedInv(st, cutoff);
    case Purge(u) => PurgedInv(st, u);
  }

  // The log/row invariant holds after every run of pushes, cleanups and purges;
  // without cleanups every row keeps its whole history.
  lemma {:induction false} RunInv(st: State, events: seq<Event>)
    requires Inv(st) && AllTimely(st, events)
    ensures Inv(Run(st, events))
    ensures WholeHistory(st) && (forall i :: 0 <= i < |events| ==> !events[i].Clean?) ==> WholeHistory(Run(st, events))
    decreases |events|
  {
    if events != [] {
      AfterInv(st, events[0]);
      RunInv(After(st, events[0]), events[1..]);
    }
  }
}
