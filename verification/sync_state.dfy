/** The stored state and its one kind of change: a write puts a row's next
    version and appends the matching change-log entry in the same transaction. */
module SyncState {
  import opened Options
  import opened SyncTypes
  import opened SyncMerge

  datatype Receipt = Receipt(result: OpResult, at: Time)

  // clock is the time of the last transaction that wrote something.
  datatype State = State(
    rows: Rows, log: seq<LogEntry>, lastSeq: nat, ledger: map<(User, OpId), Receipt>, clock: Time)

  datatype Write = Put(key: Key, content: Content, gone: bool)

  function NextVersion(rows: Rows, key: Key): nat {
    if key in rows then rows[key].version + 1 else 1
  }

  function RowAfter(rows: Rows, u: User, w: Write, now: Time): Row {
    Row(u, NextVersion(rows, w.key), if w.gone then Some(now) else None, now, w.content)
  }

  function EntryAfter(st: State, u: User, w: Write, now: Time): LogEntry {
    LogEntry(st.lastSeq + 1, u, w.key, if w.gone then Delete else Upsert, NextVersion(st.rows, w.key), now)
  }

  function ApplyWrite(st: State, u: User, w: Write, now: Time): State {
    State(st.rows[w.key := RowAfter(st.rows, u, w, now)], st.log + [EntryAfter(st, u, w, now)],
          st.lastSeq + 1, st.ledger, now)
  }

  function WriteAll(st: State, u: User, ws: seq<Write>, now: Time): State
    decreases |ws|
  {
    if ws == [] then st else WriteAll(ApplyWrite(st, u, ws[0], now), u, ws[1..], now)
  }

  // A write may create a row or move the user's own live row to its next version.
  predicate Legal(rows: Rows, u: User, w: Write) {
    KindOf(w.content.body) == w.key.kind && (w.key in rows ==> rows[w.key].user == u && rows[w.key].Live())
  }

  predicate DistinctKeys(ws: seq<Write>) {
    forall i, j :: 0 <= i < j < |ws| ==> ws[i].key != ws[j].key
  }

  predicate LegalAll(rows: Rows, u: User, ws: seq<Write>) {
    DistinctKeys(ws) && forall i :: 0 <= i < |ws| ==> Legal(rows, u, ws[i])
  }

  function KeysOf(ws: seq<Write>): set<Key> {
    set i | 0 <= i < |ws| :: ws[i].key
  }

  // ----- the log/row invariant -----

  // The log entries of one row, oldest first.
  function History(log: seq<LogEntry>, key: Key): seq<LogEntry> {
    if log == [] then []
    else
      var n := |log| - 1;
      History(log[..n], key) + if log[n].key == key then [log[n]] else []
  }

  predicate Ordered(log: seq<LogEntry>) {
    forall i, j :: 0 <= i < j < |log| ==> log[i].seqNo < log[j].seqNo && log[i].createdAt <= log[j].createdAt
  }

  // The entries of a row are a consecutive run of versions ending at its current
  // one; only the last can be a delete, and it is one exactly when the row is a tombstone.
  predicate Tells(h: seq<LogEntry>, row: Row) {
    && 1 <= row.version && |h| <= row.version
    && (forall i :: 0 <= i < |h| ==>
          h[i].version == row.version - |h| + 1 + i && (h[i].op == Delete <==> i == |h| - 1 && !row.Live()))
    && (h != [] ==> h[|h| - 1].createdAt == row.updatedAt)
    && (!row.Live() ==> h != [] && row.deletedAt == Some(row.updatedAt))
  }

  predicate RowOk(st: State, key: Key)
    requires key in st.rows
  {
    && Tells(History(st.log, key), st.rows[key])
    && KindOf(st.rows[key].content.body) == key.kind
    && st.rows[key].updatedAt <= st.clock
  }

  predicate EntryOk(st: State, e: LogEntry) {
    1 <= e.seqNo <= st.lastSeq && e.createdAt <= st.clock && e.key in st.rows && st.rows[e.key].user == e.user
  }

  predicate Inv(st: State) {
    && Ordered(st.log)
    && (forall i :: 0 <= i < |st.log| ==> EntryOk(st, st.log[i]))
    && (forall key :: key in st.rows ==> RowOk(st, key))
  }

  // Nothing has been pruned: every row still has its whole history.
  predicate WholeHistory(st: State) {
    forall key :: key in st.rows ==> |History(st.log, key)| == st.rows[key].version
  }

  const EMPTY_STATE := State(map[], [], 0, map[], 0)

  lemma EmptyStateInv()
    ensures Inv(EMPTY_STATE) && WholeHistory(EMPTY_STATE)
  {
  }

  lemma HistoryAppend(log: seq<LogEntry>, e: LogEntry, key: Key)
    ensures History(log + [e], key) == History(log, key) + if e.key == key then [e] else []
  {
    assert (log + [e])[..|log|] == log;
  }

  lemma OtherRowOk(st: State, u: User, w: Write, now: Time, key: Key)
    requires key in st.rows && key != w.key && RowOk(st, key) && st.clock <= now
    ensures key in ApplyWrite(st, u, w, now).rows && RowOk(ApplyWrite(st, u, w, now), key)
    ensures History(ApplyWrite(st, u, w, now).log, key) == History(st.log, key)
  {
    HistoryAppend(st.log, EntryAfter(st, u, w, now), key);
  }

  lemma NextTells(h: seq<LogEntry>, e: LogEntry, row: Row, row': Row)
    requires Tells(h, row) && row.Live()
    requires row'.version == row.version + 1 == e.version && row'.updatedAt == e.createdAt
    requires row'.deletedAt == if e.op == Delete then Some(e.createdAt) else None
    ensures Tells(h + [e], row')
  {
    forall i | 0 <= i < |h| + 1
      ensures (h + [e])[i].version == row'.version - |h + [e]| + 1 + i
      ensures (h + [e])[i].op == Delete <==> i == |h| && !row'.Live()
    {
      assert i < |h| ==> (h + [e])[i] == h[i];
    }
  }

  lemma FirstTells(e: LogEntry, row': Row)
    requires row'.version == 1 == e.version && row'.updatedAt == e.createdAt
    requires row'.deletedAt == if e.op == Delete then Some(e.createdAt) else None
    ensures Tells([] + [e], row')
  {
    assert [] + [e] == [e];
  }

  lemma WrittenRowOk(st: State, u: User, w: Write, now: Time)
    requires Legal(st.rows, u, w)
    requires if w.key in st.rows then RowOk(st, w.key) else History(st.log, w.key) == []
    ensures RowOk(ApplyWrite(st, u, w, now), w.key)
    ensures |History(ApplyWrite(st, u, w, now).log, w.key)| == |History(st.log, w.key)| + 1
  {
    var e := EntryAfter(st, u, w, now);
    var row' := RowAfter(st.rows, u, w, now);
    var st' := ApplyWrite(st, u, w, now);
    HistoryAppend(st.log, e, w.key);
    assert Tells(History(st'.log, w.key), row') by {
      if w.key in st.rows {
        NextTells(History(st.log, w.key), e, st.rows[w.key], row');
      } else {
        FirstTells(e, row');
      }
    }
    assert st'.rows[w.key] == row';
  }

  lemma EntriesOk(st: State, u: User, w: Write, now: Time)
    requires Ordered(st.log) && (forall i :: 0 <= i < |st.log| ==> EntryOk(st, st.log[i]))
    requires Legal(st.rows, u, w) && st.clock <= now
    ensures var st' := ApplyWrite(st, u, w, now);
      Ordered(st'.log) && forall i :: 0 <= i < |st'.log| ==> EntryOk(st', st'.log[i])
  {
    var st' := ApplyWrite(st, u, w, now);
    forall i | 0 <= i < |st'.log|
      ensures EntryOk(st', st'.log[i])
    {
      assert i < |st.log| ==> EntryOk(st, st.log[i]);
    }
    forall i, j | 0 <= i < j < |st'.log|
      ensures st'.log[i].seqNo < st'.log[j].seqNo && st'.log[i].createdAt <= st'.log[j].createdAt
    {
      assert EntryOk(st, st.log[i]);
    }
  }

  lemma RowOkAfter(st: State, u: User, w: Write, now: Time, key: Key)
    requires Inv(st) && Legal(st.rows, u, w) && st.clock <= now
    requires key in ApplyWrite(st, u, w, now).rows
    ensures RowOk(ApplyWrite(st, u, w, now), key)
    ensures (key in st.rows ==> |History(st.log, key)| == st.rows[key].version) ==>
              |History(ApplyWrite(st, u, w, now).log, key)| == ApplyWrite(st, u, w, now).rows[key].version
  {
    if key != w.key {
      assert RowOk(st, key);
      OtherRowOk(st, u, w, now, key);
    } else {
      if key in st.rows {
        assert RowOk(st, key);
      } else {
        NoRowNoHistory(st, key);
      }
      WrittenRowOk(st, u, w, now);
    }
  }

  // Every write step keeps the invariant, and keeps histories whole.
  lemma ApplyWriteInv(st: State, u: User, w: Write, now: Time)
    requires Inv(st) && Legal(st.rows, u, w) && st.clock <= now
    ensures Inv(ApplyWrite(st, u, w, now))
    ensures WholeHistory(st) ==> WholeHistory(ApplyWrite(st, u, w, now))
  {
    EntriesOk(st, u, w, now);
    forall key | key in ApplyWrite(st, u, w, now).rows
      ensures RowOk(ApplyWrite(st, u, w, now), key)
      ensures (key in st.rows ==> |History(st.log, key)| == st.rows[key].version) ==>
                |History(ApplyWrite(st, u, w, now).log, key)| == ApplyWrite(st, u, w, now).rows[key].version
    {
      RowOkAfter(st, u, w, now, key);
    }
  }

  lemma HistoryMembers(log: seq<LogEntry>, key: Key, i: nat)
    requires i < |History(log, key)|
    ensures History(log, key)[i].key == key
    ensures exists j :: 0 <= j < |log| && log[j] == History(log, key)[i]
  {
    var n := |log| - 1;
    if i < |History(log[..n], key)| {
      HistoryMembers(log[..n], key, i);
      var j :| 0 <= j < n && log[..n][j] == History(log[..n], key)[i];
      assert log[j] == History(log, key)[i];
    } else {
      assert log[n] == History(log, key)[i];
    }
  }

  lemma NoRowNoHistory(st: State, key: Key)
    requires forall i :: 0 <= i < |st.log| ==> EntryOk(st, st.log[i])
    requires key !in st.rows
    ensures History(st.log, key) == []
  {
    if History(st.log, key) != [] {
      HistoryMembers(st.log, key, 0);
    }
  }

  lemma LegalTail(st: State, u: User, ws: seq<Write>, now: Time)
    requires LegalAll(st.rows, u, ws) && ws != []
    ensures LegalAll(ApplyWrite(st, u, ws[0], now).rows, u, ws[1..])
  {
    forall i | 0 <= i < |ws| - 1
      ensures Legal(ApplyWrite(st, u, ws[0], now).rows, u, ws[1..][i])
    {
      assert ws[1..][i] == ws[i + 1] && ws[0].key != ws[i + 1].key && Legal(st.rows, u, ws[i + 1]);
    }
  }

  lemma {:induction false} WriteAllInv(st: State, u: User, ws: seq<Write>, now: Time)
    requires Inv(st) && LegalAll(st.rows, u, ws) && st.clock <= now
    ensures Inv(WriteAll(st, u, ws, now)) && st.clock <= WriteAll(st, u, ws, now).clock <= now
    ensures WholeHistory(st) ==> WholeHistory(WriteAll(st, u, ws, now))
    decreases |ws|
  {
    if ws != [] {
      assert Legal(st.rows, u, ws[0]);
      ApplyWriteInv(st, u, ws[0], now);
      LegalTail(st, u, ws, now);
      WriteAllInv(ApplyWrite(st, u, ws[0], now), u, ws[1..], now);
    }
  }

  lemma KeysOfTail(ws: seq<Write>)
    requires DistinctKeys(ws) && ws != []
    ensures DistinctKeys(ws[1..]) && ws[0].key !in KeysOf(ws[1..])
    ensures KeysOf(ws) == {ws[0].key} + KeysOf(ws[1..])
  {
    var tail := ws[1..];
    forall i | 0 < i < |ws|
      ensures ws[i].key in KeysOf(tail)
    {
      assert tail[i - 1].key == ws[i].key;
    }
    assert forall i :: 0 <= i < |tail| ==> tail[i] == ws[i + 1];
  }

  // Exactly what a list of writes does to the rows: each listed key moves to its
  // next version once, and every other row is untouched.
  lemma {:induction false} WriteAllRows(st: State, u: User, ws: seq<Write>, now: Time)
    requires DistinctKeys(ws)
    ensures WriteAll(st, u, ws, now).rows.Keys == st.rows.Keys + KeysOf(ws)
    ensures forall key :: key in st.rows && key !in KeysOf(ws) ==>
              WriteAll(st, u, ws, now).rows[key] == st.rows[key]
    ensures forall i :: 0 <= i < |ws| ==>
              WriteAll(st, u, ws, now).rows[ws[i].key] == RowAfter(st.rows, u, ws[i], now)
    decreases |ws|
  {
    if ws != [] {
      var mid := ApplyWrite(st, u, ws[0], now);
      var tail := ws[1..];
      KeysOfTail(ws);
      WriteAllRows(mid, u, tail, now);
      forall i | 0 <= i < |ws|
        ensures WriteAll(st, u, ws, now).rows[ws[i].key] == RowAfter(st.rows, u, ws[i], now)
      {
        if i > 0 {
          assert ws[i] == tail[i - 1];
        }
      }
    }
  }

  // Exactly what it does to the log: one entry a write, in order, with the row's
  // next version and consecutive sequence numbers.
  lemma {:induction false} WriteAllLog(st: State, u: User, ws: seq<Write>, now: Time)
    requires DistinctKeys(ws)
    ensures var st' := WriteAll(st, u, ws, now);
      && st'.log == st.log + EntriesOf(st, u, ws, now)
      && st'.lastSeq == st.lastSeq + |ws| && st'.ledger == st.ledger
      && st'.clock == if ws == [] then st.clock else now
    decreases |ws|
  {
    if ws != [] {
      var mid := ApplyWrite(st, u, ws[0], now);
      var tail := ws[1..];
      KeysOfTail(ws);
      WriteAllLog(mid, u, tail, now);
      var es := EntriesOf(st, u, ws, now);
      forall i | 0 <= i < |tail|
        ensures EntriesOf(mid, u, tail, now)[i] == es[i + 1]
      {
        assert tail[i] == ws[i + 1] && ws[i + 1].key in KeysOf(tail);
      }
      assert es == [es[0]] + EntriesOf(mid, u, tail, now);
      assert st.log + [es[0]] + EntriesOf(mid, u, tail, now) == st.log + es;
    }
  }

  function EntriesOf(st: State, u: User, ws: seq<Write>, now: Time): seq<LogEntry> {
    seq(|ws|, i requires 0 <= i < |ws| =>
      LogEntry(st.lastSeq + 1 + i, u, ws[i].key, if ws[i].gone then Delete else Upsert,
               NextVersion(st.rows, ws[i].key), now))
  }

  lemma WriteOne(st: State, u: User, w: Write, now: Time)
    ensures WriteAll(st, u, [w], now) == ApplyWrite(st, u, w, now)
  {
    assert [w][1..] == [];
  }

  lemma {:induction false} WriteAllAppend(st: State, u: User, a: seq<Write>, b: seq<Write>, now: Time)
    ensures WriteAll(st, u, a + b, now) == WriteAll(WriteAll(st, u, a, now), u, b, now)
    decreases |a|
  {
    if a == [] {
      assert a + b == b;
    } else {
      assert (a + b)[1..] == a[1..] + b;
      WriteAllAppend(ApplyWrite(st, u, a[0], now), u, a[1..], b, now);
    }
  }
}
