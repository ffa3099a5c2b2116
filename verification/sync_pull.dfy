/** Pulling the change log page by page (Pull in internal/sync/service.go). */
module SyncPull {
  import opened Options
  import opened SyncTypes
  import opened SyncMerge
  import opened SyncState

  datatype Change = Change(seqNo: nat, key: Key, op: ChangeOp, version: nat, record: Option<Record>)

  datatype Page = Page(changes: seq<Change>, nextCursor: nat, hasMore: bool)

  // The user's entries past the cursor, oldest first.
  function Past(log: seq<LogEntry>, u: User, cursor: nat): seq<LogEntry> {
    if log == [] then []
    else
      var n := |log| - 1;
      Past(log[..n], u, cursor) + if log[n].user == u && log[n].seqNo > cursor then [log[n]] else []
  }

  function Clamp(limit: int): nat {
    if limit < 1 then 1 else if limit > 500 then 500 else limit
  }

  // An upsert carries the row's current record, whatever version the entry names.
  function ChangeOf(rows: Rows, u: User, e: LogEntry): Change {
    Change(e.seqNo, e.key, e.op, e.version,
           if e.op == Upsert && Fetch(rows, u, e.key).Some? then Some(RecordOf(Fetch(rows, u, e.key).value)) else None)
  }

  function ChangesOf(rows: Rows, u: User, es: seq<LogEntry>): seq<Change> {
    seq(|es|, i requires 0 <= i < |es| => ChangeOf(rows, u, es[i]))
  }

  function Taken(past: seq<LogEntry>, limit: int): seq<LogEntry> {
    if |past| > Clamp(limit) then past[..Clamp(limit)] else past
  }

  function NextCursor(taken: seq<LogEntry>, cursor: nat): nat {
    if taken == [] then cursor else taken[|taken| - 1].seqNo
  }

  function Pull(st: State, u: User, cursor: nat, limit: int): Page {
    var past := Past(st.log, u, cursor);
    var taken := Taken(past, limit);
    Page(ChangesOf(st.rows, u, taken), NextCursor(taken, cursor), |past| > Clamp(limit))
  }

  lemma {:induction false} PastMembers(log: seq<LogEntry>, u: User, cursor: nat)
    requires Ordered(log)
    ensures Ordered(Past(log, u, cursor))
    ensures forall e :: e in Past(log, u, cursor) <==> e in log && e.user == u && e.seqNo > cursor
  {
    if log != [] {
      var n := |log| - 1;
      PastMembers(log[..n], u, cursor);
      assert log == log[..n] + [log[n]];
      assert forall e :: e in Past(log[..n], u, cursor) ==> e in log[..n];
    }
  }

  lemma Behind(older: seq<LogEntry>, all: seq<LogEntry>, i: nat)
    requires older <= all && i < |older|
    ensures all[i] == older[i] && all[i + 1..] == older[i + 1..] + all[|older|..]
  {
  }

  // The last entry of the log is past any earlier one that was.
  lemma PastKeepsLast(log: seq<LogEntry>, u: User, cursor: nat, e: LogEntry)
    requires log != [] && Ordered(log) && e in Past(log[..|log| - 1], u, cursor)
    ensures Past(log, u, e.seqNo) == Past(log[..|log| - 1], u, e.seqNo)
                                     + Past(log, u, cursor)[|Past(log[..|log| - 1], u, cursor)|..]
  {
    PastMembers(log[..|log| - 1], u, cursor);
    assert e in log[..|log| - 1];
  }

  lemma LastIsPast(log: seq<LogEntry>, u: User, cursor: nat)
    requires log != []
    ensures var older, all := Past(log[..|log| - 1], u, cursor), Past(log, u, cursor);
      all == older || (|all| == |older| + 1 && all[|older|] == log[|log| - 1] && all[|older| + 1..] == [])
  {
  }

  // Moving the cursor over the first entries leaves exactly the others.
  lemma {:induction false} PastAdvance(log: seq<LogEntry>, u: User, cursor: nat, i: nat)
    requires Ordered(log) && i < |Past(log, u, cursor)|
    ensures Past(log, u, Past(log, u, cursor)[i].seqNo) == Past(log, u, cursor)[i + 1..]
  {
    var n := |log| - 1;
    var older, all := Past(log[..n], u, cursor), Past(log, u, cursor);
    if i < |older| {
      PastAdvance(log[..n], u, cursor, i);
      Behind(older, all, i);
      PastKeepsLast(log, u, cursor, older[i]);
    } else {
      LastIsPast(log, u, cursor);
      PastNone(log, u, log[n].seqNo);
    }
  }

  lemma {:induction false} PastNone(log: seq<LogEntry>, u: User, cursor: nat)
    requires forall i :: 0 <= i < |log| ==> log[i].seqNo <= cursor
    ensures Past(log, u, cursor) == []
  {
    if log != [] {
      PastNone(log[..|log| - 1], u, cursor);
    }
  }

  // One page: it takes the first entries past the cursor, what remains is exactly
  // what the next cursor sees, and hasMore says whether anything remains.
  lemma PullExact(st: State, u: User, cursor: nat, limit: int)
    requires Ordered(st.log)
    ensures var page := Pull(st, u, cursor, limit);
      var past := Past(st.log, u, cursor);
      var rest := Past(st.log, u, page.nextCursor);
      && past == Taken(past, limit) + rest
      && |Taken(past, limit)| == |page.changes|
      && (page.hasMore <==> rest != [])
      && (past != [] ==> |rest| < |past|)
  {
    var past := Past(st.log, u, cursor);
    var taken := Taken(past, limit);
    if taken != [] {
      PastAdvance(st.log, u, cursor, |taken| - 1);
      assert past == past[..|taken|] + past[|taken|..];
    } else {
      assert past == [] + past;
    }
  }

  // The change tells the entry as it was logged; an upsert of a row the user has carries
  // that row as it is now.
  predicate Reports(rows: Rows, u: User, c: Change, e: LogEntry) {
    && c.seqNo == e.seqNo && c.key == e.key && c.op == e.op && c.version == e.version
    && (c.record.Some? <==> e.op == Upsert && e.key in rows && rows[e.key].user == u)
    && (c.record.Some? ==>
          && c.record.value.version == rows[e.key].version
          && c.record.value.deleted == rows[e.key].deletedAt.Some?
          && c.record.value.content == rows[e.key].content)
  }

  // What one page reports: the entries past the cursor from the first on, at most the
  // requested number, which counts as 1 below 1 and as 500 above 500.
  lemma PageReports(st: State, u: User, cursor: nat, limit: int)
    ensures var page, past := Pull(st, u, cursor, limit), Past(st.log, u, cursor);
      var wanted := if limit < 1 then 1 else if limit > 500 then 500 else limit;
      && |page.changes| == (if |past| < wanted then |past| else wanted)
      && (forall i :: 0 <= i < |page.changes| ==> Reports(st.rows, u, page.changes[i], past[i]))
      && page.nextCursor == (if past == [] then cursor else page.changes[|page.changes| - 1].seqNo)
      && (page.hasMore <==> |past| > wanted)
  {
  }

  // The changes of one page after another, put together.
  function Pages(st: State, u: User, cursor: nat, limits: seq<int>): seq<Change>
    decreases |limits|
  {
    if limits == [] then []
    else
      var page := Pull(st, u, cursor, limits[0]);
      page.changes + Pages(st, u, page.nextCursor, limits[1..])
  }

  // The entries delivered by one pull after another, with any requested limits.
  function Delivered(st: State, u: User, cursor: nat, limits: seq<int>): seq<LogEntry>
    decreases |limits|
  {
    if limits == [] then []
    else
      Taken(Past(st.log, u, cursor), limits[0])
      + Delivered(st, u, Pull(st, u, cursor, limits[0]).nextCursor, limits[1..])
  }

  function CursorAfter(st: State, u: User, cursor: nat, limits: seq<int>): nat
    decreases |limits|
  {
    if limits == [] then cursor else CursorAfter(st, u, Pull(st, u, cursor, limits[0]).nextCursor, limits[1..])
  }

  // Paging is exact: the pages, put together, are the user's log past the first
  // cursor, in order, once each, up to what is still to come.
  lemma {:induction false} PagingExact(st: State, u: User, cursor: nat, limits: seq<int>)
    requires Ordered(st.log)
    ensures Delivered(st, u, cursor, limits) + Past(st.log, u, CursorAfter(st, u, cursor, limits)) ==
            Past(st.log, u, cursor)
    decreases |limits|
  {
    var past := Past(st.log, u, cursor);
    if limits == [] {
      assert [] + past == past;
    } else {
      var next := Pull(st, u, cursor, limits[0]).nextCursor;
      PullExact(st, u, cursor, limits[0]);
      PagingExact(st, u, next, limits[1..]);
      var taken, later := Taken(past, limits[0]), Delivered(st, u, next, limits[1..]);
      var rest := Past(st.log, u, CursorAfter(st, u, next, limits[1..]));
      assert taken + later + rest == taken + (later + rest);
    }
  }

  // The changes report the first of the entries, one by one.
  predicate ReportAll(rows: Rows, u: User, cs: seq<Change>, es: seq<LogEntry>) {
    |cs| <= |es| && forall i :: 0 <= i < |cs| ==> Reports(rows, u, cs[i], es[i])
  }

  lemma ReportMore(rows: Rows, u: User, cs: seq<Change>, more: seq<Change>, es: seq<LogEntry>)
    requires ReportAll(rows, u, cs, es) && ReportAll(rows, u, more, es[|cs|..])
    ensures ReportAll(rows, u, cs + more, es) && es[|cs + more|..] == es[|cs|..][|more|..]
  {
    forall i | |cs| <= i < |cs + more|
      ensures Reports(rows, u, (cs + more)[i], es[i])
    {
      assert es[|cs|..][i - |cs|] == es[i];
    }
  }

  // The pages, put together, report the user's log past the first cursor entry by entry,
  // up to what is still to come.
  lemma {:induction false} PagingReports(st: State, u: User, cursor: nat, limits: seq<int>)
    requires Ordered(st.log)
    ensures var all, past := Pages(st, u, cursor, limits), Past(st.log, u, cursor);
      ReportAll(st.rows, u, all, past) && past[|all|..] == Past(st.log, u, CursorAfter(st, u, cursor, limits))
    decreases |limits|
  {
    if limits != [] {
      var page, past := Pull(st, u, cursor, limits[0]), Past(st.log, u, cursor);
      PageReports(st, u, cursor, limits[0]);
      PullExact(st, u, cursor, limits[0]);
      PagingReports(st, u, page.nextCursor, limits[1..]);
      assert Past(st.log, u, page.nextCursor) == past[|page.changes|..];
      ReportMore(st.rows, u, page.changes, Pages(st, u, page.nextCursor, limits[1..]), past);
    }
  }

  // Paging terminates: as many pulls as entries are always enough.
  lemma {:induction false} PagingEnds(st: State, u: User, cursor: nat, limits: seq<int>)
    requires Ordered(st.log) && |limits| >= |Past(st.log, u, cursor)|
    ensures Past(st.log, u, CursorAfter(st, u, cursor, limits)) == []
    decreases |limits|
  {
    if limits != [] {
      PullExact(st, u, cursor, limits[0]);
      PagingEnds(st, u, Pull(st, u, cursor, limits[0]).nextCursor, limits[1..]);
    }
  }
}
