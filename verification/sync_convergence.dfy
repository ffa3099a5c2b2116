/** A client that folds pulled pages, with pushes, cleanups and other users' purges
    committed between them, ends up agreeing with the server. */
module SyncConvergence {
  import opened Options
  import opened SyncTypes
  import opened SyncMerge
  import opened SyncState
  import opened SyncDecide
  import opened SyncCascade
  import opened SyncRuns
  import opened SyncPull

  datatype View = Known(record: Record) | Gone

  datatype Client = Client(cursor: nat, known: map<Key, View>)

  const FRESH := Client(0, map[])

  function ViewOf(row: Row): View {
    if row.Live() then Known(RecordOf(row)) else Gone
  }

  // A delete, or a record marked deleted, removes; any other record replaces.
  function Fold(known: map<Key, View>, changes: seq<Change>): map<Key, View>
    decreases |changes|
  {
    if changes == [] then known
    else
      var c := changes[0];
      var next :=
        if c.op == Delete then known[c.key := Gone]
        else
          match c.record
          case None => known
          case Some(r) => known[c.key := if r.deleted then Gone else Known(r)];
      Fold(next, changes[1..])
  }

  function Absorb(c: Client, page: Page): Client {
    Client(page.nextCursor, Fold(c.known, page.changes))
  }

  // The client knows the user's row as it is: its record, or that it is deleted.
  predicate Agrees(rows: Rows, known: map<Key, View>, u: User, key: Key) {
    match Fetch(rows, u, key)
    case Some(row) => key in known && known[key] == ViewOf(row)
    case None => key !in known || known[key] == Gone
  }

  ghost predicate Agreement(rows: Rows, known: map<Key, View>, u: User) {
    forall key :: Agrees(rows, known, u, key)
  }

  predicate Waiting(log: seq<LogEntry>, cursor: nat, u: User, key: Key) {
    exists i :: 0 <= i < |log| && log[i].user == u && log[i].key == key && log[i].seqNo > cursor
  }

  // Every row is either known as it is or announced by an entry still to be pulled.
  ghost predicate ClientOk(st: State, c: Client, u: User) {
    c.cursor <= st.lastSeq
    && forall key :: Waiting(st.log, c.cursor, u, key) || Agrees(st.rows, c.known, u, key)
  }

  // ----- folding a page -----

  lemma EntryShowsRow(st: State, i: nat)
    requires Inv(st) && i < |st.log|
    ensures var e := st.log[i];
      && Fetch(st.rows, e.user, e.key).Some?
      && (e.op == Delete ==> !st.rows[e.key].Live())
  {
    var e := st.log[i];
    assert EntryOk(st, e);
    assert RowOk(st, e.key);
    MemberHistory(st.log, i);
  }

  // Folding one change makes the client know the row as it is now.
  lemma FoldOne(st: State, u: User, es: seq<LogEntry>, known: map<Key, View>)
    requires Inv(st) && es != [] && es[0] in st.log && es[0].user == u
    ensures es[0].key in st.rows && st.rows[es[0].key].user == u
    ensures Fold(known, ChangesOf(st.rows, u, es)) ==
            Fold(known[es[0].key := ViewOf(st.rows[es[0].key])], ChangesOf(st.rows, u, es[1..]))
  {
    var i :| 0 <= i < |st.log| && st.log[i] == es[0];
    EntryShowsRow(st, i);
    assert ChangesOf(st.rows, u, es)[1..] == ChangesOf(st.rows, u, es[1..]);
  }

  // Each change shows the row as it is now, so folding any list of the user's
  // entries brings exactly their rows up to date.
  lemma {:induction false} FoldUpdates(st: State, u: User, es: seq<LogEntry>, known: map<Key, View>, key: Key)
    requires Inv(st) && forall i :: 0 <= i < |es| ==> es[i] in st.log && es[i].user == u
    ensures var known' := Fold(known, ChangesOf(st.rows, u, es));
      if exists i :: 0 <= i < |es| && es[i].key == key then Agrees(st.rows, known', u, key)
      else (key in known' <==> key in known) && (key in known ==> known'[key] == known[key])
    decreases |es|
  {
    if es != [] {
      FoldOne(st, u, es, known);
      var tail, next := es[1..], known[es[0].key := ViewOf(st.rows[es[0].key])];
      FoldUpdates(st, u, tail, next, key);
      if i :| 0 <= i < |tail| && tail[i].key == key {
        assert es[i + 1].key == key;
      }
      assert forall i :: 1 <= i < |es| ==> es[i] == tail[i - 1];
    }
  }

  lemma TakenEntries(st: State, u: User, cursor: nat, limit: int)
    requires Inv(st)
    ensures forall i :: 0 <= i < |Taken(Past(st.log, u, cursor), limit)| ==>
              Taken(Past(st.log, u, cursor), limit)[i] in st.log
              && Taken(Past(st.log, u, cursor), limit)[i].user == u
    ensures cursor <= st.lastSeq ==> Pull(st, u, cursor, limit).nextCursor <= st.lastSeq
  {
    var past := Past(st.log, u, cursor);
    var taken := Taken(past, limit);
    PastMembers(st.log, u, cursor);
    forall i | 0 <= i < |taken|
      ensures taken[i] in st.log && taken[i].user == u
    {
      assert past[i] == taken[i] && past[i] in past;
    }
    if taken != [] {
      var last := taken[|taken| - 1];
      var j :| 0 <= j < |st.log| && st.log[j] == last;
      assert EntryOk(st, st.log[j]);
    }
  }

  // An entry still waiting is either on this page or past the next cursor.
  lemma WaitingSplits(st: State, u: User, cursor: nat, limit: int, key: Key)
    requires Inv(st) && Waiting(st.log, cursor, u, key)
    ensures var taken := Taken(Past(st.log, u, cursor), limit);
      || (exists i :: 0 <= i < |taken| && taken[i].key == key)
      || (Waiting(st.log, Pull(st, u, cursor, limit).nextCursor, u, key) && Pull(st, u, cursor, limit).hasMore)
  {
    var past := Past(st.log, u, cursor);
    var taken := Taken(past, limit);
    var next := Pull(st, u, cursor, limit).nextCursor;
    var j :| 0 <= j < |st.log| && st.log[j].user == u && st.log[j].key == key && st.log[j].seqNo > cursor;
    PullExact(st, u, cursor, limit);
    assert st.log[j] in taken + Past(st.log, u, next) by {
      PastMembers(st.log, u, cursor);
    }
    if st.log[j] in taken {
      var i :| 0 <= i < |taken| && taken[i] == st.log[j];
    } else {
      PastMembers(st.log, u, next);
      assert st.log[j].seqNo > next;
    }
  }

  lemma AbsorbKey(st: State, c: Client, u: User, limit: int, key: Key)
    requires Inv(st) && (Waiting(st.log, c.cursor, u, key) || Agrees(st.rows, c.known, u, key))
    ensures var page := Pull(st, u, c.cursor, limit);
      || Agrees(st.rows, Absorb(c, page).known, u, key)
      || (Waiting(st.log, page.nextCursor, u, key) && page.hasMore)
  {
    var taken := Taken(Past(st.log, u, c.cursor), limit);
    TakenEntries(st, u, c.cursor, limit);
    FoldUpdates(st, u, taken, c.known, key);
    if Waiting(st.log, c.cursor, u, key) {
      WaitingSplits(st, u, c.cursor, limit, key);
    }
  }

  lemma AbsorbOk(st: State, c: Client, u: User, limit: int)
    requires Inv(st) && ClientOk(st, c, u)
    ensures ClientOk(st, Absorb(c, Pull(st, u, c.cursor, limit)), u)
    ensures !Pull(st, u, c.cursor, limit).hasMore ==>
              Agreement(st.rows, Absorb(c, Pull(st, u, c.cursor, limit)).known, u)
  {
    TakenEntries(st, u, c.cursor, limit);
    forall key
      ensures var page := Pull(st, u, c.cursor, limit);
        || Agrees(st.rows, Absorb(c, page).known, u, key)
        || (Waiting(st.log, page.nextCursor, u, key) && page.hasMore)
    {
      AbsorbKey(st, c, u, limit, key);
    }
  }

  // ----- what happens between pages -----

  // Nothing about a row changes without an entry of its owner, newer than before.
  ghost predicate Announced(st: State, st': State, key: Key) {
    || ((key in st.rows <==> key in st'.rows) && (key in st.rows ==> st.rows[key] == st'.rows[key]))
    || (key in st'.rows && (key in st.rows ==> st.rows[key].user == st'.rows[key].user)
        && Waiting(st'.log, st.lastSeq, st'.rows[key].user, key))
  }

  ghost predicate Grows(st: State, st': State) {
    st.log <= st'.log && st.lastSeq <= st'.lastSeq && forall key :: Announced(st, st', key)
  }

  lemma AnnouncedTransitive(a: State, b: State, c: State, key: Key)
    requires Announced(a, b, key) && Announced(b, c, key) && b.log <= c.log && a.lastSeq <= b.lastSeq
    ensures Announced(a, c, key)
  {
    if key in c.rows && Waiting(c.log, b.lastSeq, c.rows[key].user, key) {
      var i :| 0 <= i < |c.log| && c.log[i].user == c.rows[key].user && c.log[i].key == key && c.log[i].seqNo > b.lastSeq;
      assert c.log[i].seqNo > a.lastSeq;
    }
    if key in b.rows && Waiting(b.log, a.lastSeq, b.rows[key].user, key) {
      var i :| 0 <= i < |b.log| && b.log[i].user == b.rows[key].user && b.log[i].key == key && b.log[i].seqNo > a.lastSeq;
      assert c.log[i] == b.log[i];
    }
  }

  lemma GrowsTransitive(a: State, b: State, c: State)
    requires Grows(a, b) && Grows(b, c)
    ensures Grows(a, c)
  {
    forall key
      ensures Announced(a, c, key)
    {
      assert Announced(a, b, key) && Announced(b, c, key);
      AnnouncedTransitive(a, b, c, key);
    }
  }

  lemma WritesGrow(st: State, u: User, ws: seq<Write>, now: Time)
    requires LegalAll(st.rows, u, ws)
    ensures Grows(st, WriteAll(st, u, ws, now))
  {
    var st' := WriteAll(st, u, ws, now);
    WriteAllRows(st, u, ws, now);
    WriteAllLog(st, u, ws, now);
    forall key
      ensures Announced(st, st', key)
    {
      if key in KeysOf(ws) {
        var i :| 0 <= i < |ws| && ws[i].key == key;
        assert Legal(st.rows, u, ws[i]) && st'.rows[key] == RowAfter(st.rows, u, ws[i], now);
        assert st'.log[|st.log| + i] == EntriesOf(st, u, ws, now)[i];
      }
    }
  }

  lemma {:induction false} ItemsGrow(st: State, u: User, items: seq<PushItem>, env: Env)
    requires Inv(st) && st.clock <= env.now && ApplyItems(st, u, items, env).Committed?
    ensures Grows(st, ApplyItems(st, u, items, env).st)
    decreases |items|
  {
    if items != [] {
      var st1 := ApplyOne(st, u, items[0], env).st;
      OneGrows(st, u, items[0], env);
      ApplyOneInv(st, u, items[0], env);
      ItemsGrow(st1, u, items[1..], env);
      GrowsTransitive(st, st1, ApplyItems(st, u, items, env).st);
    }
  }

  lemma OneGrows(st: State, u: User, item: PushItem, env: Env)
    requires Inv(st) && ApplyOne(st, u, item, env).Done?
    ensures Grows(st, ApplyOne(st, u, item, env).st)
  {
    if (u, item.opId) !in st.ledger {
      var d := Decide(st.rows, u, item, env);
      InvTyped(st);
      DecideLegal(st.rows, u, item, env);
      WritesGrow(st, u, d.writes, env.now);
      RecordedGrows(st, WriteAll(st, u, d.writes, env.now), u, d.result, item.opId, env.now);
    }
  }

  lemma RecordedGrows(st: State, mid: State, u: User, result: OpResult, opId: OpId, now: Time)
    requires Grows(st, mid)
    ensures Grows(st, Recorded(mid, u, result, opId, now))
  {
    forall key
      ensures Announced(st, Recorded(mid, u, result, opId, now), key)
    {
      assert Announced(st, mid, key);
    }
  }

  lemma PushGrows(st: State, u: User, items: seq<PushItem>, env: Env)
    requires Inv(st) && st.clock <= env.now
    ensures Grows(st, ApplyPush(st, u, items, env))
  {
    ApplyItemsInv(st, u, items, env);
    if ApplyItems(st, u, items, env).Committed? {
      ItemsGrow(st, u, items, env);
    }
  }

  lemma GrowsOk(st: State, st': State, c: Client, u: User)
    requires Inv(st) && Grows(st, st') && ClientOk(st, c, u)
    ensures ClientOk(st', c, u)
  {
    forall key
      ensures Waiting(st'.log, c.cursor, u, key) || Agrees(st'.rows, c.known, u, key)
    {
      assert Announced(st, st', key);
      if Waiting(st.log, c.cursor, u, key) {
        var i :| 0 <= i < |st.log| && st.log[i].user == u && st.log[i].key == key && st.log[i].seqNo > c.cursor;
        assert st'.log[i] == st.log[i];
      } else if key in st'.rows && Waiting(st'.log, st.lastSeq, st'.rows[key].user, key) {
        var i :| 0 <= i < |st'.log| && st'.log[i].user == st'.rows[key].user && st'.log[i].key == key
                 && st'.log[i].seqNo > st.lastSeq;
        assert st'.log[i].seqNo > c.cursor;
      }
    }
  }

  // The client's cursor is at or past every entry of its user that the cleanup drops.
  predicate CaughtUp(st: State, cutoff: Time, c: Client, u: User) {
    forall i :: 0 <= i < |st.log| && st.log[i].user == u && st.log[i].createdAt < cutoff ==> st.log[i].seqNo <= c.cursor
  }

  lemma WaitingKept(st: State, cutoff: Time, c: Client, u: User, key: Key)
    requires Inv(st) && CaughtUp(st, cutoff, c, u) && Waiting(st.log, c.cursor, u, key)
    ensures Waiting(Cleaned(st, cutoff).log, c.cursor, u, key)
  {
    var i :| 0 <= i < |st.log| && st.log[i].user == u && st.log[i].key == key && st.log[i].seqNo > c.cursor;
    KeptExactly(st.log, cutoff, i);
    var log' := Cleaned(st, cutoff).log;
    var j :| 0 <= j < |log'| && log'[j] == st.log[i];
  }

  lemma AgreesKept(st: State, cutoff: Time, known: map<Key, View>, u: User, key: Key)
    requires Agrees(st.rows, known, u, key)
    ensures Agrees(Cleaned(st, cutoff).rows, known, u, key)
  {
  }

  lemma CleanOk(st: State, cutoff: Time, c: Client, u: User)
    requires Inv(st) && ClientOk(st, c, u) && CaughtUp(st, cutoff, c, u)
    ensures ClientOk(Cleaned(st, cutoff), c, u)
  {
    forall key
      ensures Waiting(Cleaned(st, cutoff).log, c.cursor, u, key) || Agrees(Cleaned(st, cutoff).rows, c.known, u, key)
    {
      if Waiting(st.log, c.cursor, u, key) {
        WaitingKept(st, cutoff, c, u, key);
      } else {
        AgreesKept(st, cutoff, c.known, u, key);
      }
    }
  }

  lemma {:induction false} OthersLogKeeps(log: seq<LogEntry>, who: User, i: nat)
    requires i < |log| && log[i].user != who
    ensures log[i] in OthersLog(log, who)
  {
    var n := |log| - 1;
    if i < n {
      OthersLogKeeps(log[..n], who, i);
      assert log[..n][i] == log[i];
    }
  }

  lemma OtherPurgeOk(st: State, who: User, c: Client, u: User)
    requires Inv(st) && ClientOk(st, c, u) && who != u
    ensures ClientOk(Purged(st, who), c, u)
  {
    var st' := Purged(st, who);
    forall key
      ensures Waiting(st'.log, c.cursor, u, key) || Agrees(st'.rows, c.known, u, key)
    {
      if Waiting(st.log, c.cursor, u, key) {
        var i :| 0 <= i < |st.log| && st.log[i].user == u && st.log[i].key == key && st.log[i].seqNo > c.cursor;
        OthersLogKeeps(st.log, who, i);
        var j :| 0 <= j < |st'.log| && st'.log[j] == st.log[i];
      } else {
        assert Agrees(st.rows, c.known, u, key);
      }
    }
  }

  // ----- convergence -----

  // What happens while a client pulls: server events, and the client's own pages.
  datatype Step = Server(event: Event) | PullPage(limit: int)

  predicate Allowed(st: State, c: Client, u: User, step: Step) {
    match step
    case Server(Push(_, _, env)) => st.clock <= env.now
    case Server(Clean(cutoff)) => CaughtUp(st, cutoff, c, u)
    case Server(Purge(who)) => who != u
    case PullPage(_) => true
  }

  function Next(st: State, c: Client, u: User, step: Step): (State, Client) {
    match step
    case Server(e) => (After(st, e), c)
    case PullPage(limit) => (st, Absorb(c, Pull(st, u, c.cursor, limit)))
  }

  function Sync(st: State, c: Client, u: User, steps: seq<Step>): (State, Client)
    decreases |steps|
  {
    if steps == [] then (st, c)
    else
      var (st1, c1) := Next(st, c, u, steps[0]);
      Sync(st1, c1, u, steps[1..])
  }

  predicate AllAllowed(st: State, c: Client, u: User, steps: seq<Step>)
    decreases |steps|
  {
    steps == [] ||
    (Allowed(st, c, u, steps[0])
     && var (st1, c1) := Next(st, c, u, steps[0]);
        AllAllowed(st1, c1, u, steps[1..]))
  }

  lemma NextOk(st: State, c: Client, u: User, step: Step)
    requires Inv(st) && ClientOk(st, c, u) && Allowed(st, c, u, step)
    ensures Inv(Next(st, c, u, step).0) && ClientOk(Next(st, c, u, step).0, Next(st, c, u, step).1, u)
  {
    match step
    case Server(Push(who, items, env)) =>
      ApplyPushInv(st, who, items, env);
      PushGrows(st, who, items, env);
      GrowsOk(st, ApplyPush(st, who, items, env), c, u);
    case Server(Clean(cutoff)) =>
      CleanedInv(st, cutoff);
      CleanOk(st, cutoff, c, u);
    case Server(Purge(who)) =>
      PurgedInv(st, who);
      OtherPurgeOk(st, who, c, u);
    case PullPage(limit) => AbsorbOk(st, c, u, limit);
  }

  // Pull convergence: pages of any sizes, with any pushes (and cleanups behind the
  // cursor, and purges of other accounts) between them; when a page says there is no
  // more, the client agrees with the server on every one of the user's rows.
  lemma {:induction false} Converges(st: State, c: Client, u: User, steps: seq<Step>, limit: int)
    requires Inv(st) && ClientOk(st, c, u) && AllAllowed(st, c, u, steps)
    ensures var (st', c') := Sync(st, c, u, steps);
      var page := Pull(st', u, c'.cursor, limit);
      && Inv(st') && ClientOk(st', c', u)
      && (!page.hasMore ==> Agreement(st'.rows, Absorb(c', page).known, u))
    decreases |steps|
  {
    if steps == [] {
      AbsorbOk(st, c, u, limit);
    } else {
      NextOk(st, c, u, steps[0]);
      Converges(Next(st, c, u, steps[0]).0, Next(st, c, u, steps[0]).1, u, steps[1..], limit);
    }
  }

  // ----- a new client -----

  // Every one of the user's rows still has a log entry.
  predicate AllAnnounced(st: State, u: User) {
    forall key :: key in st.rows && st.rows[key].user == u ==> Waiting(st.log, 0, u, key)
  }

  lemma FreshOk(st: State, u: User)
    requires Inv(st) && AllAnnounced(st, u)
    ensures ClientOk(st, FRESH, u)
  {
    forall key
      ensures Waiting(st.log, 0, u, key) || Agrees(st.rows, map[], u, key)
    {
      assert key in st.rows && st.rows[key].user == u ==> Waiting(st.log, 0, u, key);
    }
  }

  lemma FreshOkIff(st: State, u: User)
    requires Inv(st)
    ensures ClientOk(st, FRESH, u) <==> AllAnnounced(st, u)
  {
    if AllAnnounced(st, u) {
      FreshOk(st, u);
    }
    if ClientOk(st, FRESH, u) {
      forall key | key in st.rows && st.rows[key].user == u
        ensures Waiting(st.log, 0, u, key)
      {
        assert Waiting(st.log, 0, u, key) || Agrees(st.rows, FRESH.known, u, key);
      }
    }
  }

  // Before any cleanup a new client starts well, so Converges applies to it.
  lemma FreshBeforeCleanup(st: State, u: User)
    requires Inv(st) && WholeHistory(st)
    ensures AllAnnounced(st, u) && ClientOk(st, FRESH, u)
  {
    forall key | key in st.rows && st.rows[key].user == u
      ensures Waiting(st.log, 0, u, key)
    {
      assert RowOk(st, key);
      HistoryMembers(st.log, key, 0);
      var j :| 0 <= j < |st.log| && st.log[j] == History(st.log, key)[0];
      assert EntryOk(st, st.log[j]);
    }
    FreshOk(st, u);
  }

  function PullPages(limits: seq<int>): seq<Step> {
    seq(|limits|, i requires 0 <= i < |limits| => PullPage(limits[i]))
  }

  // What a client knows of one row, if anything.
  function ViewAt(known: map<Key, View>, key: Key): Option<View> {
    if key in known then Some(known[key]) else None
  }

  // A page teaches nothing about a row that no entry past the cursor announces.
  lemma PageSkips(st: State, c: Client, u: User, limit: int, key: Key)
    requires Inv(st) && !Waiting(st.log, c.cursor, u, key)
    ensures var c' := Absorb(c, Pull(st, u, c.cursor, limit));
      ViewAt(c'.known, key) == ViewAt(c.known, key) && !Waiting(st.log, c'.cursor, u, key)
  {
    var past := Past(st.log, u, c.cursor);
    var taken := Taken(past, limit);
    PastMembers(st.log, u, c.cursor);
    TakenEntries(st, u, c.cursor, limit);
    forall i | 0 <= i < |taken|
      ensures taken[i].key != key && taken[i].seqNo > c.cursor
    {
      assert past[i] == taken[i] && past[i] in past;
      var j :| 0 <= j < |st.log| && st.log[j] == taken[i];
    }
    FoldUpdates(st, u, taken, c.known, key);
    assert Pull(st, u, c.cursor, limit).nextCursor >= c.cursor;
  }

  lemma {:induction false} PagesSkip(st: State, c: Client, u: User, limits: seq<int>, key: Key)
    requires Inv(st) && !Waiting(st.log, c.cursor, u, key)
    ensures var (st', c') := Sync(st, c, u, PullPages(limits));
      st' == st && ViewAt(c'.known, key) == ViewAt(c.known, key) && !Waiting(st.log, c'.cursor, u, key)
    decreases |limits|
  {
    if limits != [] {
      PageSkips(st, c, u, limits[0], key);
      assert PullPages(limits)[1..] == PullPages(limits[1..]);
      PagesSkip(st, Absorb(c, Pull(st, u, c.cursor, limits[0])), u, limits[1..], key);
    }
  }

  lemma {:induction false} PagesKeepState(st: State, c: Client, u: User, limits: seq<int>)
    requires Inv(st)
    ensures Sync(st, c, u, PullPages(limits)).0 == st && AllAllowed(st, c, u, PullPages(limits))
    decreases |limits|
  {
    if limits != [] {
      assert PullPages(limits)[1..] == PullPages(limits[1..]);
      PagesKeepState(st, Absorb(c, Pull(st, u, c.cursor, limits[0])), u, limits[1..]);
    }
  }

  // The client after all its pages.
  function Paged(st: State, c: Client, u: User, limits: seq<int>): Client {
    Sync(st, c, u, PullPages(limits)).1
  }

  // Any client that pages to the end on a quiet server agrees with it exactly when,
  // before, every row it did not know as it is was announced past its cursor: a device
  // that was offline while the cleanup dropped such an entry never agrees.
  lemma QuietConvergesIff(st: State, c: Client, u: User, limits: seq<int>, limit: int)
    requires Inv(st) && c.cursor <= st.lastSeq
    requires !Pull(st, u, Paged(st, c, u, limits).cursor, limit).hasMore
    ensures var c' := Paged(st, c, u, limits);
      Agreement(st.rows, Absorb(c', Pull(st, u, c'.cursor, limit)).known, u) <==> ClientOk(st, c, u)
  {
    var c' := Paged(st, c, u, limits);
    PagesKeepState(st, c, u, limits);
    if ClientOk(st, c, u) {
      Converges(st, c, u, PullPages(limits), limit);
    } else {
      var key :| !Waiting(st.log, c.cursor, u, key) && !Agrees(st.rows, c.known, u, key);
      PagesSkip(st, c, u, limits, key);
      PageSkips(st, c', u, limit, key);
      SameViewAgrees(st.rows, c.known, Absorb(c', Pull(st, u, c'.cursor, limit)).known, u, key);
    }
  }

  lemma SameViewAgrees(rows: Rows, known: map<Key, View>, known': map<Key, View>, u: User, key: Key)
    requires ViewAt(known', key) == ViewAt(known, key)
    ensures Agrees(rows, known', u, key) <==> Agrees(rows, known, u, key)
  {
  }

  // A new client that pages to the end on a quiet server agrees with it exactly when
  // every row of the user still has an entry: not, that is, once the cleanup has
  // dropped the last entry of a live row.
  lemma FreshConvergesIff(st: State, u: User, limits: seq<int>, limit: int)
    requires Inv(st) && !Pull(st, u, Paged(st, FRESH, u, limits).cursor, limit).hasMore
    ensures var c := Paged(st, FRESH, u, limits);
      Agreement(st.rows, Absorb(c, Pull(st, u, c.cursor, limit)).known, u) <==> AllAnnounced(st, u)
  {
    QuietConvergesIff(st, FRESH, u, limits, limit);
    FreshOkIff(st, u);
  }

  lemma AnnouncedByHistory(st: State, key: Key)
    requires Inv(st) && key in st.rows
    ensures Waiting(st.log, 0, st.rows[key].user, key) <==> History(st.log, key) != []
  {
    if History(st.log, key) != [] {
      HistoryMembers(st.log, key, 0);
      var j :| 0 <= j < |st.log| && st.log[j] == History(st.log, key)[0];
      assert EntryOk(st, st.log[j]);
    }
    if Waiting(st.log, 0, st.rows[key].user, key) {
      var i :| 0 <= i < |st.log| && st.log[i].user == st.rows[key].user && st.log[i].key == key && st.log[i].seqNo > 0;
      MemberHistory(st.log, i);
    }
  }

  // Something of a history in time order survives exactly when its last entry does.
  lemma LastSurvives(h: seq<LogEntry>, cutoff: Time)
    requires h != [] && Ordered(h)
    ensures Recent(h, cutoff) != [] <==> h[|h| - 1].createdAt >= cutoff
  {
    var n := RecentIsSuffix(h, cutoff);
    assert n == |h| <==> h[|h| - 1].createdAt < cutoff;
  }

  // The cleanup leaves a surviving row announced exactly when the row changed at or
  // after the cutoff.
  lemma AnnouncedAfterCleanup(st: State, cutoff: Time, key: Key)
    requires Inv(st) && key in Cleaned(st, cutoff).rows && Waiting(st.log, 0, st.rows[key].user, key)
    ensures Waiting(Cleaned(st, cutoff).log, 0, st.rows[key].user, key) <==> st.rows[key].updatedAt >= cutoff
  {
    AnnouncedByHistory(st, key);
    CleanedInv(st, cutoff);
    AnnouncedByHistory(Cleaned(st, cutoff), key);
    HistoryRecent(st.log, cutoff, key);
    HistoryOrdered(st.log, key);
    LastSurvives(History(st.log, key), cutoff);
    assert RowOk(st, key);
  }

  // ----- a row that new clients miss -----

  // The state after the first insert of a course at time 0.
  function OneCourse(u: User, opId: OpId, content: Content): State {
    var key := Key(Course, 7);
    State(map[key := Row(u, 1, None, 0, content)], [LogEntry(1, u, key, Upsert, 1, 0)], 1,
          map[(u, opId) := Receipt(Accepted(opId, 1, 0), 0)], 0)
  }

  lemma DecideCourse(u: User, item: PushItem, env: Env)
    requires item.kind == Some(Course) && item.id == 7 && item.op.PushUpsert? && item.payload.title.Some?
    ensures Decide(map[], u, item, env) ==
            Do(Accepted(item.opId, 1, env.now),
               [Put(Key(Course, 7), NewContent(Course, 7, item.payload, NIL, env.now), false)])
  {
  }

  lemma InsertCourse(u: User, item: PushItem, env: Env)
    requires item.kind == Some(Course) && item.id == 7 && item.op.PushUpsert? && item.payload.title.Some? && env.now == 0
    ensures ApplyPush(EMPTY_STATE, u, [item], env) == OneCourse(u, item.opId, NewContent(Course, 7, item.payload, NIL, 0))
  {
    var w := Put(Key(Course, 7), NewContent(Course, 7, item.payload, NIL, 0), false);
    DecideCourse(u, item, env);
    WriteOne(EMPTY_STATE, u, w, 0);
    var st := OneCourse(u, item.opId, w.content);
    assert ApplyOne(EMPTY_STATE, u, item, env) == Done(st, Accepted(item.opId, 1, 0));
    assert [item][1..] == [] && ApplyItems(st, u, [], env) == Committed(st, []);
    assert ApplyItems(EMPTY_STATE, u, [item], env) == Committed(st, [Accepted(item.opId, 1, 0)]);
  }

  lemma CleanCourse(u: User, opId: OpId, content: Content, cutoff: Time)
    requires cutoff > 0
    ensures var st := Cleaned(OneCourse(u, opId, content), cutoff);
      LiveRow(st.rows, u, Key(Course, 7)) && !AllAnnounced(st, u)
  {
    var st := OneCourse(u, opId, content);
    assert st.log[..0] == [] && Recent([], cutoff) == [];
    assert Recent(st.log, cutoff) == [];
    assert !Waiting([], 0, u, Key(Course, 7));
  }

  // A live course inserted at time 0, then a cleanup with any later cutoff: the
  // course lives on, and no new client ever sees it.
  lemma CleanupHidesLiveRow(u: User, item: PushItem, env: Env, cutoff: Time)
    requires item.kind == Some(Course) && item.id == 7 && item.op.PushUpsert? && item.payload.title.Some?
    requires env.now == 0 && cutoff > 0
    ensures var st := Cleaned(ApplyPush(EMPTY_STATE, u, [item], env), cutoff);
      LiveRow(st.rows, u, Key(Course, 7)) && !AllAnnounced(st, u)
  {
    InsertCourse(u, item, env);
    CleanCourse(u, item.opId, NewContent(Course, 7, item.payload, NIL, 0), cutoff);
  }
}
