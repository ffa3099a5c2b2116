/** Why running a delete statement by statement, each on the rows as they are by then,
    comes to the writes decided on the rows as they were. */
module SyncStatements {
  import opened SyncTypes
  import opened SyncMerge
  import opened SyncState
  import opened SyncDecide
  import opened SyncCascade

  // What a finished list of writes looks like from outside, row by row.
  predicate Wrote(st: State, st': State, u: User, ws: seq<Write>, now: Time) {
    && st'.rows.Keys == st.rows.Keys + KeysOf(ws)
    && (forall key :: key in st.rows && key !in KeysOf(ws) ==> st'.rows[key] == st.rows[key])
    && (forall i :: 0 <= i < |ws| ==> ws[i].key in st'.rows && st'.rows[ws[i].key] == RowAfter(st.rows, u, ws[i], now))
    && st'.log == st.log + EntriesOf(st, u, ws, now) && st'.lastSeq == st.lastSeq + |ws|
    && st'.ledger == st.ledger && st'.clock == if ws == [] then st.clock else now
  }

  // Rows and log determine the outcome: any way of getting there is the list of writes.
  lemma WroteIsWriteAll(st: State, st': State, u: User, ws: seq<Write>, now: Time)
    requires DistinctKeys(ws) && Wrote(st, st', u, ws, now)
    ensures st' == WriteAll(st, u, ws, now)
  {
    var end := WriteAll(st, u, ws, now);
    WriteAllRows(st, u, ws, now);
    WriteAllLog(st, u, ws, now);
    forall key | key in st'.rows
      ensures end.rows[key] == st'.rows[key]
    {
      if key in KeysOf(ws) {
        var i :| 0 <= i < |ws| && ws[i].key == key;
      }
    }
    assert st'.rows == end.rows;
  }

  // The earlier writes either left this table alone or deleted rows that this
  // statement does not look for.
  predicate Clear(rows: Rows, u: User, done: seq<Write>, kind: Kind, col: Column, parent: Id) {
    forall i :: 0 <= i < |done| && done[i].key.kind == kind ==>
      done[i].gone && done[i].key in rows && done[i].key !in MatchingKeys(rows, u, kind, col, parent)
  }

  lemma WrittenRow(st: State, u: User, ws: seq<Write>, now: Time, i: nat)
    requires DistinctKeys(ws) && i < |ws|
    ensures ws[i].key in WriteAll(st, u, ws, now).rows
    ensures WriteAll(st, u, ws, now).rows[ws[i].key] == RowAfter(st.rows, u, ws[i], now)
  {
    WriteAllRows(st, u, ws, now);
    assert ws[i].key in KeysOf(ws);
  }

  lemma UnwrittenRow(st: State, u: User, ws: seq<Write>, now: Time, key: Key)
    requires DistinctKeys(ws) && key !in KeysOf(ws)
    ensures Same(st.rows, WriteAll(st, u, ws, now).rows, key)
  {
    WriteAllRows(st, u, ws, now);
  }

  predicate Same(rows: Rows, rows': Rows, key: Key) {
    (key in rows <==> key in rows') && (key in rows ==> rows'[key] == rows[key])
  }

  // A row the earlier writes left alone, or tombstoned though this statement does not look for it.
  predicate Passed(rows: Rows, rows': Rows, u: User, kind: Kind, col: Column, parent: Id, k: Key) {
    || Same(rows, rows', k)
    || k.kind != kind
    || (k in rows' && !rows'[k].Live() && k !in MatchingKeys(rows, u, kind, col, parent))
  }

  lemma PassedByWrites(st: State, u: User, done: seq<Write>, now: Time, kind: Kind, col: Column, parent: Id, k: Key)
    requires DistinctKeys(done) && Clear(st.rows, u, done, kind, col, parent)
    ensures Passed(st.rows, WriteAll(st, u, done, now).rows, u, kind, col, parent, k)
  {
    if k in KeysOf(done) {
      var i :| 0 <= i < |done| && done[i].key == k;
      WrittenRow(st, u, done, now, i);
    } else {
      UnwrittenRow(st, u, done, now, k);
    }
  }

  lemma PassedMatches(rows: Rows, rows': Rows, u: User, kind: Kind, col: Column, parent: Id, k: Key)
    requires Passed(rows, rows', u, kind, col, parent, k)
    ensures k in MatchingKeys(rows', u, kind, col, parent) <==> k in MatchingKeys(rows, u, kind, col, parent)
    ensures k in MatchingKeys(rows, u, kind, col, parent) ==> Same(rows, rows', k)
  {
  }

  lemma SameMatches(st: State, u: User, done: seq<Write>, now: Time, kind: Kind, col: Column, parent: Id)
    requires DistinctKeys(done) && Clear(st.rows, u, done, kind, col, parent)
    ensures MatchingKeys(WriteAll(st, u, done, now).rows, u, kind, col, parent) == MatchingKeys(st.rows, u, kind, col, parent)
    ensures forall k :: k in MatchingKeys(st.rows, u, kind, col, parent) ==>
              WriteAll(st, u, done, now).rows[k] == st.rows[k]
  {
    var before, after := MatchingKeys(st.rows, u, kind, col, parent), MatchingKeys(WriteAll(st, u, done, now).rows, u, kind, col, parent);
    forall k
      ensures (k in after <==> k in before) && (k in before ==> Same(st.rows, WriteAll(st, u, done, now).rows, k))
    {
      PassedByWrites(st, u, done, now, kind, col, parent, k);
      PassedMatches(st.rows, WriteAll(st, u, done, now).rows, u, kind, col, parent, k);
    }
    assert after == before;
  }

  function IdsOf(keys: set<Key>): set<Id> {
    set k | k in keys :: k.id
  }

  lemma MatchingByKeys(rows: Rows, u: User, kind: Kind, col: Column, parent: Id)
    ensures Matching(rows, u, kind, col, parent) == IdsOf(MatchingKeys(rows, u, kind, col, parent))
  {
  }

  lemma SamePuts(rows: Rows, rows': Rows, u: User, kind: Kind, col: Column, parent: Id, gone: bool, ids: seq<Id>)
    requires MatchingKeys(rows', u, kind, col, parent) == MatchingKeys(rows, u, kind, col, parent)
    requires forall k :: k in MatchingKeys(rows, u, kind, col, parent) ==> rows'[k] == rows[k]
    requires Lists(ids, Matching(rows, u, kind, col, parent))
    ensures forall id :: id in ids ==> Key(kind, id) in rows && Key(kind, id) in rows'
    ensures ChildPuts(rows', kind, ids, col, gone) == ChildPuts(rows, kind, ids, col, gone)
  {
    ListedKeys(rows, u, kind, col, parent, ids);
    assert forall id :: id in ids ==> Key(kind, id) in MatchingKeys(rows, u, kind, col, parent);
  }

  function Statement(rows: Rows, u: User, kind: Kind, col: Column, parent: Id, gone: bool, scan: Scan): seq<Write> {
    if gone then Cascade(rows, u, kind, col, parent, scan) else Detach(rows, u, kind, col, parent, scan)
  }

  // The next cascade or detach writes what it would have written at the start.
  lemma NextStatement(st: State, u: User, done: seq<Write>, now: Time, kind: Kind, col: Column, parent: Id,
                      gone: bool, scan: Scan)
    requires DistinctKeys(done) && Clear(st.rows, u, done, kind, col, parent)
    ensures var mid := WriteAll(st, u, done, now);
      && Statement(mid.rows, u, kind, col, parent, gone, scan) == Statement(st.rows, u, kind, col, parent, gone, scan)
      && WriteAll(mid, u, Statement(mid.rows, u, kind, col, parent, gone, scan), now) ==
         WriteAll(st, u, done + Statement(st.rows, u, kind, col, parent, gone, scan), now)
  {
    var mid := WriteAll(st, u, done, now);
    SameMatches(st, u, done, now, kind, col, parent);
    MatchingByKeys(st.rows, u, kind, col, parent);
    MatchingByKeys(mid.rows, u, kind, col, parent);
    SamePuts(st.rows, mid.rows, u, kind, col, parent, gone, scan(Matching(st.rows, u, kind, col, parent)));
    WriteAllAppend(st, u, done, Statement(st.rows, u, kind, col, parent, gone, scan), now);
  }

  // The keys one statement touches, in delivery order.
  lemma StatementKeys(rows: Rows, u: User, kind: Kind, col: Column, parent: Id, gone: bool, scan: Scan)
    ensures var ws := Statement(rows, u, kind, col, parent, gone, scan);
      && DistinctKeys(ws)
      && forall i :: 0 <= i < |ws| ==> ws[i].gone == gone && ws[i].key in MatchingKeys(rows, u, kind, col, parent)
  {
    var ids := scan(Matching(rows, u, kind, col, parent));
    var ws := Statement(rows, u, kind, col, parent, gone, scan);
    ListedKeys(rows, u, kind, col, parent, ids);
    assert |ws| == |ids|;
    forall i | 0 <= i < |ws|
      ensures ws[i].gone == gone && ws[i].key == Key(kind, ids[i]) && ws[i].key in MatchingKeys(rows, u, kind, col, parent)
    {
      assert ids[i] in ids;
    }
  }

  lemma PrefixDistinct(a: seq<Write>, b: seq<Write>)
    requires DistinctKeys(a + b)
    ensures DistinctKeys(a)
  {
    assert forall i :: 0 <= i < |a| ==> (a + b)[i] == a[i];
  }

  // ----- what earlier statements leave alone -----

  predicate NoKind(ws: seq<Write>, kind: Kind) {
    forall i :: 0 <= i < |ws| ==> ws[i].key.kind != kind
  }

  lemma NoKindBoth(a: seq<Write>, b: seq<Write>, kind: Kind)
    requires NoKind(a, kind) && NoKind(b, kind)
    ensures NoKind(a + b, kind)
  {
  }

  lemma StatementNoKind(rows: Rows, u: User, table: Kind, col: Column, parent: Id, gone: bool, scan: Scan, kind: Kind)
    requires table != kind
    ensures NoKind(Statement(rows, u, table, col, parent, gone, scan), kind)
  {
    StatementKeys(rows, u, table, col, parent, gone, scan);
  }

  // A statement after writes to other tables only.
  lemma NextTable(st: State, u: User, done: seq<Write>, now: Time,
                  kind: Kind, col: Column, parent: Id, gone: bool, scan: Scan)
    requires DistinctKeys(done) && NoKind(done, kind)
    ensures var mid := WriteAll(st, u, done, now);
      WriteAll(mid, u, Statement(mid.rows, u, kind, col, parent, gone, scan), now) ==
      WriteAll(st, u, done + Statement(st.rows, u, kind, col, parent, gone, scan), now)
  {
    NextStatement(st, u, done, now, kind, col, parent, gone, scan);
  }

  // The deleted row's own write after writes to other tables only.
  lemma OwnAfter(st: State, u: User, done: seq<Write>, key: Key, now: Time)
    requires DistinctKeys(done) && NoKind(done, key.kind) && key in st.rows
    ensures var mid := WriteAll(st, u, done, now);
      && key in mid.rows && OwnDelete(mid.rows, key) == OwnDelete(st.rows, key)
      && ApplyWrite(mid, u, OwnDelete(mid.rows, key), now) == WriteAll(st, u, done + [OwnDelete(st.rows, key)], now)
      && mid.rows[key] == st.rows[key]
  {
    WriteAllRows(st, u, done, now);
    assert key !in KeysOf(done);
    WriteAllAppend(st, u, done, [OwnDelete(st.rows, key)], now);
    WriteOne(WriteAll(st, u, done, now), u, OwnDelete(st.rows, key), now);
  }

  // ----- the session cascade, table by table -----

  lemma {:induction false} CascadeEachPrefix(rows: Rows, u: User, kinds: seq<Kind>, i: nat, col: Column, parent: Id,
                                             scan: Scan)
    requires i <= |kinds|
    ensures CascadeEach(rows, u, kinds[..i], col, parent, scan) <= CascadeEach(rows, u, kinds, col, parent, scan)
  {
    if i == |kinds| {
      assert kinds[..i] == kinds;
    } else {
      var front := kinds[..|kinds| - 1];
      assert front[..i] == kinds[..i];
      CascadeEachPrefix(rows, u, front, i, col, parent, scan);
    }
  }

  lemma {:induction false} CascadeEachNoKind(rows: Rows, u: User, kinds: seq<Kind>, col: Column, parent: Id,
                                             scan: Scan, kind: Kind)
    requires kind !in kinds
    ensures NoKind(CascadeEach(rows, u, kinds, col, parent, scan), kind)
  {
    if kinds != [] {
      StatementNoKind(rows, u, kinds[|kinds| - 1], col, parent, true, scan, kind);
      CascadeEachNoKind(rows, u, kinds[..|kinds| - 1], col, parent, scan, kind);
    }
  }

  // The next table of a cascade over several, after the parent row and the tables before it.
  lemma CascadeStep(st: State, u: User, own: seq<Write>, kinds: seq<Kind>, i: nat, col: Column, parent: Id,
                    scan: Scan, now: Time)
    requires i < |kinds| && kinds[i] !in kinds[..i] && NoKind(own, kinds[i])
    requires DistinctKeys(own + CascadeEach(st.rows, u, kinds, col, parent, scan))
    ensures var mid := WriteAll(st, u, own + CascadeEach(st.rows, u, kinds[..i], col, parent, scan), now);
      WriteAll(mid, u, Statement(mid.rows, u, kinds[i], col, parent, true, scan), now) ==
      WriteAll(st, u, own + CascadeEach(st.rows, u, kinds[..i + 1], col, parent, scan), now)
  {
    var before := CascadeEach(st.rows, u, kinds[..i], col, parent, scan);
    CascadeEachPrefix(st.rows, u, kinds, i, col, parent, scan);
    LongerDistinct(own, before, CascadeEach(st.rows, u, kinds, col, parent, scan));
    CascadeEachNoKind(st.rows, u, kinds[..i], col, parent, scan, kinds[i]);
    NoKindBoth(own, before, kinds[i]);
    NextTable(st, u, own + before, now, kinds[i], col, parent, true, scan);
    assert kinds[..i + 1][..i] == kinds[..i];
    assert own + before + Statement(st.rows, u, kinds[i], col, parent, true, scan) ==
           own + CascadeEach(st.rows, u, kinds[..i + 1], col, parent, scan);
  }

  lemma LongerDistinct(own: seq<Write>, a: seq<Write>, b: seq<Write>)
    requires DistinctKeys(own + b) && a <= b
    ensures DistinctKeys(own + a)
  {
    assert forall i :: 0 <= i < |own + a| ==> (own + a)[i] == (own + b)[i];
  }

  // ----- the exam cascade, plan by plan -----

  lemma {:induction false} ItemsOfPlansSplit(rows: Rows, u: User, a: seq<Id>, b: seq<Id>, scan: Scan)
    ensures ItemsOfPlans(rows, u, a + b, scan) == ItemsOfPlans(rows, u, a, scan) + ItemsOfPlans(rows, u, b, scan)
  {
    if a == [] {
      assert a + b == b;
    } else {
      assert (a + b)[1..] == a[1..] + b;
      ItemsOfPlansSplit(rows, u, a[1..], b, scan);
    }
  }

  // Items of these plans only, all tombstoned.
  predicate PlanItemsOf(rows: Rows, u: User, ws: seq<Write>, plans: seq<Id>) {
    forall i :: 0 <= i < |ws| ==> ws[i].gone && ws[i].key in ChildrenOf(rows, u, StudyPlanItem, PlanCol, plans)
  }

  lemma {:induction false} ItemsOfPlansKeys(rows: Rows, u: User, plans: seq<Id>, scan: Scan)
    ensures PlanItemsOf(rows, u, ItemsOfPlans(rows, u, plans, scan), plans)
  {
    if plans != [] {
      StatementKeys(rows, u, StudyPlanItem, PlanCol, plans[0], true, scan);
      ItemsOfPlansKeys(rows, u, plans[1..], scan);
      var first, rest := Cascade(rows, u, StudyPlanItem, PlanCol, plans[0], scan), ItemsOfPlans(rows, u, plans[1..], scan);
      assert forall k :: k in ChildrenOf(rows, u, StudyPlanItem, PlanCol, plans[1..]) ==>
        k in ChildrenOf(rows, u, StudyPlanItem, PlanCol, plans);
      assert forall i :: 0 <= i < |rest| ==> rest[i].key in ChildrenOf(rows, u, StudyPlanItem, PlanCol, plans[1..]);
    }
  }

  // The items of one more plan, after other tables and the items of other plans.
  lemma PlanStep(st: State, u: User, topics: seq<Write>, plans: seq<Id>, i: nat, rest: seq<Write>, scan: Scan,
                 now: Time)
    requires NoKind(topics, StudyPlanItem) && i < |plans| && forall j, k :: 0 <= j < k < |plans| ==> plans[j] != plans[k]
    requires DistinctKeys(topics + ItemsOfPlans(st.rows, u, plans, scan) + rest)
    ensures var mid := WriteAll(st, u, topics + ItemsOfPlans(st.rows, u, plans[..i], scan), now);
      WriteAll(mid, u, Statement(mid.rows, u, StudyPlanItem, PlanCol, plans[i], true, scan), now) ==
      WriteAll(st, u, topics + ItemsOfPlans(st.rows, u, plans[..i + 1], scan), now)
  {
    var before, after := ItemsOfPlans(st.rows, u, plans[..i], scan), ItemsOfPlans(st.rows, u, plans[i..], scan);
    assert topics + ItemsOfPlans(st.rows, u, plans, scan) + rest == topics + before + (after + rest) by {
      assert plans[..i] + plans[i..] == plans;
      ItemsOfPlansSplit(st.rows, u, plans[..i], plans[i..], scan);
    }
    PrefixDistinct(topics + before, after + rest);
    OtherPlansClear(st.rows, u, topics, plans, i, scan);
    NextStatement(st, u, topics + before, now, StudyPlanItem, PlanCol, plans[i], true, scan);
    ItemsOfPlansNext(st.rows, u, plans, i, scan);
    assert topics + before + Statement(st.rows, u, StudyPlanItem, PlanCol, plans[i], true, scan) ==
           topics + ItemsOfPlans(st.rows, u, plans[..i + 1], scan);
  }

  lemma OtherPlansClear(rows: Rows, u: User, topics: seq<Write>, plans: seq<Id>, i: nat, scan: Scan)
    requires NoKind(topics, StudyPlanItem) && i < |plans| && forall j, k :: 0 <= j < k < |plans| ==> plans[j] != plans[k]
    ensures Clear(rows, u, topics + ItemsOfPlans(rows, u, plans[..i], scan), StudyPlanItem, PlanCol, plans[i])
  {
    var before := ItemsOfPlans(rows, u, plans[..i], scan);
    ItemsOfPlansKeys(rows, u, plans[..i], scan);
    assert plans[i] !in plans[..i];
    forall j | 0 <= j < |before|
      ensures before[j].gone && before[j].key in rows && before[j].key !in MatchingKeys(rows, u, StudyPlanItem, PlanCol, plans[i])
    {
      assert before[j].key in ChildrenOf(rows, u, StudyPlanItem, PlanCol, plans[..i]);
    }
  }

  lemma ItemsOfPlansNext(rows: Rows, u: User, plans: seq<Id>, i: nat, scan: Scan)
    requires i < |plans|
    ensures ItemsOfPlans(rows, u, plans[..i + 1], scan) ==
            ItemsOfPlans(rows, u, plans[..i], scan) + Cascade(rows, u, StudyPlanItem, PlanCol, plans[i], scan)
  {
    ItemsOfPlansSplit(rows, u, plans[..i], [plans[i]], scan);
    assert plans[..i] + [plans[i]] == plans[..i + 1] && [plans[i]][1..] == [];
    assert ItemsOfPlans(rows, u, [plans[i]], scan) == Cascade(rows, u, StudyPlanItem, PlanCol, plans[i], scan) + [];
  }

  lemma DeleteDistinct(st: State, u: User, key: Key, scan: Scan)
    requires Inv(st) && LiveRow(st.rows, u, key)
    ensures DistinctKeys(DeleteWrites(st.rows, u, key, scan))
  {
    InvTyped(st);
    DeleteTouchesReached(st.rows, u, key, scan);
  }

  lemma DeleteIsLegal(st: State, u: User, key: Key, scan: Scan)
    requires Inv(st) && LiveRow(st.rows, u, key)
    ensures LegalAll(st.rows, u, DeleteWrites(st.rows, u, key, scan))
  {
    InvTyped(st);
    DeleteTouchesReached(st.rows, u, key, scan);
  }

  lemma SessionChildrenDistinct(i: nat)
    requires i < |SESSION_CHILDREN|
    ensures SESSION_CHILDREN[i] !in SESSION_CHILDREN[..i] && SESSION_CHILDREN[i] != Session
  {
    var all := SESSION_CHILDREN;
    assert all[0] == Entry && all[1] == Bookmark && all[2] == Favorite && all[3] == Note
           && all[4] == StudyReview && all[5] == Attachment && all[6] == Correction;
  }

  // ----- the course delete -----

  function ScheduleWrites(rows: Rows, u: User, course: Id, scan: Scan): seq<Write> {
    SchedulesWithExceptions(rows, u, scan(Matching(rows, u, CourseSchedule, CourseCol, course)), scan)
  }

  // The writes of a course delete before its schedules: nothing, one, two or three detaches.
  function CoursePrefix(rows: Rows, u: User, key: Key, scan: Scan, n: nat): seq<Write>
    requires key in rows
  {
    var own := [OwnDelete(rows, key)];
    var a := Statement(rows, u, Session, CourseCol, key.id, false, scan);
    var b := Statement(rows, u, Exam, CourseCol, key.id, false, scan);
    var c := Statement(rows, u, StudyActivity, CourseCol, key.id, false, scan);
    if n == 0 then own else if n == 1 then own + a else if n == 2 then own + a + b else own + a + b + c
  }

  lemma CourseDeleteIs(rows: Rows, u: User, key: Key, scan: Scan)
    requires key in rows && key.kind == Course
    ensures DeleteWrites(rows, u, key, scan) == CoursePrefix(rows, u, key, scan, 3) + ScheduleWrites(rows, u, key.id, scan)
  {
  }

  function CourseDetach(rows: Rows, u: User, key: Key, scan: Scan, n: nat): seq<Write> {
    var kind := if n == 0 then Session else if n == 1 then Exam else StudyActivity;
    Statement(rows, u, kind, CourseCol, key.id, false, scan)
  }

  lemma CoursePrefixNext(rows: Rows, u: User, key: Key, scan: Scan, n: nat)
    requires key in rows && n < 3
    ensures CoursePrefix(rows, u, key, scan, n + 1) == CoursePrefix(rows, u, key, scan, n) + CourseDetach(rows, u, key, scan, n)
  {
  }

  lemma {:induction false} CoursePrefixDistinct(st: State, u: User, key: Key, scan: Scan, n: nat)
    requires Inv(st) && LiveRow(st.rows, u, key) && key.kind == Course && n <= 3
    ensures DistinctKeys(CoursePrefix(st.rows, u, key, scan, n))
    decreases 3 - n
  {
    if n == 3 {
      DeleteDistinct(st, u, key, scan);
      CourseDeleteIs(st.rows, u, key, scan);
      PrefixDistinct(CoursePrefix(st.rows, u, key, scan, 3), ScheduleWrites(st.rows, u, key.id, scan));
    } else {
      CoursePrefixDistinct(st, u, key, scan, n + 1);
      CoursePrefixNext(st.rows, u, key, scan, n);
      PrefixDistinct(CoursePrefix(st.rows, u, key, scan, n), CourseDetach(st.rows, u, key, scan, n));
    }
  }

  lemma CoursePrefixKinds(rows: Rows, u: User, key: Key, scan: Scan)
    requires key in rows && key.kind == Course
    ensures NoKind(CoursePrefix(rows, u, key, scan, 0), Session)
    ensures NoKind(CoursePrefix(rows, u, key, scan, 1), Exam)
    ensures NoKind(CoursePrefix(rows, u, key, scan, 2), StudyActivity)
    ensures NoKind(CoursePrefix(rows, u, key, scan, 3), CourseSchedule)
    ensures NoKind(CoursePrefix(rows, u, key, scan, 3), ScheduleException)
  {
    StatementKeys(rows, u, Session, CourseCol, key.id, false, scan);
    StatementKeys(rows, u, Exam, CourseCol, key.id, false, scan);
    StatementKeys(rows, u, StudyActivity, CourseCol, key.id, false, scan);
  }

  lemma CoursePrefixTyped(st: State, u: User, key: Key, scan: Scan, now: Time)
    requires Inv(st) && LiveRow(st.rows, u, key) && key.kind == Course
    ensures Typed(WriteAll(st, u, CoursePrefix(st.rows, u, key, scan, 3), now).rows)
  {
    var ws, rest := CoursePrefix(st.rows, u, key, scan, 3), ScheduleWrites(st.rows, u, key.id, scan);
    InvTyped(st);
    DeleteIsLegal(st, u, key, scan);
    CourseDeleteIs(st.rows, u, key, scan);
    TypedAfter(st, u, ws, rest, now);
  }

  predicate SameTable(rows: Rows, rows': Rows, kind: Kind) {
    && (forall k :: k in rows && k.kind == kind ==> k in rows' && rows'[k] == rows[k])
    && (forall k :: k in rows' && k.kind == kind ==> k in rows)
  }

  lemma TableUntouched(st: State, u: User, ws: seq<Write>, now: Time, kind: Kind)
    requires DistinctKeys(ws) && NoKind(ws, kind)
    ensures SameTable(st.rows, WriteAll(st, u, ws, now).rows, kind)
  {
    forall k: Key | k.kind == kind
      ensures Same(st.rows, WriteAll(st, u, ws, now).rows, k)
    {
      UnwrittenRow(st, u, ws, now, k);
    }
  }

  lemma SameTableKeys(rows: Rows, rows': Rows, u: User, kind: Kind, col: Column, parent: Id)
    requires SameTable(rows, rows', kind)
    ensures MatchingKeys(rows', u, kind, col, parent) == MatchingKeys(rows, u, kind, col, parent)
    ensures forall k :: k in MatchingKeys(rows, u, kind, col, parent) ==> k in rows' && rows'[k] == rows[k]
  {
    forall k: Key
      ensures k in MatchingKeys(rows', u, kind, col, parent) <==> k in MatchingKeys(rows, u, kind, col, parent)
      ensures k in MatchingKeys(rows, u, kind, col, parent) ==> Same(rows, rows', k)
    {
      assert k.kind == kind ==> Same(rows, rows', k);
      PassedMatches(rows, rows', u, kind, col, parent, k);
    }
  }

  lemma SameTableMatching(rows: Rows, rows': Rows, u: User, kind: Kind, col: Column, parent: Id)
    requires SameTable(rows, rows', kind)
    ensures Matching(rows', u, kind, col, parent) == Matching(rows, u, kind, col, parent)
  {
    SameTableKeys(rows, rows', u, kind, col, parent);
    MatchingByKeys(rows, u, kind, col, parent);
    MatchingByKeys(rows', u, kind, col, parent);
  }

  lemma StatementPuts(rows: Rows, u: User, kind: Kind, col: Column, parent: Id, gone: bool, scan: Scan)
    requires forall id :: id in scan(Matching(rows, u, kind, col, parent)) ==> Key(kind, id) in rows
    ensures Statement(rows, u, kind, col, parent, gone, scan) ==
            ChildPuts(rows, kind, scan(Matching(rows, u, kind, col, parent)), col, gone)
  {
  }

  lemma SameTableStatement(rows: Rows, rows': Rows, u: User, kind: Kind, col: Column, parent: Id, gone: bool,
                           scan: Scan)
    requires SameTable(rows, rows', kind)
    ensures Matching(rows', u, kind, col, parent) == Matching(rows, u, kind, col, parent)
    ensures Statement(rows', u, kind, col, parent, gone, scan) == Statement(rows, u, kind, col, parent, gone, scan)
  {
    SameTableMatching(rows, rows', u, kind, col, parent);
    SameTableKeys(rows, rows', u, kind, col, parent);
    SamePuts(rows, rows', u, kind, col, parent, gone, scan(Matching(rows, u, kind, col, parent)));
    StatementPuts(rows, u, kind, col, parent, gone, scan);
    StatementPuts(rows', u, kind, col, parent, gone, scan);
  }

  lemma {:induction false} SameTableSchedules(rows: Rows, rows': Rows, u: User, schedules: seq<Id>, scan: Scan)
    requires SameTable(rows, rows', CourseSchedule) && SameTable(rows, rows', ScheduleException)
    requires forall id :: id in schedules ==> Key(CourseSchedule, id) in rows
    ensures forall id :: id in schedules ==> Key(CourseSchedule, id) in rows'
    ensures SchedulesWithExceptions(rows', u, schedules, scan) == SchedulesWithExceptions(rows, u, schedules, scan)
  {
    if schedules != [] {
      SameTableStatement(rows, rows', u, ScheduleException, ScheduleCol, schedules[0], true, scan);
      SameTableSchedules(rows, rows', u, schedules[1..], scan);
    }
  }

  lemma SchedulesNext(st: State, u: User, done: seq<Write>, course: Id, scan: Scan, now: Time)
    requires DistinctKeys(done) && NoKind(done, CourseSchedule) && NoKind(done, ScheduleException)
    ensures var mid := WriteAll(st, u, done, now);
      WriteAll(mid, u, ScheduleWrites(mid.rows, u, course, scan), now) ==
      WriteAll(st, u, done + ScheduleWrites(st.rows, u, course, scan), now)
  {
    var mid := WriteAll(st, u, done, now);
    var schedules := scan(Matching(st.rows, u, CourseSchedule, CourseCol, course));
    TableUntouched(st, u, done, now, CourseSchedule);
    TableUntouched(st, u, done, now, ScheduleException);
    SameTableStatement(st.rows, mid.rows, u, CourseSchedule, CourseCol, course, true, scan);
    ListedKeys(st.rows, u, CourseSchedule, CourseCol, course, schedules);
    SameTableSchedules(st.rows, mid.rows, u, schedules, scan);
    WriteAllAppend(st, u, done, ScheduleWrites(st.rows, u, course, scan), now);
  }

  // ----- the exam delete -----

  lemma ExamPlans(st: State, u: User, key: Key, scan: Scan, now: Time)
    requires Inv(st) && LiveRow(st.rows, u, key) && key.kind == Exam
    ensures var topics := Statement(st.rows, u, ExamTopic, ExamCol, key.id, true, scan);
      var mid := WriteAll(st, u, topics, now);
      Matching(mid.rows, u, StudyPlan, ExamCol, key.id) == Matching(st.rows, u, StudyPlan, ExamCol, key.id)
  {
    var topics := Statement(st.rows, u, ExamTopic, ExamCol, key.id, true, scan);
    StatementKeys(st.rows, u, ExamTopic, ExamCol, key.id, true, scan);
    StatementNoKind(st.rows, u, ExamTopic, ExamCol, key.id, true, scan, StudyPlan);
    TableUntouched(st, u, topics, now, StudyPlan);
    SameTableStatement(st.rows, WriteAll(st, u, topics, now).rows, u, StudyPlan, ExamCol, key.id, true, scan);
  }

  // What an exam delete writes once its plans' items are gone.
  function AfterItems(rows: Rows, u: User, key: Key, scan: Scan): seq<Write>
    requires key in rows
  {
    Statement(rows, u, StudyPlan, ExamCol, key.id, true, scan)
    + Statement(rows, u, StudyActivity, ExamCol, key.id, false, scan) + [OwnDelete(rows, key)]
  }

  lemma ExamDeleteIs(rows: Rows, u: User, key: Key, scan: Scan)
    requires key in rows && key.kind == Exam
    ensures var topics := Statement(rows, u, ExamTopic, ExamCol, key.id, true, scan);
      var plans := scan(Matching(rows, u, StudyPlan, ExamCol, key.id));
      DeleteWrites(rows, u, key, scan) == topics + ItemsOfPlans(rows, u, plans, scan) + AfterItems(rows, u, key, scan)
    ensures DeleteWrites(rows, u, key, scan) == ExamPrefix(rows, u, key, scan, 2) + [OwnDelete(rows, key)]
  {
  }

  lemma ExamPlanStep(st: State, u: User, key: Key, scan: Scan, now: Time, i: nat)
    requires Inv(st) && LiveRow(st.rows, u, key) && key.kind == Exam
    requires i < |scan(Matching(st.rows, u, StudyPlan, ExamCol, key.id))|
    ensures var topics := Statement(st.rows, u, ExamTopic, ExamCol, key.id, true, scan);
      var plans := scan(Matching(st.rows, u, StudyPlan, ExamCol, key.id));
      var mid := WriteAll(st, u, topics + ItemsOfPlans(st.rows, u, plans[..i], scan), now);
      WriteAll(mid, u, Statement(mid.rows, u, StudyPlanItem, PlanCol, plans[i], true, scan), now) ==
      WriteAll(st, u, topics + ItemsOfPlans(st.rows, u, plans[..i + 1], scan), now)
  {
    var topics := Statement(st.rows, u, ExamTopic, ExamCol, key.id, true, scan);
    var plans := scan(Matching(st.rows, u, StudyPlan, ExamCol, key.id));
    var rest := AfterItems(st.rows, u, key, scan);
    DeleteDistinct(st, u, key, scan);
    ExamDeleteIs(st.rows, u, key, scan);
    StatementNoKind(st.rows, u, ExamTopic, ExamCol, key.id, true, scan, StudyPlanItem);
    PlanStep(st, u, topics, plans, i, rest, scan, now);
  }

  // The writes of an exam delete up to its plans' items, its plans, its activities.
  function ExamPrefix(rows: Rows, u: User, key: Key, scan: Scan, n: nat): seq<Write> {
    var a := Statement(rows, u, ExamTopic, ExamCol, key.id, true, scan)
             + ItemsOfPlans(rows, u, scan(Matching(rows, u, StudyPlan, ExamCol, key.id)), scan);
    var b := Statement(rows, u, StudyPlan, ExamCol, key.id, true, scan);
    var c := Statement(rows, u, StudyActivity, ExamCol, key.id, false, scan);
    if n == 0 then a else if n == 1 then a + b else a + b + c
  }

  function ExamNext(rows: Rows, u: User, key: Key, scan: Scan, n: nat): seq<Write> {
    Statement(rows, u, if n == 0 then StudyPlan else StudyActivity, ExamCol, key.id, n == 0, scan)
  }

  lemma ExamPrefixNext(rows: Rows, u: User, key: Key, scan: Scan, n: nat)
    requires n < 2
    ensures ExamPrefix(rows, u, key, scan, n + 1) == ExamPrefix(rows, u, key, scan, n) + ExamNext(rows, u, key, scan, n)
  {
  }

  lemma {:induction false} ExamPrefixDistinct(st: State, u: User, key: Key, scan: Scan, n: nat)
    requires Inv(st) && LiveRow(st.rows, u, key) && key.kind == Exam && n <= 2
    ensures DistinctKeys(ExamPrefix(st.rows, u, key, scan, n))
    decreases 2 - n
  {
    if n == 2 {
      DeleteDistinct(st, u, key, scan);
      ExamDeleteIs(st.rows, u, key, scan);
      PrefixDistinct(ExamPrefix(st.rows, u, key, scan, 2), [OwnDelete(st.rows, key)]);
    } else {
      ExamPrefixDistinct(st, u, key, scan, n + 1);
      ExamPrefixNext(st.rows, u, key, scan, n);
      PrefixDistinct(ExamPrefix(st.rows, u, key, scan, n), ExamNext(st.rows, u, key, scan, n));
    }
  }

  lemma ExamPrefixKinds(rows: Rows, u: User, key: Key, scan: Scan)
    ensures NoKind(ExamPrefix(rows, u, key, scan, 0), StudyPlan)
    ensures NoKind(ExamPrefix(rows, u, key, scan, 1), StudyActivity)
    ensures NoKind(ExamPrefix(rows, u, key, scan, 2), Exam)
  {
    var plans := scan(Matching(rows, u, StudyPlan, ExamCol, key.id));
    StatementKeys(rows, u, ExamTopic, ExamCol, key.id, true, scan);
    StatementKeys(rows, u, StudyPlan, ExamCol, key.id, true, scan);
    StatementKeys(rows, u, StudyActivity, ExamCol, key.id, false, scan);
    ItemsOfPlansKeys(rows, u, plans, scan);
    var items := ItemsOfPlans(rows, u, plans, scan);
    assert forall i :: 0 <= i < |items| ==> items[i].key in ChildrenOf(rows, u, StudyPlanItem, PlanCol, plans);
  }

  // ----- the schedule cascade, schedule by schedule -----

  // The first i schedules are logged with their exceptions; the others are already
  // tombstoned in their table, but not yet logged.
  predicate Halfway(st: State, cur: State, u: User, ids: seq<Id>, i: nat, env: Env) {
    && i <= |ids| && (forall id :: id in ids ==> Key(CourseSchedule, id) in st.rows)
    && SameButSchedules(WriteAll(st, u, SchedulesWithExceptions(st.rows, u, ids[..i], env.scan), env.now), cur, ids[i..])
    && AllBumped(st, cur, u, ids[i..], env.now)
  }

  // Equal but for the rows of these schedules.
  predicate SameButSchedules(done: State, cur: State, ids: seq<Id>) {
    && cur.log == done.log && cur.lastSeq == done.lastSeq && cur.ledger == done.ledger && cur.clock == done.clock
    && cur.rows.Keys == done.rows.Keys
    && forall k :: k in done.rows && !(k.kind == CourseSchedule && k.id in ids) ==> cur.rows[k] == done.rows[k]
  }

  predicate AllBumped(st: State, cur: State, u: User, ids: seq<Id>, now: Time)
    requires forall id :: id in ids ==> Key(CourseSchedule, id) in st.rows
  {
    forall id :: id in ids ==>
      var k := Key(CourseSchedule, id);
      k in cur.rows && cur.rows[k] == RowAfter(st.rows, u, ChildPut(st.rows, k, CourseCol, true), now)
  }

  lemma SchedulesBumped(st: State, bumped: State, u: User, course: Id, env: Env)
    requires bumped.rows.Keys == st.rows.Keys && bumped.log == st.log && bumped.lastSeq == st.lastSeq
    requires bumped.ledger == st.ledger && bumped.clock == st.clock
    requires forall k :: k in st.rows && k !in MatchingKeys(st.rows, u, CourseSchedule, CourseCol, course) ==>
               bumped.rows[k] == st.rows[k]
    requires var ws := Statement(st.rows, u, CourseSchedule, CourseCol, course, true, env.scan);
      forall i :: 0 <= i < |ws| ==> ws[i].key in bumped.rows && bumped.rows[ws[i].key] == RowAfter(st.rows, u, ws[i], env.now)
    ensures Halfway(st, bumped, u, env.scan(Matching(st.rows, u, CourseSchedule, CourseCol, course)), 0, env)
  {
    var ids := env.scan(Matching(st.rows, u, CourseSchedule, CourseCol, course));
    var ws := Statement(st.rows, u, CourseSchedule, CourseCol, course, true, env.scan);
    ListedKeys(st.rows, u, CourseSchedule, CourseCol, course, ids);
    assert ids[..0] == [] && ids[0..] == ids;
    forall id | id in ids
      ensures var k := Key(CourseSchedule, id);
        k in bumped.rows && bumped.rows[k] == RowAfter(st.rows, u, ChildPut(st.rows, k, CourseCol, true), env.now)
    {
      var i :| 0 <= i < |ids| && ids[i] == id;
      assert ws[i] == ChildPut(st.rows, Key(CourseSchedule, ids[i]), CourseCol, true);
    }
    forall k | k in st.rows && !(k.kind == CourseSchedule && k.id in ids)
      ensures bumped.rows[k] == st.rows[k]
    {
      assert k.kind == CourseSchedule ==> k == Key(CourseSchedule, k.id);
    }
  }

  lemma {:induction false} SchedulesSplit(rows: Rows, u: User, a: seq<Id>, b: seq<Id>, scan: Scan)
    requires forall id :: id in a + b ==> Key(CourseSchedule, id) in rows
    ensures (forall id :: id in a ==> Key(CourseSchedule, id) in rows) && forall id :: id in b ==> Key(CourseSchedule, id) in rows
    ensures SchedulesWithExceptions(rows, u, a + b, scan) ==
            SchedulesWithExceptions(rows, u, a, scan) + SchedulesWithExceptions(rows, u, b, scan)
  {
    assert forall id :: id in b ==> id in a + b;
    assert forall id :: id in a ==> id in a + b;
    if a == [] {
      assert a + b == b;
    } else {
      assert (a + b)[1..] == a[1..] + b;
      SchedulesSplit(rows, u, a[1..], b, scan);
    }
  }

  lemma SchedulesNextOne(rows: Rows, u: User, ids: seq<Id>, i: nat, scan: Scan)
    requires i < |ids| && forall id :: id in ids ==> Key(CourseSchedule, id) in rows
    ensures SchedulesWithExceptions(rows, u, ids[..i + 1], scan) ==
            SchedulesWithExceptions(rows, u, ids[..i], scan) + [ChildPut(rows, Key(CourseSchedule, ids[i]), CourseCol, true)]
            + Cascade(rows, u, ScheduleException, ScheduleCol, ids[i], scan)
  {
    assert ids[..i] + [ids[i]] == ids[..i + 1] && [ids[i]][1..] == [];
    SchedulesSplit(rows, u, ids[..i], [ids[i]], scan);
  }

  // Exceptions only of these schedules, all tombstoned.
  predicate ExceptionsOf(rows: Rows, u: User, ws: seq<Write>, ids: seq<Id>) {
    forall j :: 0 <= j < |ws| && ws[j].key.kind == ScheduleException ==>
      ws[j].gone && ws[j].key in ChildrenOf(rows, u, ScheduleException, ScheduleCol, ids)
  }

  lemma {:induction false} SchedulesKeys(rows: Rows, u: User, ids: seq<Id>, scan: Scan)
    requires forall id :: id in ids ==> Key(CourseSchedule, id) in rows
    ensures ExceptionsOf(rows, u, SchedulesWithExceptions(rows, u, ids, scan), ids)
  {
    if ids != [] {
      var own := [ChildPut(rows, Key(CourseSchedule, ids[0]), CourseCol, true)];
      var first := Cascade(rows, u, ScheduleException, ScheduleCol, ids[0], scan);
      var rest := SchedulesWithExceptions(rows, u, ids[1..], scan);
      StatementKeys(rows, u, ScheduleException, ScheduleCol, ids[0], true, scan);
      SchedulesKeys(rows, u, ids[1..], scan);
      assert forall k :: k in ChildrenOf(rows, u, ScheduleException, ScheduleCol, ids[1..]) ==>
        k in ChildrenOf(rows, u, ScheduleException, ScheduleCol, ids);
      assert ExceptionsOf(rows, u, first, ids) && ExceptionsOf(rows, u, rest, ids);
      assert SchedulesWithExceptions(rows, u, ids, scan) == own + first + rest;
    }
  }

  lemma OtherSchedulesClear(rows: Rows, u: User, ids: seq<Id>, i: nat, scan: Scan)
    requires i < |ids| && (forall id :: id in ids ==> Key(CourseSchedule, id) in rows)
    requires forall j, k :: 0 <= j < k < |ids| ==> ids[j] != ids[k]
    ensures Clear(rows, u, SchedulesWithExceptions(rows, u, ids[..i], scan)
                           + [ChildPut(rows, Key(CourseSchedule, ids[i]), CourseCol, true)],
                  ScheduleException, ScheduleCol, ids[i])
  {
    var before := SchedulesWithExceptions(rows, u, ids[..i], scan);
    SchedulesKeys(rows, u, ids[..i], scan);
    assert ids[i] !in ids[..i];
    forall j | 0 <= j < |before| && before[j].key.kind == ScheduleException
      ensures before[j].gone && before[j].key in rows
              && before[j].key !in MatchingKeys(rows, u, ScheduleException, ScheduleCol, ids[i])
    {
      assert before[j].key in ChildrenOf(rows, u, ScheduleException, ScheduleCol, ids[..i]);
    }
  }

  // Two states that agree where a list of writes looks come out alike.
  lemma ParallelWrites(a: State, b: State, u: User, ws: seq<Write>, now: Time, ids: seq<Id>)
    requires DistinctKeys(ws) && SameButSchedules(a, b, ids)
    requires NoKind(ws, CourseSchedule)
    ensures SameButSchedules(WriteAll(a, u, ws, now), WriteAll(b, u, ws, now), ids)
    ensures SameTable(b.rows, WriteAll(b, u, ws, now).rows, CourseSchedule)
  {
    var a', b' := WriteAll(a, u, ws, now), WriteAll(b, u, ws, now);
    WriteAllLog(a, u, ws, now);
    WriteAllLog(b, u, ws, now);
    TableUntouched(b, u, ws, now, CourseSchedule);
    assert EntriesOf(a, u, ws, now) == EntriesOf(b, u, ws, now) by {
      assert forall i :: 0 <= i < |ws| ==> NextVersion(a.rows, ws[i].key) == NextVersion(b.rows, ws[i].key);
    }
    WriteAllRows(a, u, ws, now);
    WriteAllRows(b, u, ws, now);
    forall k | k in a'.rows && !(k.kind == CourseSchedule && k.id in ids)
      ensures b'.rows[k] == a'.rows[k]
    {
      ParallelRow(a, b, u, ws, now, ids, k);
    }
  }

  lemma ParallelRow(a: State, b: State, u: User, ws: seq<Write>, now: Time, ids: seq<Id>, k: Key)
    requires DistinctKeys(ws) && SameButSchedules(a, b, ids) && NoKind(ws, CourseSchedule)
    requires !(k.kind == CourseSchedule && k.id in ids)
    ensures Same(WriteAll(a, u, ws, now).rows, WriteAll(b, u, ws, now).rows, k)
  {
    if k in KeysOf(ws) {
      var i :| 0 <= i < |ws| && ws[i].key == k;
      WrittenRow(a, u, ws, now, i);
      WrittenRow(b, u, ws, now, i);
    } else {
      UnwrittenRow(a, u, ws, now, k);
      UnwrittenRow(b, u, ws, now, k);
    }
  }

  // The schedule's own write is new among the writes before it.
  lemma SchedulePrefixDistinct(rows: Rows, u: User, ids: seq<Id>, i: nat, scan: Scan)
    requires i < |ids| && (forall id :: id in ids ==> Key(CourseSchedule, id) in rows)
    requires DistinctKeys(SchedulesWithExceptions(rows, u, ids, scan))
    ensures var earlier := SchedulesWithExceptions(rows, u, ids[..i], scan);
      var put := ChildPut(rows, Key(CourseSchedule, ids[i]), CourseCol, true);
      DistinctKeys(earlier) && DistinctKeys(earlier + [put]) && put.key !in KeysOf(earlier)
  {
    var earlier := SchedulesWithExceptions(rows, u, ids[..i], scan);
    var put := ChildPut(rows, Key(CourseSchedule, ids[i]), CourseCol, true);
    var first := Cascade(rows, u, ScheduleException, ScheduleCol, ids[i], scan);
    var later := SchedulesWithExceptions(rows, u, ids[i + 1..], scan);
    assert SchedulesWithExceptions(rows, u, ids, scan) == earlier + [put] + first + later by {
      assert ids[..i + 1] + ids[i + 1..] == ids;
      SchedulesSplit(rows, u, ids[..i + 1], ids[i + 1..], scan);
      SchedulesNextOne(rows, u, ids, i, scan);
    }
    PrefixDistinct(earlier + [put] + first, later);
    PrefixDistinct(earlier + [put], first);
    LastIsNew(earlier, put);
  }

  lemma LastIsNew(ws: seq<Write>, w: Write)
    requires DistinctKeys(ws + [w])
    ensures DistinctKeys(ws) && w.key !in KeysOf(ws)
  {
    PrefixDistinct(ws, [w]);
    assert (ws + [w])[|ws|] == w;
    assert forall i :: 0 <= i < |ws| ==> (ws + [w])[i] == ws[i];
  }

  // Logging the next schedule catches up with its write.
  lemma ScheduleLogged(st: State, before: State, logged: State, u: User, ids: seq<Id>, i: nat, env: Env)
    requires i < |ids| && Halfway(st, before, u, ids, i, env) && forall j, k :: 0 <= j < k < |ids| ==> ids[j] != ids[k]
    requires DistinctKeys(SchedulesWithExceptions(st.rows, u, ids, env.scan))
    requires var key := Key(CourseSchedule, ids[i]);
      logged == before.(log := before.log + [LogEntry(before.lastSeq + 1, u, key, Delete, NextVersion(st.rows, key), env.now)],
                        lastSeq := before.lastSeq + 1, clock := env.now)
    ensures var done := SchedulesWithExceptions(st.rows, u, ids[..i], env.scan)
                        + [ChildPut(st.rows, Key(CourseSchedule, ids[i]), CourseCol, true)];
      DistinctKeys(done) && SameButSchedules(WriteAll(st, u, done, env.now), logged, ids[i + 1..])
    ensures AllBumped(st, logged, u, ids[i + 1..], env.now)
  {
    var key := Key(CourseSchedule, ids[i]);
    var earlier, put := SchedulesWithExceptions(st.rows, u, ids[..i], env.scan), ChildPut(st.rows, key, CourseCol, true);
    SchedulePrefixDistinct(st.rows, u, ids, i, env.scan);
    UnwrittenRow(st, u, earlier, env.now, key);
    WriteAllAppend(st, u, earlier, [put], env.now);
    WriteOne(WriteAll(st, u, earlier, env.now), u, put, env.now);
    assert ids[i..] == [ids[i]] + ids[i + 1..] && ids[i] in ids[i..];
    CaughtUpWith(st, WriteAll(st, u, earlier, env.now), before, logged, u, ids[i], ids[i + 1..], env.now);
  }

  lemma CaughtUpWith(st: State, mid: State, before: State, logged: State, u: User, id: Id, rest: seq<Id>, now: Time)
    requires forall x :: x in [id] + rest ==> Key(CourseSchedule, x) in st.rows
    requires SameButSchedules(mid, before, [id] + rest) && AllBumped(st, before, u, [id] + rest, now)
    requires Same(st.rows, mid.rows, Key(CourseSchedule, id))
    requires var key := Key(CourseSchedule, id);
      logged == before.(log := before.log + [LogEntry(before.lastSeq + 1, u, key, Delete, NextVersion(st.rows, key), now)],
                        lastSeq := before.lastSeq + 1, clock := now)
    ensures Key(CourseSchedule, id) in st.rows
    ensures SameButSchedules(ApplyWrite(mid, u, ChildPut(st.rows, Key(CourseSchedule, id), CourseCol, true), now), logged, rest)
    ensures (forall x :: x in rest ==> Key(CourseSchedule, x) in st.rows) && AllBumped(st, logged, u, rest, now)
  {
    var key := Key(CourseSchedule, id);
    assert id in [id] + rest && forall x :: x in rest ==> x in [id] + rest;
    var done := ApplyWrite(mid, u, ChildPut(st.rows, key, CourseCol, true), now);
    assert done.rows[key] == before.rows[key];
    forall k | k in done.rows && !(k.kind == CourseSchedule && k.id in rest)
      ensures logged.rows[k] == done.rows[k]
    {
      if k != key {
        assert !(k.kind == CourseSchedule && k.id in [id] + rest) by {
          assert k.kind == CourseSchedule ==> k == Key(CourseSchedule, k.id);
        }
      }
    }
  }

  lemma HalfwayStep(st: State, before: State, logged: State, after: State, u: User, ids: seq<Id>, i: nat, env: Env)
    requires i < |ids| && Halfway(st, before, u, ids, i, env) && forall j, k :: 0 <= j < k < |ids| ==> ids[j] != ids[k]
    requires DistinctKeys(SchedulesWithExceptions(st.rows, u, ids, env.scan))
    requires var key := Key(CourseSchedule, ids[i]);
      logged == before.(log := before.log + [LogEntry(before.lastSeq + 1, u, key, Delete, NextVersion(st.rows, key), env.now)],
                        lastSeq := before.lastSeq + 1, clock := env.now)
    requires after == WriteAll(logged, u, Statement(logged.rows, u, ScheduleException, ScheduleCol, ids[i], true, env.scan), env.now)
    ensures Halfway(st, after, u, ids, i + 1, env)
  {
    var done := SchedulesWithExceptions(st.rows, u, ids[..i], env.scan)
                + [ChildPut(st.rows, Key(CourseSchedule, ids[i]), CourseCol, true)];
    var mid := WriteAll(st, u, done, env.now);
    var exceptions := Statement(st.rows, u, ScheduleException, ScheduleCol, ids[i], true, env.scan);
    ScheduleLogged(st, before, logged, u, ids, i, env);
    OtherSchedulesClear(st.rows, u, ids, i, env.scan);
    NextStatement(st, u, done, env.now, ScheduleException, ScheduleCol, ids[i], true, env.scan);
    assert SameTable(mid.rows, logged.rows, ScheduleException);
    SameTableStatement(mid.rows, logged.rows, u, ScheduleException, ScheduleCol, ids[i], true, env.scan);
    StatementKeys(st.rows, u, ScheduleException, ScheduleCol, ids[i], true, env.scan);
    ParallelWrites(mid, logged, u, exceptions, env.now, ids[i + 1..]);
    SchedulesNextOne(st.rows, u, ids, i, env.scan);
  }

  lemma HalfwayDone(st: State, cur: State, u: User, ids: seq<Id>, env: Env)
    requires Halfway(st, cur, u, ids, |ids|, env)
    ensures cur == WriteAll(st, u, SchedulesWithExceptions(st.rows, u, ids, env.scan), env.now)
  {
    assert ids[..|ids|] == ids && ids[|ids|..] == [];
    assert cur.rows == WriteAll(st, u, SchedulesWithExceptions(st.rows, u, ids, env.scan), env.now).rows;
  }

  lemma SchedulesDistinct(rows: Rows, u: User, course: Id, scan: Scan)
    requires Typed(rows)
    ensures DistinctKeys(ScheduleWrites(rows, u, course, scan))
  {
    var schedules := scan(Matching(rows, u, CourseSchedule, CourseCol, course));
    ListedKeys(rows, u, CourseSchedule, CourseCol, course, schedules);
    assert forall x :: x in schedules ==> Key(CourseSchedule, x) in MatchingKeys(rows, u, CourseSchedule, CourseCol, course);
    SchedulesTouch(rows, u, Key(Course, course), schedules, scan);
  }

  lemma TypedAfter(st: State, u: User, ws: seq<Write>, rest: seq<Write>, now: Time)
    requires Typed(st.rows) && LegalAll(st.rows, u, ws + rest)
    ensures Typed(WriteAll(st, u, ws, now).rows)
  {
    PrefixDistinct(ws, rest);
    forall k | k in WriteAll(st, u, ws, now).rows
      ensures KindOf(WriteAll(st, u, ws, now).rows[k].content.body) == k.kind
    {
      if k in KeysOf(ws) {
        var i :| 0 <= i < |ws| && ws[i].key == k;
        assert Legal(st.rows, u, (ws + rest)[i]);
        WrittenRow(st, u, ws, now, i);
      } else {
        UnwrittenRow(st, u, ws, now, k);
      }
    }
  }

  // ----- the two long deletes, statement by statement -----

  lemma CourseFirst(st: State, u: User, key: Key, scan: Scan, now: Time)
    requires key in st.rows
    ensures WriteAll(st, u, CoursePrefix(st.rows, u, key, scan, 0), now) == ApplyWrite(st, u, OwnDelete(st.rows, key), now)
  {
    WriteOne(st, u, OwnDelete(st.rows, key), now);
  }

  // The n-th detach takes the state of its prefix to that of the next.
  lemma CourseStep(st: State, u: User, key: Key, scan: Scan, now: Time, n: nat)
    requires Inv(st) && LiveRow(st.rows, u, key) && key.kind == Course && n < 3
    ensures var mid := WriteAll(st, u, CoursePrefix(st.rows, u, key, scan, n), now);
      var kind := if n == 0 then Session else if n == 1 then Exam else StudyActivity;
      WriteAll(mid, u, Statement(mid.rows, u, kind, CourseCol, key.id, false, scan), now) ==
      WriteAll(st, u, CoursePrefix(st.rows, u, key, scan, n + 1), now)
  {
    var kind := if n == 0 then Session else if n == 1 then Exam else StudyActivity;
    CoursePrefixKinds(st.rows, u, key, scan);
    CoursePrefixDistinct(st, u, key, scan, n);
    NextTable(st, u, CoursePrefix(st.rows, u, key, scan, n), now, kind, CourseCol, key.id, false, scan);
  }

  lemma CourseLastStep(st: State, u: User, key: Key, scan: Scan, now: Time)
    requires Inv(st) && LiveRow(st.rows, u, key) && key.kind == Course
    ensures var mid := WriteAll(st, u, CoursePrefix(st.rows, u, key, scan, 3), now);
      WriteAll(mid, u, ScheduleWrites(mid.rows, u, key.id, scan), now) == WriteAll(st, u, DeleteWrites(st.rows, u, key, scan), now)
  {
    CoursePrefixKinds(st.rows, u, key, scan);
    CoursePrefixDistinct(st, u, key, scan, 3);
    CourseDeleteIs(st.rows, u, key, scan);
    SchedulesNext(st, u, CoursePrefix(st.rows, u, key, scan, 3), key.id, scan, now);
  }

  // Likewise for an exam's plans and activities, and for its own row.
  lemma ExamStep(st: State, u: User, key: Key, scan: Scan, now: Time, n: nat)
    requires Inv(st) && LiveRow(st.rows, u, key) && key.kind == Exam && n < 2
    ensures var mid := WriteAll(st, u, ExamPrefix(st.rows, u, key, scan, n), now);
      var kind := if n == 0 then StudyPlan else StudyActivity;
      WriteAll(mid, u, Statement(mid.rows, u, kind, ExamCol, key.id, n == 0, scan), now) ==
      WriteAll(st, u, ExamPrefix(st.rows, u, key, scan, n + 1), now)
  {
    ExamPrefixKinds(st.rows, u, key, scan);
    ExamPrefixDistinct(st, u, key, scan, n);
    NextTable(st, u, ExamPrefix(st.rows, u, key, scan, n), now, if n == 0 then StudyPlan else StudyActivity,
              ExamCol, key.id, n == 0, scan);
  }

  lemma ExamLastStep(st: State, u: User, key: Key, scan: Scan, now: Time)
    requires Inv(st) && LiveRow(st.rows, u, key) && key.kind == Exam
    ensures var mid := WriteAll(st, u, ExamPrefix(st.rows, u, key, scan, 2), now);
      && key in mid.rows
      && ApplyWrite(mid, u, OwnDelete(mid.rows, key), now) == WriteAll(st, u, DeleteWrites(st.rows, u, key, scan), now)
  {
    var done := ExamPrefix(st.rows, u, key, scan, 2);
    ExamPrefixKinds(st.rows, u, key, scan);
    ExamPrefixDistinct(st, u, key, scan, 2);
    ExamDeleteIs(st.rows, u, key, scan);
    OwnAfter(st, u, done, key, now);
  }
}
