/** Deleting a live row: what its cascades and detaches touch, compared with
    reachability over the parent references. */
module SyncCascade {
  import opened Options
  import opened SyncTypes
  import opened SyncMerge
  import opened SyncState
  import opened SyncDecide

  // ----- the reference graph -----

  // The column of a child table that ties the child's life to its parent's.
  function CascadeColumn(parent: Kind, child: Kind): Option<Column> {
    match parent
    case Session =>
      if child.Entry? || child.Bookmark? || child.Favorite? || child.Note? || child.StudyReview?
         || child.Attachment? || child.Correction? then Some(SessionCol) else None
    case Course => if child.CourseSchedule? then Some(CourseCol) else None
    case CourseSchedule => if child.ScheduleException? then Some(ScheduleCol) else None
    case Exam => if child.ExamTopic? || child.StudyPlan? then Some(ExamCol) else None
    case StudyPlan => if child.StudyPlanItem? then Some(PlanCol) else None
    case _ => None
  }

  // The column that is cleared instead.
  function DetachColumn(parent: Kind, child: Kind): Option<Column> {
    match parent
    case Course => if child.Session? || child.Exam? || child.StudyActivity? then Some(CourseCol) else None
    case Exam => if child.StudyActivity? then Some(ExamCol) else None
    case StudyPlanItem => if child.StudyActivity? then Some(PlanItemCol) else None
    case _ => None
  }

  predicate Edge(rows: Rows, u: User, parent: Key, child: Key) {
    && LiveRow(rows, u, child)
    && CascadeColumn(parent.kind, child.kind).Some?
    && Ref(rows[child].content, CascadeColumn(parent.kind, child.kind).value) == Some(parent.id)
  }

  ghost predicate Path(rows: Rows, u: User, root: Key, p: seq<Key>, last: Key) {
    && |p| >= 1 && p[0] == root && p[|p| - 1] == last
    && forall i :: 0 <= i < |p| - 1 ==> Edge(rows, u, p[i], p[i + 1])
  }

  // The row itself and every live row tied to it through cascade references.
  ghost predicate Reached(rows: Rows, u: User, root: Key, key: Key) {
    exists p :: Path(rows, u, root, p, key)
  }

  predicate Detached(rows: Rows, u: User, root: Key, key: Key) {
    && LiveRow(rows, u, key)
    && DetachColumn(root.kind, key.kind).Some?
    && Ref(rows[key].content, DetachColumn(root.kind, key.kind).value) == Some(root.id)
  }

  // ----- what one statement touches -----

  function MatchingKeys(rows: Rows, u: User, kind: Kind, col: Column, parent: Id): set<Key> {
    set k | k in rows && k.kind == kind && LiveRow(rows, u, k) && Ref(rows[k].content, col) == Some(parent)
  }

  predicate Typed(rows: Rows) {
    forall k :: k in rows ==> KindOf(rows[k].content.body) == k.kind
  }

  // A list of writes that touches exactly these keys, each as the delete of root does.
  predicate Shape(rows: Rows, root: Key, w: Write) {
    && w.key in rows
    && if w.key == root then w == OwnDelete(rows, root)
       else if w.gone then w == Put(w.key, rows[w.key].content, true)
       else DetachColumn(root.kind, w.key.kind).Some?
            && w == ChildPut(rows, w.key, DetachColumn(root.kind, w.key.kind).value, false)
  }

  predicate Touches(rows: Rows, u: User, root: Key, ws: seq<Write>, keys: set<Key>) {
    && LegalAll(rows, u, ws) && KeysOf(ws) == keys
    && forall i :: 0 <= i < |ws| ==> Shape(rows, root, ws[i])
  }

  lemma TouchesBoth(rows: Rows, u: User, root: Key, a: seq<Write>, ka: set<Key>, b: seq<Write>, kb: set<Key>)
    requires Touches(rows, u, root, a, ka) && Touches(rows, u, root, b, kb) && ka !! kb
    ensures Touches(rows, u, root, a + b, ka + kb)
  {
    var ws := a + b;
    assert forall i :: 0 <= i < |a| ==> ws[i] == a[i] && a[i].key in KeysOf(a);
    assert forall i :: 0 <= i < |b| ==> ws[|a| + i] == b[i] && b[i].key in KeysOf(b);
    assert forall i :: |a| <= i < |ws| ==> ws[i] == b[i - |a|];
    forall k
      ensures k in KeysOf(ws) <==> k in ka + kb
    {
      if k in KeysOf(a) {
        var i :| 0 <= i < |a| && a[i].key == k;
        assert ws[i].key == k;
      }
      if k in KeysOf(b) {
        var i :| 0 <= i < |b| && b[i].key == k;
        assert ws[|a| + i].key == k;
      }
    }
    assert KeysOf(ws) == ka + kb;
  }

  predicate Matches(rows: Rows, u: User, kind: Kind, col: Column, parent: Id, k: Key) {
    k in rows && k.kind == kind && LiveRow(rows, u, k) && Ref(rows[k].content, col) == Some(parent)
  }

  lemma MatchingIds(rows: Rows, u: User, kind: Kind, col: Column, parent: Id, id: Id)
    ensures id in Matching(rows, u, kind, col, parent) <==> Matches(rows, u, kind, col, parent, Key(kind, id))
  {
    if id in Matching(rows, u, kind, col, parent) {
      var k :| k in rows && k.kind == kind && LiveRow(rows, u, k) && Ref(rows[k].content, col) == Some(parent) && k.id == id;
      assert k == Key(kind, id);
    }
    if Matches(rows, u, kind, col, parent, Key(kind, id)) {
      assert Key(kind, id).id in Matching(rows, u, kind, col, parent);
    }
  }

  lemma ListedKeys(rows: Rows, u: User, kind: Kind, col: Column, parent: Id, ids: seq<Id>)
    requires Lists(ids, Matching(rows, u, kind, col, parent))
    ensures forall id :: id in ids <==> Key(kind, id) in MatchingKeys(rows, u, kind, col, parent)
  {
    forall id
      ensures id in Matching(rows, u, kind, col, parent) <==> Key(kind, id) in MatchingKeys(rows, u, kind, col, parent)
    {
      MatchingIds(rows, u, kind, col, parent, id);
    }
  }

  // One cascade or detach statement, for any delivery order of its rows.
  lemma ChildPutsTouch(rows: Rows, u: User, root: Key, kind: Kind, col: Column, parent: Id, gone: bool, ids: seq<Id>)
    requires Typed(rows) && Lists(ids, Matching(rows, u, kind, col, parent)) && kind != root.kind
    requires !gone ==> DetachColumn(root.kind, kind) == Some(col)
    ensures forall id :: id in ids ==> Key(kind, id) in rows
    ensures Touches(rows, u, root, ChildPuts(rows, kind, ids, col, gone), MatchingKeys(rows, u, kind, col, parent))
    ensures forall i :: 0 <= i < |ids| ==> ChildPuts(rows, kind, ids, col, gone)[i].gone == gone
  {
    ListedKeys(rows, u, kind, col, parent, ids);
    ChildPutsLegal(rows, u, root, kind, col, parent, gone, ids);
    ChildPutsDistinct(rows, kind, ids, col, gone);
    ChildPutsKeys(rows, u, kind, col, parent, gone, ids);
  }

  lemma ChildPutsDistinct(rows: Rows, kind: Kind, ids: seq<Id>, col: Column, gone: bool)
    requires forall i, j :: 0 <= i < j < |ids| ==> ids[i] != ids[j]
    requires forall id :: id in ids ==> Key(kind, id) in rows
    ensures DistinctKeys(ChildPuts(rows, kind, ids, col, gone))
  {
  }

  predicate ChildWrite(rows: Rows, u: User, root: Key, gone: bool, w: Write) {
    w.gone == gone && Legal(rows, u, w) && Shape(rows, root, w)
  }

  lemma ChildPutsLegal(rows: Rows, u: User, root: Key, kind: Kind, col: Column, parent: Id, gone: bool, ids: seq<Id>)
    requires Typed(rows) && kind != root.kind && (!gone ==> DetachColumn(root.kind, kind) == Some(col))
    requires forall id :: id in ids ==> Key(kind, id) in MatchingKeys(rows, u, kind, col, parent)
    ensures forall id :: id in ids ==> Key(kind, id) in rows
    ensures var ws := ChildPuts(rows, kind, ids, col, gone);
      forall i :: 0 <= i < |ws| ==> ChildWrite(rows, u, root, gone, ws[i])
  {
    var ws := ChildPuts(rows, kind, ids, col, gone);
    forall i | 0 <= i < |ws|
      ensures ChildWrite(rows, u, root, gone, ws[i])
    {
      assert ids[i] in ids;
      ChildPutOk(rows, u, root, kind, col, parent, gone, Key(kind, ids[i]));
    }
  }

  lemma ChildPutOk(rows: Rows, u: User, root: Key, kind: Kind, col: Column, parent: Id, gone: bool, k: Key)
    requires Typed(rows) && k in MatchingKeys(rows, u, kind, col, parent) && kind != root.kind
    requires !gone ==> DetachColumn(root.kind, kind) == Some(col)
    ensures Legal(rows, u, ChildPut(rows, k, col, gone)) && Shape(rows, root, ChildPut(rows, k, col, gone))
  {
  }

  lemma ChildPutsKeys(rows: Rows, u: User, kind: Kind, col: Column, parent: Id, gone: bool, ids: seq<Id>)
    requires forall id :: id in ids <==> Key(kind, id) in MatchingKeys(rows, u, kind, col, parent)
    requires forall id :: id in ids ==> Key(kind, id) in rows
    ensures KeysOf(ChildPuts(rows, kind, ids, col, gone)) == MatchingKeys(rows, u, kind, col, parent)
  {
    forall k
      ensures k in KeysOf(ChildPuts(rows, kind, ids, col, gone)) <==> k in MatchingKeys(rows, u, kind, col, parent)
    {
      assert k.kind == kind ==> k == Key(kind, k.id);
      if k in KeysOf(ChildPuts(rows, kind, ids, col, gone)) {
        PutIsListed(rows, kind, ids, col, gone, k);
      }
      if k in MatchingKeys(rows, u, kind, col, parent) {
        ListedIsPut(rows, kind, ids, col, gone, k);
      }
    }
  }

  lemma PutIsListed(rows: Rows, kind: Kind, ids: seq<Id>, col: Column, gone: bool, k: Key)
    requires forall id :: id in ids ==> Key(kind, id) in rows
    requires k in KeysOf(ChildPuts(rows, kind, ids, col, gone))
    ensures k.kind == kind && k.id in ids
  {
    var ws := ChildPuts(rows, kind, ids, col, gone);
    var i :| 0 <= i < |ws| && ws[i].key == k;
    assert ids[i] in ids;
  }

  lemma ListedIsPut(rows: Rows, kind: Kind, ids: seq<Id>, col: Column, gone: bool, k: Key)
    requires forall id :: id in ids ==> Key(kind, id) in rows
    requires k.kind == kind && k.id in ids
    ensures k in KeysOf(ChildPuts(rows, kind, ids, col, gone))
  {
    var ws := ChildPuts(rows, kind, ids, col, gone);
    var i :| 0 <= i < |ids| && ids[i] == k.id;
    assert ws[i].key == k;
  }

  lemma OwnTouch(rows: Rows, u: User, root: Key)
    requires Typed(rows) && LiveRow(rows, u, root)
    ensures Touches(rows, u, root, [OwnDelete(rows, root)], {root})
  {
    var ws := [OwnDelete(rows, root)];
    assert ws[0].key in KeysOf(ws);
    assert KeysOf(ws) == {root};
  }

  lemma CascadeTouch(rows: Rows, u: User, root: Key, kind: Kind, col: Column, parent: Id, scan: Scan)
    requires Typed(rows) && kind != root.kind
    ensures Touches(rows, u, root, Cascade(rows, u, kind, col, parent, scan), MatchingKeys(rows, u, kind, col, parent))
    ensures AllGone(Cascade(rows, u, kind, col, parent, scan))
  {
    ChildPutsTouch(rows, u, root, kind, col, parent, true, scan(Matching(rows, u, kind, col, parent)));
  }

  lemma DetachTouch(rows: Rows, u: User, root: Key, kind: Kind, scan: Scan)
    requires Typed(rows) && kind != root.kind && DetachColumn(root.kind, kind).Some?
    ensures var col := DetachColumn(root.kind, kind).value;
      Touches(rows, u, root, Detach(rows, u, kind, col, root.id, scan), MatchingKeys(rows, u, kind, col, root.id))
      && NoneGone(Detach(rows, u, kind, col, root.id, scan))
  {
    var col := DetachColumn(root.kind, kind).value;
    ChildPutsTouch(rows, u, root, kind, col, root.id, false, scan(Matching(rows, u, kind, col, root.id)));
  }

  predicate AllGone(ws: seq<Write>) {
    forall i :: 0 <= i < |ws| ==> ws[i].gone
  }

  predicate NoneGone(ws: seq<Write>) {
    forall i :: 0 <= i < |ws| ==> !ws[i].gone
  }

  // The children of any of several parents.
  function ChildrenOf(rows: Rows, u: User, kind: Kind, col: Column, parents: seq<Id>): set<Key> {
    set k | k in rows && k.kind == kind && LiveRow(rows, u, k)
            && Ref(rows[k].content, col).Some? && Ref(rows[k].content, col).value in parents
  }

  lemma {:induction false} ItemsOfPlansTouch(rows: Rows, u: User, root: Key, plans: seq<Id>, scan: Scan)
    requires Typed(rows) && root.kind != StudyPlanItem
    requires forall i, j :: 0 <= i < j < |plans| ==> plans[i] != plans[j]
    ensures Touches(rows, u, root, ItemsOfPlans(rows, u, plans, scan), ChildrenOf(rows, u, StudyPlanItem, PlanCol, plans))
    ensures AllGone(ItemsOfPlans(rows, u, plans, scan))
  {
    if plans == [] {
      assert KeysOf(ItemsOfPlans(rows, u, plans, scan)) == ChildrenOf(rows, u, StudyPlanItem, PlanCol, plans);
    } else {
      var first := MatchingKeys(rows, u, StudyPlanItem, PlanCol, plans[0]);
      var rest := ChildrenOf(rows, u, StudyPlanItem, PlanCol, plans[1..]);
      assert plans[0] !in plans[1..];
      CascadeTouch(rows, u, root, StudyPlanItem, PlanCol, plans[0], scan);
      ItemsOfPlansTouch(rows, u, root, plans[1..], scan);
      TouchesBoth(rows, u, root, Cascade(rows, u, StudyPlanItem, PlanCol, plans[0], scan), first,
                  ItemsOfPlans(rows, u, plans[1..], scan), rest);
      assert plans == [plans[0]] + plans[1..];
      assert first + rest == ChildrenOf(rows, u, StudyPlanItem, PlanCol, plans);
    }
  }

  // The keys of the listed schedules.
  function ScheduleKeys(schedules: seq<Id>): set<Key> {
    set i | 0 <= i < |schedules| :: Key(CourseSchedule, schedules[i])
  }

  lemma OneScheduleTouch(rows: Rows, u: User, root: Key, id: Id, scan: Scan)
    requires Typed(rows) && root.kind == Course && LiveRow(rows, u, Key(CourseSchedule, id))
    ensures var ws := [ChildPut(rows, Key(CourseSchedule, id), CourseCol, true)]
                      + Cascade(rows, u, ScheduleException, ScheduleCol, id, scan);
      Touches(rows, u, root, ws, {Key(CourseSchedule, id)} + MatchingKeys(rows, u, ScheduleException, ScheduleCol, id))
      && AllGone(ws)
  {
    var own := [ChildPut(rows, Key(CourseSchedule, id), CourseCol, true)];
    assert own[0].key in KeysOf(own);
    assert KeysOf(own) == {Key(CourseSchedule, id)};
    CascadeTouch(rows, u, root, ScheduleException, ScheduleCol, id, scan);
    TouchesBoth(rows, u, root, own, {Key(CourseSchedule, id)},
                Cascade(rows, u, ScheduleException, ScheduleCol, id, scan),
                MatchingKeys(rows, u, ScheduleException, ScheduleCol, id));
  }

  lemma SchedulesApart(rows: Rows, u: User, id: Id, tail: seq<Id>)
    requires id !in tail
    ensures {Key(CourseSchedule, id)} + MatchingKeys(rows, u, ScheduleException, ScheduleCol, id) !!
            ScheduleKeys(tail) + ChildrenOf(rows, u, ScheduleException, ScheduleCol, tail)
  {
  }

  lemma {:induction false} SchedulesTouch(rows: Rows, u: User, root: Key, schedules: seq<Id>, scan: Scan)
    requires Typed(rows) && root.kind == Course
    requires forall i, j :: 0 <= i < j < |schedules| ==> schedules[i] != schedules[j]
    requires forall id :: id in schedules ==> Key(CourseSchedule, id) in rows && LiveRow(rows, u, Key(CourseSchedule, id))
    ensures Touches(rows, u, root, SchedulesWithExceptions(rows, u, schedules, scan),
                    ScheduleKeys(schedules) + ChildrenOf(rows, u, ScheduleException, ScheduleCol, schedules))
    ensures AllGone(SchedulesWithExceptions(rows, u, schedules, scan))
  {
    if schedules == [] {
      assert KeysOf(SchedulesWithExceptions(rows, u, schedules, scan)) ==
             ScheduleKeys(schedules) + ChildrenOf(rows, u, ScheduleException, ScheduleCol, schedules);
    } else {
      var id, tail := schedules[0], schedules[1..];
      var first := {Key(CourseSchedule, id)} + MatchingKeys(rows, u, ScheduleException, ScheduleCol, id);
      var rest := ScheduleKeys(tail) + ChildrenOf(rows, u, ScheduleException, ScheduleCol, tail);
      assert id !in tail && id in schedules && forall x :: x in tail ==> x in schedules;
      SchedulesApart(rows, u, id, tail);
      OneScheduleTouch(rows, u, root, id, scan);
      SchedulesTouch(rows, u, root, tail, scan);
      TouchesBoth(rows, u, root,
                  [ChildPut(rows, Key(CourseSchedule, id), CourseCol, true)]
                  + Cascade(rows, u, ScheduleException, ScheduleCol, id, scan), first,
                  SchedulesWithExceptions(rows, u, tail, scan), rest);
      assert schedules == [id] + tail;
      SplitSchedules(rows, u, id, tail);
    }
  }

  lemma SplitSchedules(rows: Rows, u: User, id: Id, tail: seq<Id>)
    ensures ScheduleKeys([id] + tail) + ChildrenOf(rows, u, ScheduleException, ScheduleCol, [id] + tail) ==
            {Key(CourseSchedule, id)} + MatchingKeys(rows, u, ScheduleException, ScheduleCol, id)
            + (ScheduleKeys(tail) + ChildrenOf(rows, u, ScheduleException, ScheduleCol, tail))
  {
    var all := [id] + tail;
    forall k
      ensures k in ScheduleKeys(all) <==> k == Key(CourseSchedule, id) || k in ScheduleKeys(tail)
    {
      if k in ScheduleKeys(tail) {
        var i :| 0 <= i < |tail| && Key(CourseSchedule, tail[i]) == k;
        assert all[i + 1] == tail[i];
      }
      assert all[0] == id;
    }
    assert ChildrenOf(rows, u, ScheduleException, ScheduleCol, all) ==
           MatchingKeys(rows, u, ScheduleException, ScheduleCol, id)
           + ChildrenOf(rows, u, ScheduleException, ScheduleCol, tail);
  }

  // ----- reachability: cascades are at most two levels deep -----

  lemma ReachedSelf(rows: Rows, u: User, root: Key)
    ensures Reached(rows, u, root, root)
  {
    assert Path(rows, u, root, [root], root);
  }

  lemma ReachedChild(rows: Rows, u: User, root: Key, key: Key)
    requires Edge(rows, u, root, key)
    ensures Reached(rows, u, root, key)
  {
    assert Path(rows, u, root, [root, key], key);
  }

  lemma ReachedGrandchild(rows: Rows, u: User, root: Key, mid: Key, key: Key)
    requires Edge(rows, u, root, mid) && Edge(rows, u, mid, key)
    ensures Reached(rows, u, root, key)
  {
    assert Path(rows, u, root, [root, mid, key], key);
  }

  lemma PathStep(rows: Rows, u: User, root: Key, p: seq<Key>, last: Key, i: nat)
    requires Path(rows, u, root, p, last) && i < |p| - 1
    ensures Edge(rows, u, p[i], p[i + 1])
  {
  }

  // A cascade parent's parent has no cascade parent.
  lemma NoThreeEdges(rows: Rows, u: User, a: Key, b: Key, c: Key, d: Key)
    ensures !(Edge(rows, u, a, b) && Edge(rows, u, b, c) && Edge(rows, u, c, d))
  {
  }

  lemma ReachedWithinTwo(rows: Rows, u: User, root: Key, key: Key)
    requires Reached(rows, u, root, key)
    ensures key == root || Edge(rows, u, root, key) || exists mid :: Edge(rows, u, root, mid) && Edge(rows, u, mid, key)
  {
    var p :| Path(rows, u, root, p, key);
    if |p| >= 2 {
      PathStep(rows, u, root, p, key, 0);
    }
    if |p| >= 3 {
      PathStep(rows, u, root, p, key, 1);
    }
    if |p| >= 4 {
      PathStep(rows, u, root, p, key, 2);
      NoThreeEdges(rows, u, p[0], p[1], p[2], p[3]);
    }
  }

  function Kids(rows: Rows, u: User, root: Key): set<Key> {
    set k | k in rows && Edge(rows, u, root, k)
  }

  function Grandkids(rows: Rows, u: User, root: Key): set<Key> {
    set k, m | k in rows && m in rows && Edge(rows, u, root, m) && Edge(rows, u, m, k) :: k
  }

  // The rows a delete tombstones, and those it detaches.
  function GoneKeys(rows: Rows, u: User, root: Key): set<Key> {
    {root} + Kids(rows, u, root) + Grandkids(rows, u, root)
  }

  function DetachedKeys(rows: Rows, u: User, root: Key): set<Key> {
    set k | k in rows && Detached(rows, u, root, k)
  }

  lemma GoneKeysAreReached(rows: Rows, u: User, root: Key, key: Key)
    ensures key in GoneKeys(rows, u, root) <==> Reached(rows, u, root, key)
  {
    ReachedSelf(rows, u, root);
    if key in Kids(rows, u, root) {
      ReachedChild(rows, u, root, key);
    }
    if key in Grandkids(rows, u, root) {
      var m :| m in rows && Edge(rows, u, root, m) && Edge(rows, u, m, key);
      ReachedGrandchild(rows, u, root, m, key);
    }
    if Reached(rows, u, root, key) {
      ReachedWithinTwo(rows, u, root, key);
    }
  }

  // ----- the delete of a live row touches exactly these keys -----

  ghost predicate Deletes(rows: Rows, u: User, root: Key, ws: seq<Write>, gone: set<Key>, detached: set<Key>) {
    && Touches(rows, u, root, ws, gone + detached)
    && forall i :: 0 <= i < |ws| ==> (ws[i].gone <==> ws[i].key in gone)
  }

  lemma Deletes1(rows: Rows, u: User, root: Key, ws: seq<Write>, keys: set<Key>, gone: bool)
    requires Touches(rows, u, root, ws, keys) && if gone then AllGone(ws) else NoneGone(ws)
    ensures if gone then Deletes(rows, u, root, ws, keys, {}) else Deletes(rows, u, root, ws, {}, keys)
  {
    assert keys + {} == keys == {} + keys;
    assert forall i :: 0 <= i < |ws| ==> ws[i].key in KeysOf(ws);
  }

  lemma DeletesBoth(rows: Rows, u: User, root: Key, a: seq<Write>, ga: set<Key>, da: set<Key>,
                    b: seq<Write>, gb: set<Key>, db: set<Key>)
    requires Deletes(rows, u, root, a, ga, da) && Deletes(rows, u, root, b, gb, db)
    requires (ga + da) !! (gb + db)
    ensures Deletes(rows, u, root, a + b, ga + gb, da + db)
  {
    TouchesBoth(rows, u, root, a, ga + da, b, gb + db);
    assert ga + da + (gb + db) == ga + gb + (da + db);
    assert forall i :: 0 <= i < |a| ==> a[i].key in KeysOf(a);
    assert forall i :: 0 <= i < |b| ==> b[i].key in KeysOf(b);
  }

  lemma CascadeDeletes(rows: Rows, u: User, root: Key, kind: Kind, col: Column, parent: Id, scan: Scan)
    requires Typed(rows) && kind != root.kind
    ensures Deletes(rows, u, root, Cascade(rows, u, kind, col, parent, scan),
                    MatchingKeys(rows, u, kind, col, parent), {})
  {
    CascadeTouch(rows, u, root, kind, col, parent, scan);
    Deletes1(rows, u, root, Cascade(rows, u, kind, col, parent, scan), MatchingKeys(rows, u, kind, col, parent), true);
  }

  lemma DetachDeletes(rows: Rows, u: User, root: Key, kind: Kind, col: Column, scan: Scan)
    requires Typed(rows) && kind != root.kind && DetachColumn(root.kind, kind) == Some(col)
    ensures Deletes(rows, u, root, Detach(rows, u, kind, col, root.id, scan), {},
                    MatchingKeys(rows, u, kind, col, root.id))
  {
    DetachTouch(rows, u, root, kind, scan);
    Deletes1(rows, u, root, Detach(rows, u, kind, col, root.id, scan), MatchingKeys(rows, u, kind, col, root.id), false);
  }

  lemma OwnDeletes(rows: Rows, u: User, root: Key)
    requires Typed(rows) && LiveRow(rows, u, root)
    ensures Deletes(rows, u, root, [OwnDelete(rows, root)], {root}, {})
  {
    OwnTouch(rows, u, root);
    Deletes1(rows, u, root, [OwnDelete(rows, root)], {root}, true);
  }

  // The live rows of several tables that hold the parent's id.
  function MatchingEach(rows: Rows, u: User, kinds: seq<Kind>, col: Column, parent: Id): set<Key> {
    set k | k in rows && k.kind in kinds && LiveRow(rows, u, k) && Ref(rows[k].content, col) == Some(parent)
  }

  lemma {:induction false} CascadeEachDeletes(rows: Rows, u: User, root: Key, kinds: seq<Kind>, col: Column,
                                              parent: Id, scan: Scan)
    requires Typed(rows) && root.kind !in kinds
    requires forall i, j :: 0 <= i < j < |kinds| ==> kinds[i] != kinds[j]
    ensures Deletes(rows, u, root, CascadeEach(rows, u, kinds, col, parent, scan),
                    MatchingEach(rows, u, kinds, col, parent), {})
  {
    if kinds == [] {
      assert KeysOf(CascadeEach(rows, u, kinds, col, parent, scan)) == MatchingEach(rows, u, kinds, col, parent) + {};
    } else {
      var front, kind := kinds[..|kinds| - 1], kinds[|kinds| - 1];
      var earlier, last := MatchingEach(rows, u, front, col, parent), MatchingKeys(rows, u, kind, col, parent);
      assert kind !in front && kinds == front + [kind];
      CascadeEachDeletes(rows, u, root, front, col, parent, scan);
      CascadeDeletes(rows, u, root, kind, col, parent, scan);
      DeletesBoth(rows, u, root, CascadeEach(rows, u, front, col, parent, scan), earlier, {},
                  Cascade(rows, u, kind, col, parent, scan), last, {});
      assert earlier + last == MatchingEach(rows, u, kinds, col, parent);
    }
  }

  lemma SessionKinds(kind: Kind)
    ensures kind in SESSION_CHILDREN <==> CascadeColumn(Session, kind).Some?
  {
    var all := SESSION_CHILDREN;
    assert all[0] == Entry && all[1] == Bookmark && all[2] == Favorite && all[3] == Note
           && all[4] == StudyReview && all[5] == Attachment && all[6] == Correction;
  }

  lemma SessionKids(rows: Rows, u: User, root: Key)
    requires root.kind == Session
    ensures GoneKeys(rows, u, root) == {root} + MatchingEach(rows, u, SESSION_CHILDREN, SessionCol, root.id)
    ensures DetachedKeys(rows, u, root) == {}
  {
    forall k
      ensures k in Kids(rows, u, root) <==> k in MatchingEach(rows, u, SESSION_CHILDREN, SessionCol, root.id)
    {
      SessionKinds(k.kind);
    }
    assert Grandkids(rows, u, root) == {};
  }

  // The delete of root writes exactly the rows it reaches and detaches.
  ghost predicate DeletesReached(rows: Rows, u: User, root: Key, scan: Scan)
    requires root in rows
  {
    Deletes(rows, u, root, DeleteWrites(rows, u, root, scan), GoneKeys(rows, u, root), DetachedKeys(rows, u, root))
  }

  lemma DeletesAll(rows: Rows, u: User, root: Key, scan: Scan, ws: seq<Write>, gone: set<Key>, detached: set<Key>)
    requires root in rows && Deletes(rows, u, root, ws, gone, detached)
    requires ws == DeleteWrites(rows, u, root, scan)
    requires gone == GoneKeys(rows, u, root) && detached == DetachedKeys(rows, u, root)
    ensures DeletesReached(rows, u, root, scan)
  {
  }

  lemma SessionDelete(rows: Rows, u: User, root: Key, scan: Scan)
    requires Typed(rows) && LiveRow(rows, u, root) && root.kind == Session
    ensures DeletesReached(rows, u, root, scan)
  {
    OwnDeletes(rows, u, root);
    SessionKinds(Session);
    CascadeEachDeletes(rows, u, root, SESSION_CHILDREN, SessionCol, root.id, scan);
    var kids := MatchingEach(rows, u, SESSION_CHILDREN, SessionCol, root.id);
    assert root !in kids;
    DeletesBoth(rows, u, root, [OwnDelete(rows, root)], {root}, {},
                CascadeEach(rows, u, SESSION_CHILDREN, SessionCol, root.id, scan), kids, {});
    SessionKids(rows, u, root);
    assert {} + {} == DetachedKeys(rows, u, root);
  }

  lemma CourseDetaches(rows: Rows, u: User, root: Key, scan: Scan)
    requires Typed(rows) && LiveRow(rows, u, root) && root.kind == Course
    ensures Deletes(rows, u, root, CourseFront(rows, u, root, scan), {root}, CourseDetached(rows, u, root.id))
  {
    var id := root.id;
    var w0 := [OwnDelete(rows, root)];
    var a, ka := Detach(rows, u, Session, CourseCol, id, scan), MatchingKeys(rows, u, Session, CourseCol, id);
    var b, kb := Detach(rows, u, Exam, CourseCol, id, scan), MatchingKeys(rows, u, Exam, CourseCol, id);
    var c, kc := Detach(rows, u, StudyActivity, CourseCol, id, scan), MatchingKeys(rows, u, StudyActivity, CourseCol, id);
    OwnDeletes(rows, u, root);
    DetachDeletes(rows, u, root, Session, CourseCol, scan);
    DetachDeletes(rows, u, root, Exam, CourseCol, scan);
    DetachDeletes(rows, u, root, StudyActivity, CourseCol, scan);
    DeletesBoth(rows, u, root, w0, {root}, {}, a, {}, ka);
    DeletesBoth(rows, u, root, w0 + a, {root} + {}, {} + ka, b, {}, kb);
    DeletesBoth(rows, u, root, w0 + a + b, {root} + {} + {}, {} + ka + kb, c, {}, kc);
    assert {root} + {} + {} + {} == {root} && {} + ka + kb + kc == CourseDetached(rows, u, id);
  }

  function CourseDetached(rows: Rows, u: User, id: Id): set<Key> {
    MatchingKeys(rows, u, Session, CourseCol, id) + MatchingKeys(rows, u, Exam, CourseCol, id)
    + MatchingKeys(rows, u, StudyActivity, CourseCol, id)
  }

  lemma CourseSchedules(rows: Rows, u: User, root: Key, scan: Scan)
    requires Typed(rows) && LiveRow(rows, u, root) && root.kind == Course
    ensures var schedules := scan(Matching(rows, u, CourseSchedule, CourseCol, root.id));
      && (forall x :: x in schedules <==> Key(CourseSchedule, x) in MatchingKeys(rows, u, CourseSchedule, CourseCol, root.id))
      && (forall x :: x in schedules ==> Key(CourseSchedule, x) in rows)
      && Deletes(rows, u, root, SchedulesWithExceptions(rows, u, schedules, scan),
                 ScheduledGone(rows, u, schedules), {})
  {
    var schedules := scan(Matching(rows, u, CourseSchedule, CourseCol, root.id));
    ListedKeys(rows, u, CourseSchedule, CourseCol, root.id, schedules);
    assert forall x :: x in schedules ==> Key(CourseSchedule, x) in MatchingKeys(rows, u, CourseSchedule, CourseCol, root.id);
    SchedulesTouch(rows, u, root, schedules, scan);
    Deletes1(rows, u, root, SchedulesWithExceptions(rows, u, schedules, scan),
             ScheduleKeys(schedules) + ChildrenOf(rows, u, ScheduleException, ScheduleCol, schedules), true);
  }

  // The writes of a course delete before its schedules'.
  function CourseFront(rows: Rows, u: User, root: Key, scan: Scan): seq<Write>
    requires root in rows
  {
    [OwnDelete(rows, root)] + Detach(rows, u, Session, CourseCol, root.id, scan)
    + Detach(rows, u, Exam, CourseCol, root.id, scan) + Detach(rows, u, StudyActivity, CourseCol, root.id, scan)
  }

  function ScheduledGone(rows: Rows, u: User, schedules: seq<Id>): set<Key> {
    ScheduleKeys(schedules) + ChildrenOf(rows, u, ScheduleException, ScheduleCol, schedules)
  }

  lemma CourseSets(rows: Rows, u: User, root: Key, schedules: seq<Id>)
    requires root.kind == Course
    requires forall x :: x in schedules <==> Key(CourseSchedule, x) in MatchingKeys(rows, u, CourseSchedule, CourseCol, root.id)
    ensures {root} + ScheduledGone(rows, u, schedules) == GoneKeys(rows, u, root)
    ensures CourseDetached(rows, u, root.id) + {} == DetachedKeys(rows, u, root)
  {
    CourseKids(rows, u, root, schedules);
  }

  // Schedules and exceptions are neither courses nor rows that a course detaches.
  lemma CourseApart(rows: Rows, u: User, root: Key, schedules: seq<Id>)
    requires root.kind == Course
    ensures ({root} + CourseDetached(rows, u, root.id)) !! (ScheduledGone(rows, u, schedules) + {})
  {
    forall k | k in {root} + CourseDetached(rows, u, root.id)
      ensures k.kind != CourseSchedule && k.kind != ScheduleException
    {
    }
  }

  lemma CourseDelete(rows: Rows, u: User, root: Key, scan: Scan)
    requires Typed(rows) && LiveRow(rows, u, root) && root.kind == Course
    ensures DeletesReached(rows, u, root, scan)
  {
    var schedules := scan(Matching(rows, u, CourseSchedule, CourseCol, root.id));
    CourseDetaches(rows, u, root, scan);
    CourseSchedules(rows, u, root, scan);
    CourseApart(rows, u, root, schedules);
    DeletesBoth(rows, u, root, CourseFront(rows, u, root, scan), {root}, CourseDetached(rows, u, root.id),
                SchedulesWithExceptions(rows, u, schedules, scan), ScheduledGone(rows, u, schedules), {});
    CourseSets(rows, u, root, schedules);
    DeletesAll(rows, u, root, scan, CourseFront(rows, u, root, scan) + SchedulesWithExceptions(rows, u, schedules, scan),
               {root} + ScheduledGone(rows, u, schedules), CourseDetached(rows, u, root.id) + {});
  }

  lemma CourseKids(rows: Rows, u: User, root: Key, schedules: seq<Id>)
    requires root.kind == Course
    requires forall x :: x in schedules <==> Key(CourseSchedule, x) in MatchingKeys(rows, u, CourseSchedule, CourseCol, root.id)
    ensures GoneKeys(rows, u, root) ==
      {root} + (ScheduleKeys(schedules) + ChildrenOf(rows, u, ScheduleException, ScheduleCol, schedules))
    ensures DetachedKeys(rows, u, root) ==
      MatchingKeys(rows, u, Session, CourseCol, root.id) + MatchingKeys(rows, u, Exam, CourseCol, root.id)
      + MatchingKeys(rows, u, StudyActivity, CourseCol, root.id)
  {
    forall k
      ensures k in Kids(rows, u, root) <==> k in ScheduleKeys(schedules)
    {
      if k in Kids(rows, u, root) {
        assert k == Key(CourseSchedule, k.id) && k.id in schedules;
      }
    }
    forall k
      ensures k in Grandkids(rows, u, root) <==> k in ChildrenOf(rows, u, ScheduleException, ScheduleCol, schedules)
    {
      if k in ChildrenOf(rows, u, ScheduleException, ScheduleCol, schedules) {
        var m := Key(CourseSchedule, Ref(rows[k].content, ScheduleCol).value);
        assert m in MatchingKeys(rows, u, CourseSchedule, CourseCol, root.id);
        assert Edge(rows, u, root, m) && Edge(rows, u, m, k);
      }
    }
  }

  function ExamGone(rows: Rows, u: User, id: Id, plans: seq<Id>): set<Key> {
    MatchingKeys(rows, u, ExamTopic, ExamCol, id) + ChildrenOf(rows, u, StudyPlanItem, PlanCol, plans)
    + MatchingKeys(rows, u, StudyPlan, ExamCol, id)
  }

  lemma ExamCascades(rows: Rows, u: User, root: Key, scan: Scan)
    requires Typed(rows) && LiveRow(rows, u, root) && root.kind == Exam
    ensures var plans := scan(Matching(rows, u, StudyPlan, ExamCol, root.id));
      && (forall x :: x in plans <==> Key(StudyPlan, x) in MatchingKeys(rows, u, StudyPlan, ExamCol, root.id))
      && Deletes(rows, u, root,
                 Cascade(rows, u, ExamTopic, ExamCol, root.id, scan) + ItemsOfPlans(rows, u, plans, scan)
                 + Cascade(rows, u, StudyPlan, ExamCol, root.id, scan), ExamGone(rows, u, root.id, plans), {})
  {
    var id := root.id;
    var plans := scan(Matching(rows, u, StudyPlan, ExamCol, id));
    ListedKeys(rows, u, StudyPlan, ExamCol, id, plans);
    var a, ka := Cascade(rows, u, ExamTopic, ExamCol, id, scan), MatchingKeys(rows, u, ExamTopic, ExamCol, id);
    var b, kb := ItemsOfPlans(rows, u, plans, scan), ChildrenOf(rows, u, StudyPlanItem, PlanCol, plans);
    var c, kc := Cascade(rows, u, StudyPlan, ExamCol, id, scan), MatchingKeys(rows, u, StudyPlan, ExamCol, id);
    CascadeDeletes(rows, u, root, ExamTopic, ExamCol, id, scan);
    ItemsOfPlansTouch(rows, u, root, plans, scan);
    Deletes1(rows, u, root, b, kb, true);
    CascadeDeletes(rows, u, root, StudyPlan, ExamCol, id, scan);
    DeletesBoth(rows, u, root, a, ka, {}, b, kb, {});
    DeletesBoth(rows, u, root, a + b, ka + kb, {} + {}, c, kc, {});
    assert ka + kb + kc == ExamGone(rows, u, id, plans);
  }

  lemma ExamSets(rows: Rows, u: User, root: Key, plans: seq<Id>)
    requires root.kind == Exam
    requires forall x :: x in plans <==> Key(StudyPlan, x) in MatchingKeys(rows, u, StudyPlan, ExamCol, root.id)
    ensures ExamGone(rows, u, root.id, plans) + {} + {root} == GoneKeys(rows, u, root)
    ensures {} + MatchingKeys(rows, u, StudyActivity, ExamCol, root.id) + {} == DetachedKeys(rows, u, root)
  {
    ExamKids(rows, u, root, plans);
  }

  function ExamFront(rows: Rows, u: User, id: Id, scan: Scan): seq<Write> {
    Cascade(rows, u, ExamTopic, ExamCol, id, scan)
    + ItemsOfPlans(rows, u, scan(Matching(rows, u, StudyPlan, ExamCol, id)), scan)
    + Cascade(rows, u, StudyPlan, ExamCol, id, scan)
  }

  lemma ExamParts(rows: Rows, u: User, root: Key, scan: Scan)
    requires root in rows && root.kind == Exam
    ensures DeleteWrites(rows, u, root, scan) ==
            ExamFront(rows, u, root.id, scan) + Detach(rows, u, StudyActivity, ExamCol, root.id, scan) + [OwnDelete(rows, root)]
  {
  }

  // The rows that go, those that are detached and the exam itself are apart.
  lemma ExamApart(rows: Rows, u: User, root: Key, plans: seq<Id>)
    requires root.kind == Exam
    ensures ExamGone(rows, u, root.id, plans) !! MatchingKeys(rows, u, StudyActivity, ExamCol, root.id)
    ensures root !in ExamGone(rows, u, root.id, plans) && root !in MatchingKeys(rows, u, StudyActivity, ExamCol, root.id)
  {
  }

  lemma ExamDetaches(rows: Rows, u: User, root: Key, scan: Scan)
    requires Typed(rows) && LiveRow(rows, u, root) && root.kind == Exam
    ensures var plans := scan(Matching(rows, u, StudyPlan, ExamCol, root.id));
      && (forall x :: x in plans <==> Key(StudyPlan, x) in MatchingKeys(rows, u, StudyPlan, ExamCol, root.id))
      && Deletes(rows, u, root, ExamFront(rows, u, root.id, scan) + Detach(rows, u, StudyActivity, ExamCol, root.id, scan),
                 ExamGone(rows, u, root.id, plans) + {}, {} + MatchingKeys(rows, u, StudyActivity, ExamCol, root.id))
  {
    var id := root.id;
    var gone := ExamGone(rows, u, id, scan(Matching(rows, u, StudyPlan, ExamCol, id)));
    ExamCascades(rows, u, root, scan);
    DetachDeletes(rows, u, root, StudyActivity, ExamCol, scan);
    ExamApart(rows, u, root, scan(Matching(rows, u, StudyPlan, ExamCol, id)));
    DeletesBoth(rows, u, root, ExamFront(rows, u, id, scan), gone, {},
                Detach(rows, u, StudyActivity, ExamCol, id, scan), {}, MatchingKeys(rows, u, StudyActivity, ExamCol, id));
  }

  lemma ExamDelete(rows: Rows, u: User, root: Key, scan: Scan)
    requires Typed(rows) && LiveRow(rows, u, root) && root.kind == Exam
    ensures DeletesReached(rows, u, root, scan)
  {
    var id := root.id;
    var plans := scan(Matching(rows, u, StudyPlan, ExamCol, id));
    var front := ExamFront(rows, u, id, scan);
    var d, kd := Detach(rows, u, StudyActivity, ExamCol, id, scan), MatchingKeys(rows, u, StudyActivity, ExamCol, id);
    var gone := ExamGone(rows, u, id, plans);
    ExamDetaches(rows, u, root, scan);
    OwnDeletes(rows, u, root);
    ExamApart(rows, u, root, plans);
    ExamParts(rows, u, root, scan);
    DeletesBoth(rows, u, root, front + d, gone + {}, {} + kd, [OwnDelete(rows, root)], {root}, {});
    ExamSets(rows, u, root, plans);
    DeletesAll(rows, u, root, scan, front + d + [OwnDelete(rows, root)], gone + {} + {root}, {} + kd + {});
  }

  lemma ExamKids(rows: Rows, u: User, root: Key, plans: seq<Id>)
    requires root.kind == Exam
    requires forall x :: x in plans <==> Key(StudyPlan, x) in MatchingKeys(rows, u, StudyPlan, ExamCol, root.id)
    ensures GoneKeys(rows, u, root) ==
      {root} + MatchingKeys(rows, u, ExamTopic, ExamCol, root.id) + MatchingKeys(rows, u, StudyPlan, ExamCol, root.id)
      + ChildrenOf(rows, u, StudyPlanItem, PlanCol, plans)
    ensures DetachedKeys(rows, u, root) == MatchingKeys(rows, u, StudyActivity, ExamCol, root.id)
  {
    ExamGrandkids(rows, u, root, plans);
    assert Kids(rows, u, root) ==
           MatchingKeys(rows, u, ExamTopic, ExamCol, root.id) + MatchingKeys(rows, u, StudyPlan, ExamCol, root.id);
  }

  lemma ItemIsGrandkid(rows: Rows, u: User, root: Key, plans: seq<Id>, k: Key)
    requires root.kind == Exam && k in ChildrenOf(rows, u, StudyPlanItem, PlanCol, plans)
    requires forall x :: x in plans <==> Key(StudyPlan, x) in MatchingKeys(rows, u, StudyPlan, ExamCol, root.id)
    ensures k in Grandkids(rows, u, root)
  {
    var m := Key(StudyPlan, Ref(rows[k].content, PlanCol).value);
    assert m in MatchingKeys(rows, u, StudyPlan, ExamCol, root.id);
    assert Edge(rows, u, root, m) && Edge(rows, u, m, k);
  }

  lemma GrandkidIsItem(rows: Rows, u: User, root: Key, plans: seq<Id>, k: Key)
    requires root.kind == Exam && k in Grandkids(rows, u, root)
    requires forall x :: x in plans <==> Key(StudyPlan, x) in MatchingKeys(rows, u, StudyPlan, ExamCol, root.id)
    ensures k in ChildrenOf(rows, u, StudyPlanItem, PlanCol, plans)
  {
    var m :| m in rows && Edge(rows, u, root, m) && Edge(rows, u, m, k);
    assert m == Key(StudyPlan, m.id) && m in MatchingKeys(rows, u, StudyPlan, ExamCol, root.id);
  }

  lemma ExamGrandkids(rows: Rows, u: User, root: Key, plans: seq<Id>)
    requires root.kind == Exam
    requires forall x :: x in plans <==> Key(StudyPlan, x) in MatchingKeys(rows, u, StudyPlan, ExamCol, root.id)
    ensures Grandkids(rows, u, root) == ChildrenOf(rows, u, StudyPlanItem, PlanCol, plans)
  {
    forall k
      ensures k in Grandkids(rows, u, root) <==> k in ChildrenOf(rows, u, StudyPlanItem, PlanCol, plans)
    {
      if k in ChildrenOf(rows, u, StudyPlanItem, PlanCol, plans) {
        ItemIsGrandkid(rows, u, root, plans, k);
      }
      if k in Grandkids(rows, u, root) {
        GrandkidIsItem(rows, u, root, plans, k);
      }
    }
  }

  // A parent with one table of children, deleted after them.
  lemma OneTableDelete(rows: Rows, u: User, root: Key, kind: Kind, col: Column, scan: Scan)
    requires Typed(rows) && LiveRow(rows, u, root) && kind != root.kind
    ensures Deletes(rows, u, root, Cascade(rows, u, kind, col, root.id, scan) + [OwnDelete(rows, root)],
                    {root} + MatchingKeys(rows, u, kind, col, root.id), {})
  {
    var kids := MatchingKeys(rows, u, kind, col, root.id);
    OwnDeletes(rows, u, root);
    CascadeDeletes(rows, u, root, kind, col, root.id, scan);
    DeletesBoth(rows, u, root, Cascade(rows, u, kind, col, root.id, scan), kids, {}, [OwnDelete(rows, root)], {root}, {});
    assert kids + {root} == {root} + kids;
  }

  lemma ScheduleDelete(rows: Rows, u: User, root: Key, scan: Scan)
    requires Typed(rows) && LiveRow(rows, u, root) && root.kind == CourseSchedule
    ensures DeletesReached(rows, u, root, scan)
  {
    OneTableDelete(rows, u, root, ScheduleException, ScheduleCol, scan);
    assert GoneKeys(rows, u, root) == {root} + MatchingKeys(rows, u, ScheduleException, ScheduleCol, root.id);
    assert DetachedKeys(rows, u, root) == {};
  }

  lemma PlanDelete(rows: Rows, u: User, root: Key, scan: Scan)
    requires Typed(rows) && LiveRow(rows, u, root) && root.kind == StudyPlan
    ensures DeletesReached(rows, u, root, scan)
  {
    OneTableDelete(rows, u, root, StudyPlanItem, PlanCol, scan);
    assert GoneKeys(rows, u, root) == {root} + MatchingKeys(rows, u, StudyPlanItem, PlanCol, root.id);
    assert DetachedKeys(rows, u, root) == {};
  }

  lemma PlanItemDelete(rows: Rows, u: User, root: Key, scan: Scan)
    requires Typed(rows) && LiveRow(rows, u, root) && root.kind == StudyPlanItem
    ensures DeletesReached(rows, u, root, scan)
  {
    var kids := MatchingKeys(rows, u, StudyActivity, PlanItemCol, root.id);
    OwnDeletes(rows, u, root);
    DetachDeletes(rows, u, root, StudyActivity, PlanItemCol, scan);
    DeletesBoth(rows, u, root, Detach(rows, u, StudyActivity, PlanItemCol, root.id, scan), {}, kids,
                [OwnDelete(rows, root)], {root}, {});
    assert {} + {root} == GoneKeys(rows, u, root);
    assert kids + {} == DetachedKeys(rows, u, root);
  }

  predicate Childless(kind: Kind) {
    !kind.Session? && !kind.Course? && !kind.Exam? && !kind.CourseSchedule? && !kind.StudyPlan? && !kind.StudyPlanItem?
  }

  lemma LeafDelete(rows: Rows, u: User, root: Key, scan: Scan)
    requires Typed(rows) && LiveRow(rows, u, root) && Childless(root.kind)
    ensures DeletesReached(rows, u, root, scan)
  {
    OwnDeletes(rows, u, root);
    assert Kids(rows, u, root) == {} && Grandkids(rows, u, root) == {} && DetachedKeys(rows, u, root) == {};
    assert GoneKeys(rows, u, root) == {root};
  }

  lemma DeleteTouchesReached(rows: Rows, u: User, root: Key, scan: Scan)
    requires Typed(rows) && LiveRow(rows, u, root)
    ensures DeletesReached(rows, u, root, scan)
  {
    match root.kind
    case Session => SessionDelete(rows, u, root, scan);
    case Course => CourseDelete(rows, u, root, scan);
    case Exam => ExamDelete(rows, u, root, scan);
    case CourseSchedule => ScheduleDelete(rows, u, root, scan);
    case StudyPlan => PlanDelete(rows, u, root, scan);
    case StudyPlanItem => PlanItemDelete(rows, u, root, scan);
    case _ => LeafDelete(rows, u, root, scan);
  }

  // ----- cascade exactness -----

  // The row a delete at time now leaves for each row it found.
  ghost predicate Left(rows: Rows, u: User, root: Key, key: Key, row': Row, now: Time)
    requires key in rows
  {
    var row := rows[key];
    if Reached(rows, u, root, key) then
      row' == Row(u, row.version + 1, Some(now), now,
                  if key == root && row.content.body.SessionBody? then row.content.(body := row.content.body.(status := "finished"))
                  else row.content)
    else if Detached(rows, u, root, key) then
      row' == Row(u, row.version + 1, None, now,
                  row.content.(refs := row.content.refs - {DetachColumn(root.kind, key.kind).value}))
    else row' == row
  }

  lemma InvTyped(st: State)
    requires Inv(st)
    ensures Typed(st.rows)
  {
    assert forall k :: k in st.rows ==> RowOk(st, k);
  }

  lemma DeletedKeys(rows: Rows, u: User, root: Key, ws: seq<Write>, key: Key)
    requires Deletes(rows, u, root, ws, GoneKeys(rows, u, root), DetachedKeys(rows, u, root))
    ensures (exists i :: 0 <= i < |ws| && ws[i].key == key) <==>
              Reached(rows, u, root, key) || Detached(rows, u, root, key)
    ensures forall i :: 0 <= i < |ws| && ws[i].key == key ==>
              Shape(rows, root, ws[i]) && (ws[i].gone <==> Reached(rows, u, root, key))
  {
    GoneKeysAreReached(rows, u, root, key);
    assert key in KeysOf(ws) <==> exists i :: 0 <= i < |ws| && ws[i].key == key;
  }

  // Deleting a live row tombstones exactly the live rows reachable from it, clears
  // exactly the detach references to it, and leaves every other row as it was.
  lemma DeleteExactRows(st: State, u: User, root: Key, scan: Scan, now: Time)
    requires Inv(st) && LiveRow(st.rows, u, root)
    ensures var st' := WriteAll(st, u, DeleteWrites(st.rows, u, root, scan), now);
      && st'.rows.Keys == st.rows.Keys
      && forall key :: key in st.rows ==> Left(st.rows, u, root, key, st'.rows[key], now)
  {
    var ws := DeleteWrites(st.rows, u, root, scan);
    InvTyped(st);
    DeleteTouchesReached(st.rows, u, root, scan);
    WriteAllRows(st, u, ws, now);
    assert forall i :: 0 <= i < |ws| ==> Shape(st.rows, root, ws[i]);
    assert KeysOf(ws) <= st.rows.Keys;
    forall key | key in st.rows
      ensures Left(st.rows, u, root, key, WriteAll(st, u, ws, now).rows[key], now)
    {
      DeletedKeys(st.rows, u, root, ws, key);
      if key in KeysOf(ws) {
        var i :| 0 <= i < |ws| && ws[i].key == key;
        LeftByWrite(st.rows, u, root, ws[i], now);
      }
    }
  }

  lemma LeftByWrite(rows: Rows, u: User, root: Key, w: Write, now: Time)
    requires Shape(rows, root, w) && (w.gone <==> Reached(rows, u, root, w.key))
    requires Reached(rows, u, root, w.key) || Detached(rows, u, root, w.key)
    ensures Left(rows, u, root, w.key, RowAfter(rows, u, w, now), now)
  {
  }

  // Every row a delete touches moves one version and gets exactly one log entry,
  // a delete entry exactly when the row was reachable.
  lemma DeleteExactLog(st: State, u: User, root: Key, scan: Scan, now: Time)
    requires Inv(st) && LiveRow(st.rows, u, root)
    ensures st.log <= WriteAll(st, u, DeleteWrites(st.rows, u, root, scan), now).log
    ensures var es := WriteAll(st, u, DeleteWrites(st.rows, u, root, scan), now).log[|st.log|..];
      && (forall i, j :: 0 <= i < j < |es| ==> es[i].key != es[j].key)
      && (forall key :: (exists i :: 0 <= i < |es| && es[i].key == key) <==>
                        Reached(st.rows, u, root, key) || Detached(st.rows, u, root, key))
      && (forall i :: 0 <= i < |es| ==> es[i].user == u && es[i].seqNo == st.lastSeq + 1 + i
                                        && es[i].version == NextVersion(st.rows, es[i].key)
                                        && (es[i].op == Delete <==> Reached(st.rows, u, root, es[i].key)))
  {
    var ws := DeleteWrites(st.rows, u, root, scan);
    InvTyped(st);
    DeleteTouchesReached(st.rows, u, root, scan);
    WriteAllLog(st, u, ws, now);
    var es := WriteAll(st, u, ws, now).log[|st.log|..];
    assert es == EntriesOf(st, u, ws, now);
    forall key
      ensures (exists i :: 0 <= i < |es| && es[i].key == key) <==>
                Reached(st.rows, u, root, key) || Detached(st.rows, u, root, key)
    {
      DeletedKeys(st.rows, u, root, ws, key);
      if i :| 0 <= i < |ws| && ws[i].key == key {
        assert es[i].key == key;
      }
      if i :| 0 <= i < |es| && es[i].key == key {
        assert ws[i].key == key;
      }
    }
    forall i | 0 <= i < |es|
      ensures es[i].op == Delete <==> Reached(st.rows, u, root, es[i].key)
    {
      DeletedKeys(st.rows, u, root, ws, ws[i].key);
    }
  }
}
