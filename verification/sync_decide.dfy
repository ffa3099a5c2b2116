/** What one push operation decides: its result and the writes it makes, as a
    function of the rows it starts from (ApplyPush, applyOne and the apply,
    cascade and detach functions of internal/sync). */
module SyncDecide {
  import opened Options
  import opened SyncTypes
  import opened SyncMerge
  import opened SyncState

  ghost predicate Lists(q: seq<Id>, s: set<Id>) {
    && (forall i, j :: 0 <= i < j < |q| ==> q[i] != q[j])
    && (forall id :: id in q <==> id in s)
  }

  ghost function AnyListing(s: set<Id>): (q: seq<Id>)
    ensures Lists(q, s)
  {
    if s == {} then []
    else
      var id :| id in s;
      [id] + AnyListing(s - {id})
  }

  // The order in which a statement's RETURNING clause delivers the rows it touched:
  // any order, chosen by the database.
  type Scan = f: set<Id> -> seq<Id> | forall s :: Lists(f(s), s) ghost witness s => AnyListing(s)

  // What a transaction reads from outside: its now() and its scan order.
  datatype Env = Env(now: Time, scan: Scan)

  // ----- cascades and detaches -----

  // The user's live rows of one table whose reference column holds the parent's id.
  function Matching(rows: Rows, u: User, kind: Kind, col: Column, parent: Id): set<Id> {
    set k | k in rows && k.kind == kind && LiveRow(rows, u, k) && Ref(rows[k].content, col) == Some(parent) :: k.id
  }

  // A cascade tombstones the child as it is; a detach clears its reference.
  function ChildPut(rows: Rows, key: Key, col: Column, gone: bool): Write
    requires key in rows
  {
    var c := rows[key].content;
    Put(key, if gone then c else c.(refs := c.refs - {col}), gone)
  }

  function ChildPuts(rows: Rows, kind: Kind, ids: seq<Id>, col: Column, gone: bool): seq<Write>
    requires forall id :: id in ids ==> Key(kind, id) in rows
  {
    seq(|ids|, i requires 0 <= i < |ids| => ChildPut(rows, Key(kind, ids[i]), col, gone))
  }

  function Cascade(rows: Rows, u: User, kind: Kind, col: Column, parent: Id, scan: Scan): seq<Write> {
    ChildPuts(rows, kind, scan(Matching(rows, u, kind, col, parent)), col, true)
  }

  function Detach(rows: Rows, u: User, kind: Kind, col: Column, parent: Id, scan: Scan): seq<Write> {
    ChildPuts(rows, kind, scan(Matching(rows, u, kind, col, parent)), col, false)
  }

  // The tables whose rows live and die with their session, in cascade order.
  const SESSION_CHILDREN: seq<Kind> := [Entry, Bookmark, Favorite, Note, StudyReview, Attachment, Correction]

  function CascadeEach(rows: Rows, u: User, kinds: seq<Kind>, col: Column, parent: Id, scan: Scan): seq<Write> {
    if kinds == [] then []
    else
      var last := |kinds| - 1;
      CascadeEach(rows, u, kinds[..last], col, parent, scan) + Cascade(rows, u, kinds[last], col, parent, scan)
  }

  function ItemsOfPlans(rows: Rows, u: User, plans: seq<Id>, scan: Scan): seq<Write> {
    if plans == [] then []
    else Cascade(rows, u, StudyPlanItem, PlanCol, plans[0], scan) + ItemsOfPlans(rows, u, plans[1..], scan)
  }

  // Each schedule's tombstone is followed by its exceptions'.
  function SchedulesWithExceptions(rows: Rows, u: User, schedules: seq<Id>, scan: Scan): seq<Write>
    requires forall id :: id in schedules ==> Key(CourseSchedule, id) in rows
  {
    if schedules == [] then []
    else
      [ChildPut(rows, Key(CourseSchedule, schedules[0]), CourseCol, true)]
      + Cascade(rows, u, ScheduleException, ScheduleCol, schedules[0], scan)
      + SchedulesWithExceptions(rows, u, schedules[1..], scan)
  }

  // Deleting a session also marks it finished.
  function Finished(c: Content): Content {
    if c.body.SessionBody? then c.(body := c.body.(status := "finished")) else c
  }

  function OwnDelete(rows: Rows, key: Key): Write
    requires key in rows
  {
    Put(key, Finished(rows[key].content), true)
  }

  // Everything the delete of a live row writes, in log order.
  function DeleteWrites(rows: Rows, u: User, key: Key, scan: Scan): seq<Write>
    requires key in rows
  {
    var own := [OwnDelete(rows, key)];
    match key.kind
    case Session => own + CascadeEach(rows, u, SESSION_CHILDREN, SessionCol, key.id, scan)
    case Course =>
      own + Detach(rows, u, Session, CourseCol, key.id, scan) + Detach(rows, u, Exam, CourseCol, key.id, scan)
      + Detach(rows, u, StudyActivity, CourseCol, key.id, scan)
      + SchedulesWithExceptions(rows, u, scan(Matching(rows, u, CourseSchedule, CourseCol, key.id)), scan)
    case CourseSchedule => Cascade(rows, u, ScheduleException, ScheduleCol, key.id, scan) + own
    case Exam =>
      Cascade(rows, u, ExamTopic, ExamCol, key.id, scan)
      + ItemsOfPlans(rows, u, scan(Matching(rows, u, StudyPlan, ExamCol, key.id)), scan)
      + Cascade(rows, u, StudyPlan, ExamCol, key.id, scan)
      + Detach(rows, u, StudyActivity, ExamCol, key.id, scan) + own
    case StudyPlan => Cascade(rows, u, StudyPlanItem, PlanCol, key.id, scan) + own
    case StudyPlanItem => Detach(rows, u, StudyActivity, PlanItemCol, key.id, scan) + own
    case _ => own
  }

  // ----- one operation -----

  // Abort is a database error: it rolls the whole batch back.
  datatype Decision = Abort | Do(result: OpResult, writes: seq<Write>)

  function DecideDelete(rows: Rows, u: User, key: Key, item: PushItem, env: Env): Decision {
    match Fetch(rows, u, key)
    case None =>
      if !StubFits(key.kind) then Abort
      else
        var stub := StubContent(key.kind, key.id, item.payload, item.clientUpdatedAt);
        if InsertFails(rows, u, key, stub) then Abort
        else Do(Accepted(item.opId, 1, env.now), [Put(key, stub, true)])
    case Some(row) =>
      if !row.Live() then Do(Accepted(item.opId, row.version, row.updatedAt), [])
      else Do(Accepted(item.opId, row.version + 1, env.now), DeleteWrites(rows, u, key, env.scan))
  }

  // The session a new correction belongs to: its entry's.
  function ParentSession(rows: Rows, key: Key): Id {
    if Key(Entry, key.id) in rows then Or(Ref(rows[Key(Entry, key.id)].content, SessionCol), NIL) else NIL
  }

  function DecideInsert(rows: Rows, u: User, key: Key, item: PushItem, env: Env): Decision {
    if !InsertRequired(key.kind, item.payload, item.base) then Do(Rejected(item.opId), [])
    else
      var content := NewContent(key.kind, key.id, item.payload, ParentSession(rows, key), env.now);
      if InsertFails(rows, u, key, content) then Abort
      else Do(Accepted(item.opId, 1, env.now), [Put(key, content, false)])
  }

  function ConflictWith(item: PushItem, row: Row): OpResult {
    Conflict(item.opId, row.version, row.updatedAt, RecordOf(row))
  }

  // The version matrix over a stored row.
  function DecideMerge(row: Row, key: Key, item: PushItem, env: Env): Decision {
    if !row.Live() || item.base < row.version then Do(ConflictWith(item, row), [])
    else if item.base > row.version then Do(Rejected(item.opId), [])
    else if TextClash(row.content, item.payload) then Do(ConflictWith(item, row), [])
    else Do(Accepted(item.opId, row.version + 1, env.now), [Put(key, MergeContent(row.content, item.payload, env.now), false)])
  }

  function DecideUpsert(rows: Rows, u: User, key: Key, item: PushItem, env: Env): Decision {
    if !Required(key.kind, item.payload) || !ParentLive(rows, u, key.kind, key.id, item.payload)
    then Do(Rejected(item.opId), [])
    else
      match Fetch(rows, u, key)
      case None => DecideInsert(rows, u, key, item, env)
      case Some(row) => DecideMerge(row, key, item, env)
  }

  function Decide(rows: Rows, u: User, item: PushItem, env: Env): Decision {
    if item.kind.None? || item.op.UnknownOp? then Do(Rejected(item.opId), [])
    else
      var key := Key(item.kind.value, item.id);
      if item.op.PushDelete? then DecideDelete(rows, u, key, item, env)
      else DecideUpsert(rows, u, key, item, env)
  }

  // ----- one batch -----

  datatype Outcome = Failed | Done(st: State, result: OpResult)

  // A known operation id replays its stored result; any other decides, writes and
  // stores its result.
  function ApplyOne(st: State, u: User, item: PushItem, env: Env): Outcome {
    if (u, item.opId) in st.ledger then Done(st, st.ledger[(u, item.opId)].result)
    else
      match Decide(st.rows, u, item, env)
      case Abort => Failed
      case Do(result, writes) => Done(Recorded(WriteAll(st, u, writes, env.now), u, result, item.opId, env.now), result)
  }

  function Recorded(st: State, u: User, result: OpResult, opId: OpId, now: Time): State {
    st.(ledger := st.ledger[(u, opId) := Receipt(result, now)], clock := now)
  }

  // A failed batch keeps nothing but the sequence numbers it drew.
  datatype BatchOutcome = Aborted(lastSeq: nat) | Committed(st: State, results: seq<OpResult>)

  function ApplyItems(st: State, u: User, items: seq<PushItem>, env: Env): BatchOutcome
    decreases |items|
  {
    if items == [] then Committed(st, [])
    else
      match ApplyOne(st, u, items[0], env)
      case Failed => Aborted(st.lastSeq)
      case Done(st1, result) =>
        match ApplyItems(st1, u, items[1..], env)
        case Aborted(n) => Aborted(n)
        case Committed(st2, results) => Committed(st2, [result] + results)
  }

  // The state after a push request: all of the batch or none of it.
  function ApplyPush(st: State, u: User, items: seq<PushItem>, env: Env): State {
    match ApplyItems(st, u, items, env)
    case Aborted(n) => st.(lastSeq := n)
    case Committed(st', _) => st'
  }
}
