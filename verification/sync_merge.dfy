/** The field rules of each kind: what an upsert must carry, what it inserts and
    how it merges into a stored row. These are the pure parts of the apply
    handlers (internal/sync/service.go and internal/sync/exams.go). */
module SyncMerge {
  import opened Options
  import opened SyncTypes

  type Rows = map<Key, Row>

  // The user's own row, as every fetch statement filters by owner.
  function Fetch(rows: Rows, u: User, key: Key): Option<Row> {
    if key in rows && rows[key].user == u then Some(rows[key]) else None
  }

  predicate LiveRow(rows: Rows, u: User, key: Key) {
    key in rows && rows[key].user == u && rows[key].Live()
  }

  function Ref(c: Content, col: Column): Option<Id> {
    if col in c.refs then Some(c.refs[col]) else None
  }

  function Or<T>(p: Option<T>, default: T): T {
    if p.Some? then p.value else default
  }

  // An absent field keeps the stored optional value.
  function Keep<T>(p: Option<T>, stored: Option<T>): Option<T> {
    if p.Some? then p else stored
  }

  // Absent or empty text keeps the stored text.
  function OrText(p: Option<string>, default: string): string {
    if p.Some? && p.value != "" then p.value else default
  }

  function MergeRef(refs: map<Column, Id>, col: Column, p: Option<Id>): map<Column, Id> {
    match p
    case None => refs
    case Some(id) => if id == NIL then refs - {col} else refs[col := id]
  }

  function NewRef(col: Column, p: Option<Id>): map<Column, Id> {
    MergeRef(map[], col, p)
  }

  function MaxTime(a: Time, b: Time): Time {
    if b > a then b else a
  }

  function DateOf(p: Option<WireDate>): Option<Date> {
    if p.Some? && p.value.Date? then Some(p.value.date) else None
  }

  predicate DateParses(p: Option<WireDate>) {
    p.Some? ==> !p.value.BadDate?
  }

  // The text of a JSON payload when it is non-empty and valid.
  function JsonOf(p: Option<WireJson>): Option<string> {
    if p.Some? && p.value.text != "" && p.value.valid then Some(p.value.text) else None
  }

  predicate JsonParses(p: Option<WireJson>) {
    p.Some? && p.value.text != "" ==> p.value.valid
  }

  function KindOf(b: Body): Kind {
    match b
    case SessionBody(_, _, _, _, _, _, _, _) => Session
    case EntryBody(_, _, _, _, _, _, _) => Entry
    case CorrectionBody(_, _, _, _) => Correction
    case BookmarkBody(_) => Bookmark
    case FavoriteBody(_) => Favorite
    case CourseBody(_, _, _, _, _) => Course
    case NoteBody(_, _) => Note
    case ReviewBody(_, _, _, _, _, _) => StudyReview
    case AttachmentBody(_, _, _, _, _, _, _, _, _, _, _, _, _, _) => Attachment
    case ScheduleBody(_, _, _, _, _, _, _, _, _, _, _, _, _, _, _) => CourseSchedule
    case ExceptionBody(_, _, _, _, _, _, _, _) => ScheduleException
    case ExamBody(_, _, _, _, _, _, _, _, _, _, _, _) => Exam
    case TopicBody(_, _, _, _, _, _, _) => ExamTopic
    case PlanBody(_, _, _, _, _, _, _, _, _, _, _, _, _, _) => StudyPlan
    case PlanItemBody(_, _, _, _, _, _, _, _, _, _, _) => StudyPlanItem
    case ActivityBody(_, _, _, _, _) => StudyActivity
  }

  // ----- what every upsert must carry, checked before the version matrix -----

  predicate Required(kind: Kind, p: Payload) {
    match kind
    case Session => true
    case Entry => p.sessionId.Some? && p.entry.sequence.Some? && p.entry.russian.Some?
    case Correction => true
    case Bookmark => p.entryId.Some?
    case Favorite => true
    case Course => p.title.Some?
    case Note => p.sessionId.Some? && p.note.text.Some?
    case StudyReview => p.review.status.Some?
    case Attachment => p.sessionId.Some? && p.attachment.capturedAt.Some?
    case CourseSchedule => ScheduleRequired(p.schedule)
    case ScheduleException => ExceptionRequired(p.exception)
    case Exam => ExamRequired(p)
    case ExamTopic => TopicRequired(p)
    case StudyPlan => PlanRequired(p)
    case StudyPlanItem => PlanItemRequired(p)
    case StudyActivity =>
      p.activity.startedAt.Some? &&
      OrText(p.activity.status, "in_progress") in {"in_progress", "completed", "abandoned"}
  }

  predicate ScheduleRequired(s: ScheduleFields) {
    && OrText(s.recurrence, "weekly") in {"weekly", "biweekly", "odd_weeks", "even_weeks", "once"}
    && DateParses(s.semesterStart) && DateParses(s.semesterEnd)
    && DateParses(s.parityAnchor) && DateParses(s.onceDate)
    && (s.timezone.Some? && s.timezone.value.name != "" ==> s.timezone.value.known)
  }

  predicate ExceptionRequired(e: ExceptionFields) {
    && OrText(e.kind, "cancelled") in {"cancelled", "time_changed", "ad_hoc"}
    && e.scheduleId.Some? && e.scheduleId.value != NIL
    && DateParses(e.originalDate) && DateParses(e.movedTo)
  }

  predicate ExamRequired(p: Payload) {
    && Or(p.title, "") != ""
    && OrText(p.exam.kind, "custom") in {"midterm", "final", "quiz", "lab", "oral", "report", "defense", "custom"}
    && OrText(p.exam.status, "scheduled") in {"pending", "scheduled", "done", "cancelled"}
    && OrText(p.exam.origin, "manual") in {"manual", "ai"}
    && DateOf(p.exam.date).Some?
    && JsonParses(p.exam.source)
  }

  predicate TopicRequired(p: Payload) {
    && p.examId.Some? && p.examId.value != NIL && Or(p.title, "") != ""
    && OrText(p.topic.importance, "normal") in {"low", "normal", "high"}
    && OrText(p.topic.selfRating, "none") in {"none", "vague", "basic", "proficient"}
    && OrText(p.topic.status, "not_started") in {"not_started", "learning", "needs_review", "mastered"}
    && JsonParses(p.topic.source)
  }

  predicate PlanRequired(p: Payload) {
    && p.examId.Some? && p.examId.value != NIL && Or(p.title, "") != ""
    && DateOf(p.plan.startDate).Some? && DateOf(p.plan.endDate).Some?
    && OrText(p.plan.status, "active") in {"active", "paused", "archived"}
    && JsonParses(p.plan.restDays) && JsonParses(p.plan.focusTopics) && JsonParses(p.plan.blockedTimes)
  }

  predicate PlanItemRequired(p: Payload) {
    && p.planItem.planId.Some? && p.planItem.planId.value != NIL && Or(p.title, "") != ""
    && DateOf(p.planItem.date).Some?
    && OrText(p.planItem.kind, "custom") in
       {"material", "session", "review", "task", "cards", "topic", "terms", "practice", "custom"}
    && OrText(p.planItem.status, "pending") in {"pending", "in_progress", "done", "skipped", "deferred"}
    && JsonParses(p.planItem.source)
  }

  // The row an upsert hangs under must be the user's own and live.
  function ParentOf(kind: Kind, id: Id, p: Payload): Option<Key> {
    match kind
    case Entry | Note | Attachment => Some(Key(Session, Or(p.sessionId, NIL)))
    case StudyReview => Some(Key(Session, id))
    case Correction => Some(Key(Entry, id))
    case _ => None
  }

  predicate ParentLive(rows: Rows, u: User, kind: Kind, id: Id, p: Payload) {
    ParentOf(kind, id, p).Some? ==> LiveRow(rows, u, ParentOf(kind, id, p).value)
  }

  // What only an insert must carry.
  predicate InsertRequired(kind: Kind, p: Payload, base: int) {
    match kind
    case Session => p.session.startedAt.Some?
    case Bookmark => base == 0
    case Favorite => base == 0 && p.isFavorite.Some?
    case CourseSchedule => DateOf(p.schedule.semesterStart).Some? && DateOf(p.schedule.semesterEnd).Some?
    case _ => true
  }

  // ----- insert -----

  function NewContent(kind: Kind, id: Id, p: Payload, parentSession: Id, now: Time): Content {
    Content(NewRefs(kind, id, p, parentSession), NewBody(kind, p, now))
  }

  // parentSession is the session of the corrected entry; other kinds do not read it.
  function NewRefs(kind: Kind, id: Id, p: Payload, parentSession: Id): map<Column, Id> {
    match kind
    case Session | CourseSchedule | Exam => NewRef(CourseCol, p.courseId)
    case Entry => map[SessionCol := Or(p.sessionId, NIL)]
    case Correction => map[SessionCol := parentSession]
    case Bookmark => map[SessionCol := Or(p.sessionId, NIL), EntryCol := Or(p.entryId, NIL)]
    case Favorite => map[SessionCol := Or(p.sessionId, id)]
    case Course => map[]
    case Note => MergeRef(map[SessionCol := Or(p.sessionId, NIL)], AnchorCol, p.anchorEntry)
    case StudyReview => map[SessionCol := id]
    case Attachment =>
      MergeRef(MergeRef(map[SessionCol := Or(p.sessionId, NIL)], CourseCol, p.courseId), AnchorCol, p.anchorEntry)
    case ScheduleException => MergeRef(NewRef(ScheduleCol, p.exception.scheduleId), CourseCol, p.courseId)
    case ExamTopic | StudyPlan => NewRef(ExamCol, p.examId)
    case StudyPlanItem => MergeRef(NewRef(PlanCol, p.planItem.planId), ExamCol, p.examId)
    case StudyActivity => ActivityRefs(map[], p)
  }

  function NewBody(kind: Kind, p: Payload, now: Time): Body {
    match kind
    case Session =>
      SessionBody(Or(p.title, ""), Or(p.session.startedAt, 0), p.session.endedAt, Or(p.session.duration, 0.0),
                  Or(p.session.sourceLang, "ru"), Or(p.session.targetLang, "zh-CN"),
                  Or(p.session.status, "active"), Or(p.session.abnormal, false))
    case Entry =>
      EntryBody(Or(p.entry.sequence, 0), Or(p.entry.startOffset, 0.0), Or(p.entry.endOffset, 0.0),
                Or(p.entry.russian, ""), p.entry.chinese, Or(p.entry.translation, "pending"),
                if p.entry.timeSource == Some("audio") then "audio" else "legacy")
    case Correction =>
      CorrectionBody(Or(p.correction.russian, ""), p.correction.chinese, Or(p.correction.modifiedAt, now),
                     Or(p.correction.needsRetranslation, false))
    case Bookmark => BookmarkBody(Or(p.isBookmarked, true))
    case Favorite => FavoriteBody(Or(p.isFavorite, false))
    case Course =>
      CourseBody(Or(p.title, ""), Or(p.course.teacher, ""), Or(p.course.location, ""),
                 Or(p.course.colorIndex, 0), Or(p.course.archived, false))
    case Note => NoteBody(Or(p.note.text, ""), p.note.timeOffset)
    case StudyReview =>
      ReviewBody(Or(p.review.status, ""), Or(p.review.content, ""), Or(p.review.generated, ""),
                 Or(p.review.model, ""), p.review.generatedAt, p.review.sourceAt)
    case Attachment => NewAttachment(p)
    case CourseSchedule => NewSchedule(p.schedule)
    case ScheduleException =>
      var e := p.exception;
      ExceptionBody(DateOf(e.originalDate), OrText(e.kind, "cancelled"), e.changedStart, e.changedEnd,
                    DateOf(e.movedTo), Or(p.schedule.location, ""), Or(p.schedule.teacher, ""),
                    Or(p.schedule.note, ""))
    case Exam =>
      ExamBody(Or(p.title, ""), OrText(p.exam.kind, "custom"), Or(DateOf(p.exam.date), 0),
               Or(p.exam.startSecs, -1), Or(p.exam.endSecs, -1), Or(p.exam.location, ""),
               Or(p.exam.scope, ""), Or(p.exam.note, ""), Or(p.exam.target, ""),
               OrText(p.exam.status, "scheduled"), OrText(p.exam.origin, "manual"), JsonOf(p.exam.source))
    case ExamTopic =>
      TopicBody(Or(p.title, ""), Or(p.topic.detail, ""), OrText(p.topic.importance, "normal"),
                OrText(p.topic.selfRating, "none"), OrText(p.topic.status, "not_started"),
                JsonOf(p.topic.source), Or(p.topic.edited, false))
    case StudyPlan =>
      var l := p.plan;
      PlanBody(Or(p.title, ""), Or(DateOf(l.startDate), 0), Or(DateOf(l.endDate), 0), Or(l.weekdayMins, 60),
               Or(l.weekendMins, 90), JsonOf(l.restDays), Or(l.finishEarly, 0), Or(l.includeCards, true),
               Or(l.includeTasks, true), Or(l.includeMaterials, true), Or(l.includeSessions, true),
               JsonOf(l.focusTopics), JsonOf(l.blockedTimes), OrText(l.status, "active"))
    case StudyPlanItem =>
      var i := p.planItem;
      PlanItemBody(Or(DateOf(i.date), 0), Or(p.title, ""), OrText(i.kind, "custom"), Or(i.estimated, 30),
                   Or(i.actual, 0), OrText(i.status, "pending"), i.statusAt, Or(i.order, 0),
                   JsonOf(i.source), Or(i.userNote, ""), Or(i.edited, false))
    case StudyActivity =>
      var a := p.activity;
      ActivityBody(Or(a.startedAt, 0), a.endedAt, Or(a.seconds, 0), OrText(a.status, "in_progress"), Or(a.note, ""))
  }

  function NewAttachment(p: Payload): (r: Body)
    ensures r.AttachmentBody?
  {
    var a := p.attachment;
    AttachmentBody(
      Or(a.capturedAt, 0), Or(a.caption, ""), Or(p.title, ""), OrText(a.kind, "other"), Or(a.mime, ""),
      Or(a.width, 0), Or(a.height, 0), Or(a.fileSize, 0), Or(a.hash, ""), Or(a.sortIndex, 0), Or(a.transform, ""),
      OrText(a.analysisStatus, "pending"), Or(a.analysis, ""), Or(a.ocr, ""))
  }

  function NewSchedule(s: ScheduleFields): (r: Body)
    ensures r.ScheduleBody?
  {
    ScheduleBody(
      Or(s.weekday, 1), Or(s.startSecs, 0), Or(s.endSecs, 0), OrText(s.recurrence, "weekly"),
      DateOf(s.parityAnchor), Or(s.firstWeekOdd, true), Or(DateOf(s.semesterStart), 0),
      Or(DateOf(s.semesterEnd), 0), ZoneOf(s.timezone), Or(s.teacher, ""), Or(s.location, ""), Or(s.note, ""),
      Or(s.reminderMins, -1), Or(s.enabled, true), DateOf(s.onceDate))
  }

  function ZoneOf(z: Option<WireZone>): string {
    if z.Some? && z.value.name != "" then z.value.name else "UTC"
  }

  function ActivityRefs(refs: map<Column, Id>, p: Payload): map<Column, Id> {
    MergeRef(MergeRef(MergeRef(MergeRef(refs, PlanItemCol, p.activity.planItemId), ExamCol, p.examId),
                      CourseCol, p.courseId), TopicCol, p.activity.topicId)
  }

  // ----- phantom tombstones -----

  // The stub INSERT of a delete for a never-seen row fits the table: it sets every
  // NOT NULL column that has no default. For the other kinds it does not
  // (captured_at, semester_start, schedule_id, exam_date, exam_id, plan_id and
  // started_at are NOT NULL in db/migrations 00006, 00009 and 00012).
  predicate StubFits(kind: Kind) {
    kind in {Session, Entry, Correction, Bookmark, Favorite, Course, Note, StudyReview}
  }

  function StubContent(kind: Kind, id: Id, p: Payload, clientUpdatedAt: Time): Content
    requires StubFits(kind)
  {
    var sid := Or(p.sessionId, NIL);
    match kind
    case Session => Content(map[], SessionBody("", clientUpdatedAt, None, 0.0, "ru", "zh-CN", "finished", false))
    case Entry =>
      Content(map[SessionCol := sid],
              EntryBody(Or(p.entry.sequence, 0), 0.0, 0.0, "", None, "pending", "legacy"))
    case Correction => Content(map[SessionCol := sid], CorrectionBody("", None, clientUpdatedAt, false))
    case Bookmark => Content(map[SessionCol := sid, EntryCol := NIL], BookmarkBody(false))
    case Favorite => Content(map[SessionCol := NIL], FavoriteBody(false))
    case Course => Content(map[], CourseBody("", "", "", 0, false))
    case Note => Content(map[SessionCol := sid], NoteBody("", None))
    case StudyReview => Content(map[SessionCol := id], ReviewBody("failed", "", "", "", None, None))
  }

  // Two rows of one user that a UNIQUE constraint of the table keeps apart.
  predicate SameSlot(kind: Kind, a: Content, b: Content) {
    match kind
    case Entry => Ref(a, SessionCol) == Ref(b, SessionCol) && a.body.EntryBody? && b.body.EntryBody?
                  && a.body.sequence == b.body.sequence
    case Bookmark => Ref(a, EntryCol) == Ref(b, EntryCol)
    case Favorite => Ref(a, SessionCol) == Ref(b, SessionCol)
    case _ => false
  }

  // An INSERT of this row fails: its id is taken (by any user), or its slot is
  // (by a row of the same user, tombstones included).
  predicate InsertFails(rows: Rows, u: User, key: Key, c: Content) {
    key in rows ||
    exists k :: k in rows && k.kind == key.kind && rows[k].user == u && SameSlot(key.kind, rows[k].content, c)
  }

  // ----- merge into a live row at the stored version -----

  // The stored Russian text is immutable: a different text conflicts.
  predicate TextClash(c: Content, p: Payload) {
    c.body.EntryBody? && p.entry.russian.Some? && p.entry.russian.value != c.body.russian
  }

  function MergeContent(c: Content, p: Payload, now: Time): Content {
    Content(MergeRefs(c, p), MergeBody(c.body, p, now))
  }

  // The session and entry references are fixed at insertion.
  function MergeRefs(c: Content, p: Payload): map<Column, Id> {
    match KindOf(c.body)
    case Session | CourseSchedule | Exam => MergeRef(c.refs, CourseCol, p.courseId)
    case Note => MergeRef(c.refs, AnchorCol, p.anchorEntry)
    case Attachment => MergeRef(MergeRef(c.refs, CourseCol, p.courseId), AnchorCol, p.anchorEntry)
    case ScheduleException => MergeRef(MergeRef(c.refs, ScheduleCol, p.exception.scheduleId), CourseCol, p.courseId)
    case ExamTopic | StudyPlan => MergeRef(c.refs, ExamCol, p.examId)
    case StudyPlanItem => MergeRef(MergeRef(c.refs, PlanCol, p.planItem.planId), ExamCol, p.examId)
    case StudyActivity => ActivityRefs(c.refs, p)
    case Entry | Correction | Bookmark | Favorite | Course | StudyReview => c.refs
  }

  function MergeBody(b: Body, p: Payload, now: Time): Body {
    match b
    case SessionBody(title, startedAt, endedAt, duration, source, target, status, abnormal) =>
      SessionBody(Or(p.title, title), startedAt, Keep(p.session.endedAt, endedAt),
                  Or(p.session.duration, duration), source, target,
                  Or(p.session.status, status), abnormal || Or(p.session.abnormal, false))
    case EntryBody(_, _, _, _, _, _, _) => MergeEntry(b, p.entry)
    case CorrectionBody(_, _, _, _) => MergeCorrection(b, p.correction, now)
    case BookmarkBody(flag) => BookmarkBody(Or(p.isBookmarked, flag))
    case FavoriteBody(flag) => FavoriteBody(Or(p.isFavorite, flag))
    case CourseBody(name, teacher, location, color, archived) =>
      CourseBody(Or(p.title, name), Or(p.course.teacher, teacher), Or(p.course.location, location),
                 Or(p.course.colorIndex, color), Or(p.course.archived, archived))
    case NoteBody(text, offset) => NoteBody(OrText(p.note.text, text), Keep(p.note.timeOffset, offset))
    case ReviewBody(status, content, generated, model, generatedAt, sourceAt) =>
      ReviewBody(OrText(p.review.status, status), OrText(p.review.content, content),
                 OrText(p.review.generated, generated), OrText(p.review.model, model),
                 Keep(p.review.generatedAt, generatedAt), Keep(p.review.sourceAt, sourceAt))
    case AttachmentBody(_, _, _, _, _, _, _, _, _, _, _, _, _, _) => MergeAttachment(b, p)
    case ScheduleBody(_, _, _, _, _, _, _, _, _, _, _, _, _, _, _) => MergeSchedule(b, p.schedule)
    case ExceptionBody(_, _, _, _, _, _, _, _) => MergeException(b, p)
    case ExamBody(_, _, _, _, _, _, _, _, _, _, _, _) => MergeExam(b, p)
    case TopicBody(_, _, _, _, _, _, _) => MergeTopic(b, p)
    case PlanBody(_, _, _, _, _, _, _, _, _, _, _, _, _, _) => MergePlan(b, p)
    case PlanItemBody(_, _, _, _, _, _, _, _, _, _, _) => MergePlanItem(b, p, now)
    case ActivityBody(_, _, _, _, _) => MergeActivity(b, p.activity)
  }

  // The Russian text stays; offsets are set once; non-empty Chinese wins.
  function MergeEntry(b: Body, e: EntryFields): (r: Body)
    requires b.EntryBody?
    ensures r.EntryBody?
  {
    EntryBody(
      b.sequence,
      if b.startOffset == 0.0 then Or(e.startOffset, b.startOffset) else b.startOffset,
      if b.endOffset == 0.0 then Or(e.endOffset, b.endOffset) else b.endOffset,
      b.russian,
      if e.chinese.Some? && e.chinese.value != "" then e.chinese else b.chinese,
      OrText(e.translation, b.translation),
      if e.timeSource == Some("audio") then "audio" else b.timeSource)
  }

  // The file identity (hash, size, dimensions) is fixed at insertion.
  function MergeAttachment(b: Body, p: Payload): (r: Body)
    requires b.AttachmentBody?
    ensures r.AttachmentBody?
  {
    var a := p.attachment;
    AttachmentBody(
      Or(a.capturedAt, b.capturedAt), OrText(a.caption, b.caption), OrText(p.title, b.imageTitle),
      OrText(a.kind, b.attachmentKind), OrText(a.mime, b.mime), b.width, b.height, b.fileSize, b.hash,
      Or(a.sortIndex, b.sortIndex), Or(a.transform, b.transform), OrText(a.analysisStatus, b.analysisStatus),
      OrText(a.analysis, b.analysis), OrText(a.ocr, b.ocr))
  }

  function MergeExam(b: Body, p: Payload): (r: Body)
    requires b.ExamBody?
    ensures r.ExamBody?
  {
    var e := p.exam;
    ExamBody(
      Or(p.title, ""), OrText(e.kind, "custom"), Or(DateOf(e.date), 0), Or(e.startSecs, -1), Or(e.endSecs, -1),
      OrText(e.location, b.examLocation), OrText(e.scope, b.scope), OrText(e.note, b.examNote),
      OrText(e.target, b.target), OrText(e.status, "scheduled"), OrText(e.origin, "manual"),
      Keep(JsonOf(e.source), b.examSource))
  }

  function MergeTopic(b: Body, p: Payload): (r: Body)
    requires b.TopicBody?
    ensures r.TopicBody?
  {
    var t := p.topic;
    TopicBody(
      Or(p.title, ""), OrText(t.detail, b.detail), OrText(t.importance, "normal"), OrText(t.selfRating, "none"),
      OrText(t.status, "not_started"), Keep(JsonOf(t.source), b.topicSource), Or(t.edited, false))
  }

  function MergePlan(b: Body, p: Payload): (r: Body)
    requires b.PlanBody?
    ensures r.PlanBody?
  {
    var l := p.plan;
    PlanBody(
      Or(p.title, ""), Or(DateOf(l.startDate), 0), Or(DateOf(l.endDate), 0), Or(l.weekdayMins, 60),
      Or(l.weekendMins, 90), Keep(JsonOf(l.restDays), b.restDays), Or(l.finishEarly, 0), Or(l.includeCards, true),
      Or(l.includeTasks, true), Or(l.includeMaterials, true), Or(l.includeSessions, true),
      Keep(JsonOf(l.focusTopics), b.focusTopics), Keep(JsonOf(l.blockedTimes), b.blockedTimes),
      OrText(l.status, "active"))
  }

  function MergeSchedule(b: Body, s: ScheduleFields): (r: Body)
    requires b.ScheduleBody?
    ensures r.ScheduleBody?
  {
    ScheduleBody(
      Or(s.weekday, b.weekday), Or(s.startSecs, b.startSecs), Or(s.endSecs, b.endSecs),
      OrText(s.recurrence, "weekly"), Keep(DateOf(s.parityAnchor), b.parityAnchor),
      Or(s.firstWeekOdd, b.firstWeekOdd), Or(DateOf(s.semesterStart), b.semesterStart),
      Or(DateOf(s.semesterEnd), b.semesterEnd),
      if ZoneOf(s.timezone) == "UTC" && b.timezone != "" then b.timezone else ZoneOf(s.timezone),
      OrText(s.teacher, b.scheduleTeacher), OrText(s.location, b.scheduleLocation), OrText(s.note, b.scheduleNote),
      Or(s.reminderMins, b.reminderMins), Or(s.enabled, b.enabled), Keep(DateOf(s.onceDate), b.onceDate))
  }

  // An empty date text clears the stored date; an absent one keeps it.
  function MergeException(b: Body, p: Payload): (r: Body)
    requires b.ExceptionBody?
    ensures r.ExceptionBody?
  {
    var e := p.exception;
    ExceptionBody(
      if e.originalDate.None? then b.originalDate else DateOf(e.originalDate),
      OrText(e.kind, "cancelled"), Keep(e.changedStart, b.changedStart), Keep(e.changedEnd, b.changedEnd),
      if e.movedTo.None? then b.movedTo else DateOf(e.movedTo),
      OrText(p.schedule.location, b.locationOverride), OrText(p.schedule.teacher, b.teacherOverride),
      OrText(p.schedule.note, b.exceptionNote))
  }

  // A differing status wins unless its timestamp is older than the stored one;
  // actual minutes never shrink.
  function MergePlanItem(b: Body, p: Payload, now: Time): (r: Body)
    requires b.PlanItemBody?
    ensures r.PlanItemBody?
  {
    var i := p.planItem;
    var status := OrText(i.status, "pending");
    var stale := status != b.itemStatus && b.statusChangedAt.Some? && Or(i.statusAt, now) < b.statusChangedAt.value;
    PlanItemBody(
      Or(DateOf(i.date), 0), Or(p.title, ""), OrText(i.kind, "custom"), Or(i.estimated, 30),
      if Or(i.actual, 0) < b.actual then b.actual else Or(i.actual, 0),
      if stale then b.itemStatus else status, Keep(i.statusAt, b.statusChangedAt), Or(i.order, 0),
      Keep(JsonOf(i.source), b.itemSource), OrText(i.userNote, b.userNote), Or(i.edited, false))
  }

  // The push with the newer (or equal) correctionModifiedAt wins both texts.
  function MergeCorrection(b: Body, p: CorrectionFields, now: Time): (r: Body)
    requires b.CorrectionBody?
    ensures r.CorrectionBody?
  {
    var modifiedAt := Or(p.modifiedAt, now);
    var wins := modifiedAt >= b.modifiedAt;
    CorrectionBody(
      if wins then Or(p.russian, "") else b.fixedRussian,
      if wins then p.chinese else b.fixedChinese,
      MaxTime(b.modifiedAt, modifiedAt), Or(p.needsRetranslation, false))
  }

  // Terminal states stick; seconds and the end time only grow.
  function MergeActivity(b: Body, p: ActivityFields): (r: Body)
    requires b.ActivityBody?
    ensures r.ActivityBody?
  {
    var status := OrText(p.status, "in_progress");
    ActivityBody(
      Or(p.startedAt, 0),
      if p.endedAt.None? then b.activityEnd
      else if b.activityEnd.Some? && b.activityEnd.value > p.endedAt.value then b.activityEnd
      else p.endedAt,
      if Or(p.seconds, 0) < b.seconds then b.seconds else Or(p.seconds, 0),
      if status == "in_progress" && (b.activityStatus == "completed" || b.activityStatus == "abandoned")
      then b.activityStatus else status,
      OrText(p.note, b.activityNote))
  }

  // ----- what merging and inserting keep, for every kind -----

  lemma NewContentKind(kind: Kind, id: Id, p: Payload, parentSession: Id, now: Time)
    ensures KindOf(NewContent(kind, id, p, parentSession, now).body) == kind
  {
  }

  lemma StubContentKind(kind: Kind, id: Id, p: Payload, clientUpdatedAt: Time)
    requires StubFits(kind)
    ensures KindOf(StubContent(kind, id, p, clientUpdatedAt).body) == kind
  {
  }

  lemma MergeContentKind(c: Content, p: Payload, now: Time)
    ensures KindOf(MergeContent(c, p, now).body) == KindOf(c.body)
  {
  }

  lemma MergeKeepsSession(c: Content, p: Payload, now: Time)
    ensures Ref(MergeContent(c, p, now), SessionCol) == Ref(c, SessionCol)
  {
  }
}
