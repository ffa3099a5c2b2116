/** Which field of a push reaches which field of the row: a push that carries a whole
    row, one that carries nothing optional, and the references, for every kind. */
module SyncFields {
  import opened Options
  import opened SyncTypes
  import opened SyncMerge
  import SyncLaws

  // ----- a push that carries every field of a row -----

  // An absent date is sent as the empty text.
  function DateWire(d: Option<Date>): Option<WireDate> {
    if d.Some? then Some(Date(d.value)) else Some(EmptyDate)
  }

  function JsonWire(text: Option<string>): Option<WireJson> {
    if text.Some? then Some(WireJson(text.value, true)) else None
  }

  // The payload with each field as the row has it.
  function Carry(b: Body): Payload {
    var n := SyncLaws.NOTHING;
    match b
    case SessionBody(title, startedAt, endedAt, duration, source, target, status, abnormal) =>
      n.(title := Some(title),
         session := SessionFields(Some(startedAt), endedAt, Some(duration), Some(status), Some(abnormal), Some(source), Some(target)))
    case EntryBody(sequence, start, end, russian, chinese, translation, timeSource) =>
      n.(entry := EntryFields(Some(sequence), Some(start), Some(end), Some(russian), chinese, Some(translation), Some(timeSource)))
    case CorrectionBody(russian, chinese, at, needs) =>
      n.(correction := CorrectionFields(Some(russian), chinese, Some(at), Some(needs)))
    case BookmarkBody(flag) => n.(isBookmarked := Some(flag))
    case FavoriteBody(flag) => n.(isFavorite := Some(flag))
    case CourseBody(name, teacher, location, color, archived) =>
      n.(title := Some(name), course := CourseFields(Some(teacher), Some(location), Some(color), Some(archived)))
    case NoteBody(text, offset) => n.(note := NoteFields(Some(text), offset))
    case ReviewBody(status, content, generated, model, generatedAt, sourceAt) =>
      n.(review := ReviewFields(Some(status), Some(content), Some(generated), Some(model), generatedAt, sourceAt))
    case AttachmentBody(at, caption, title, kind, mime, width, height, size, hash, sort, transform, status, analysis, ocr) =>
      n.(title := Some(title),
         attachment := AttachmentFields(Some(at), Some(caption), Some(kind), Some(mime), Some(width), Some(height), Some(size),
                                        Some(hash), Some(sort), Some(transform), Some(status), Some(analysis), Some(ocr)))
    case ScheduleBody(weekday, start, end, recurrence, anchor, odd, first, last, zone, teacher, location, note, mins, on, once) =>
      n.(schedule := ScheduleFields(Some(weekday), Some(start), Some(end), Some(recurrence), DateWire(anchor), Some(odd),
                                    Some(Date(first)), Some(Date(last)), Some(WireZone(zone, true)), Some(teacher),
                                    Some(location), Some(note), Some(mins), Some(on), DateWire(once)))
    case ExceptionBody(original, kind, start, end, moved, location, teacher, note) =>
      n.(exception := ExceptionFields(None, DateWire(original), Some(kind), start, end, DateWire(moved)),
         schedule := n.schedule.(location := Some(location), teacher := Some(teacher), note := Some(note)))
    case ExamBody(title, kind, date, start, end, location, scope, note, target, status, origin, source) =>
      n.(title := Some(title),
         exam := ExamFields(Some(kind), Some(Date(date)), Some(start), Some(end), Some(location), Some(scope), Some(note),
                            Some(target), Some(status), Some(origin), JsonWire(source)))
    case TopicBody(title, detail, importance, rating, status, source, edited) =>
      n.(title := Some(title),
         topic := TopicFields(Some(detail), Some(importance), Some(rating), Some(status), JsonWire(source), Some(edited)))
    case PlanBody(title, start, end, weekday, weekend, rest, finish, cards, tasks, materials, sessions, topics, times, status) =>
      n.(title := Some(title),
         plan := PlanFields(Some(Date(start)), Some(Date(end)), Some(weekday), Some(weekend), JsonWire(rest), Some(finish),
                            Some(cards), Some(tasks), Some(materials), Some(sessions), JsonWire(topics), JsonWire(times),
                            Some(status)))
    case PlanItemBody(date, title, kind, estimated, actual, status, at, order, source, note, edited) =>
      n.(title := Some(title),
         planItem := PlanItemFields(None, Some(Date(date)), Some(kind), Some(estimated), Some(actual), Some(status), at,
                                    Some(order), JsonWire(source), Some(note), Some(edited)))
    case ActivityBody(start, end, seconds, status, note) =>
      n.(activity := ActivityFields(None, None, Some(start), end, Some(seconds), Some(status), Some(note)))
  }

  predicate NoBlank(text: Option<string>) { text != Some("") }

  // The rows an insert can store: no blank word of a fixed list, no blank JSON.
  predicate Storable(b: Body) {
    match b
    case EntryBody(_, _, _, _, _, _, timeSource) => timeSource in {"audio", "legacy"}
    case AttachmentBody(_, _, _, kind, _, _, _, _, _, _, _, status, _, _) => kind != "" && status != ""
    case ScheduleBody(_, _, _, recurrence, _, _, _, _, zone, _, _, _, _, _, _) => recurrence != "" && zone != ""
    case ExceptionBody(_, kind, _, _, _, _, _, _) => kind != ""
    case ExamBody(_, kind, _, _, _, _, _, _, _, status, origin, source) =>
      kind != "" && status != "" && origin != "" && NoBlank(source)
    case TopicBody(_, _, importance, rating, status, source, _) =>
      importance != "" && rating != "" && status != "" && NoBlank(source)
    case PlanBody(_, _, _, _, _, rest, _, _, _, _, _, topics, times, status) =>
      status != "" && NoBlank(rest) && NoBlank(topics) && NoBlank(times)
    case PlanItemBody(_, _, kind, _, _, status, _, _, source, _, _) => kind != "" && status != "" && NoBlank(source)
    case ActivityBody(_, _, _, status, _) => status != ""
    case _ => true
  }

  // The first push that carries b stores b.
  predicate Inserted(b: Body, now: Time) {
    NewBody(KindOf(b), Carry(b), now) == b
  }

  lemma SmallInserted(b: Body, now: Time)
    requires b.SessionBody? || b.EntryBody? || b.CorrectionBody? || b.BookmarkBody? || b.FavoriteBody? || b.CourseBody?
             || b.NoteBody? || b.ReviewBody?
    ensures Inserted(b, now) <==> Storable(b)
  {
  }

  lemma ScheduleInserted(b: Body, now: Time)
    requires b.AttachmentBody? || b.ScheduleBody? || b.ExceptionBody?
    ensures Inserted(b, now) <==> Storable(b)
  {
  }

  lemma ExamInserted(b: Body, now: Time)
    requires b.ExamBody? || b.TopicBody?
    ensures Inserted(b, now) <==> Storable(b)
  {
  }

  lemma PlanInserted(b: Body, now: Time)
    requires b.PlanBody? || b.PlanItemBody? || b.ActivityBody?
    ensures Inserted(b, now) <==> Storable(b)
  {
  }

  // A first push that carries a whole row stores exactly that row, for every kind, exactly
  // when no word of a fixed list and no JSON in it is blank.
  lemma InsertStoresIff(b: Body, now: Time)
    ensures Inserted(b, now) <==> Storable(b)
  {
    match KindOf(b)
    case Attachment | CourseSchedule | ScheduleException => ScheduleInserted(b, now);
    case Exam | ExamTopic => ExamInserted(b, now);
    case StudyPlan | StudyPlanItem | StudyActivity => PlanInserted(b, now);
    case _ => SmallInserted(b, now);
  }

  // ----- the same push over a stored row -----

  // Blank text keeps what is stored.
  predicate TextWins(text: string, stored: string) { text != "" || stored == "" }

  // So does an absent value.
  predicate ValueWins<T>(value: Option<T>, stored: Option<T>) { value.Some? || stored.None? }

  predicate JsonWins(text: Option<string>, stored: Option<string>) {
    (text.Some? && text.value != "") || text == stored
  }

  predicate EndWins(end: Option<Time>, stored: Option<Time>) {
    stored.Some? ==> end.Some? && end.value >= stored.value
  }

  // A row b can be pushed over a stored row was of the same kind: it agrees on what only an
  // insert sets, does not blank what cannot be blanked, and is not behind where the newest,
  // the longest or a terminal state wins.
  predicate Replaces(b: Body, was: Body)
    requires KindOf(b) == KindOf(was)
  {
    match b
    case SessionBody(_, startedAt, endedAt, _, source, target, _, abnormal) =>
      && startedAt == was.startedAt && source == was.sourceLang && target == was.targetLang
      && ValueWins(endedAt, was.endedAt) && (was.abnormal ==> abnormal)
    case EntryBody(sequence, start, end, russian, chinese, translation, timeSource) =>
      && sequence == was.sequence && russian == was.russian
      && (was.startOffset == 0.0 || start == was.startOffset) && (was.endOffset == 0.0 || end == was.endOffset)
      && JsonWins(chinese, was.chinese) && TextWins(translation, was.translation)
      && (timeSource == "audio" || timeSource == was.timeSource)
    case CorrectionBody(_, _, at, _) => at >= was.modifiedAt
    case BookmarkBody(_) | FavoriteBody(_) | CourseBody(_, _, _, _, _) => true
    case NoteBody(text, offset) => TextWins(text, was.text) && ValueWins(offset, was.timeOffset)
    case ReviewBody(status, content, generated, model, generatedAt, sourceAt) =>
      && TextWins(status, was.reviewStatus) && TextWins(content, was.reviewContent) && TextWins(generated, was.generated)
      && TextWins(model, was.model) && ValueWins(generatedAt, was.generatedAt) && ValueWins(sourceAt, was.sourceAt)
    case AttachmentBody(_, caption, title, kind, mime, width, height, size, hash, _, _, status, analysis, ocr) =>
      && width == was.width && height == was.height && size == was.fileSize && hash == was.hash
      && TextWins(caption, was.caption) && TextWins(title, was.imageTitle) && TextWins(kind, was.attachmentKind)
      && TextWins(mime, was.mime) && TextWins(status, was.analysisStatus) && TextWins(analysis, was.analysis)
      && TextWins(ocr, was.ocr)
    case ScheduleBody(_, _, _, recurrence, anchor, _, _, _, zone, teacher, location, note, _, _, once) =>
      && recurrence != "" && zone != "" && (zone == "UTC" ==> was.timezone in {"", "UTC"})
      && ValueWins(anchor, was.parityAnchor) && ValueWins(once, was.onceDate)
      && TextWins(teacher, was.scheduleTeacher) && TextWins(location, was.scheduleLocation) && TextWins(note, was.scheduleNote)
    case ExceptionBody(_, kind, start, end, _, location, teacher, note) =>
      && kind != "" && ValueWins(start, was.changedStart) && ValueWins(end, was.changedEnd)
      && TextWins(location, was.locationOverride) && TextWins(teacher, was.teacherOverride) && TextWins(note, was.exceptionNote)
    case ExamBody(_, kind, _, _, _, location, scope, note, target, status, origin, source) =>
      && kind != "" && status != "" && origin != "" && JsonWins(source, was.examSource)
      && TextWins(location, was.examLocation) && TextWins(scope, was.scope) && TextWins(note, was.examNote)
      && TextWins(target, was.target)
    case TopicBody(_, detail, importance, rating, status, source, _) =>
      && importance != "" && rating != "" && status != "" && TextWins(detail, was.detail)
      && JsonWins(source, was.topicSource)
    case PlanBody(_, _, _, _, _, rest, _, _, _, _, _, topics, times, status) =>
      && status != "" && JsonWins(rest, was.restDays) && JsonWins(topics, was.focusTopics) && JsonWins(times, was.blockedTimes)
    case PlanItemBody(_, _, kind, _, actual, status, at, _, source, note, _) =>
      var stale := was.statusChangedAt.Some? && at.Some? && at.value < was.statusChangedAt.value;
      && kind != "" && actual >= was.actual && ValueWins(at, was.statusChangedAt)
      && (if status == "" then stale && was.itemStatus == "" else stale ==> status == was.itemStatus)
      && JsonWins(source, was.itemSource) && TextWins(note, was.userNote)
    case ActivityBody(_, end, seconds, status, note) =>
      && status != "" && (status == "in_progress" ==> was.activityStatus !in {"completed", "abandoned"})
      && seconds >= was.seconds && EndWins(end, was.activityEnd) && TextWins(note, was.activityNote)
  }

  // The push that carries b leaves b.
  predicate Replaced(b: Body, was: Body, now: Time) {
    MergeBody(was, Carry(b), now) == b
  }

  lemma SmallReplaced(b: Body, was: Body, now: Time)
    requires KindOf(b) == KindOf(was) && KindOf(b) in {Session, Correction, Bookmark, Favorite, Course, Note, StudyReview}
    ensures Replaced(b, was, now) <==> Replaces(b, was)
  {
  }

  lemma EntryReplaced(b: Body, was: Body, now: Time)
    requires KindOf(b) == KindOf(was) && KindOf(b) in {Entry, Attachment}
    ensures Replaced(b, was, now) <==> Replaces(b, was)
  {
  }

  lemma ScheduleReplaced(b: Body, was: Body, now: Time)
    requires KindOf(b) == KindOf(was) && KindOf(b) in {CourseSchedule, ScheduleException}
    ensures Replaced(b, was, now) <==> Replaces(b, was)
  {
  }

  lemma ExamReplaced(b: Body, was: Body, now: Time)
    requires KindOf(b) == KindOf(was) && KindOf(b) in {Exam, ExamTopic}
    ensures Replaced(b, was, now) <==> Replaces(b, was)
  {
  }

  lemma PlanReplaced(b: Body, was: Body, now: Time)
    requires KindOf(b) == KindOf(was) && KindOf(b) in {StudyPlan, StudyPlanItem, StudyActivity}
    ensures Replaced(b, was, now) <==> Replaces(b, was)
  {
  }

  // A push that carries a whole row over a stored one leaves exactly the pushed row, for
  // every kind, exactly when it may replace it.
  lemma MergeStoresIff(b: Body, was: Body, now: Time)
    requires KindOf(b) == KindOf(was)
    ensures Replaced(b, was, now) <==> Replaces(b, was)
  {
    match KindOf(b)
    case Entry | Attachment => EntryReplaced(b, was, now);
    case CourseSchedule | ScheduleException => ScheduleReplaced(b, was, now);
    case Exam | ExamTopic => ExamReplaced(b, was, now);
    case StudyPlan | StudyPlanItem | StudyActivity => PlanReplaced(b, was, now);
    case _ => SmallReplaced(b, was, now);
  }

  // ----- a first push that carries nothing optional -----

  // The defaults of an insert, kind by kind; where a field is required, its place holds
  // what the check before the insert never lets through.
  function Defaults(kind: Kind, now: Time): Body {
    match kind
    case Session => SessionBody("", 0, None, 0.0, "ru", "zh-CN", "active", false)
    case Entry => EntryBody(0, 0.0, 0.0, "", None, "pending", "legacy")
    case Correction => CorrectionBody("", None, now, false)
    case Bookmark => BookmarkBody(true)
    case Favorite => FavoriteBody(false)
    case Course => CourseBody("", "", "", 0, false)
    case Note => NoteBody("", None)
    case StudyReview => ReviewBody("", "", "", "", None, None)
    case Attachment => AttachmentBody(0, "", "", "other", "", 0, 0, 0, "", 0, "", "pending", "", "")
    case CourseSchedule => ScheduleBody(1, 0, 0, "weekly", None, true, 0, 0, "UTC", "", "", "", -1, true, None)
    case ScheduleException => ExceptionBody(None, "cancelled", None, None, None, "", "", "")
    case Exam => ExamBody("", "custom", 0, -1, -1, "", "", "", "", "scheduled", "manual", None)
    case ExamTopic => TopicBody("", "", "normal", "none", "not_started", None, false)
    case StudyPlan => PlanBody("", 0, 0, 60, 90, None, 0, true, true, true, true, None, None, "active")
    case StudyPlanItem => PlanItemBody(0, "", "custom", 30, 0, "pending", None, 0, None, "", false)
    case StudyActivity => ActivityBody(0, None, 0, "in_progress", "")
  }

  lemma LectureDefaults(kind: Kind, now: Time)
    requires kind !in {CourseSchedule, ScheduleException, Exam, ExamTopic, StudyPlan, StudyPlanItem, StudyActivity}
    ensures NewBody(kind, SyncLaws.NOTHING, now) == Defaults(kind, now)
  {
  }

  lemma InsertDefaults(kind: Kind, now: Time)
    ensures NewBody(kind, SyncLaws.NOTHING, now) == Defaults(kind, now)
  {
    if kind !in {CourseSchedule, ScheduleException, Exam, ExamTopic, StudyPlan, StudyPlanItem, StudyActivity} {
      LectureDefaults(kind, now);
    }
  }

  // ----- references -----

  // The payload field of a reference that every push may set.
  function PushedRef(kind: Kind, col: Column, p: Payload): Option<Id> {
    match col
    case CourseCol =>
      if kind in {Session, CourseSchedule, Exam, Attachment, ScheduleException, StudyActivity} then p.courseId else None
    case AnchorCol => if kind in {Note, Attachment} then p.anchorEntry else None
    case ScheduleCol => if kind == ScheduleException then p.exception.scheduleId else None
    case ExamCol => if kind in {ExamTopic, StudyPlan, StudyPlanItem, StudyActivity} then p.examId else None
    case PlanCol => if kind == StudyPlanItem then p.planItem.planId else None
    case PlanItemCol => if kind == StudyActivity then p.activity.planItemId else None
    case TopicCol => if kind == StudyActivity then p.activity.topicId else None
    case SessionCol | EntryCol => None
  }

  // The reference that only an insert sets.
  function FixedRef(kind: Kind, id: Id, p: Payload, parentSession: Id, col: Column): Option<Id> {
    match col
    case SessionCol =>
      if kind in {Entry, Note, Attachment, Bookmark} then Some(Or(p.sessionId, NIL))
      else if kind == Favorite then Some(Or(p.sessionId, id))
      else if kind == StudyReview then Some(id)
      else if kind == Correction then Some(parentSession)
      else None
    case EntryCol => if kind == Bookmark then Some(Or(p.entryId, NIL)) else None
    case _ => None
  }

  // The nil id clears a reference, an absent one keeps it, any other sets it.
  function RefOver(pushed: Option<Id>, stored: Option<Id>): Option<Id> {
    if pushed.None? then stored else if pushed.value == 0 then None else pushed
  }

  function RefAt(refs: map<Column, Id>, col: Column): Option<Id> {
    if col in refs then Some(refs[col]) else None
  }

  lemma MergeRefAt(refs: map<Column, Id>, at: Column, p: Option<Id>, col: Column)
    ensures RefAt(MergeRef(refs, at, p), col) == if col == at then RefOver(p, RefAt(refs, col)) else RefAt(refs, col)
  {
  }

  lemma TwoRefsAt(refs: map<Column, Id>, a: Column, p: Option<Id>, b: Column, q: Option<Id>, col: Column)
    requires a != b
    ensures RefAt(MergeRef(MergeRef(refs, a, p), b, q), col) ==
              if col == a then RefOver(p, RefAt(refs, col)) else if col == b then RefOver(q, RefAt(refs, col)) else RefAt(refs, col)
  {
    MergeRefAt(refs, a, p, col);
    MergeRefAt(MergeRef(refs, a, p), b, q, col);
  }

  lemma ActivityRefsAt(refs: map<Column, Id>, p: Payload, col: Column)
    ensures RefAt(ActivityRefs(refs, p), col) == RefOver(PushedRef(StudyActivity, col, p), RefAt(refs, col))
  {
    var two := MergeRef(MergeRef(refs, PlanItemCol, p.activity.planItemId), ExamCol, p.examId);
    TwoRefsAt(refs, PlanItemCol, p.activity.planItemId, ExamCol, p.examId, col);
    TwoRefsAt(two, CourseCol, p.courseId, TopicCol, p.activity.topicId, col);
  }

  // What a merge leaves of each reference.
  lemma MergedRef(c: Content, p: Payload, now: Time, col: Column)
    ensures Ref(MergeContent(c, p, now), col) == RefOver(PushedRef(KindOf(c.body), col, p), Ref(c, col))
  {
    MergedRefs(c, p, col);
  }

  lemma MergedRefs(c: Content, p: Payload, col: Column)
    ensures RefAt(MergeRefs(c, p), col) == RefOver(PushedRef(KindOf(c.body), col, p), RefAt(c.refs, col))
  {
    match KindOf(c.body)
    case Session | CourseSchedule | Exam => MergeRefAt(c.refs, CourseCol, p.courseId, col);
    case Note => MergeRefAt(c.refs, AnchorCol, p.anchorEntry, col);
    case Attachment => TwoRefsAt(c.refs, CourseCol, p.courseId, AnchorCol, p.anchorEntry, col);
    case ScheduleException => TwoRefsAt(c.refs, ScheduleCol, p.exception.scheduleId, CourseCol, p.courseId, col);
    case ExamTopic | StudyPlan => MergeRefAt(c.refs, ExamCol, p.examId, col);
    case StudyPlanItem => TwoRefsAt(c.refs, PlanCol, p.planItem.planId, ExamCol, p.examId, col);
    case StudyActivity => ActivityRefsAt(c.refs, p, col);
    case _ =>
  }

  // What an insert sets each reference to.
  lemma InsertedRef(kind: Kind, id: Id, p: Payload, parentSession: Id, now: Time, col: Column)
    ensures Ref(NewContent(kind, id, p, parentSession, now), col) ==
              if FixedRef(kind, id, p, parentSession, col).Some? then FixedRef(kind, id, p, parentSession, col)
              else RefOver(PushedRef(kind, col, p), None)
  {
    InsertedRefs(kind, id, p, parentSession, col);
  }

  lemma InsertedRefs(kind: Kind, id: Id, p: Payload, parentSession: Id, col: Column)
    ensures RefAt(NewRefs(kind, id, p, parentSession), col) ==
              if FixedRef(kind, id, p, parentSession, col).Some? then FixedRef(kind, id, p, parentSession, col)
              else RefOver(PushedRef(kind, col, p), None)
  {
    var session: map<Column, Id> := map[SessionCol := Or(p.sessionId, NIL)];
    match kind
    case Session | CourseSchedule | Exam => MergeRefAt(map[], CourseCol, p.courseId, col);
    case Note => MergeRefAt(session, AnchorCol, p.anchorEntry, col);
    case Attachment => TwoRefsAt(session, CourseCol, p.courseId, AnchorCol, p.anchorEntry, col);
    case ScheduleException => TwoRefsAt(map[], ScheduleCol, p.exception.scheduleId, CourseCol, p.courseId, col);
    case ExamTopic | StudyPlan => MergeRefAt(map[], ExamCol, p.examId, col);
    case StudyPlanItem => TwoRefsAt(map[], PlanCol, p.planItem.planId, ExamCol, p.examId, col);
    case StudyActivity => ActivityRefsAt(map[], p, col);
    case _ =>
  }
}
