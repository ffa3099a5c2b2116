/** The entities of the sync protocol: rows, change-log entries, push items and
    their results (internal/sync/wire.go, and the row structs of service.go and
    exams.go). */
module SyncTypes {
  import opened Options

  // A UUID read as a number; 0 is the nil UUID, the wire's "clear this reference".
  type Id = nat
  const NIL: Id := 0

  type User = nat
  type OpId = nat
  type Time = int
  type Date = int

  datatype Kind =
    | Session | Entry | Correction | Bookmark | Favorite | Course | Note | StudyReview
    | Attachment | CourseSchedule | ScheduleException
    | Exam | ExamTopic | StudyPlan | StudyPlanItem | StudyActivity

  // One table per kind; the primary key spans all users.
  datatype Key = Key(kind: Kind, id: Id)

  // The columns that hold another row's id.
  datatype Column =
    | SessionCol | EntryCol | CourseCol | ScheduleCol | ExamCol | PlanCol | PlanItemCol
    | TopicCol | AnchorCol

  // References are a partial map: a NULL column is absent.
  datatype Content = Content(refs: map<Column, Id>, body: Body)

  datatype Body =
    | SessionBody(title: string, startedAt: Time, endedAt: Option<Time>, duration: real,
                  sourceLang: string, targetLang: string, status: string, abnormal: bool)
    | EntryBody(sequence: int, startOffset: real, endOffset: real, russian: string,
                chinese: Option<string>, translation: string, timeSource: string)
    | CorrectionBody(fixedRussian: string, fixedChinese: Option<string>, modifiedAt: Time, needsRetranslation: bool)
    | BookmarkBody(isBookmarked: bool)
    | FavoriteBody(isFavorite: bool)
    | CourseBody(name: string, teacher: string, location: string, colorIndex: int, archived: bool)
    | NoteBody(text: string, timeOffset: Option<real>)
    | ReviewBody(reviewStatus: string, reviewContent: string, generated: string, model: string,
                 generatedAt: Option<Time>, sourceAt: Option<Time>)
    | AttachmentBody(capturedAt: Time, caption: string, imageTitle: string, attachmentKind: string, mime: string,
                     width: int, height: int, fileSize: int, hash: string, sortIndex: int, transform: string,
                     analysisStatus: string, analysis: string, ocr: string)
    | ScheduleBody(weekday: int, startSecs: int, endSecs: int, recurrence: string, parityAnchor: Option<Date>,
                   firstWeekOdd: bool, semesterStart: Date, semesterEnd: Date, timezone: string,
                   scheduleTeacher: string, scheduleLocation: string, scheduleNote: string,
                   reminderMins: int, enabled: bool, onceDate: Option<Date>)
    | ExceptionBody(originalDate: Option<Date>, exceptionKind: string, changedStart: Option<int>,
                    changedEnd: Option<int>, movedTo: Option<Date>, locationOverride: string,
                    teacherOverride: string, exceptionNote: string)
    | ExamBody(examTitle: string, examKind: string, examDate: Date, examStart: int, examEnd: int,
               examLocation: string, scope: string, examNote: string, target: string,
               examStatus: string, origin: string, examSource: Option<string>)
    | TopicBody(topicTitle: string, detail: string, importance: string, selfRating: string,
                topicStatus: string, topicSource: Option<string>, topicEdited: bool)
    | PlanBody(planTitle: string, startDate: Date, endDate: Date, weekdayMins: int, weekendMins: int,
               restDays: Option<string>, finishEarly: int, includeCards: bool, includeTasks: bool,
               includeMaterials: bool, includeSessions: bool, focusTopics: Option<string>,
               blockedTimes: Option<string>, planStatus: string)
    | PlanItemBody(itemDate: Date, itemTitle: string, itemKind: string, estimated: int, actual: int,
                   itemStatus: string, statusChangedAt: Option<Time>, order: int, itemSource: Option<string>,
                   userNote: string, itemEdited: bool)
    | ActivityBody(activityStart: Time, activityEnd: Option<Time>, seconds: int, activityStatus: string,
                   activityNote: string)

  datatype Row = Row(user: User, version: nat, deletedAt: Option<Time>, updatedAt: Time, content: Content)
  {
    predicate Live() { deletedAt.None? }
  }

  // The record JSON a client receives: content, version and the deleted flag.
  datatype Record = Record(version: nat, deleted: bool, content: Content)

  function RecordOf(row: Row): Record {
    Record(row.version, row.deletedAt.Some?, row.content)
  }

  datatype ChangeOp = Upsert | Delete

  datatype LogEntry = LogEntry(seqNo: nat, user: User, key: Key, op: ChangeOp, version: nat, createdAt: Time)

  // Wire text that must parse: the parse verdict travels with the text.
  datatype WireDate = EmptyDate | Date(date: Date) | BadDate
  datatype WireJson = WireJson(text: string, valid: bool)
  datatype WireZone = WireZone(name: string, known: bool)

  datatype PushOp = PushUpsert | PushDelete | UnknownOp

  // kind is None for an entity type string the server does not know.
  datatype PushItem = PushItem(opId: OpId, kind: Option<Kind>, id: Id, op: PushOp, base: int,
                               clientUpdatedAt: Time, payload: Payload)

  datatype OpResult =
    | Accepted(opId: OpId, version: nat, updatedAt: Time)
    | Conflict(opId: OpId, version: nat, updatedAt: Time, record: Record)
    | Rejected(opId: OpId)

  // Every payload field is optional on the wire; fields shared by several kinds come first.
  datatype Payload = Payload(
    title: Option<string>, sessionId: Option<Id>, courseId: Option<Id>, entryId: Option<Id>,
    anchorEntry: Option<Id>, examId: Option<Id>, isBookmarked: Option<bool>, isFavorite: Option<bool>,
    session: SessionFields, entry: EntryFields, correction: CorrectionFields, course: CourseFields,
    note: NoteFields, review: ReviewFields, attachment: AttachmentFields, schedule: ScheduleFields,
    exception: ExceptionFields, exam: ExamFields, topic: TopicFields, plan: PlanFields,
    planItem: PlanItemFields, activity: ActivityFields)

  datatype SessionFields = SessionFields(
    startedAt: Option<Time>, endedAt: Option<Time>, duration: Option<real>, status: Option<string>,
    abnormal: Option<bool>, sourceLang: Option<string>, targetLang: Option<string>)
  datatype EntryFields = EntryFields(
    sequence: Option<int>, startOffset: Option<real>, endOffset: Option<real>, russian: Option<string>,
    chinese: Option<string>, translation: Option<string>, timeSource: Option<string>)
  datatype CorrectionFields = CorrectionFields(
    russian: Option<string>, chinese: Option<string>, modifiedAt: Option<Time>, needsRetranslation: Option<bool>)
  datatype CourseFields = CourseFields(
    teacher: Option<string>, location: Option<string>, colorIndex: Option<int>, archived: Option<bool>)
  datatype NoteFields = NoteFields(text: Option<string>, timeOffset: Option<real>)
  datatype ReviewFields = ReviewFields(
    status: Option<string>, content: Option<string>, generated: Option<string>, model: Option<string>,
    generatedAt: Option<Time>, sourceAt: Option<Time>)
  datatype AttachmentFields = AttachmentFields(
    capturedAt: Option<Time>, caption: Option<string>, kind: Option<string>, mime: Option<string>,
    width: Option<int>, height: Option<int>, fileSize: Option<int>, hash: Option<string>,
    sortIndex: Option<int>, transform: Option<string>, analysisStatus: Option<string>,
    analysis: Option<string>, ocr: Option<string>)
  datatype ScheduleFields = ScheduleFields(
    weekday: Option<int>, startSecs: Option<int>, endSecs: Option<int>, recurrence: Option<string>,
    parityAnchor: Option<WireDate>, firstWeekOdd: Option<bool>, semesterStart: Option<WireDate>,
    semesterEnd: Option<WireDate>, timezone: Option<WireZone>, teacher: Option<string>,
    location: Option<string>, note: Option<string>, reminderMins: Option<int>, enabled: Option<bool>,
    onceDate: Option<WireDate>)
  datatype ExceptionFields = ExceptionFields(
    scheduleId: Option<Id>, originalDate: Option<WireDate>, kind: Option<string>, changedStart: Option<int>,
    changedEnd: Option<int>, movedTo: Option<WireDate>)
  datatype ExamFields = ExamFields(
    kind: Option<string>, date: Option<WireDate>, startSecs: Option<int>, endSecs: Option<int>,
    location: Option<string>, scope: Option<string>, note: Option<string>, target: Option<string>,
    status: Option<string>, origin: Option<string>, source: Option<WireJson>)
  datatype TopicFields = TopicFields(
    detail: Option<string>, importance: Option<string>, selfRating: Option<string>, status: Option<string>,
    source: Option<WireJson>, edited: Option<bool>)
  datatype PlanFields = PlanFields(
    startDate: Option<WireDate>, endDate: Option<WireDate>, weekdayMins: Option<int>, weekendMins: Option<int>,
    restDays: Option<WireJson>, finishEarly: Option<int>, includeCards: Option<bool>, includeTasks: Option<bool>,
    includeMaterials: Option<bool>, includeSessions: Option<bool>, focusTopics: Option<WireJson>,
    blockedTimes: Option<WireJson>, status: Option<string>)
  datatype PlanItemFields = PlanItemFields(
    planId: Option<Id>, date: Option<WireDate>, kind: Option<string>, estimated: Option<int>,
    actual: Option<int>, status: Option<string>, statusAt: Option<Time>, order: Option<int>,
    source: Option<WireJson>, userNote: Option<string>, edited: Option<bool>)
  datatype ActivityFields = ActivityFields(
    planItemId: Option<Id>, topicId: Option<Id>, startedAt: Option<Time>, endedAt: Option<Time>,
    seconds: Option<int>, status: Option<string>, note: Option<string>)
}
