/** Laws of the field rules, for every kind at once: what merging the inserted payload
    again, merging the same payload twice and merging an empty payload do. */
module SyncLaws {
  import opened Options
  import opened SyncTypes
  import opened SyncMerge

  // ----- references -----

  lemma MergeRefTwice(refs: map<Column, Id>, col: Column, p: Option<Id>)
    ensures MergeRef(MergeRef(refs, col, p), col, p) == MergeRef(refs, col, p)
  {
  }

  // Merging one column does not look at the others.
  lemma MergeRefsSwap(refs: map<Column, Id>, a: Column, p: Option<Id>, b: Column, q: Option<Id>)
    requires a != b
    ensures MergeRef(MergeRef(refs, a, p), b, q) == MergeRef(MergeRef(refs, b, q), a, p)
  {
    if p.Some? && q.Some? {
      var ab, ba := MergeRef(MergeRef(refs, a, p), b, q), MergeRef(MergeRef(refs, b, q), a, p);
      assert forall col :: col in ab <==> col in ba;
      assert forall col :: col in ab ==> ab[col] == ba[col];
    }
  }

  lemma TwoRefsTwice(refs: map<Column, Id>, a: Column, p: Option<Id>, b: Column, q: Option<Id>)
    requires a != b
    ensures var once := MergeRef(MergeRef(refs, a, p), b, q);
      MergeRef(MergeRef(once, a, p), b, q) == once
  {
    var once := MergeRef(MergeRef(refs, a, p), b, q);
    MergeRefsSwap(MergeRef(refs, a, p), b, q, a, p);
    MergeRefTwice(refs, a, p);
    MergeRefTwice(MergeRef(refs, a, p), b, q);
    assert MergeRef(once, a, p) == once;
  }

  lemma ActivityRefsTwice(refs: map<Column, Id>, p: Payload)
    ensures ActivityRefs(ActivityRefs(refs, p), p) == ActivityRefs(refs, p)
  {
    var once := ActivityRefs(refs, p);
    assert MergeRef(once, PlanItemCol, p.activity.planItemId) == once;
    assert MergeRef(once, ExamCol, p.examId) == once;
    assert MergeRef(once, CourseCol, p.courseId) == once;
    assert MergeRef(once, TopicCol, p.activity.topicId) == once;
  }

  lemma RefsTwice(c: Content, p: Payload, now: Time)
    ensures MergeRefs(MergeContent(c, p, now), p) == MergeRefs(c, p)
  {
    MergeContentKind(c, p, now);
    match KindOf(c.body)
    case Session | CourseSchedule | Exam => MergeRefTwice(c.refs, CourseCol, p.courseId);
    case Note => MergeRefTwice(c.refs, AnchorCol, p.anchorEntry);
    case Attachment => TwoRefsTwice(c.refs, CourseCol, p.courseId, AnchorCol, p.anchorEntry);
    case ScheduleException => TwoRefsTwice(c.refs, ScheduleCol, p.exception.scheduleId, CourseCol, p.courseId);
    case ExamTopic | StudyPlan => MergeRefTwice(c.refs, ExamCol, p.examId);
    case StudyPlanItem => TwoRefsTwice(c.refs, PlanCol, p.planItem.planId, ExamCol, p.examId);
    case StudyActivity => ActivityRefsTwice(c.refs, p);
    case _ =>
  }

  // ----- merging the same payload twice -----

  // A plan item's status push that loses to a newer stored one, yet stores its own older time.
  predicate LosesButStores(b: Body, p: Payload) {
    && b.PlanItemBody? && OrText(p.planItem.status, "pending") != b.itemStatus
    && b.statusChangedAt.Some? && p.planItem.statusAt.Some? && p.planItem.statusAt.value < b.statusChangedAt.value
  }

  // A plan item's status push without a time that loses at now and wins at later.
  predicate WinsLater(b: Body, p: Payload, now: Time, later: Time) {
    && b.PlanItemBody? && OrText(p.planItem.status, "pending") != b.itemStatus && p.planItem.statusAt.None?
    && b.statusChangedAt.Some? && now < b.statusChangedAt.value <= later
  }

  // A correction without a time: merged later it is newer than the stored one, or ties
  // with it and brings other texts.
  predicate CorrectsLater(b: Body, p: Payload, now: Time, later: Time) {
    && b.CorrectionBody? && p.correction.modifiedAt.None? && now < later
    && (|| later > b.modifiedAt
        || (later == b.modifiedAt && (Or(p.correction.russian, "") != b.fixedRussian || p.correction.chinese != b.fixedChinese)))
  }

  // The second merge of a payload, at later, changes what the first one, at now, left.
  predicate Drifts(b: Body, p: Payload, now: Time, later: Time) {
    LosesButStores(b, p) || WinsLater(b, p, now, later) || CorrectsLater(b, p, now, later)
  }

  predicate Settled(b: Body, p: Payload, now: Time, later: Time) {
    MergeBody(MergeBody(b, p, now), p, later) == MergeBody(b, p, now)
  }

  lemma SmallBodyTwice(b: Body, p: Payload, now: Time, later: Time)
    requires b.SessionBody? || b.BookmarkBody? || b.FavoriteBody? || b.CourseBody? || b.NoteBody? || b.ReviewBody?
    ensures Settled(b, p, now, later)
  {
  }

  lemma EntryTwice(b: Body, p: Payload, now: Time, later: Time)
    requires b.EntryBody? || b.AttachmentBody?
    ensures Settled(b, p, now, later)
  {
  }

  lemma ScheduleTwice(b: Body, p: Payload, now: Time, later: Time)
    requires b.ScheduleBody? || b.ExceptionBody?
    ensures Settled(b, p, now, later)
  {
  }

  lemma ExamTwice(b: Body, p: Payload, now: Time, later: Time)
    requires b.ExamBody? || b.TopicBody? || b.PlanBody? || b.ActivityBody?
    ensures Settled(b, p, now, later)
  {
  }

  lemma CorrectionTwice(b: Body, p: Payload, now: Time, later: Time)
    requires b.CorrectionBody? && now <= later
    ensures Settled(b, p, now, later) <==> !CorrectsLater(b, p, now, later)
  {
  }

  lemma PlanItemTwice(b: Body, p: Payload, now: Time, later: Time)
    requires b.PlanItemBody? && now <= later
    ensures Settled(b, p, now, later) <==> !LosesButStores(b, p) && !WinsLater(b, p, now, later)
  {
  }

  lemma BodyTwice(b: Body, p: Payload, now: Time, later: Time)
    requires now <= later
    ensures Settled(b, p, now, later) <==> !Drifts(b, p, now, later)
  {
    match KindOf(b)
    case Correction => CorrectionTwice(b, p, now, later);
    case StudyPlanItem => PlanItemTwice(b, p, now, later);
    case Entry | Attachment => EntryTwice(b, p, now, later);
    case CourseSchedule | ScheduleException => ScheduleTwice(b, p, now, later);
    case Exam | ExamTopic | StudyPlan | StudyActivity => ExamTwice(b, p, now, later);
    case _ => SmallBodyTwice(b, p, now, later);
  }

  // Merging a payload at now and again at later is merging it once, for every kind,
  // exactly unless it drifts: each merge reads the clock afresh.
  lemma MergeTwiceIff(c: Content, p: Payload, now: Time, later: Time)
    requires now <= later
    ensures MergeContent(MergeContent(c, p, now), p, later) == MergeContent(c, p, now) <==> !Drifts(c.body, p, now, later)
  {
    RefsTwice(c, p, now);
    BodyTwice(c.body, p, now, later);
  }

  // ----- merging the inserted payload again -----

  predicate Stays(kind: Kind, p: Payload, now: Time, later: Time) {
    MergeBody(NewBody(kind, p, now), p, later) == NewBody(kind, p, now)
  }

  lemma SmallStays(kind: Kind, p: Payload, now: Time, later: Time)
    requires kind in {Session, Bookmark, Favorite, Course, Note, StudyReview}
    ensures Stays(kind, p, now, later)
  {
  }

  lemma EntryStays(p: Payload, now: Time, later: Time)
    ensures Stays(Entry, p, now, later) && Stays(Attachment, p, now, later)
  {
  }

  lemma ScheduleStays(p: Payload, now: Time, later: Time)
    ensures Stays(CourseSchedule, p, now, later) && Stays(ScheduleException, p, now, later)
  {
  }

  lemma ExamStays(p: Payload, now: Time, later: Time)
    ensures Stays(Exam, p, now, later) && Stays(ExamTopic, p, now, later)
  {
  }

  lemma PlanStays(p: Payload, now: Time, later: Time)
    ensures Stays(StudyPlan, p, now, later)
  {
  }

  lemma PlanItemStays(p: Payload, now: Time, later: Time)
    ensures Stays(StudyPlanItem, p, now, later)
  {
  }

  lemma ActivityStays(p: Payload, now: Time, later: Time)
    ensures Stays(StudyActivity, p, now, later)
  {
  }

  lemma CorrectionStays(p: Payload, now: Time, later: Time)
    requires now <= later
    ensures Stays(Correction, p, now, later) <==> !(p.correction.modifiedAt.None? && now < later)
  {
  }

  lemma BodyAfterInsert(kind: Kind, p: Payload, now: Time, later: Time)
    requires now <= later
    ensures Stays(kind, p, now, later) <==> !(kind == Correction && p.correction.modifiedAt.None? && now < later)
  {
    match kind
    case Correction => CorrectionStays(p, now, later);
    case Entry | Attachment => EntryStays(p, now, later);
    case CourseSchedule | ScheduleException => ScheduleStays(p, now, later);
    case Exam | ExamTopic => ExamStays(p, now, later);
    case StudyPlan => PlanStays(p, now, later);
    case StudyPlanItem => PlanItemStays(p, now, later);
    case StudyActivity => ActivityStays(p, now, later);
    case _ => SmallStays(kind, p, now, later);
  }

  lemma RefsAfterInsert(kind: Kind, id: Id, p: Payload, parentSession: Id, now: Time)
    ensures MergeRefs(NewContent(kind, id, p, parentSession, now), p) == NewContent(kind, id, p, parentSession, now).refs
  {
    var session := map[SessionCol := Or(p.sessionId, NIL)];
    NewContentKind(kind, id, p, parentSession, now);
    match kind
    case Session | CourseSchedule | Exam => MergeRefTwice(map[], CourseCol, p.courseId);
    case Note => MergeRefTwice(session, AnchorCol, p.anchorEntry);
    case Attachment => TwoRefsTwice(session, CourseCol, p.courseId, AnchorCol, p.anchorEntry);
    case ScheduleException => TwoRefsTwice(map[], ScheduleCol, p.exception.scheduleId, CourseCol, p.courseId);
    case ExamTopic | StudyPlan => MergeRefTwice(map[], ExamCol, p.examId);
    case StudyPlanItem => TwoRefsTwice(map[], PlanCol, p.planItem.planId, ExamCol, p.examId);
    case StudyActivity => ActivityRefsTwice(map[], p);
    case _ =>
  }

  // Insert and merge agree on every field of every kind: the payload of an insert
  // merged into the new row changes nothing, except the default time of a correction.
  lemma InsertThenMergeIff(kind: Kind, id: Id, p: Payload, parentSession: Id, now: Time, later: Time)
    requires now <= later
    ensures var c := NewContent(kind, id, p, parentSession, now);
      MergeContent(c, p, later) == c <==> !(kind == Correction && p.correction.modifiedAt.None? && now < later)
  {
    RefsAfterInsert(kind, id, p, parentSession, now);
    BodyAfterInsert(kind, p, now, later);
  }

  // ----- merging a payload that carries only what it must -----

  const NOTHING: Payload := Payload(
    None, None, None, None, None, None, None, None,
    SessionFields(None, None, None, None, None, None, None), EntryFields(None, None, None, None, None, None, None),
    CorrectionFields(None, None, None, None), CourseFields(None, None, None, None), NoteFields(None, None),
    ReviewFields(None, None, None, None, None, None),
    AttachmentFields(None, None, None, None, None, None, None, None, None, None, None, None, None),
    ScheduleFields(None, None, None, None, None, None, None, None, None, None, None, None, None, None, None),
    ExceptionFields(None, None, None, None, None, None),
    ExamFields(None, None, None, None, None, None, None, None, None, None, None),
    TopicFields(None, None, None, None, None, None),
    PlanFields(None, None, None, None, None, None, None, None, None, None, None, None, None),
    PlanItemFields(None, None, None, None, None, None, None, None, None, None, None),
    ActivityFields(None, None, None, None, None, None, None))

  // The required fields with their stored values, and no other field.
  function Bare(c: Content): Payload {
    var n := NOTHING;
    match KindOf(c.body)
    case Session | Correction | Favorite | CourseSchedule => n
    case Entry =>
      n.(sessionId := Ref(c, SessionCol),
         entry := n.entry.(sequence := Some(c.body.sequence), russian := Some(c.body.russian)))
    case Bookmark => n.(entryId := Ref(c, EntryCol))
    case Course => n.(title := Some(c.body.name))
    case Note => n.(sessionId := Ref(c, SessionCol), note := n.note.(text := Some(c.body.text)))
    case StudyReview => n.(review := n.review.(status := Some(c.body.reviewStatus)))
    case Attachment =>
      n.(sessionId := Ref(c, SessionCol), attachment := n.attachment.(capturedAt := Some(c.body.capturedAt)))
    case ScheduleException => n.(exception := n.exception.(scheduleId := Ref(c, ScheduleCol)))
    case Exam => n.(title := Some(c.body.examTitle), exam := n.exam.(date := Some(Date(c.body.examDate))))
    case ExamTopic => n.(examId := Ref(c, ExamCol), title := Some(c.body.topicTitle))
    case StudyPlan =>
      n.(examId := Ref(c, ExamCol), title := Some(c.body.planTitle),
         plan := n.plan.(startDate := Some(Date(c.body.startDate)), endDate := Some(Date(c.body.endDate))))
    case StudyPlanItem =>
      n.(title := Some(c.body.itemTitle),
         planItem := n.planItem.(planId := Ref(c, PlanCol), date := Some(Date(c.body.itemDate))))
    case StudyActivity => n.(activity := n.activity.(startedAt := Some(c.body.activityStart)))
  }

  // The stored values that such a push, merged at now, leaves as they are: any for half
  // of the kinds, the defaults of the optional fields for the others.
  predicate AtDefaults(b: Body, now: Time) {
    match b
    case CorrectionBody(russian, chinese, at, needs) =>
      !needs && (now < at || (now == at && russian == "" && chinese.None?))
    case ScheduleBody(_, _, _, recurrence, _, _, _, _, timezone, _, _, _, _, _, _) =>
      recurrence == "weekly" && timezone != ""
    case ExceptionBody(_, kind, _, _, _, _, _, _) => kind == "cancelled"
    case ExamBody(_, kind, _, start, end, _, _, _, _, status, origin, _) =>
      kind == "custom" && start == -1 && end == -1 && status == "scheduled" && origin == "manual"
    case TopicBody(_, _, importance, rating, status, _, edited) =>
      importance == "normal" && rating == "none" && status == "not_started" && !edited
    case PlanBody(_, _, _, weekday, weekend, _, finish, cards, tasks, materials, sessions, _, _, status) =>
      weekday == 60 && weekend == 90 && finish == 0 && cards && tasks && materials && sessions && status == "active"
    case PlanItemBody(_, _, kind, estimated, actual, status, changedAt, order, _, _, edited) =>
      kind == "custom" && estimated == 30 && actual >= 0 && order == 0 && !edited
      && (status == "pending" || (changedAt.Some? && now < changedAt.value))
    case ActivityBody(_, _, seconds, status, _) =>
      seconds >= 0 && status in {"in_progress", "completed", "abandoned"}
    case _ => true
  }

  predicate Unchanged(c: Content, now: Time) {
    MergeContent(c, Bare(c), now) == c
  }

  lemma SmallUnchanged(c: Content, now: Time)
    requires KindOf(c.body) in {Session, Entry, Bookmark, Favorite, Course, Note, StudyReview, Attachment}
    ensures Unchanged(c, now)
  {
  }

  lemma CorrectionUnchangedIff(c: Content, now: Time)
    requires c.body.CorrectionBody? || c.body.ActivityBody?
    ensures Unchanged(c, now) <==> AtDefaults(c.body, now)
  {
  }

  lemma ScheduleUnchangedIff(c: Content, now: Time)
    requires c.body.ScheduleBody? || c.body.ExceptionBody?
    requires Required(KindOf(c.body), Bare(c))
    ensures Unchanged(c, now) <==> AtDefaults(c.body, now)
  {
    if c.body.ExceptionBody? {
      StoredRefKept(c.refs, ScheduleCol);
    }
  }

  lemma ExamUnchangedIff(c: Content, now: Time)
    requires c.body.ExamBody? || c.body.TopicBody?
    requires Required(KindOf(c.body), Bare(c))
    ensures Unchanged(c, now) <==> AtDefaults(c.body, now)
  {
    if c.body.TopicBody? {
      StoredRefKept(c.refs, ExamCol);
    }
  }

  lemma PlanUnchangedIff(c: Content, now: Time)
    requires c.body.PlanBody? || c.body.PlanItemBody?
    requires Required(KindOf(c.body), Bare(c))
    ensures Unchanged(c, now) <==> AtDefaults(c.body, now)
  {
    if c.body.PlanBody? {
      StoredRefKept(c.refs, ExamCol);
    } else {
      StoredRefKept(c.refs, PlanCol);
    }
  }

  lemma StoredRefKept(refs: map<Column, Id>, col: Column)
    requires col in refs && refs[col] != NIL
    ensures MergeRef(refs, col, Some(refs[col])) == refs
  {
  }

  // Row by row: an accepted push that carries only the required fields, as they are
  // stored, changes nothing exactly when the optional fields hold these values.
  lemma BareChangesNothingIff(c: Content, now: Time)
    requires Required(KindOf(c.body), Bare(c))
    ensures MergeContent(c, Bare(c), now) == c <==> AtDefaults(c.body, now)
  {
    match KindOf(c.body)
    case Correction | StudyActivity => CorrectionUnchangedIff(c, now);
    case CourseSchedule | ScheduleException => ScheduleUnchangedIff(c, now);
    case Exam | ExamTopic => ExamUnchangedIff(c, now);
    case StudyPlan | StudyPlanItem => PlanUnchangedIff(c, now);
    case _ => SmallUnchanged(c, now);
  }

  // Fields a push does not carry keep their stored values.
  ghost predicate KeepsAbsent(kind: Kind) {
    forall c: Content, now: Time :: KindOf(c.body) == kind && Required(kind, Bare(c)) ==> MergeContent(c, Bare(c), now) == c
  }

  // A stored row of each other kind with an optional field that such a push resets.
  function Reset(kind: Kind): Content {
    match kind
    case Correction => Content(map[], CorrectionBody("", None, 0, true))
    case CourseSchedule =>
      Content(map[], ScheduleBody(1, 0, 0, "once", None, true, 0, 0, "UTC", "", "", "", -1, true, None))
    case ScheduleException =>
      Content(map[ScheduleCol := 1], ExceptionBody(None, "ad_hoc", None, None, None, "", "", ""))
    case Exam => Content(map[], ExamBody("t", "final", 0, -1, -1, "", "", "", "", "scheduled", "manual", None))
    case ExamTopic => Content(map[ExamCol := 1], TopicBody("t", "", "high", "none", "not_started", None, false))
    case StudyPlan =>
      Content(map[ExamCol := 1], PlanBody("t", 0, 0, 45, 90, None, 0, true, true, true, true, None, None, "active"))
    case StudyPlanItem =>
      Content(map[PlanCol := 1], PlanItemBody(0, "t", "custom", 30, 0, "done", None, 0, None, "", false))
    case _ => Content(map[], ActivityBody(0, None, -1, "in_progress", ""))
  }

  predicate Resets(kind: Kind) {
    KindOf(Reset(kind).body) == kind && Required(kind, Bare(Reset(kind))) && !AtDefaults(Reset(kind).body, 0)
  }

  lemma CourseResets()
    ensures Resets(CourseSchedule) && Resets(ScheduleException)
  {
  }

  lemma ExamResets()
    ensures Resets(Exam) && Resets(ExamTopic)
  {
  }

  lemma PlanResets()
    ensures Resets(StudyPlan) && Resets(StudyPlanItem)
  {
  }

  lemma OtherResets()
    ensures Resets(Correction) && Resets(StudyActivity)
  {
  }

  // A push keeps the fields it does not carry for exactly half of the kinds; for the
  // others some absent field falls back to its default.
  lemma KeepsAbsentIff(kind: Kind)
    ensures KeepsAbsent(kind) <==>
              kind in {Session, Entry, Bookmark, Favorite, Course, Note, StudyReview, Attachment}
  {
    if kind in {Session, Entry, Bookmark, Favorite, Course, Note, StudyReview, Attachment} {
      forall c: Content, now: Time | KindOf(c.body) == kind && Required(kind, Bare(c))
        ensures MergeContent(c, Bare(c), now) == c
      {
        SmallUnchanged(c, now);
      }
    } else {
      var c := Reset(kind);
      CourseResets();
      ExamResets();
      PlanResets();
      OtherResets();
      assert Resets(kind);
      BareChangesNothingIff(c, 0);
      assert MergeContent(c, Bare(c), 0) != c;
    }
  }

  // An activity keeps them whenever its seconds are not negative and its status is one
  // the server accepts.
  lemma ActivityKeepsAbsentIff(c: Content, now: Time)
    requires c.body.ActivityBody?
    ensures MergeContent(c, Bare(c), now) == c <==>
              c.body.seconds >= 0 && c.body.activityStatus in {"in_progress", "completed", "abandoned"}
  {
    CorrectionUnchangedIff(c, now);
  }

  // A schedule's text override, once set, is never cleared again: an empty text keeps it.
  lemma OverridesStayIff(b: Body, s: ScheduleFields)
    requires b.ScheduleBody?
    ensures MergeSchedule(b, s).scheduleTeacher == "" <==> b.scheduleTeacher == "" && Or(s.teacher, "") == ""
    ensures MergeSchedule(b, s).scheduleLocation == "" <==> b.scheduleLocation == "" && Or(s.location, "") == ""
    ensures MergeSchedule(b, s).scheduleNote == "" <==> b.scheduleNote == "" && Or(s.note, "") == ""
  {
  }
}
