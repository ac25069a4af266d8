/** The lesson player's completion state (`useLessonProgress`): whether the
    current lesson is shown as completed and which enrollment it belongs
    to, the effect that reads the enrollment, and the mark-complete
    mutation. The enrollment lookup and the progress write are inputs. */
module LessonProgress {
  import opened Wrappers
  import opened EnrollmentService

  datatype PlayerState = PlayerState(completed: bool, enrollmentId: Option<string>)

  /** `useState(false)` and `useState(null)`: the player starts with the
      lesson not completed and no enrollment known, so nothing can be
      marked complete before the enrollment check has run. */
  function Initial(): (r: PlayerState)
    ensures !r.completed
    ensures forall lessonId, writeError :: MarkComplete(r, lessonId, writeError).request.None?
  {
    PlayerState(false, None)
  }

  /** `!v` for an optional id. */
  predicate Missing(v: Option<string>) {
    v.None? || v.value == ""
  }

  /** The enrollment check. With a user, course and lesson, a found
      enrollment sets the enrollment id, and, if its progress has an entry
      for the lesson, the completion flag is that entry's `completed`;
      without an entry the flag is kept. Missing ids, no enrollment and a
      failed lookup change nothing. */
  function CheckEnrollment(st: PlayerState, userId: Option<string>, courseId: Option<string>,
                           lessonId: Option<string>, lookup: Result<Option<Enrollment>, DbError>)
    : (r: PlayerState)
    ensures Missing(userId) || Missing(courseId) || Missing(lessonId) ==> r == st
    ensures lookup.Err? || lookup == Ok(None) ==> r == st
    ensures !Missing(userId) && !Missing(courseId) && !Missing(lessonId) && lookup.Ok? && lookup.value.Some? ==>
      var e := lookup.value.value;
      && r.enrollmentId == Some(e.id)
      && (e.progress.Some? && lessonId.value in e.progress.value ==>
            r.completed == e.progress.value[lessonId.value].completed)
      && (e.progress.None? || lessonId.value !in e.progress.value ==> r.completed == st.completed)
  {
    if Missing(userId) || Missing(courseId) || Missing(lessonId) then st
    else if lookup.Err? || lookup.value.None? then st
    else
      var e := lookup.value.value;
      var completed :=
        if e.progress.Some? && lessonId.value in e.progress.value
        then e.progress.value[lessonId.value].completed
        else st.completed;
      PlayerState(completed, Some(e.id))
  }

  /** The progress write the mutation sends. */
  datatype ProgressRequest = ProgressRequest(enrollmentId: string, lessonId: string, completed: bool)

  datatype MarkError = MissingInformation | WriteFailed(error: DbError)

  datatype MarkOutcome = MarkOutcome(state: PlayerState, request: Option<ProgressRequest>, error: Option<MarkError>)

  /** `handleMarkComplete`. Without an enrollment id or lesson id it fails
      and sends nothing. Otherwise it sends a request that always says
      `completed = true`; `writeError` is how that write ends. On success the
      lesson is shown completed; on failure the state is kept. */
  function MarkComplete(st: PlayerState, lessonId: Option<string>, writeError: Option<DbError>)
    : (r: MarkOutcome)
    ensures Missing(st.enrollmentId) || Missing(lessonId) ==>
      r.request.None? && r.error == Some(MissingInformation) && r.state == st
    ensures r.request.Some? ==>
      && r.request.value == ProgressRequest(st.enrollmentId.value, lessonId.value, true)
      && !Missing(st.enrollmentId) && !Missing(lessonId)
    ensures !Missing(st.enrollmentId) && !Missing(lessonId) ==> r.request.Some?
    ensures r.request.Some? && writeError.None? ==> r.error.None? && r.state == st.(completed := true)
    ensures r.request.Some? && writeError.Some? ==> r.error == Some(WriteFailed(writeError.value)) && r.state == st
  {
    if Missing(st.enrollmentId) || Missing(lessonId) then MarkOutcome(st, None, Some(MissingInformation))
    else
      var req := ProgressRequest(st.enrollmentId.value, lessonId.value, true);
      if writeError.Some? then MarkOutcome(st, Some(req), Some(WriteFailed(writeError.value)))
      else MarkOutcome(st.(completed := true), Some(req), None)
  }

  /** No sequence of calls un-completes a lesson: the mutation only ever
      sets the flag, and marking again keeps it set. */
  lemma MarkCompleteNeverClears(st: PlayerState, lessonId: Option<string>, writeError: Option<DbError>)
    ensures st.completed ==> MarkComplete(st, lessonId, writeError).state.completed
    ensures MarkComplete(st, lessonId, writeError).state.enrollmentId == st.enrollmentId
  {
  }

  /** A successful mark-complete, carried out by the service, records the
      lesson as completed at the given time in the enrollment's progress. */
  lemma MarkCompleteRecordsProgress(st: PlayerState, lessonId: Option<string>,
                                    stored: Option<Progress>, now: string)
    requires !Missing(st.enrollmentId) && !Missing(lessonId)
    ensures var req := MarkComplete(st, lessonId, None).request.value;
            var written := UpdateLessonProgress(Ok(stored), req.lessonId, req.completed, now, None);
            && written.Ok?
            && written.value[lessonId.value] == ProgressEntry(true, Some(now))
            && MarkComplete(st, lessonId, None).state.completed
  {
  }

  /** From the initial state, with an enrollment whose progress does not
      mention the lesson, the player shows the lesson as not completed. */
  lemma FreshEnrollmentShowsIncomplete(userId: string, courseId: string, lessonId: string, e: Enrollment)
    requires userId != "" && courseId != "" && lessonId != ""
    requires e.progress.None? || lessonId !in e.progress.value
    ensures CheckEnrollment(Initial(), Some(userId), Some(courseId), Some(lessonId), Ok(Some(e)))
         == PlayerState(false, Some(e.id))
  {
  }

  /** A freshly inserted enrollment, read back by the player, shows every
      lesson as not completed and makes its id the enrollment id. */
  lemma NewEnrollmentShowsEveryLessonIncomplete(st: PlayerState, courseId: string, studentId: string,
                                                 enrollmentId: string, lessonId: string)
    requires courseId != "" && studentId != "" && lessonId != ""
    ensures var row := EnrollmentRow(courseId, studentId);
            var stored := Enrollment(enrollmentId, row.courseId, row.studentId, Some(row.progress));
            var shown := CheckEnrollment(st, Some(studentId), Some(courseId), Some(lessonId),
                                         GetStudentEnrollment(Ok(stored)));
            && shown.enrollmentId == Some(enrollmentId)
            && shown.completed == st.completed
            && CheckEnrollment(Initial(), Some(studentId), Some(courseId), Some(lessonId),
                               GetStudentEnrollment(Ok(stored))) == PlayerState(false, Some(enrollmentId))
  {
  }

  /** A lookup that fails, whether with "no rows" or any other error,
      leaves the player exactly as it was. */
  lemma FailedLookupKeepsPlayer(st: PlayerState, userId: Option<string>, courseId: Option<string>,
                                lessonId: Option<string>, answer: Result<Enrollment, DbError>)
    requires answer.Err?
    ensures CheckEnrollment(st, userId, courseId, lessonId, GetStudentEnrollment(answer)) == st
  {
  }
}
