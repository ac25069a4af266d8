/** The enrollment service: the row a new enrollment inserts, the
    per-lesson progress update, and the lookup that treats "no rows" as no
    enrollment. Backend answers are inputs; writes are the rows they send. */
module EnrollmentService {
  import opened Wrappers

  /** One entry of `progress_json`; `completedAt` is an ISO timestamp. */
  datatype ProgressEntry = ProgressEntry(completed: bool, completedAt: Option<string>)

  type Progress = map<string, ProgressEntry>

  /** An `enrollments` row; `progress` is `None` when the column is null. */
  datatype Enrollment = Enrollment(id: string, courseId: string, studentId: string, progress: Option<Progress>)

  datatype EnrollmentInsert = EnrollmentInsert(courseId: string, studentId: string, progress: Progress)

  /** A backend error with its PostgREST code. */
  datatype DbError = DbError(code: string, message: string)

  /** The PostgREST code for "`.single()` matched no row". */
  const NoRowsCode: string := "PGRST116"

  /** `enrollStudentInCourse`: the row inserted for a new enrollment. */
  function EnrollmentRow(courseId: string, studentId: string): (r: EnrollmentInsert)
    ensures r.courseId == courseId && r.studentId == studentId
    ensures r.progress == map[]
  {
    EnrollmentInsert(courseId, studentId, map[])
  }

  /** The entry written for one lesson. */
  function EntryFor(completed: bool, now: string): ProgressEntry {
    ProgressEntry(completed, if completed then Some(now) else None)
  }

  /** `updateLessonProgress`: reads the stored map (`null` counts as empty),
      sets the lesson's entry, and writes the whole map back. A failed read
      or write fails with its error. `now` is the current time. */
  function UpdateLessonProgress(stored: Result<Option<Progress>, DbError>, lessonId: string,
                                completed: bool, now: string, writeError: Option<DbError>)
    : (r: Result<Progress, DbError>)
    ensures stored.Err? ==> r == Err(stored.error)
    ensures stored.Ok? && writeError.Some? ==> r == Err(writeError.value)
    ensures stored.Ok? && writeError.None? ==>
      && r.Ok?
      && lessonId in r.value
      && r.value[lessonId].completed == completed
      && r.value[lessonId].completedAt == (if completed then Some(now) else None)
      && r.value.Keys == stored.value.GetOr(map[]).Keys + {lessonId}
      && (forall k :: k in r.value && k != lessonId ==> r.value[k] == stored.value.GetOr(map[])[k])
  {
    if stored.Err? then Err(stored.error)
    else
      var progress := stored.value.GetOr(map[])[lessonId := EntryFor(completed, now)];
      if writeError.Some? then Err(writeError.value) else Ok(progress)
  }

  /** Completing a lesson twice leaves it completed; only the timestamp is
      refreshed, and the rest of the map is as after the first time. */
  lemma CompleteTwice(stored: Option<Progress>, lessonId: string, now1: string, now2: string)
    ensures var once := UpdateLessonProgress(Ok(stored), lessonId, true, now1, None);
            var twice := UpdateLessonProgress(Ok(Some(once.value)), lessonId, true, now2, None);
            && twice.Ok?
            && twice.value[lessonId] == ProgressEntry(true, Some(now2))
            && twice.value == once.value[lessonId := ProgressEntry(true, Some(now2))]
  {
  }

  /** `getStudentEnrollment`: the row if there is one; "no rows" means not
      enrolled; any other error is raised again. */
  function GetStudentEnrollment(answer: Result<Enrollment, DbError>): (r: Result<Option<Enrollment>, DbError>)
    ensures answer.Ok? ==> r == Ok(Some(answer.value))
    ensures answer.Err? && answer.error.code == NoRowsCode ==> r == Ok(None)
    ensures answer.Err? && answer.error.code != NoRowsCode ==> r == Err(answer.error)
  {
    match answer
    case Ok(e) => Ok(Some(e))
    case Err(e) => if e.code != NoRowsCode then Err(e) else Ok(None)
  }
}
