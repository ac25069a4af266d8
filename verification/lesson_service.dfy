/** The payloads the lesson service sends: the row `createLesson` inserts
    and the partial row `updateLesson` writes. */
module LessonService {
  import opened Wrappers
  import opened Json
  import opened CourseTypes

  /** `Partial<Lesson>`: every field may be absent (`undefined`). */
  datatype LessonDraft = LessonDraft(title: Option<string>, content: Option<seq<Block>>, orderIndex: Option<int>)

  /** The inserted row; an absent title or order index is sent as
      `undefined`, an absent content as `null` (`JNull`). */
  datatype LessonInsert = LessonInsert(courseId: string, title: Option<string>, content: Json, orderIndex: Option<int>)

  /** The update object: a field is `None` when it is not sent at all. */
  datatype LessonPatch = LessonPatch(title: Option<string>, orderIndex: Option<int>, content: Option<Json>)

  /** `createLesson`: the course id, title and order index as given; the
      content as JSON, or null when the draft has none (an empty block list
      is still sent as an empty array). */
  function CreateLessonPayload(courseId: string, lesson: LessonDraft): (r: LessonInsert)
    ensures r.courseId == courseId && r.title == lesson.title && r.orderIndex == lesson.orderIndex
    ensures lesson.content.None? ==> r.content == JNull
    ensures lesson.content.Some? ==> r.content == ConvertLessonContentToJson(lesson.content.value)
  {
    LessonInsert(courseId, lesson.title,
                 if lesson.content.Some? then ConvertLessonContentToJson(lesson.content.value) else JNull,
                 lesson.orderIndex)
  }

  /** Reading the inserted content back gives the draft's blocks, or no
      blocks when it had none. */
  lemma CreatedContentReadsBack(courseId: string, lesson: LessonDraft, newId: nat -> string)
    ensures TransformToLessonContent(CreateLessonPayload(courseId, lesson).content, newId)
         == lesson.content.GetOr([])
  {
  }

  /** `updateLesson`: the title only when it is a non-empty string, the
      order index whenever it is given (0 included), the content whenever
      it is given (an empty list included); no other field. */
  function UpdateLessonPayload(updates: LessonDraft): (r: LessonPatch)
    ensures r.title.Some? <==> updates.title.Some? && updates.title.value != ""
    ensures r.title.Some? ==> r.title == updates.title
    ensures r.orderIndex == updates.orderIndex
    ensures r.content.Some? <==> updates.content.Some?
    ensures r.content.Some? ==> r.content.value == ConvertLessonContentToJson(updates.content.value)
  {
    LessonPatch(
      if updates.title.Some? && updates.title.value != "" then updates.title else None,
      updates.orderIndex,
      if updates.content.Some? then Some(ConvertLessonContentToJson(updates.content.value)) else None)
  }

  /** Clearing a title to "" is silently not saved: the patch for an empty
      title is the patch for no title. */
  lemma EmptyTitleNotSent(updates: LessonDraft)
    requires updates.title == Some("")
    ensures UpdateLessonPayload(updates) == UpdateLessonPayload(updates.(title := None))
  {
  }
}
