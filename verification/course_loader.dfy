/** The editor's loader (`useCourseLoader`): the state a fresh editor starts
    with, how a fetched course replaces it, and the effect that shows the
    active lesson's blocks whenever the active lesson or the lessons change.
    The fetch itself is an input: either the course read from the backend
    or the error it failed with. */
module CourseLoader {
  import opened Wrappers
  import opened Json
  import opened Sequences
  import opened CourseTypes
  import opened EditorState

  /** `!!courseId && courseId !== 'new'`: the route names a stored course. */
  predicate IsExistingCourse(courseId: Option<string>) {
    courseId.Some? && courseId.value != "" && courseId.value != "new"
  }

  /** No route id, an empty one and "new" open a blank editor; every other
      id names a stored course. */
  lemma NewCourseRoutes()
    ensures !IsExistingCourse(None)
    ensures forall id: string :: IsExistingCourse(Some(id)) <==> id != "" && id != "new"
  {
  }

  const WelcomeText: string := "Welcome to the course! This is a sample lesson content."

  /** The state an editor starts with before anything is loaded. */
  function DefaultSession(): (r: Session)
    ensures |r.lessons| == 1
    ensures r.lessons[0].id == "temp-1" && r.lessons[0].orderIndex == 0
    ensures r.lessons[0].content == [Block("block-1", "text", WelcomeText)]
    ensures r.activeLesson == "temp-1"
    ensures r.contentBlocks == r.lessons[0].content
    ensures WrittenThrough(r) && OrderContiguous(r.lessons)
    ensures r.details == CourseDetails("", Some(""), "", "", None, false)
  {
    var blocks := [Block("block-1", "text", WelcomeText)];
    Session(CourseDetails("", Some(""), "", "", None, false),
            [Lesson("temp-1", "Introduction", blocks, 0)],
            "temp-1",
            blocks)
  }

  /** A lesson row as read from the backend; `content` is the stored JSON
      (`JNull` for SQL null). */
  datatype FetchedLesson = FetchedLesson(id: string, title: string, content: Json, orderIndex: int)

  /** A course row with its lessons, already sorted by `order_index`. */
  datatype FetchedCourse = FetchedCourse(
    title: string,
    description: Option<string>,
    category: Option<string>,
    level: Option<string>,
    featuredImage: Option<string>,
    isPublished: bool,
    lessons: seq<FetchedLesson>)

  function FormatLesson(l: FetchedLesson, newId: nat -> string): Lesson {
    Lesson(l.id, l.title, TransformToLessonContent(l.content, newId), l.orderIndex)
  }

  /** The load effect. It runs only for a stored course; a failed fetch
      leaves the state as it was. Otherwise the details are replaced (a
      missing description, category or level becomes ""), and, when the
      course has lessons, they replace the lesson list with their content
      converted, the first becomes active and its blocks are shown; a course
      without lessons keeps the current lessons, active lesson and blocks. */
  function LoadCourse(courseId: Option<string>, s: Session, fetched: Result<FetchedCourse, string>,
                      newId: nat -> string): (r: Session)
    ensures !IsExistingCourse(courseId) || fetched.Err? ==> r == s
    ensures IsExistingCourse(courseId) && fetched.Ok? ==>
      var c := fetched.value;
      && r.details == CourseDetails(c.title, Some(c.description.GetOr("")), c.category.GetOr(""),
                                    c.level.GetOr(""), c.featuredImage, c.isPublished)
      && (|c.lessons| == 0 ==>
            r.lessons == s.lessons && r.activeLesson == s.activeLesson && r.contentBlocks == s.contentBlocks)
      && (|c.lessons| > 0 ==>
            && |r.lessons| == |c.lessons|
            && (forall i :: 0 <= i < |c.lessons| ==>
                  && r.lessons[i].id == c.lessons[i].id
                  && r.lessons[i].title == c.lessons[i].title
                  && r.lessons[i].orderIndex == c.lessons[i].orderIndex
                  && r.lessons[i].content == TransformToLessonContent(c.lessons[i].content, newId))
            && r.activeLesson == c.lessons[0].id
            && r.contentBlocks == r.lessons[0].content)
  {
    if !IsExistingCourse(courseId) || fetched.Err? then s
    else
      var c := fetched.value;
      var details := CourseDetails(c.title, Some(c.description.GetOr("")), c.category.GetOr(""),
                                   c.level.GetOr(""), c.featuredImage, c.isPublished);
      if |c.lessons| == 0 then s.(details := details)
      else
        var formatted := seq(|c.lessons|, i requires 0 <= i < |c.lessons| => FormatLesson(c.lessons[i], newId));
        // Line 63 converts the first lesson's already converted blocks once more.
        var shown := TransformToLessonContent(ConvertLessonContentToJson(formatted[0].content), newId);
        RoundTrip(formatted[0].content, newId);
        Session(details, formatted, formatted[0].id, shown)
  }

  /** The editor leaves the state it has only when the route names a stored
      course and the fetch succeeds: on a new-course route nothing a fetch
      returns reaches the editor. */
  lemma OnlyStoredCoursesLoad(courseId: Option<string>, s: Session, fetched: Result<FetchedCourse, string>,
                              newId: nat -> string)
    ensures LoadCourse(courseId, s, fetched, newId) != s ==> IsExistingCourse(courseId) && fetched.Ok?
    ensures !IsExistingCourse(courseId) ==>
      forall other: Result<FetchedCourse, string> :: LoadCourse(courseId, s, other, newId) == s
  {
  }

  /** Re-running the load with the same answer changes nothing more: the
      effect firing again for the same course is harmless. */
  lemma ReloadChangesNothing(courseId: Option<string>, s: Session, fetched: Result<FetchedCourse, string>,
                             newId: nat -> string)
    ensures var once := LoadCourse(courseId, s, fetched, newId);
            LoadCourse(courseId, once, fetched, newId) == once
  {
  }

  /** A loaded course whose lesson ids are distinct is written through. */
  lemma LoadWritesThrough(courseId: Option<string>, s: Session, c: FetchedCourse, newId: nat -> string)
    requires IsExistingCourse(courseId) && |c.lessons| > 0
    requires forall i, j :: 0 <= i < j < |c.lessons| ==> c.lessons[i].id != c.lessons[j].id
    ensures WrittenThrough(LoadCourse(courseId, s, Ok(c), newId))
  {
  }

  /** The effect on `[activeLesson, lessons]`: the blocks of the first lesson
      with the active id are shown; with no such lesson the blocks are left
      as they were. Nothing else changes. */
  function SyncActiveBlocks(s: Session): (r: Session)
    ensures r.details == s.details && r.lessons == s.lessons && r.activeLesson == s.activeLesson
    ensures (forall i :: 0 <= i < |s.lessons| ==> s.lessons[i].id != s.activeLesson) ==> r == s
    ensures forall i :: (0 <= i < |s.lessons| && s.lessons[i].id == s.activeLesson
                         && forall j :: 0 <= j < i ==> s.lessons[j].id != s.activeLesson) ==>
      r.contentBlocks == s.lessons[i].content
  {
    var k := FindIndex(s.lessons, (l: Lesson) => l.id == s.activeLesson);
    if k == -1 then s else s.(contentBlocks := s.lessons[k].content)
  }

  /** With distinct lesson ids the effect restores write-through, so
      switching lessons shows exactly the blocks stored in the new one. */
  lemma SyncWritesThrough(s: Session)
    requires DistinctIds(s.lessons)
    ensures WrittenThrough(SyncActiveBlocks(s))
  {
  }

  /** Running the effect a second time changes nothing. */
  lemma SyncIdempotent(s: Session)
    ensures SyncActiveBlocks(SyncActiveBlocks(s)) == SyncActiveBlocks(s)
  {
  }
}
