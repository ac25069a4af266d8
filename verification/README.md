# Course authoring and lesson progress — a Dafny model

This project models the data logic of a React/Supabase learning-management
application. Instructors author courses made of lessons, and each lesson is
an ordered list of typed content blocks (text, image, video, link). Students
search the catalogue, enroll, step through lessons and mark them complete.

Every React handler is modelled as a pure function from the state at render
time to the next state. Every backend read becomes an input value: the row,
or the error the read failed with. Every backend write becomes the payload it
sends. Fresh ids and timestamps (`Date.now()`, `Math.random()`,
`new Date()`) are parameters: `stamp: string` for one id, `newId: nat -> string`
for the id of a malformed content item at a given position, and `now: string`
for a timestamp.

Modules, one per source file, plus four shared helpers:

- `Wrappers`: `Option` (null/undefined) and `Result` (value or thrown error).
- `Sequences`: `Array.prototype.filter`, `findIndex` and the splice move.
- `Text`: ASCII `toLowerCase`, `includes`, decimal rendering of integers.
- `Json`: the stored JSON values, with JavaScript truthiness, `String(v)`
  and `JSON.stringify(v)`.
- `CourseTypes` (`src/types/course.ts`): blocks, lessons, course details and
  the content conversions.
- `EditorState`: the editor's session (details, lessons, active lesson id,
  visible blocks) and the write-through invariant.
- `CourseActions` (`useCourseActions.ts`), `CourseLoader`
  (`useCourseLoader.ts`), `LessonQuery` (`useLessonQuery.ts`),
  `EnrollmentService`, `LessonProgress` (`useLessonProgress.ts`),
  `LessonService`, `CourseCreation`, `Catalogue` (`Courses.tsx`) and
  `LegacyCourseContext` (the older `context/CourseContext.tsx` store).

Main results:

- A reorder is an array-splice move. Up to numbering it is a permutation,
  the moved lesson lands at the destination, and the other lessons keep
  their relative order. Afterwards every `order_index` equals its position.
  Moving the lesson back restores the original list, renumbered.
- Reading content back after writing it gives the same blocks, so the
  conversion is idempotent on its own output. The query hook's copy of the
  conversion equals the editor's copy on every input.
- Every block edit writes the new list into the active lesson. After
  `deleteBlock` at least one block remains, provided block ids are distinct.
  The guard counts blocks, not ids: two blocks that share the deleted id are
  both removed, and the editor is left empty (`DeleteBlockSharedIdEmpties`,
  listed under Findings with the corrected `DeleteBlockGuarded`).
  With no blocks at all, `deleteBlock` throws when it reads
  `contentBlocks[0].id`. An empty block list can be reached by loading a
  lesson whose content is null, so this case is modelled as an error result
  rather than excluded by a precondition.

## Model

| member | source | states |
|---|---|---|
| CourseTypes.TransformToLessonContent | src/types/course.ts:28-53 | falsy or non-array input gives no blocks; an array gives one block per item in order; an item that is an object with id, type and content keys becomes a block of the `String()` of each; any other item becomes a "text" block with a fresh id whose content is the item itself if it is a string and its JSON text otherwise |
| CourseTypes.ConvertLessonContentToJson | src/types/course.ts:56-66 | an array of the same length and order whose items are objects with exactly the fields id, type, content holding the block's strings |
| CourseTypes.RoundTrip | src/types/course.ts:28-66 | converting blocks to JSON and reading them back gives the same blocks, whatever fresh ids are available |
| CourseTypes.TransformIdempotent | src/types/course.ts:35-40 | re-reading an already read block list gives the same list |
| EditorState.ContiguousIsRange | src/context/CourseContext/useCourseActions.ts:113-116 | when every order_index equals its position, the indices are exactly 0..n-1 with no duplicates |
| EditorState.ApplyDetailsUpdate | src/context/CourseContext/useCourseActions.ts:14-16 | the addressed course-details field takes the new value and every other field keeps its value |
| CourseActions.UpdateCourseDetails | src/context/CourseContext/useCourseActions.ts:14-16 | only the course details change, by one field; lessons, active lesson and blocks are kept |
| CourseActions.MaxOrderIndex | src/context/CourseContext/useCourseActions.ts:19 | the result is the largest order_index, or -1 when it is larger than all of them (in particular for an empty list) |
| CourseActions.HandleAddLesson | src/context/CourseContext/useCourseActions.ts:18-29 | exactly one lesson is appended and the old ones are unchanged; it has id "temp-" + stamp, title "Lesson n+1", one empty text block, and order_index one above the maximum (0 for an empty list); it becomes active and its blocks are shown |
| CourseActions.HandleAddLessonAsWritten | src/context/CourseContext/useCourseActions.ts:26-28 | as the file stands, the lesson list is extended as intended but the active lesson and the visible blocks stay unchanged, because line 27 throws |
| CourseActions.AddLessonAsWrittenLeavesNewLessonInactive | src/context/CourseContext/useCourseActions.ts:5-28 | with the code as written, the appended lesson is not the active one, whereas the intended handler makes it active |
| CourseActions.AddLessonKeepsContiguous | src/context/CourseContext/useCourseActions.ts:19-24 | adding a lesson to a list numbered 0..n-1 gives a list numbered 0..n |
| CourseActions.AddLessonWritesThrough | src/context/CourseContext/useCourseActions.ts:26-28 | after adding a lesson with an unused id, the active lesson holds exactly the visible blocks |
| CourseActions.AddLessonToEmpty | src/context/CourseContext/useCourseActions.ts:19-24 | a lesson added to an empty list gets order_index 0 |
| CourseActions.AddTwoLessons | src/context/CourseContext/useCourseActions.ts:19-26 | adding two lessons after "temp-1" numbered 0 gives order_index values 0, 1, 2 and three distinct ids, the new ones prefixed "temp-" |
| CourseActions.HandleAddContentBlock | src/context/CourseContext/useCourseActions.ts:31-49 | one block of the given type with empty content is appended to the visible blocks, and the same list is written into every lesson with the active id and no other |
| CourseActions.UpdateBlockContent | src/context/CourseContext/useCourseActions.ts:51-65 | only the content of blocks with the id changes; ids, types, order and length stay; the list is written into the active lesson only |
| CourseActions.UpdateUnknownBlockKeepsBlocks | src/context/CourseContext/useCourseActions.ts:53-55 | an id that no block carries leaves the blocks unchanged |
| CourseActions.DeleteBlock | src/context/CourseContext/useCourseActions.ts:67-97 | with no blocks it throws; with one block the result is that block's id as an empty text block, whatever id was given; with more, every block with the id is removed and every other block is kept as many times as it occurs, in its order; the result is written into the active lesson |
| CourseActions.DeleteBlockKeepsOneBlock | src/context/CourseContext/useCourseActions.ts:67-96 | with at least one block and distinct block ids, the block list is never empty after a delete |
| CourseActions.DeleteUnknownBlockKeepsBlocks | src/context/CourseContext/useCourseActions.ts:84-95 | with more than one block, deleting an id no block carries removes nothing |
| CourseActions.DeleteBlockSharedIdEmpties | src/context/CourseContext/useCourseActions.ts:67-87 | two blocks sharing the deleted id are both removed, leaving no block |
| CourseActions.DeleteBlockGuarded | src/context/CourseContext/useCourseActions.ts:67-97 | the deletion with the guard its line 69 comment describes: with no blocks it throws; otherwise at least one block always remains; when every block carries the id, the first is kept as an empty text block; otherwise exactly the blocks without the id remain, each as often as before, in order; the result is written into the active lesson |
| CourseActions.DeleteGuardedAgreesWhenBlocksSurvive | src/context/CourseContext/useCourseActions.ts:68-87 | with more than one block and some block not carrying the id, the corrected and the written deletion give the same result |
| CourseActions.UpdateLessonTitle | src/context/CourseContext/useCourseActions.ts:99-103 | only lessons with the active id get the new title; ids, content and order_index of all lessons, and the blocks, are kept |
| CourseActions.Renumber | src/context/CourseContext/useCourseActions.ts:113-116 | every order_index becomes the lesson's position, and nothing else about a lesson changes |
| CourseActions.ReorderLessons | src/context/CourseContext/useCourseActions.ts:105-119 | equal indices leave the state untouched (even a non-contiguous numbering); otherwise the length is kept, the lesson at source now sits at destination, the others keep their relative order, and the numbering is 0..n-1 |
| CourseActions.MoveCommutesWithUnnumbered | src/context/CourseContext/useCourseActions.ts:108-116 | ignoring order_index, the renumbered move is the plain splice move of the lessons |
| CourseActions.ReorderIsPermutation | src/context/CourseContext/useCourseActions.ts:108-110 | ignoring order_index, a reorder is a permutation of the lessons |
| CourseActions.ReorderBack | src/context/CourseContext/useCourseActions.ts:105-119 | moving a lesson and then moving it back gives the original lessons, renumbered |
| CourseActions.ContiguousDeterminedByUnnumbered | src/context/CourseContext/useCourseActions.ts:113-116 | after renumbering, a lesson list is fixed by the lessons' order and content alone: two renumbered lists that agree apart from order_index are equal |
| Sequences.Move | src/context/CourseContext/useCourseActions.ts:108-110 | the splice move keeps the length and the multiset of elements, puts the moved element at the destination, and leaves the rest in order |
| Sequences.MoveBack | src/context/CourseContext/useCourseActions.ts:108-110 | moving an element back to where it came from restores the list |
| Sequences.Filter | src/context/CourseContext/useCourseActions.ts:86 | the result holds exactly the elements that pass, is no longer than the input, is the whole input when all pass and empty when none do |
| Sequences.FilterMultiset | src/context/CourseContext/useCourseActions.ts:86 | each element occurs in the result exactly as often as in the input if it passes, and not at all otherwise |
| Sequences.FilterIsSubsequence | src/context/CourseContext/useCourseActions.ts:86 | filtering keeps the original order |
| Sequences.FindIndex | src/hooks/useLessonQuery.ts:84 | -1 exactly when no element matches, otherwise the first matching index |
| CourseLoader.NewCourseRoutes | src/context/CourseContext/useCourseLoader.ts:10 | a missing id, the empty id and "new" are not stored courses, and every other id string is |
| CourseLoader.IsExistingCourse | src/context/CourseContext/useCourseLoader.ts:10 | the route names a stored course exactly when the id is present, non-empty and not "new" (its meaning is stated by NewCourseRoutes and OnlyStoredCoursesLoad) |
| CourseLoader.OnlyStoredCoursesLoad | src/context/CourseContext/useCourseLoader.ts:37-41 | the editor state changes only when the route names a stored course and the fetch succeeds; on any other route no fetch result changes it |
| CourseLoader.ReloadChangesNothing | src/context/CourseContext/useCourseLoader.ts:37-72 | running the load again with the same answer leaves the loaded state as it is |
| CourseLoader.DefaultSession | src/context/CourseContext/useCourseLoader.ts:12-35 | one lesson "temp-1" numbered 0 with the text block "block-1", active, its blocks shown, empty details, unpublished |
| CourseLoader.LoadCourse | src/context/CourseContext/useCourseLoader.ts:37-72 | a new course or a failed fetch changes nothing; otherwise the title is kept, missing description, category and level become "", published is is_published; lessons keep id, title and order_index with converted content, the first becomes active and its blocks are shown; no lessons keeps the current lessons, active lesson and blocks |
| CourseLoader.LoadWritesThrough | src/context/CourseContext/useCourseLoader.ts:54-63 | a loaded course with distinct lesson ids shows exactly the active lesson's blocks |
| CourseLoader.SyncActiveBlocks | src/context/CourseContext/useCourseLoader.ts:79-85 | the blocks of the first lesson with the active id are shown; with no such lesson the state is unchanged; only the visible blocks can change |
| CourseLoader.SyncWritesThrough | src/context/CourseContext/useCourseLoader.ts:79-85 | with distinct lesson ids the effect leaves the active lesson and the visible blocks in agreement |
| CourseLoader.SyncIdempotent | src/context/CourseContext/useCourseLoader.ts:79-85 | running the effect twice is the same as running it once |
| LessonQuery.ItemsToBlocksAt | src/hooks/useLessonQuery.ts:31-46 | the element-by-element conversion puts item i's block at position i |
| LessonQuery.TransformsAgree | src/hooks/useLessonQuery.ts:26-51 | the query hook's conversion equals the editor's conversion on every input |
| LessonQuery.TransformToContentBlocks | src/hooks/useLessonQuery.ts:26-51 | anything but an array gives no blocks; an array gives one block per item, item i converted with the fresh id for position i |
| LessonQuery.ComputeNavigation | src/hooks/useLessonQuery.ts:83-95 | total is the list length; for the lesson found first at i, current is i+1 (so between 1 and total), prev is the lesson before it if any, next the one after it if any; when absent, current is 0, prev is null and next is the first lesson (null for an empty list) |
| LessonQuery.FetchLessonData | src/hooks/useLessonQuery.ts:60-97 | a missing lesson or course id fails before any read; a failed read fails with its error; otherwise the lesson comes back with its navigation |
| LessonQuery.LessonContentOf | src/hooks/useLessonQuery.ts:110-112 | no data or no content gives no blocks; otherwise the editor's conversion of the stored content |
| LessonQuery.NeighbourIds | src/hooks/useLessonQuery.ts:102-107 | without data the ids are kept; with data each id is the neighbour's id, or null when there is no neighbour or its id is empty |
| EnrollmentService.EnrollmentRow | src/services/course/enrollmentService.ts:8-12 | a new enrollment is inserted for the given course and student with an empty progress map |
| EnrollmentService.UpdateLessonProgress | src/services/course/enrollmentService.ts:28-64 | read and write errors are raised; otherwise the lesson's entry is {completed, completed_at: now if completed else null}, a null map counts as empty, and every other entry is unchanged |
| EnrollmentService.CompleteTwice | src/services/course/enrollmentService.ts:43-44 | completing a lesson twice leaves it completed and only refreshes its timestamp |
| EnrollmentService.GetStudentEnrollment | src/services/course/enrollmentService.ts:66-85 | a row is returned; the "no rows" code PGRST116 gives null; any other error is raised again |
| LessonProgress.CheckEnrollment | src/hooks/useLessonProgress.ts:15-39 | missing ids, no enrollment or a failed lookup change nothing; a found enrollment sets the enrollment id, and the flag becomes the lesson entry's completed only if that entry exists |
| LessonProgress.MarkComplete | src/hooks/useLessonProgress.ts:42-61 | without an enrollment id or lesson id it fails and sends nothing; otherwise it sends completed = true; success sets the flag, failure keeps the state |
| LessonProgress.MarkCompleteNeverClears | src/hooks/useLessonProgress.ts:44-48 | marking complete never clears the completed flag and never changes the enrollment id |
| LessonProgress.MarkCompleteRecordsProgress | src/hooks/useLessonProgress.ts:44-45 | the request a successful mark-complete sends makes the service record the lesson as completed at the given time |
| LessonProgress.FreshEnrollmentShowsIncomplete | src/hooks/useLessonProgress.ts:12-31 | from the initial state, an enrollment without an entry for the lesson shows the lesson as not completed |
| LessonProgress.Initial | src/hooks/useLessonProgress.ts:12-13 | the player starts not completed and without an enrollment, so marking complete sends nothing until the enrollment check has run |
| LessonProgress.NewEnrollmentShowsEveryLessonIncomplete | src/services/course/enrollmentService.ts:8-12 | an enrollment just inserted and read back sets the enrollment id and leaves every lesson's flag as it was, so from the initial state every lesson shows as not completed |
| LessonProgress.FailedLookupKeepsPlayer | src/services/course/enrollmentService.ts:66-85 | a lookup that fails with "no rows" or any other error leaves the player state exactly as it was |
| LessonService.CreateLessonPayload | src/services/course/lessonService.ts:9-16 | the insert carries the given course id, title and order index; content is null when the draft has none and the JSON of the blocks otherwise |
| LessonService.CreatedContentReadsBack | src/services/course/lessonService.ts:14 | reading the inserted content back gives the draft's blocks, or none |
| LessonService.UpdateLessonPayload | src/services/course/lessonService.ts:32-38 | the title is sent exactly when it is non-empty; the order index whenever given, 0 included; the content whenever given, an empty list included; no other field |
| LessonService.EmptyTitleNotSent | src/services/course/lessonService.ts:36 | an empty title gives the same update as no title |
| CourseCreation.CreateCoursePayload | src/services/course/courseCreationService.ts:12-20 | title, description, category and level are copied, the instructor is the argument, is_published is the flag, and status is "published" exactly when published, "draft" otherwise |
| CourseCreation.FeaturedImageNotSent | src/services/course/courseCreationService.ts:12-20 | the featured image does not affect the insert |
| CourseCreation.PublishStatusUpdate | src/services/course/courseCreationService.ts:41-44 | is_published is the argument and status agrees with it |
| CourseCreation.CreateAndPublishAgree | src/services/course/courseCreationService.ts:18-19 | creation and the publish update give the same status for the same flag |
| Catalogue.FilterCourses | src/pages/Courses.tsx:84-88 | a course is listed exactly when the lowercased query occurs in its lowercased title, description or category |
| Catalogue.FilterKeepsOrder | src/pages/Courses.tsx:84 | the result is a subsequence of the catalogue, in catalogue order |
| Catalogue.EmptyQueryKeepsAll | src/pages/Courses.tsx:84-88 | an empty query lists every course |
| Catalogue.CaseInsensitive | src/pages/Courses.tsx:85-87 | queries that differ only in letter case list the same courses |
| Catalogue.LongerQueryNarrows | src/pages/Courses.tsx:85-87 | if a query contains another, every course it lists is listed for the other |
| Text.LowerKeepsContains | src/pages/Courses.tsx:85-87 | lowering both strings keeps an occurrence |
| Text.ContainsTransitive | src/pages/Courses.tsx:85-87 | a substring of a substring is a substring |
| LegacyCourseContext.UpdateCourseDetails | src/context/CourseContext.tsx:61-63 | exactly one details field is replaced; nothing else changes |
| LegacyCourseContext.HandleAddLesson | src/context/CourseContext.tsx:65-74 | appends "Lesson n+1" with an empty body and 1-based order n+1, makes it active, and leaves the blocks alone |
| LegacyCourseContext.AddLessonKeepsOneBasedOrder | src/context/CourseContext.tsx:65-72 | lessons numbered 1..n stay numbered 1..n+1 after an addition |
| LegacyCourseContext.HandleAddContentBlock | src/context/CourseContext.tsx:76-84 | appends an empty block of the given type with order n+1; the lessons are not touched |
| LegacyCourseContext.AddBlockKeepsOneBasedOrder | src/context/CourseContext.tsx:76-82 | blocks numbered 1..n in list order are numbered 1..n+1 after an addition |
| LegacyCourseContext.UpdateBlockContent | src/context/CourseContext.tsx:86-92 | only blocks with the id get the new content; the lessons are not touched |
| LegacyCourseContext.UpdateBlockKeepsLayout | src/context/CourseContext.tsx:86-92 | editing content keeps every block's id, type and order, so a numbering 1..n stays 1..n |
| LegacyCourseContext.DeleteBlock | src/context/CourseContext.tsx:94-96 | every block with the id is removed, every other block is kept as many times as it occurs and in order, and there is no last-block guard |
| LegacyCourseContext.DeleteLastBlockEmpties | src/context/CourseContext.tsx:94-96 | deleting the only block leaves no block |
| LegacyCourseContext.DeleteBlockLeavesGap | src/context/CourseContext.tsx:94-96 | deleting does not renumber: removing the middle of blocks numbered 1, 2, 3 leaves the blocks numbered 1 and 3 |
| LegacyCourseContext.UpdateLessonTitle | src/context/CourseContext.tsx:98-102 | only lessons with the active id are renamed |
| LegacyCourseContext.UpdateTitleKeepsLessonOrder | src/context/CourseContext.tsx:98-102 | renaming keeps every lesson's id, body and order, so a numbering 1..n stays 1..n |

## Findings

| source | as written | input that shows it | evidently intended | confidence | as-written member | corrected member |
|---|---|---|---|---|---|---|
| src/context/CourseContext/useCourseActions.ts:27 | `handleAddLesson` calls `setActiveLesson`, which is not a parameter of the hook (lines 5-13) and is not bound in the file. The call throws a ReferenceError after line 26 has queued the new lesson list, and line 28 never runs. | any call, e.g. from the default session with stamp "5": "temp-5" is appended but "temp-1" stays active and its blocks stay shown (lemma CourseActions.AddLessonAsWrittenLeavesNewLessonInactive) | the new lesson becomes active and its single empty block is shown | not executed; high that the name is unbound, medium on how React applies the queued update after the throw | CourseActions.HandleAddLessonAsWritten | CourseActions.HandleAddLesson |
| src/context/CourseContext/useCourseActions.ts:68 | `deleteBlock` guards against removing the last block by testing `contentBlocks.length <= 1`, that is, by counting blocks rather than the blocks that would survive. With two or more blocks that all carry the deleted id, the filter at line 86 removes them all. | blocks [b "x", b "y"] (both with id "b"), delete "b": the editor and the active lesson are left with no block (lemma CourseActions.DeleteBlockSharedIdEmpties) | as the comment at line 69 says, the last block is never deleted: when nothing would survive, one block is kept and cleared | not executed; medium, since duplicate block ids need two blocks created within the same millisecond or stored content that repeats an id | CourseActions.DeleteBlock | CourseActions.DeleteBlockGuarded |

The rest of the model uses the corrected `CourseActions.HandleAddLesson`. `CourseActions.DeleteBlockGuarded` is the corrected deletion; `CourseActions.DeleteGuardedAgreesWhenBlocksSurvive` shows it matches the written one whenever some block survives a multi-block delete.

## Left out

- Backend I/O, react-query caching, toasts, navigation and console logging. Each read is an input; each write is the payload it builds. When a write succeeds, the backend's returned row is not modelled.
- React scheduling (batching, stale closures, effect timing). Each handler is one transition over the render-time snapshot.
- Fresh ids and timestamps are parameters, and collisions between them are not modelled. Their exact format (`Date.now()` digits, the base-36 random suffix) is not modelled either.
- JavaScript numbers are integers here. Floating point, NaN and -0 are not modelled.
- `JSON.stringify` escapes quotes, backslashes and control characters. Lone surrogates are not escaped. Object fields are printed in the order they are held, repeated keys included. JavaScript itself prints integer-like keys first and each key once; neither rule is modelled, because every object the model builds has three distinct, non-numeric keys. The backend's jsonb key reordering is not modelled either. A read of a repeated key returns the last value.
- `toLowerCase` lowers ASCII letters only.
- CourseActions.ReorderLessons: requires both indices to be in range. Out of range, the source's `splice` would insert `undefined` into the list, and that case is not modelled.
- CourseActions.UpdateCourseDetails: `value` is untyped in the source. The model only allows a value of the field's own type.
- CourseActions.HandleAddLesson: one `stamp` supplies both the lesson id and its block id. The source calls `Date.now()` twice (lines 21 and 23), and the two calls can return different milliseconds; the model takes the case where they agree.
- EnrollmentService.UpdateLessonProgress: a stored `progress_json` is either null (an empty map) or a map of entries. The source's `|| {}` also turns `false`, `0` and `""` into an empty map. With a string in that column, the assignment at line 44 throws in strict mode; with an array, the entry is set as an array property that the write at lines 47-49 does not store as a key. Neither case is modelled.
- LessonService.CreateLessonPayload, LessonService.UpdateLessonPayload, LessonService.CreatedContentReadsBack and CourseCreation.CreateCoursePayload: the services import `convertLessonContentToJson` and `CourseDetails` from `src/services/course/types.ts`. That file is not part of this model. The model takes it to match `src/types/course.ts` (`CourseTypes`), even though the older store's initial details (`context/CourseContext.tsx:42-48`) have no `published` field.
- CourseLoader.LoadCourse: one `newId` supplies the fresh ids for every lesson's malformed items.
- The lesson progress bar (current/total × 100) is floating point, and it divides by zero for a course without lessons.
- Saving a course (`CourseSaveButton.tsx`, which only calls `createCourse`), the enroll flow, the player's redirect, `getCoursesByInstructor` lesson counting and `getLessonsByCourseId` are orchestration over backend calls.
- The earlier editor page `CourseEditor.tsx` repeats the older store's handlers line for line; `LegacyCourseContext` covers those handlers.
