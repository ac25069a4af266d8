/** The student lesson query (`useLessonQuery`): the hook's own copy of the
    content conversion, the previous/next/position computation over the
    course's lessons sorted by `order_index`, and the derived block list.
    Both backend reads are inputs. */
module LessonQuery {
  import opened Wrappers
  import opened Json
  import opened Sequences
  import opened CourseTypes

  /** `content.map(...)` over the items from position `start` on. */
  function ItemsToBlocks(items: seq<Json>, newId: nat -> string, start: nat): (r: seq<Block>)
    ensures |r| == |items|
    decreases |items|
  {
    if |items| == 0 then []
    else [ItemToBlock(items[0], newId(start))] + ItemsToBlocks(items[1..], newId, start + 1)
  }

  /** The hook's private `transformToContentBlocks`. */

  lemma {:induction false} ItemsToBlocksAt(items: seq<Json>, newId: nat -> string, start: nat)
    ensures forall i :: 0 <= i < |items| ==>
      ItemsToBlocks(items, newId, start)[i] == ItemToBlock(items[i], newId(start + i))
    decreases |items|
  {
    if |items| > 0 {
      ItemsToBlocksAt(items[1..], newId, start + 1);
      var r := ItemsToBlocks(items, newId, start);
      forall i | 1 <= i < |items|
        ensures r[i] == ItemToBlock(items[i], newId(start + i))
      {
        assert r[i] == ItemsToBlocks(items[1..], newId, start + 1)[i - 1];
      }
    }
  }

  /** The hook's private `transformToContentBlocks`: anything but an array
      gives no blocks; an array gives one block per item, item i converted
      with the fresh id for position i. */
  function TransformToContentBlocks(content: Json, newId: nat -> string): (r: seq<Block>)
    ensures !content.JArray? ==> r == []
    ensures content.JArray? ==> |r| == |content.items|
    ensures content.JArray? ==>
      forall i :: 0 <= i < |content.items| ==> r[i] == ItemToBlock(content.items[i], newId(i))
  {
    if !Truthy(content) then []
    else if content.JArray? then
      ItemsToBlocksAt(content.items, newId, 0);
      ItemsToBlocks(content.items, newId, 0)
    else []
  }

  /** The two copies of the content conversion agree on every input. */
  lemma TransformsAgree(content: Json, newId: nat -> string)
    ensures TransformToContentBlocks(content, newId) == TransformToLessonContent(content, newId)
  {
  }

  datatype NavLesson = NavLesson(id: string, title: string, orderIndex: int)

  datatype Navigation = Navigation(prev: Option<NavLesson>, next: Option<NavLesson>, total: nat, current: int)

  /** Position of the lesson among its course's lessons: `current` counts
      from 1, and is 0 when the lesson is not in the list, in which case
      there is no previous lesson and the "next" one is the first. */
  function ComputeNavigation(all: seq<NavLesson>, lessonId: string): (nav: Navigation)
    ensures nav.total == |all|
    ensures forall i :: (0 <= i < |all| && all[i].id == lessonId
                         && forall j :: 0 <= j < i ==> all[j].id != lessonId) ==>
      && nav.current == i + 1
      && 1 <= nav.current <= nav.total
      && nav.prev == (if i > 0 then Some(all[i - 1]) else None)
      && nav.next == (if i < |all| - 1 then Some(all[i + 1]) else None)
    ensures (forall i :: 0 <= i < |all| ==> all[i].id != lessonId) ==>
      && nav.current == 0
      && nav.prev == None
      && nav.next == (if |all| > 0 then Some(all[0]) else None)
  {
    var k := FindIndex(all, (l: NavLesson) => l.id == lessonId);
    Navigation(if k > 0 then Some(all[k - 1]) else None,
               if k < |all| - 1 then Some(all[k + 1]) else None,
               |all|,
               k + 1)
  }

  /** The lesson row as read with `select('*')`, restricted to what the
      player uses. */
  datatype LessonRow = LessonRow(id: string, title: string, content: Json, orderIndex: int)

  datatype LessonData = LessonData(lesson: LessonRow, navigation: Navigation)

  datatype QueryError = MissingIds | Backend(message: string)

  /** `!value` for an optional route parameter. */
  predicate Missing(v: Option<string>) {
    v.None? || v.value == ""
  }

  /** The query function. A missing lesson or course id fails before any
      read; a failed read fails with its error; otherwise the lesson comes
      back with its navigation. */
  function FetchLessonData(lessonId: Option<string>, courseId: Option<string>,
                           lessonRead: Result<LessonRow, string>,
                           listRead: Result<seq<NavLesson>, string>): (r: Result<LessonData, QueryError>)
    ensures Missing(lessonId) || Missing(courseId) ==> r == Err(MissingIds)
    ensures !Missing(lessonId) && !Missing(courseId) ==>
      && (lessonRead.Err? ==> r == Err(Backend(lessonRead.error)))
      && (lessonRead.Ok? && listRead.Err? ==> r == Err(Backend(listRead.error)))
      && (lessonRead.Ok? && listRead.Ok? ==>
            r.Ok? && r.value.lesson == lessonRead.value
            && r.value.navigation == ComputeNavigation(listRead.value, lessonId.value))
  {
    if Missing(lessonId) || Missing(courseId) then Err(MissingIds)
    else if lessonRead.Err? then Err(Backend(lessonRead.error))
    else if listRead.Err? then Err(Backend(listRead.error))
    else Ok(LessonData(lessonRead.value, ComputeNavigation(listRead.value, lessonId.value)))
  }

  /** `lessonContent`: no blocks without data or without content, otherwise
      the conversion of the stored content (the same as the editor's). */
  function LessonContentOf(data: Option<LessonData>, newId: nat -> string): (r: seq<Block>)
    ensures data.None? || !Truthy(data.value.lesson.content) ==> r == []
    ensures data.Some? ==> r == TransformToLessonContent(data.value.lesson.content, newId)
  {
    if data.Some? && Truthy(data.value.lesson.content) then
      TransformsAgree(data.value.lesson.content, newId);
      TransformToContentBlocks(data.value.lesson.content, newId)
    else []
  }

  /** The effect that publishes the neighbour ids as `(next, prev)`. It
      only runs once data is there, and `next?.id || null` turns an empty id
      into no neighbour. */
  function NeighbourIds(shown: (Option<string>, Option<string>), data: Option<LessonData>)
    : (r: (Option<string>, Option<string>))
    ensures data.None? ==> r == shown
    ensures data.Some? ==>
      var nav := data.value.navigation;
      && (r.0.Some? <==> nav.next.Some? && nav.next.value.id != "")
      && (r.0.Some? ==> r.0.value == nav.next.value.id)
      && (r.1.Some? <==> nav.prev.Some? && nav.prev.value.id != "")
      && (r.1.Some? ==> r.1.value == nav.prev.value.id)
  {
    if data.None? then shown
    else
      var nav := data.value.navigation;
      (if nav.next.Some? && nav.next.value.id != "" then Some(nav.next.value.id) else None,
       if nav.prev.Some? && nav.prev.value.id != "" then Some(nav.prev.value.id) else None)
  }
}
