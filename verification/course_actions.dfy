/** The handlers of the course-authoring store (`useCourseActions`), each
    read as a function from the state at render time to the next state.
    `stamp` stands for the `Date.now()` value the source puts into new ids. */
module CourseActions {
  import opened Wrappers
  import opened Text
  import opened Sequences
  import opened CourseTypes
  import opened EditorState

  /** A handler that throws instead of producing a new state. */
  datatype ActionError = TypeError(message: string)

  /** `updateCourseDetails(field, value)`: only the course details change. */
  function UpdateCourseDetails(s: Session, u: DetailsUpdate): (r: Session)
    ensures r.lessons == s.lessons
    ensures r.activeLesson == s.activeLesson
    ensures r.contentBlocks == s.contentBlocks
    ensures r.details == ApplyDetailsUpdate(s.details, u)
  {
    s.(details := ApplyDetailsUpdate(s.details, u))
  }

  /** `Math.max(...lessons.map(l => l.order_index), -1)`. */
  function MaxOrderIndex(lessons: seq<Lesson>): (m: int)
    ensures m >= -1
    ensures forall i :: 0 <= i < |lessons| ==> lessons[i].orderIndex <= m
    ensures m == -1 || exists i :: 0 <= i < |lessons| && lessons[i].orderIndex == m
    decreases |lessons|
  {
    if |lessons| == 0 then -1
    else
      var m := MaxOrderIndex(lessons[..|lessons| - 1]);
      var last := lessons[|lessons| - 1].orderIndex;
      assert forall i :: 0 <= i < |lessons| - 1 ==> lessons[..|lessons| - 1][i] == lessons[i];
      if last > m then last else m
  }

  /** The lesson `handleAddLesson` creates for the current list. */
  function NewLesson(lessons: seq<Lesson>, stamp: string): Lesson {
    Lesson("temp-" + stamp,
           "Lesson " + NatToString(|lessons| + 1),
           [Block("block-" + stamp, "text", "")],
           MaxOrderIndex(lessons) + 1)
  }

  /** `handleAddLesson`, as its lines 26-28 intend: appends a new lesson
      after every existing one, makes it the active lesson and shows its
      single empty text block. */
  function HandleAddLesson(s: Session, stamp: string): (r: Session)
    ensures |r.lessons| == |s.lessons| + 1
    ensures r.lessons[..|s.lessons|] == s.lessons
    ensures var added := r.lessons[|s.lessons|];
      && added.id == "temp-" + stamp
      && added.title == "Lesson " + NatToString(|s.lessons| + 1)
      && added.content == [Block("block-" + stamp, "text", "")]
      && added.orderIndex >= 0
      && (forall i :: 0 <= i < |s.lessons| ==> s.lessons[i].orderIndex < added.orderIndex)
      && (added.orderIndex == 0 || exists i :: 0 <= i < |s.lessons| && s.lessons[i].orderIndex == added.orderIndex - 1)
    ensures r.activeLesson == "temp-" + stamp
    ensures r.contentBlocks == [Block("block-" + stamp, "text", "")]
    ensures r.details == s.details
  {
    var added := NewLesson(s.lessons, stamp);
    var r := Session(s.details, s.lessons + [added], added.id, added.content);
    assert r.lessons[..|s.lessons|] == s.lessons;
    r
  }

  /** `handleAddLesson` as the file is written: `setActiveLesson` is not a
      parameter of the hook, so line 27 throws a ReferenceError after
      line 26 has queued the new lesson list; the active lesson and the
      visible blocks stay as they were. */
  function HandleAddLessonAsWritten(s: Session, stamp: string): (r: Session)
    ensures r.lessons == HandleAddLesson(s, stamp).lessons
    ensures r.activeLesson == s.activeLesson
    ensures r.contentBlocks == s.contentBlocks
    ensures r.details == s.details
  {
    s.(lessons := s.lessons + [NewLesson(s.lessons, stamp)])
  }

  /** The new lesson that the as-written handler appends is not the one
      being edited afterwards (whenever its id is new). */
  lemma AddLessonAsWrittenLeavesNewLessonInactive(s: Session, stamp: string)
    requires s.activeLesson != "temp-" + stamp
    ensures var r := HandleAddLessonAsWritten(s, stamp);
      r.lessons[|s.lessons|].id != r.activeLesson
      && HandleAddLesson(s, stamp).activeLesson == r.lessons[|s.lessons|].id
  {
  }

  /** Adding a lesson to a contiguously numbered list keeps it contiguous. */
  lemma AddLessonKeepsContiguous(s: Session, stamp: string)
    requires OrderContiguous(s.lessons)
    ensures OrderContiguous(HandleAddLesson(s, stamp).lessons)
  {
  }

  /** After adding a lesson whose id is not yet used, the session is
      written through: the new active lesson holds the visible blocks. */
  lemma AddLessonWritesThrough(s: Session, stamp: string)
    requires forall i :: 0 <= i < |s.lessons| ==> s.lessons[i].id != "temp-" + stamp
    ensures WrittenThrough(HandleAddLesson(s, stamp))
  {
  }

  /** Adding a lesson to an empty list numbers it 0. */
  lemma AddLessonToEmpty(s: Session, stamp: string)
    requires s.lessons == []
    ensures HandleAddLesson(s, stamp).lessons[0].orderIndex == 0
  {
  }

  /** Two additions after the single lesson "temp-1" (numbered 0) give
      lessons numbered 0, 1, 2 with three distinct ids, the two new ones
      carrying the "temp-" prefix. */
  lemma AddTwoLessons(s: Session, stamp1: string, stamp2: string)
    requires |s.lessons| == 1 && s.lessons[0].id == "temp-1" && s.lessons[0].orderIndex == 0
    requires stamp1 != "1" && stamp2 != "1" && stamp1 != stamp2
    ensures var r := HandleAddLesson(HandleAddLesson(s, stamp1), stamp2);
      && |r.lessons| == 3
      && r.lessons[0].orderIndex == 0 && r.lessons[1].orderIndex == 1 && r.lessons[2].orderIndex == 2
      && DistinctIds(r.lessons)
      && r.lessons[1].id == "temp-" + stamp1 && r.lessons[2].id == "temp-" + stamp2
  {
    var once := HandleAddLesson(s, stamp1);
    AddLessonKeepsContiguous(s, stamp1);
    AddLessonKeepsContiguous(once, stamp2);
    var r := HandleAddLesson(once, stamp2);
    assert r.lessons[0] == r.lessons[..2][0] == once.lessons[0] == once.lessons[..1][0];
    assert r.lessons[1] == r.lessons[..2][1] == once.lessons[1];
    TempIdsDiffer("1", stamp1);
    TempIdsDiffer("1", stamp2);
    TempIdsDiffer(stamp1, stamp2);
  }

  /** Distinct stamps give distinct temporary ids. */
  lemma TempIdsDiffer(a: string, b: string)
    requires a != b
    ensures "temp-" + a != "temp-" + b
  {
    assert ("temp-" + a)[5..] == a;
    assert ("temp-" + b)[5..] == b;
  }

  /** `handleAddContentBlock(type)`: one block of the given type with empty
      content is appended to the visible blocks, and the same list is
      written into the active lesson. */
  function HandleAddContentBlock(s: Session, blockType: string, stamp: string): (r: Session)
    ensures |r.contentBlocks| == |s.contentBlocks| + 1
    ensures r.contentBlocks[..|s.contentBlocks|] == s.contentBlocks
    ensures r.contentBlocks[|s.contentBlocks|] == Block("block-" + stamp, blockType, "")
    ensures r.lessons == WriteToActive(s.lessons, s.activeLesson, r.contentBlocks)
    ensures WrittenThrough(r)
    ensures r.activeLesson == s.activeLesson && r.details == s.details
  {
    var blocks := s.contentBlocks + [Block("block-" + stamp, blockType, "")];
    assert blocks[..|s.contentBlocks|] == s.contentBlocks;
    s.(contentBlocks := blocks, lessons := WriteToActive(s.lessons, s.activeLesson, blocks))
  }

  function SetContentWhere(blocks: seq<Block>, id: string, content: string): seq<Block> {
    seq(|blocks|, i requires 0 <= i < |blocks| =>
      if blocks[i].id == id then blocks[i].(content := content) else blocks[i])
  }

  /** `updateBlockContent(id, content)`: every block with that id gets the
      new content; ids, types, order and length stay; the result is
      written into the active lesson. */
  function UpdateBlockContent(s: Session, id: string, content: string): (r: Session)
    ensures |r.contentBlocks| == |s.contentBlocks|
    ensures forall i :: 0 <= i < |s.contentBlocks| ==>
      && r.contentBlocks[i].id == s.contentBlocks[i].id
      && r.contentBlocks[i].blockType == s.contentBlocks[i].blockType
      && r.contentBlocks[i].content == (if s.contentBlocks[i].id == id then content else s.contentBlocks[i].content)
    ensures r.lessons == WriteToActive(s.lessons, s.activeLesson, r.contentBlocks)
    ensures WrittenThrough(r)
    ensures r.activeLesson == s.activeLesson && r.details == s.details
  {
    var blocks := SetContentWhere(s.contentBlocks, id, content);
    s.(contentBlocks := blocks, lessons := WriteToActive(s.lessons, s.activeLesson, blocks))
  }

  /** Updating a block id that does not occur changes no block. */
  lemma UpdateUnknownBlockKeepsBlocks(s: Session, id: string, content: string)
    requires forall i :: 0 <= i < |s.contentBlocks| ==> s.contentBlocks[i].id != id
    ensures UpdateBlockContent(s, id, content).contentBlocks == s.contentBlocks
  {
  }

  /** `deleteBlock(id)`. With one block left, that block is kept with its id
      and cleared to an empty text block, whatever id was asked for. With
      more, every block carrying the id is removed and every other block is
      kept, as often as it occurs and in its order. With none, reading `contentBlocks[0].id` throws. The new list
      is written into the active lesson. */
  function DeleteBlock(s: Session, id: string): (r: Result<Session, ActionError>)
    ensures r.Err? <==> |s.contentBlocks| == 0
    ensures r.Ok? ==> r.value.lessons == WriteToActive(s.lessons, s.activeLesson, r.value.contentBlocks)
    ensures r.Ok? ==> WrittenThrough(r.value)
    ensures r.Ok? ==> r.value.activeLesson == s.activeLesson && r.value.details == s.details
    ensures |s.contentBlocks| == 1 ==>
      r.Ok? && r.value.contentBlocks == [Block(s.contentBlocks[0].id, "text", "")]
    ensures |s.contentBlocks| > 1 ==> (
      && r.Ok?
      && (forall i :: 0 <= i < |r.value.contentBlocks| ==>
            r.value.contentBlocks[i].id != id && r.value.contentBlocks[i] in s.contentBlocks)
      && (forall i :: 0 <= i < |s.contentBlocks| && s.contentBlocks[i].id != id ==>
            s.contentBlocks[i] in r.value.contentBlocks)
      && IsSubsequence(r.value.contentBlocks, s.contentBlocks)
      && (forall b :: multiset(r.value.contentBlocks)[b] ==
            if b.id != id then multiset(s.contentBlocks)[b] else 0))
  {
    if |s.contentBlocks| == 0 then
      Err(TypeError("Cannot read properties of undefined (reading 'id')"))
    else
      var blocks :=
        if |s.contentBlocks| <= 1 then [Block(s.contentBlocks[0].id, "text", "")]
        else Filter(s.contentBlocks, (b: Block) => b.id != id);
      FilterIsSubsequence(s.contentBlocks, (b: Block) => b.id != id);
      FilterMultiset(s.contentBlocks, (b: Block) => b.id != id);
      Ok(s.(contentBlocks := blocks, lessons := WriteToActive(s.lessons, s.activeLesson, blocks)))
  }

  /** Deleting never leaves the editor without a block as long as some
      other block survives; in particular when block ids are distinct. */
  lemma DeleteBlockKeepsOneBlock(s: Session, id: string)
    requires |s.contentBlocks| >= 1
    requires forall i, j :: 0 <= i < j < |s.contentBlocks| ==> s.contentBlocks[i].id != s.contentBlocks[j].id
    ensures DeleteBlock(s, id).Ok? && |DeleteBlock(s, id).value.contentBlocks| >= 1
  {
  }

  /** Deleting an id no block carries removes nothing (more than one block). */
  lemma DeleteUnknownBlockKeepsBlocks(s: Session, id: string)
    requires |s.contentBlocks| > 1
    requires forall i :: 0 <= i < |s.contentBlocks| ==> s.contentBlocks[i].id != id
    ensures DeleteBlock(s, id) == Ok(s.(lessons := WriteToActive(s.lessons, s.activeLesson, s.contentBlocks)))
  {
  }

  /** The length guard counts blocks, not distinct ids: two blocks sharing
      the deleted id are both removed and the editor is left empty. */
  lemma DeleteBlockSharedIdEmpties(s: Session)
    requires s.contentBlocks == [Block("b", "text", "x"), Block("b", "text", "y")]
    ensures DeleteBlock(s, "b").Ok? && DeleteBlock(s, "b").value.contentBlocks == []
  {
  }

  /** `deleteBlock` as its comment at line 69 intends: the guard looks at
      what the delete would leave rather than at how many blocks there are.
      When no block would survive, the first block is kept with its id and
      cleared; otherwise exactly the blocks without the id remain. */
  function DeleteBlockGuarded(s: Session, id: string): (r: Result<Session, ActionError>)
    ensures r.Err? <==> |s.contentBlocks| == 0
    ensures r.Ok? ==> |r.value.contentBlocks| >= 1
    ensures r.Ok? ==> r.value.lessons == WriteToActive(s.lessons, s.activeLesson, r.value.contentBlocks)
    ensures r.Ok? ==> WrittenThrough(r.value)
    ensures r.Ok? ==> r.value.activeLesson == s.activeLesson && r.value.details == s.details
    ensures r.Ok? && (forall i :: 0 <= i < |s.contentBlocks| ==> s.contentBlocks[i].id == id) ==>
      r.value.contentBlocks == [Block(s.contentBlocks[0].id, "text", "")]
    ensures r.Ok? && (exists i :: 0 <= i < |s.contentBlocks| && s.contentBlocks[i].id != id) ==>
      && IsSubsequence(r.value.contentBlocks, s.contentBlocks)
      && (forall b :: multiset(r.value.contentBlocks)[b] ==
            if b.id != id then multiset(s.contentBlocks)[b] else 0)
  {
    if |s.contentBlocks| == 0 then
      Err(TypeError("Cannot read properties of undefined (reading 'id')"))
    else
      var kept := Filter(s.contentBlocks, (b: Block) => b.id != id);
      FilterIsSubsequence(s.contentBlocks, (b: Block) => b.id != id);
      FilterMultiset(s.contentBlocks, (b: Block) => b.id != id);
      var blocks := if |kept| == 0 then [Block(s.contentBlocks[0].id, "text", "")] else kept;
      Ok(s.(contentBlocks := blocks, lessons := WriteToActive(s.lessons, s.activeLesson, blocks)))
  }

  /** Wherever the written guard does remove blocks and leaves one, the
      corrected guard does the same: the two differ only when every block
      carries the id, or when a single block does not. */
  lemma DeleteGuardedAgreesWhenBlocksSurvive(s: Session, id: string)
    requires |s.contentBlocks| > 1
    requires exists i :: 0 <= i < |s.contentBlocks| && s.contentBlocks[i].id != id
    ensures DeleteBlockGuarded(s, id) == DeleteBlock(s, id)
  {
  }

  /** `updateLessonTitle(title)`: the lessons whose id is the active one get
      the new title; nothing else changes. */
  function UpdateLessonTitle(s: Session, title: string): (r: Session)
    ensures |r.lessons| == |s.lessons|
    ensures forall i :: 0 <= i < |s.lessons| ==>
      && r.lessons[i].id == s.lessons[i].id
      && r.lessons[i].content == s.lessons[i].content
      && r.lessons[i].orderIndex == s.lessons[i].orderIndex
      && r.lessons[i].title == (if s.lessons[i].id == s.activeLesson then title else s.lessons[i].title)
    ensures r.activeLesson == s.activeLesson && r.contentBlocks == s.contentBlocks && r.details == s.details
  {
    s.(lessons := seq(|s.lessons|, i requires 0 <= i < |s.lessons| =>
      if s.lessons[i].id == s.activeLesson then s.lessons[i].(title := title) else s.lessons[i]))
  }

  /** `order_index` set to each lesson's position. */
  function Renumber(lessons: seq<Lesson>): (r: seq<Lesson>)
    ensures |r| == |lessons|
    ensures OrderContiguous(r)
    ensures forall i :: 0 <= i < |r| ==> r[i] == lessons[i].(orderIndex := i)
  {
    seq(|lessons|, i requires 0 <= i < |lessons| => lessons[i].(orderIndex := i))
  }

  /** A lesson list with `order_index` blanked, to compare lists up to
      numbering. */
  function Unnumbered(lessons: seq<Lesson>): (r: seq<Lesson>)
    ensures |r| == |lessons|
  {
    seq(|lessons|, i requires 0 <= i < |lessons| => lessons[i].(orderIndex := 0))
  }

  /** `reorderLessons(source, destination)`. Equal indices return at once and
      leave every lesson, including its `order_index`, untouched. Otherwise
      the lesson at `source` is moved to `destination`, the others keep
      their relative order, and every `order_index` becomes the lesson's
      new position. */
  function ReorderLessons(s: Session, source: nat, destination: nat): (r: Session)
    requires source < |s.lessons| && destination < |s.lessons|
    ensures source == destination ==> r == s
    ensures |r.lessons| == |s.lessons|
    ensures source != destination ==> OrderContiguous(r.lessons)
    ensures source != destination ==>
      && Unnumbered(r.lessons)[destination] == Unnumbered(s.lessons)[source]
      && RemoveAt(Unnumbered(r.lessons), destination) == RemoveAt(Unnumbered(s.lessons), source)
    ensures r.activeLesson == s.activeLesson && r.contentBlocks == s.contentBlocks && r.details == s.details
  {
    if source == destination then s
    else
      var moved := Move(s.lessons, source, destination);
      MoveCommutesWithUnnumbered(s.lessons, source, destination);
      s.(lessons := Renumber(moved))
  }

  lemma MoveCommutesWithUnnumbered(lessons: seq<Lesson>, source: nat, destination: nat)
    requires source < |lessons| && destination < |lessons|
    ensures Unnumbered(Renumber(Move(lessons, source, destination)))
         == Move(Unnumbered(lessons), source, destination)
  {
  }

  /** Up to numbering, a reorder is a permutation of the lessons. */
  lemma ReorderIsPermutation(s: Session, source: nat, destination: nat)
    requires source < |s.lessons| && destination < |s.lessons|
    ensures multiset(Unnumbered(ReorderLessons(s, source, destination).lessons)) == multiset(Unnumbered(s.lessons))
  {
    if source != destination {
      MoveCommutesWithUnnumbered(s.lessons, source, destination);
    }
  }

  /** Two contiguously numbered lists that agree up to numbering are equal. */
  lemma ContiguousDeterminedByUnnumbered(a: seq<Lesson>, b: seq<Lesson>)
    requires OrderContiguous(a) && OrderContiguous(b)
    requires Unnumbered(a) == Unnumbered(b)
    ensures a == b
  {
    forall i | 0 <= i < |a|
      ensures a[i] == b[i]
    {
      assert Unnumbered(a)[i] == Unnumbered(b)[i];
    }
  }

  /** Moving a lesson back where it came from restores the list, renumbered. */
  lemma ReorderBack(s: Session, source: nat, destination: nat)
    requires source < |s.lessons| && destination < |s.lessons| && source != destination
    ensures ReorderLessons(ReorderLessons(s, source, destination), destination, source).lessons
         == Renumber(s.lessons)
  {
    var once := ReorderLessons(s, source, destination).lessons;
    var twice := ReorderLessons(ReorderLessons(s, source, destination), destination, source).lessons;
    var u := Unnumbered(s.lessons);
    MoveCommutesWithUnnumbered(s.lessons, source, destination);
    MoveCommutesWithUnnumbered(once, destination, source);
    assert Unnumbered(twice) == Move(Move(u, source, destination), destination, source);
    MoveBack(u, source, destination);
    assert Unnumbered(Renumber(s.lessons)) == u;
    ContiguousDeterminedByUnnumbered(twice, Renumber(s.lessons));
  }
}
