/** The earlier course-editing store (`context/CourseContext.tsx`). Lessons
    carry a 1-based `order` and a plain-text body; blocks carry their own
    `order`. Block edits change only the visible block list: nothing is
    written back into a lesson, and deleting a block has no last-block
    guard. */
module LegacyCourseContext {
  import opened Text
  import opened Sequences
  import opened CourseTypes
  import opened EditorState

  datatype LegacyLesson = LegacyLesson(id: string, title: string, content: string, order: int)

  datatype LegacyBlock = LegacyBlock(id: string, blockType: string, content: string, order: int)

  datatype LegacySession = LegacySession(
    details: CourseDetails,
    lessons: seq<LegacyLesson>,
    activeLesson: string,
    contentBlocks: seq<LegacyBlock>)

  /** `updateCourseDetails`: the same one-field update as the current store. */
  function UpdateCourseDetails(s: LegacySession, u: DetailsUpdate): (r: LegacySession)
    ensures r.details == ApplyDetailsUpdate(s.details, u)
    ensures r.lessons == s.lessons && r.activeLesson == s.activeLesson && r.contentBlocks == s.contentBlocks
  {
    s.(details := ApplyDetailsUpdate(s.details, u))
  }

  /** `handleAddLesson`: appends "Lesson n+1" with an empty body and 1-based
      order n+1, and makes it active; the visible blocks are not touched. */
  function HandleAddLesson(s: LegacySession, stamp: string): (r: LegacySession)
    ensures |r.lessons| == |s.lessons| + 1
    ensures r.lessons[..|s.lessons|] == s.lessons
    ensures r.lessons[|s.lessons|] ==
      LegacyLesson("lesson-" + stamp, "Lesson " + NatToString(|s.lessons| + 1), "", |s.lessons| + 1)
    ensures r.activeLesson == r.lessons[|s.lessons|].id
    ensures r.contentBlocks == s.contentBlocks && r.details == s.details
  {
    var added := LegacyLesson("lesson-" + stamp, "Lesson " + NatToString(|s.lessons| + 1), "", |s.lessons| + 1);
    var lessons := s.lessons + [added];
    assert lessons[..|s.lessons|] == s.lessons;
    s.(lessons := lessons, activeLesson := added.id)
  }

  /** Lessons numbered 1..n in list order stay so after adding one. */
  lemma AddLessonKeepsOneBasedOrder(s: LegacySession, stamp: string)
    requires forall i :: 0 <= i < |s.lessons| ==> s.lessons[i].order == i + 1
    ensures var r := HandleAddLesson(s, stamp);
            forall i :: 0 <= i < |r.lessons| ==> r.lessons[i].order == i + 1
  {
  }

  /** `handleAddContentBlock`: appends an empty block of the given type with
      order n+1; the lessons are not touched. */
  function HandleAddContentBlock(s: LegacySession, blockType: string, stamp: string): (r: LegacySession)
    ensures |r.contentBlocks| == |s.contentBlocks| + 1
    ensures r.contentBlocks[..|s.contentBlocks|] == s.contentBlocks
    ensures r.contentBlocks[|s.contentBlocks|] ==
      LegacyBlock("block-" + stamp, blockType, "", |s.contentBlocks| + 1)
    ensures r.lessons == s.lessons && r.activeLesson == s.activeLesson && r.details == s.details
  {
    var blocks := s.contentBlocks + [LegacyBlock("block-" + stamp, blockType, "", |s.contentBlocks| + 1)];
    assert blocks[..|s.contentBlocks|] == s.contentBlocks;
    s.(contentBlocks := blocks)
  }

  /** Blocks numbered 1..n in list order are numbered 1..n+1 after an add. */
  lemma AddBlockKeepsOneBasedOrder(s: LegacySession, blockType: string, stamp: string)
    requires forall i :: 0 <= i < |s.contentBlocks| ==> s.contentBlocks[i].order == i + 1
    ensures var r := HandleAddContentBlock(s, blockType, stamp);
            forall i :: 0 <= i < |r.contentBlocks| ==> r.contentBlocks[i].order == i + 1
  {
  }

  /** `updateBlockContent`: blocks with the id get the new content, all else
      is kept, and the lessons are not touched. */
  function UpdateBlockContent(s: LegacySession, id: string, content: string): (r: LegacySession)
    ensures |r.contentBlocks| == |s.contentBlocks|
    ensures forall i :: 0 <= i < |s.contentBlocks| ==>
      r.contentBlocks[i] ==
        (if s.contentBlocks[i].id == id then s.contentBlocks[i].(content := content) else s.contentBlocks[i])
    ensures r.lessons == s.lessons && r.activeLesson == s.activeLesson && r.details == s.details
  {
    s.(contentBlocks := seq(|s.contentBlocks|, i requires 0 <= i < |s.contentBlocks| =>
      if s.contentBlocks[i].id == id then s.contentBlocks[i].(content := content) else s.contentBlocks[i]))
  }

  /** Editing content never renumbers, retypes or renames a block, so a
      numbering 1..n stays 1..n. */
  lemma UpdateBlockKeepsLayout(s: LegacySession, id: string, content: string)
    ensures var r := UpdateBlockContent(s, id, content);
            forall i :: 0 <= i < |s.contentBlocks| ==>
              && r.contentBlocks[i].id == s.contentBlocks[i].id
              && r.contentBlocks[i].blockType == s.contentBlocks[i].blockType
              && r.contentBlocks[i].order == s.contentBlocks[i].order
    ensures (forall i :: 0 <= i < |s.contentBlocks| ==> s.contentBlocks[i].order == i + 1) ==>
      var r := UpdateBlockContent(s, id, content);
      forall i :: 0 <= i < |r.contentBlocks| ==> r.contentBlocks[i].order == i + 1
  {
  }

  /** `deleteBlock`: every block with the id is removed; every other block
      is kept, as often as it occurs and in its order. */
  function DeleteBlock(s: LegacySession, id: string): (r: LegacySession)
    ensures forall i :: 0 <= i < |r.contentBlocks| ==>
      r.contentBlocks[i].id != id && r.contentBlocks[i] in s.contentBlocks
    ensures forall i :: 0 <= i < |s.contentBlocks| && s.contentBlocks[i].id != id ==>
      s.contentBlocks[i] in r.contentBlocks
    ensures IsSubsequence(r.contentBlocks, s.contentBlocks)
    ensures forall b :: multiset(r.contentBlocks)[b] == if b.id != id then multiset(s.contentBlocks)[b] else 0
    ensures r.lessons == s.lessons && r.activeLesson == s.activeLesson && r.details == s.details
  {
    FilterIsSubsequence(s.contentBlocks, (b: LegacyBlock) => b.id != id);
    FilterMultiset(s.contentBlocks, (b: LegacyBlock) => b.id != id);
    s.(contentBlocks := Filter(s.contentBlocks, (b: LegacyBlock) => b.id != id))
  }

  /** Without a guard, deleting the only block leaves the editor empty. */
  lemma DeleteLastBlockEmpties(s: LegacySession)
    requires |s.contentBlocks| == 1
    ensures DeleteBlock(s, s.contentBlocks[0].id).contentBlocks == []
  {
  }

  /** Deleting does not renumber: removing the middle of three blocks
      numbered 1, 2, 3 leaves two blocks, numbered 1 and 3. */
  lemma DeleteBlockLeavesGap(s: LegacySession)
    requires s.contentBlocks == [LegacyBlock("a", "text", "", 1), LegacyBlock("b", "text", "", 2),
                                 LegacyBlock("c", "text", "", 3)]
    ensures multiset(DeleteBlock(s, "b").contentBlocks)
         == multiset{LegacyBlock("a", "text", "", 1), LegacyBlock("c", "text", "", 3)}
  {
    var r := DeleteBlock(s, "b").contentBlocks;
    var expected := multiset{LegacyBlock("a", "text", "", 1), LegacyBlock("c", "text", "", 3)};
    forall x | true
      ensures multiset(r)[x] == expected[x]
    {
      assert multiset(r)[x] == if x.id != "b" then multiset(s.contentBlocks)[x] else 0;
    }
  }

  /** `updateLessonTitle`: only lessons with the active id are renamed. */
  function UpdateLessonTitle(s: LegacySession, title: string): (r: LegacySession)
    ensures |r.lessons| == |s.lessons|
    ensures forall i :: 0 <= i < |s.lessons| ==>
      r.lessons[i] == (if s.lessons[i].id == s.activeLesson then s.lessons[i].(title := title) else s.lessons[i])
    ensures r.contentBlocks == s.contentBlocks && r.activeLesson == s.activeLesson && r.details == s.details
  {
    s.(lessons := seq(|s.lessons|, i requires 0 <= i < |s.lessons| =>
      if s.lessons[i].id == s.activeLesson then s.lessons[i].(title := title) else s.lessons[i]))
  }

  /** Renaming keeps every lesson's id, body and 1-based order, so a
      numbering 1..n stays 1..n. */
  lemma UpdateTitleKeepsLessonOrder(s: LegacySession, title: string)
    ensures var r := UpdateLessonTitle(s, title);
            forall i :: 0 <= i < |s.lessons| ==>
              && r.lessons[i].id == s.lessons[i].id
              && r.lessons[i].content == s.lessons[i].content
              && r.lessons[i].order == s.lessons[i].order
    ensures (forall i :: 0 <= i < |s.lessons| ==> s.lessons[i].order == i + 1) ==>
      var r := UpdateLessonTitle(s, title);
      forall i :: 0 <= i < |r.lessons| ==> r.lessons[i].order == i + 1
  {
  }
}
