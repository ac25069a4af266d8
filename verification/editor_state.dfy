/** The state of one course-authoring session, as held by the editor's
    React state hooks: course details, the lesson list, the id of the
    lesson being edited, and the blocks shown in the lesson editor. */
module EditorState {
  import opened Wrappers
  import opened CourseTypes

  datatype Session = Session(
    details: CourseDetails,
    lessons: seq<Lesson>,
    activeLesson: string,
    contentBlocks: seq<Block>)

  /** Write-through: every lesson addressed by the active id holds exactly
      the blocks shown in the editor. */
  predicate WrittenThrough(s: Session) {
    forall i :: 0 <= i < |s.lessons| && s.lessons[i].id == s.activeLesson ==>
      s.lessons[i].content == s.contentBlocks
  }

  /** Every lesson's `order_index` equals its position. */
  predicate OrderContiguous(lessons: seq<Lesson>) {
    forall i :: 0 <= i < |lessons| ==> lessons[i].orderIndex == i
  }

  predicate DistinctIds(lessons: seq<Lesson>) {
    forall i, j :: 0 <= i < j < |lessons| ==> lessons[i].id != lessons[j].id
  }

  function OrderIndices(lessons: seq<Lesson>): set<int> {
    set i | 0 <= i < |lessons| :: lessons[i].orderIndex
  }

  /** Contiguous numbering uses exactly the values 0..n-1, each once. */
  lemma ContiguousIsRange(lessons: seq<Lesson>)
    requires OrderContiguous(lessons)
    ensures forall k :: 0 <= k < |lessons| ==> k in OrderIndices(lessons)
    ensures forall v :: v in OrderIndices(lessons) ==> 0 <= v < |lessons|
    ensures forall i, j :: 0 <= i < j < |lessons| ==> lessons[i].orderIndex != lessons[j].orderIndex
  {
    var idx := OrderIndices(lessons);
    forall k | 0 <= k < |lessons|
      ensures k in idx
    {
      assert lessons[k].orderIndex == k;
    }
  }

  /** `lessons.map(l => l.id === active ? {...l, content: blocks} : l)`. */
  function WriteToActive(lessons: seq<Lesson>, active: string, blocks: seq<Block>): (r: seq<Lesson>)
    ensures |r| == |lessons|
    ensures forall i :: 0 <= i < |r| ==>
      r[i] == if lessons[i].id == active then lessons[i].(content := blocks) else lessons[i]
  {
    seq(|lessons|, i requires 0 <= i < |lessons| =>
      if lessons[i].id == active then lessons[i].(content := blocks) else lessons[i])
  }

  /** The typed form of `updateCourseDetails(field, value)`: one field and
      its new value. */
  datatype DetailsUpdate =
    | SetTitle(title: string)
    | SetDescription(description: Option<string>)
    | SetCategory(category: string)
    | SetLevel(level: string)
    | SetFeaturedImage(featuredImage: Option<string>)
    | SetPublished(published: bool)

  /** `{...prev, [field]: value}`: the addressed field takes the new value,
      every other field keeps its old one. */
  function ApplyDetailsUpdate(d: CourseDetails, u: DetailsUpdate): (r: CourseDetails)
    ensures r.title == (if u.SetTitle? then u.title else d.title)
    ensures r.description == (if u.SetDescription? then u.description else d.description)
    ensures r.category == (if u.SetCategory? then u.category else d.category)
    ensures r.level == (if u.SetLevel? then u.level else d.level)
    ensures r.featuredImage == (if u.SetFeaturedImage? then u.featuredImage else d.featuredImage)
    ensures r.published == (if u.SetPublished? then u.published else d.published)
  {
    match u
    case SetTitle(t) => d.(title := t)
    case SetDescription(t) => d.(description := t)
    case SetCategory(t) => d.(category := t)
    case SetLevel(t) => d.(level := t)
    case SetFeaturedImage(t) => d.(featuredImage := t)
    case SetPublished(p) => d.(published := p)
  }
}
