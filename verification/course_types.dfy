/** The records of the course editor (`CourseDetails`, `LessonContent`,
    `Lesson`) and the two conversions between lesson content and the JSON
    stored in the backend's `lessons.content` column. */
module CourseTypes {
  import opened Wrappers
  import opened Json

  /** One content unit of a lesson (`LessonContent`). `blockType` is the
      source's `type` field: "text", "image", "video" or "link" by
      convention, but any string is accepted. */
  datatype Block = Block(id: string, blockType: string, content: string)

  /** A lesson; ids starting with "temp-" have not been persisted yet. */
  datatype Lesson = Lesson(id: string, title: string, content: seq<Block>, orderIndex: int)

  datatype CourseDetails = CourseDetails(
    title: string,
    description: Option<string>,
    category: string,
    level: string,
    featuredImage: Option<string>,
    published: bool)

  /** An array item that is an object with `id`, `type` and `content` keys. */
  predicate IsBlockObject(item: Json) {
    item.JObject?
    && HasKey(item.fields, "id")
    && HasKey(item.fields, "type")
    && HasKey(item.fields, "content")
  }

  /** The conversion of one stored array item; `freshId` is the id the
      source builds from the clock and a random suffix. */
  function ItemToBlock(item: Json, freshId: string): Block {
    if IsBlockObject(item) then
      Block(ToJsString(Get(item.fields, "id").value),
            ToJsString(Get(item.fields, "type").value),
            ToJsString(Get(item.fields, "content").value))
    else
      Block(freshId, "text", if item.JString? then item.s else Stringify(item))
  }

  /** Reads stored lesson content. Anything that is not an array gives no
      blocks; an array gives one block per item, in order, and an item of
      the wrong shape becomes a text block carrying the item's text or its
      JSON rendering, so that no stored value can make the conversion fail.
      `newId(i)` is the id a malformed item at position `i` receives. */
  function TransformToLessonContent(content: Json, newId: nat -> string): (r: seq<Block>)
    ensures !Truthy(content) ==> r == []
    ensures !content.JArray? ==> r == []
    ensures content.JArray? ==> |r| == |content.items|
    ensures content.JArray? ==> forall i :: 0 <= i < |r| && IsBlockObject(content.items[i]) ==>
      r[i] == Block(ToJsString(Get(content.items[i].fields, "id").value),
                    ToJsString(Get(content.items[i].fields, "type").value),
                    ToJsString(Get(content.items[i].fields, "content").value))
    ensures content.JArray? ==> forall i :: 0 <= i < |r| && !IsBlockObject(content.items[i]) ==>
      var item := content.items[i];
      && r[i].id == newId(i)
      && r[i].blockType == "text"
      && r[i].content == (if item.JString? then item.s else Stringify(item))
  {
    if !Truthy(content) then []
    else if content.JArray? then
      var items := content.items;
      var r := seq(|items|, i requires 0 <= i < |items| => ItemToBlock(items[i], newId(i)));
      assert forall i :: 0 <= i < |r| ==> r[i] == ItemToBlock(items[i], newId(i));
      r
    else []
  }

  function BlockToJson(b: Block): (r: Json)
    ensures r.JObject?
    ensures Get(r.fields, "id") == Some(JString(b.id))
    ensures Get(r.fields, "type") == Some(JString(b.blockType))
    ensures Get(r.fields, "content") == Some(JString(b.content))
  {
    var fields := [("id", JString(b.id)), ("type", JString(b.blockType)), ("content", JString(b.content))];
    assert fields[..2] == [("id", JString(b.id)), ("type", JString(b.blockType))];
    assert fields[..2][..1] == [("id", JString(b.id))];
    assert Get(fields, "id") == Get(fields[..2], "id") == Get(fields[..1], "id");
    assert Get(fields, "type") == Get(fields[..2], "type");
    JObject(fields)
  }

  function FieldNames(fields: seq<(string, Json)>): seq<string> {
    seq(|fields|, i requires 0 <= i < |fields| => fields[i].0)
  }

  /** Writes lesson content as a JSON array with one object per block, in
      order, each holding exactly the fields `id`, `type` and `content`. */
  function ConvertLessonContentToJson(blocks: seq<Block>): (r: Json)
    ensures r.JArray? && |r.items| == |blocks|
    ensures forall i :: 0 <= i < |blocks| ==>
      && r.items[i].JObject?
      && FieldNames(r.items[i].fields) == ["id", "type", "content"]
      && Get(r.items[i].fields, "id") == Some(JString(blocks[i].id))
      && Get(r.items[i].fields, "type") == Some(JString(blocks[i].blockType))
      && Get(r.items[i].fields, "content") == Some(JString(blocks[i].content))
  {
    JArray(seq(|blocks|, i requires 0 <= i < |blocks| => BlockToJson(blocks[i])))
  }

  /** Reading back what was written gives the same blocks, whatever ids
      would have been generated. */
  lemma RoundTrip(blocks: seq<Block>, newId: nat -> string)
    ensures TransformToLessonContent(ConvertLessonContentToJson(blocks), newId) == blocks
  {
  }

  /** Converting an already converted block list again changes nothing. */
  lemma TransformIdempotent(content: Json, newId: nat -> string, newId': nat -> string)
    ensures var blocks := TransformToLessonContent(content, newId);
            TransformToLessonContent(ConvertLessonContentToJson(blocks), newId') == blocks
  {
  }
}
