/**
 * The stored row shapes: the `todos` row, the `categories` row, the joined
 * pair a task query yields, and the checklist text codec.
 */
module Entities {
  import opened Wrappers
  import opened Domain

  /**
   * A `todos` row. The primary key is auto-generated: 0, the default, asks
   * the store for a fresh id. `description` and `checklistJson` may be absent.
   */
  datatype TodoEntity = TodoEntity(
    id: int := 0,
    title: string,
    description: Option<string>,
    isCompleted: bool,
    priority: string,
    categoryId: int,
    checklistJson: Option<string>)

  /** A `categories` row, keyed by an auto-generated `id` like a task row. */
  datatype CategoryEntity = CategoryEntity(id: int, name: string, emoji: string)

  /** One result of the task/category join: a task row and the category row whose id is its `categoryId`. */
  datatype TodoWithCategory = TodoWithCategory(todo: TodoEntity, category: CategoryEntity)

  /** A task row built without an explicit id gets the default id 0. */
  function NewTodoEntity(title: string, description: Option<string>, isCompleted: bool,
                         priority: string, categoryId: int, checklistJson: Option<string>): (e: TodoEntity)
    ensures e.id == 0
    ensures e.title == title && e.description == description && e.isCompleted == isCompleted
    ensures e.priority == priority && e.categoryId == categoryId && e.checklistJson == checklistJson
  {
    TodoEntity(title := title, description := description, isCompleted := isCompleted,
               priority := priority, categoryId := categoryId, checklistJson := checklistJson)
  }

  /**
   * The JSON text codec for checklists, left abstract: `decode` yields None
   * where the JSON library yields null.
   */
  datatype ChecklistCodec = ChecklistCodec(
    encode: seq<ChecklistItem> -> string,
    decode: string -> Option<seq<ChecklistItem>>)

  /** The codec is exact: decoding an encoded checklist gives it back, order and flags included. */
  ghost predicate RoundTrips(codec: ChecklistCodec) {
    forall items: seq<ChecklistItem> {:trigger codec.encode(items)} ::
      codec.decode(codec.encode(items)) == Some(items)
  }

  /** The checklist a row stores: an absent column, or text that decodes to null, reads as the empty list. */
  function ReadChecklist(codec: ChecklistCodec, json: Option<string>): (items: seq<ChecklistItem>)
    ensures json.None? ==> items == []
    ensures json.Some? && codec.decode(json.value).Some? ==> items == codec.decode(json.value).value
    ensures json.Some? && codec.decode(json.value).None? ==> items == []
  {
    match json
    case None => []
    case Some(text) => codec.decode(text).GetOr([])
  }

  /** Under an exact codec, a written checklist reads back unchanged. */
  lemma ChecklistRoundTrip(codec: ChecklistCodec, items: seq<ChecklistItem>)
    requires RoundTrips(codec)
    ensures ReadChecklist(codec, Some(codec.encode(items))) == items
  {
  }
}
