/**
 * The domain values the view models and repositories exchange: categories,
 * checklist items, tasks, priorities and the one-shot UI events.
 */
module Domain {
  import opened Wrappers

  /** The task priority enum; its constants are its on-disk names. */
  datatype Priority = Baixa | Media | Alta

  /** The enum constant's `name`. */
  function PriorityName(p: Priority): (name: string)
    ensures name != []
  {
    match p
    case Baixa => "BAIXA"
    case Media => "MÉDIA"
    case Alta => "ALTA"
  }

  /** `Priority.valueOf`: the constant with that exact name, if any. */
  function PriorityValueOf(name: string): (r: Option<Priority>)
    ensures r.Some? ==> PriorityName(r.value) == name
    ensures r.None? <==> (forall p: Priority :: PriorityName(p) != name)
  {
    if name == "BAIXA" then Some(Baixa)
    else if name == "MÉDIA" then Some(Media)
    else if name == "ALTA" then Some(Alta)
    else None
  }

  /** Every priority survives being stored by name and parsed back. */
  lemma PriorityRoundTrip(p: Priority)
    ensures PriorityValueOf(PriorityName(p)) == Some(p)
  {
    match p
    case Baixa =>
    case Media =>
      assert PriorityName(p) != "BAIXA";
    case Alta =>
      assert PriorityName(p) != "BAIXA" && PriorityName(p) != "MÉDIA";
  }

  datatype Category = Category(id: int, name: string, emoji: string)

  datatype ChecklistItem = ChecklistItem(text: string, isChecked: bool)

  datatype Todo = Todo(
    id: int,
    title: string,
    description: Option<string>,
    isCompleted: bool,
    priority: Priority,
    category: Category,
    checklist: seq<ChecklistItem>)

  /** The navigation target of the add/edit screen; no id means "new task". */
  datatype AddEditRoute = AddEditRoute(id: Option<int>)

  /** What a view model sends on its one-shot event channel. */
  datatype UiEvent = ShowSnackbar(message: string) | PopBack | Navigate(route: AddEditRoute)
}
